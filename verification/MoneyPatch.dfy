/** The recorded edits rebuild the head from the base, and a matched signature pins the head. */
module MoneyPatch {
  import opened Prelude
  import opened Json
  import opened MoneyPaths
  import opened MoneyDiff

  // ---- applying edits at raw paths, all at once

  datatype Change = PutNew(value: Value) | Replace(value: Value) | Drop

  type Changes = map<Path, Change>

  predicate IsNew(E: Changes, p: Path) {
    p in E && E[p].PutNew?
  }

  predicate IsDropped(E: Changes, p: Path) {
    p in E && E[p].Drop?
  }

  function NewNames(E: Changes, at: Path): set<string> {
    set p: Path | p in E && |p| == |at| + 1 && at <= p && p[|at|].Key? && E[p].PutNew? :: p[|at|].name
  }

  /** Base with the changes applied: a replaced node takes its value, an object drops and gains keys, an array
      drops elements and gains them at its end. */
  function Patch(t: Value, at: Path, E: Changes): Value
    decreases t
  {
    if at in E && E[at].Replace? then E[at].value
    else if t.Obj? then
      Obj(map k | k in t.fields.Keys + NewNames(E, at) && !IsDropped(E, at + [Key(k)]) ::
        PatchField(t, at, E, k))
    else if t.Arr? then Arr(PatchItems(t, at, E, |t.items|) + NewItems(E, at, |t.items|, |t.items| + |E|))
    else t
  }

  function PatchField(t: Value, at: Path, E: Changes, k: string): Value
    requires t.Obj?
    decreases t, 0
  {
    if IsNew(E, at + [Key(k)]) then E[at + [Key(k)]].value
    else if k in t.fields then Patch(t.fields[k], at + [Key(k)], E)
    else Null
  }

  /** The first n elements that are not dropped, patched. */
  function PatchItems(t: Value, at: Path, E: Changes, n: nat): seq<Value>
    requires t.Arr? && n <= |t.items|
    decreases t, n
  {
    if n == 0 then []
    else
      PatchItems(t, at, E, n - 1)
      + (if IsDropped(E, at + [Index(n - 1)]) then [] else [Patch(t.items[n - 1], at + [Index(n - 1)], E)])
  }

  function NewItems(E: Changes, at: Path, n: nat, limit: nat): seq<Value>
    decreases limit - n
  {
    if n < limit && IsNew(E, at + [Index(n)]) then [E[at + [Index(n)]].value] + NewItems(E, at, n + 1, limit) else []
  }

  /** A tree without the object keys at the given paths. */
  function Erase(t: Value, at: Path, A: set<Path>): Value {
    match t
    case Obj(f) => Obj(map k | k in f && at + [Key(k)] !in A :: Erase(f[k], at + [Key(k)], A))
    case Arr(xs) => Arr(seq(|xs|, i requires 0 <= i < |xs| => Erase(xs[i], at + [Index(i)], A)))
    case _ => t
  }

  function ChangeOf(e: Edit): Change {
    match e.cls
    case Removed => Drop
    case Changed => Replace(e.value)
    case _ => PutNew(e.value)
  }

  // ---- what the changes must say about a walk

  /** Below a node, `E` holds exactly the edits of the walk that are not in `A`, and `A` holds only allowed ones. */
  predicate Matches(ctx: Context, a: Value, b: Value, n: Node, E: Changes, A: set<Path>) {
    && (forall e :: e in Walk(ctx, a, b, n) && e.raw !in A ==> e.raw in E && E[e.raw] == ChangeOf(e))
    && (forall p :: p in E && n.raw <= p ==> p !in A && exists e :: e in Walk(ctx, a, b, n) && e.raw == p)
    && (forall p :: p in A && n.raw <= p ==> exists e :: e in Walk(ctx, a, b, n) && e.raw == p && e.cls.Allowed?)
  }

  lemma MatchesKey(ctx: Context, a: Value, b: Value, from: Node, E: Changes, A: set<Path>, k: string)
    requires a.Obj? && b.Obj? && k in a.fields && k in b.fields && Matches(ctx, a, b, from, E, A)
    ensures var c := KeyNode(ctx, Enter(ctx, from), a.fields.Keys + b.fields.Keys, k);
      Matches(ctx, a.fields[k], b.fields[k], c, E, A)
  {
    hide Walk, Label, Child, ChangeOf;
    var c := KeyNode(ctx, Enter(ctx, from), a.fields.Keys + b.fields.Keys, k);
    forall e ensures e in Walk(ctx, a.fields[k], b.fields[k], c) <==> e in Walk(ctx, a, b, from) && c.raw <= e.raw {
      KeyOwns(ctx, a, b, from, k, e);
    }
    assert from.raw <= c.raw;
    forall p | p in E && c.raw <= p
      ensures p !in A && exists e :: e in Walk(ctx, a.fields[k], b.fields[k], c) && e.raw == p {
      assert from.raw <= p;
      var e :| e in Walk(ctx, a, b, from) && e.raw == p;
      assert e in Walk(ctx, a.fields[k], b.fields[k], c);
    }
    forall p | p in A && c.raw <= p
      ensures exists e :: e in Walk(ctx, a.fields[k], b.fields[k], c) && e.raw == p && e.cls.Allowed?
    {
      assert from.raw <= p;
      var e :| e in Walk(ctx, a, b, from) && e.raw == p && e.cls.Allowed?;
      assert e in Walk(ctx, a.fields[k], b.fields[k], c);
    }
  }

  lemma MatchesIndex(ctx: Context, a: Value, b: Value, from: Node, E: Changes, A: set<Path>, i: nat)
    requires a.Arr? && b.Arr? && i < |a.items| && i < |b.items| && Matches(ctx, a, b, from, E, A)
    ensures Matches(ctx, a.items[i], b.items[i], IndexNode(Enter(ctx, from), i), E, A)
  {
    hide Walk, Child, ChangeOf;
    var c := IndexNode(Enter(ctx, from), i);
    forall e ensures e in Walk(ctx, a.items[i], b.items[i], c) <==> e in Walk(ctx, a, b, from) && c.raw <= e.raw {
      IndexOwns(ctx, a, b, from, i, e);
    }
    assert from.raw <= c.raw;
    forall p | p in E && c.raw <= p
      ensures p !in A && exists e :: e in Walk(ctx, a.items[i], b.items[i], c) && e.raw == p {
      assert from.raw <= p;
      var e :| e in Walk(ctx, a, b, from) && e.raw == p;
      assert e in Walk(ctx, a.items[i], b.items[i], c);
    }
    forall p | p in A && c.raw <= p
      ensures exists e :: e in Walk(ctx, a.items[i], b.items[i], c) && e.raw == p && e.cls.Allowed?
    {
      assert from.raw <= p;
      var e :| e in Walk(ctx, a, b, from) && e.raw == p && e.cls.Allowed?;
      assert e in Walk(ctx, a.items[i], b.items[i], c);
    }
  }

  // ---- what happens at one key

  /** The change recorded at a path is the change of its edit. */
  lemma ChangeAt(ctx: Context, a: Value, b: Value, from: Node, E: Changes, A: set<Path>, p: Path) returns (e: Edit)
    requires Matches(ctx, a, b, from, E, A) && p in E && from.raw <= p
    ensures e in Walk(ctx, a, b, from) && e.raw == p && p !in A && E[p] == ChangeOf(e)
  {
    hide Walk, ChangeOf;
    e :| e in Walk(ctx, a, b, from) && e.raw == p;
  }

  lemma KeyPath(raw: Path, k: string, j: string)
    ensures raw <= raw + [Key(k)]
    ensures raw + [Key(k)] == raw + [Key(j)] <==> k == j
  {
    assert (raw + [Key(k)])[|raw|] == Key(k) && (raw + [Key(j)])[|raw|] == Key(j);
  }

  /** Edits exactly one key below an object, by which side has the key. */
  lemma EditAtKey(ctx: Context, a: Value, b: Value, from: Node, k: string, e: Edit)
    requires a.Obj? && b.Obj? && e in Walk(ctx, a, b, from) && e.raw == from.raw + [Key(k)]
    ensures k in a.fields && k in b.fields ==> e.cls.Changed?
    ensures k in a.fields && k !in b.fields ==> e == RemovedKey(ctx, a, b, Enter(ctx, from), k)
    ensures k !in a.fields && k in b.fields ==> e == AddedKey(ctx, a, b, Enter(ctx, from), k)
    ensures k in a.fields || k in b.fields
  {
    hide Walk, Label, IsAllowed, Child;
    ObjectMember(ctx, a, b, from, e);
    var n := Enter(ctx, from);
    if j :| j in a.fields && j in b.fields && InKey(ctx, a, b, n, j, e) {
      var c := KeyNode(ctx, n, a.fields.Keys + b.fields.Keys, j);
      EditsBelow(ctx, a.fields[j], b.fields[j], c, e);
      assert c.raw == e.raw;
      KeyPath(from.raw, k, j);
    } else if j :| j in b.fields && j !in a.fields && e == AddedKey(ctx, a, b, n, j) {
      KeyPath(from.raw, k, j);
    } else {
      var j :| j in a.fields && j !in b.fields && e == RemovedKey(ctx, a, b, n, j);
      KeyPath(from.raw, k, j);
    }
  }

  lemma AddedIsEdit(ctx: Context, a: Value, b: Value, from: Node, k: string)
    requires a.Obj? && b.Obj? && k in b.fields && k !in a.fields
    ensures AddedKey(ctx, a, b, Enter(ctx, from), k) in Walk(ctx, a, b, from)
  {
    hide Walk, AddedKey, RemovedKey, InKey;
    ObjectMember(ctx, a, b, from, AddedKey(ctx, a, b, Enter(ctx, from), k));
  }

  lemma RemovedIsEdit(ctx: Context, a: Value, b: Value, from: Node, k: string)
    requires a.Obj? && b.Obj? && k in a.fields && k !in b.fields
    ensures RemovedKey(ctx, a, b, Enter(ctx, from), k) in Walk(ctx, a, b, from)
  {
    hide Walk, AddedKey, RemovedKey, InKey;
    ObjectMember(ctx, a, b, from, RemovedKey(ctx, a, b, Enter(ctx, from), k));
  }

  /** What the changes hold one key below an object. */
  lemma ChangesAtKey(ctx: Context, a: Value, b: Value, from: Node, E: Changes, A: set<Path>, k: string)
    requires a.Obj? && b.Obj? && Matches(ctx, a, b, from, E, A)
    ensures var p := from.raw + [Key(k)];
      && (k in a.fields && k in b.fields ==> p !in A && !IsNew(E, p) && !IsDropped(E, p))
      && (k in a.fields && k !in b.fields ==> p !in A && IsDropped(E, p))
      && (k !in a.fields && k in b.fields && p !in A ==> IsNew(E, p) && E[p].value == b.fields[k])
      && (k !in a.fields && (k !in b.fields || p in A) ==> p !in E)
  {
    hide Walk, Label, IsAllowed, Child;
    var p := from.raw + [Key(k)];
    KeyPath(from.raw, k, k);
    if p in A {
      var e :| e in Walk(ctx, a, b, from) && e.raw == p && e.cls.Allowed?;
      EditAtKey(ctx, a, b, from, k, e);
    }
    if p in E {
      var e := ChangeAt(ctx, a, b, from, E, A, p);
      EditAtKey(ctx, a, b, from, k, e);
    }
    if k in a.fields && k !in b.fields { RemovedIsEdit(ctx, a, b, from, k); }
    if k in b.fields && k !in a.fields { AddedIsEdit(ctx, a, b, from, k); }
  }

  lemma NewNamesAre(E: Changes, at: Path, k: string)
    ensures k in NewNames(E, at) <==> IsNew(E, at + [Key(k)])
  {
    var p := at + [Key(k)];
    assert at <= p && p[|at|] == Key(k);
    if k in NewNames(E, at) {
      var q: Path :| q in E && |q| == |at| + 1 && at <= q && q[|at|].Key? && E[q].PutNew? && q[|at|].name == k;
      assert q == p;
    }
  }

  // ---- no changes below a value that was taken whole

  lemma {:induction false} EraseNothing(t: Value, at: Path, A: set<Path>)
    requires forall p :: p in A && at <= p ==> p == at
    ensures Erase(t, at, A) == t
    decreases t
  {
    match t
    case Obj(f) =>
      forall k | k in f ensures at + [Key(k)] !in A && Erase(f[k], at + [Key(k)], A) == f[k] {
        ErasePrefix(at, Key(k), A);
        EraseNothing(f[k], at + [Key(k)], A);
      }
      assert Erase(t, at, A).fields == f;
    case Arr(xs) =>
      forall i | 0 <= i < |xs| ensures Erase(xs[i], at + [Index(i)], A) == xs[i] {
        ErasePrefix(at, Index(i), A);
        EraseNothing(xs[i], at + [Index(i)], A);
      }
      assert Erase(t, at, A).items == xs;
    case _ =>
  }

  lemma ErasePrefix(at: Path, s: Seg, A: set<Path>)
    requires forall p :: p in A && at <= p ==> p == at
    ensures forall p :: p in A ==> !(at + [s] <= p)
  {
    forall p | p in A ensures !(at + [s] <= p) {
      assert at + [s] <= p ==> at <= p && |p| > |at|;
    }
  }

  /** Nothing of A lies at or below an edit that takes a whole value and is not itself in A. */
  lemma NothingBelow(ctx: Context, a: Value, b: Value, from: Node, E: Changes, A: set<Path>, e: Edit)
    requires Matches(ctx, a, b, from, E, A) && e in Walk(ctx, a, b, from) && e.raw !in A
    requires forall f :: f in Walk(ctx, a, b, from) && e.raw <= f.raw ==> f == e
    ensures forall p :: p in A ==> !(e.raw <= p)
  {
    hide Walk, ChangeOf;
    forall p | p in A ensures !(e.raw <= p) {
      EditsBelow(ctx, a, b, from, e);
      assert e.raw <= p ==> from.raw <= p;
      if from.raw <= p {
        var f :| f in Walk(ctx, a, b, from) && f.raw == p && f.cls.Allowed?;
        assert e.raw <= f.raw ==> f == e;
      }
    }
  }

  lemma Diverges(raw: Path, s: Seg, t: Seg, p: Path)
    requires s != t && raw + [t] <= p
    ensures !(raw + [s] <= p)
  {
    assert (raw + [s])[|raw|] == s && (raw + [t])[|raw|] == t == p[|raw|];
  }

  lemma AloneAtKey(ctx: Context, a: Value, b: Value, from: Node, k: string, e: Edit, f: Edit)
    requires a.Obj? && b.Obj? && (k in a.fields) != (k in b.fields)
    requires e in Walk(ctx, a, b, from) && e.raw == from.raw + [Key(k)]
    requires f in Walk(ctx, a, b, from) && e.raw <= f.raw
    ensures f == e
  {
    hide Walk, Label, IsAllowed, Child;
    var n := Enter(ctx, from);
    ObjectMember(ctx, a, b, from, f);
    assert f.raw[|from.raw|] == Key(k);
    forall j | j in a.fields && j in b.fields ensures !InKey(ctx, a, b, n, j, f) {
      KeyOwns(ctx, a, b, from, j, f);
      Diverges(from.raw, Key(j), Key(k), f.raw);
    }
    assert f.raw == e.raw;
    OneEditPerPath(ctx, a, b, from, e, f);
  }

  lemma AddedErases(ctx: Context, a: Value, b: Value, from: Node, E: Changes, A: set<Path>, k: string)
    requires a.Obj? && b.Obj? && k in b.fields && k !in a.fields && Matches(ctx, a, b, from, E, A)
    requires from.raw + [Key(k)] !in A
    ensures Erase(b.fields[k], from.raw + [Key(k)], A) == b.fields[k]
  {
    hide Walk, Label, IsAllowed, Child, Matches;
    var e := AddedKey(ctx, a, b, Enter(ctx, from), k);
    AddedIsEdit(ctx, a, b, from, k);
    forall f | f in Walk(ctx, a, b, from) && e.raw <= f.raw ensures f == e {
      AloneAtKey(ctx, a, b, from, k, e, f);
    }
    NothingBelow(ctx, a, b, from, E, A, e);
    EraseNothing(b.fields[k], from.raw + [Key(k)], A);
  }

  // ---- the main induction

  /** Patching the base with the recorded edits, minus some allowed additions, gives the head without them. */
  lemma {:induction false} PatchIsErasedHead(ctx: Context, a: Value, b: Value, from: Node, E: Changes, A: set<Path>)
    requires Matches(ctx, a, b, from, E, A)
    ensures Patch(a, from.raw, E) == Erase(b, from.raw, A)
    decreases a
  {
    hide *;
    if !SameKind(a, b) || (!a.Obj? && !a.Arr?) {
      LeafPatch(ctx, a, b, from, E, A);
    } else if a.Obj? {
      KindObj(a, b);
      NoReplaceHere(ctx, a, b, from, E, A);
      forall k | k in a.fields && k in b.fields
        ensures Patch(a.fields[k], from.raw + [Key(k)], E) == Erase(b.fields[k], from.raw + [Key(k)], A)
      {
        var c := KeyNode(ctx, Enter(ctx, from), a.fields.Keys + b.fields.Keys, k);
        KeyNodeRaw(ctx, a, b, from, k);
        MatchesKey(ctx, a, b, from, E, A, k);
        PatchIsErasedHead(ctx, a.fields[k], b.fields[k], c, E, A);
      }
      PatchObject(ctx, a, b, from, E, A);
    } else {
      KindArr(a, b);
      NoReplaceHere(ctx, a, b, from, E, A);
      forall i | 0 <= i < |a.items| && i < |b.items|
        ensures Patch(a.items[i], from.raw + [Index(i)], E) == Erase(b.items[i], from.raw + [Index(i)], A)
      {
        var c := IndexNode(Enter(ctx, from), i);
        IndexNodeRaw(ctx, from, i);
        MatchesIndex(ctx, a, b, from, E, A, i);
        PatchIsErasedHead(ctx, a.items[i], b.items[i], c, E, A);
      }
      PatchArray(ctx, a, b, from, E, A);
    }
  }

  lemma KeyNodeRaw(ctx: Context, a: Value, b: Value, from: Node, k: string)
    requires a.Obj? && b.Obj? && k in a.fields.Keys + b.fields.Keys
    ensures KeyNode(ctx, Enter(ctx, from), a.fields.Keys + b.fields.Keys, k).raw == from.raw + [Key(k)]
  {
  }

  lemma IndexNodeRaw(ctx: Context, from: Node, i: nat)
    ensures IndexNode(Enter(ctx, from), i).raw == from.raw + [Index(i)]
  {
  }

  lemma LeafPatch(ctx: Context, a: Value, b: Value, from: Node, E: Changes, A: set<Path>)
    requires Matches(ctx, a, b, from, E, A) && (!SameKind(a, b) || (!a.Obj? && !a.Arr?))
    ensures Patch(a, from.raw, E) == Erase(b, from.raw, A)
  {
    hide Child, ChangeOf;
    var es := Walk(ctx, a, b, from);
    forall p | p in A && from.raw <= p ensures false {
      var e :| e in es && e.raw == p && e.cls.Allowed?;
      LeafEdit(ctx, a, b, from, e, e);
    }
    EraseNothing(b, from.raw, A);
    if es == [] {
      assert forall e :: e !in es;
      assert from.raw !in E;
    } else {
      LeafEdit(ctx, a, b, from, es[0], es[0]);
      LeafChange(es[0]);
      assert es[0] in es && from.raw !in A;
      assert E[from.raw] == ChangeOf(es[0]);
    }
  }

  lemma LeafChange(e: Edit)
    requires e.cls.Changed?
    ensures ChangeOf(e) == Replace(e.value)
  {
  }

  lemma NoReplaceHere(ctx: Context, a: Value, b: Value, from: Node, E: Changes, A: set<Path>)
    requires Matches(ctx, a, b, from, E, A) && SameKind(a, b) && (a.Obj? || a.Arr?)
    ensures from.raw !in E
  {
    hide Walk;
    if from.raw in E {
      var e := ChangeAt(ctx, a, b, from, E, A, from.raw);
      EditsBelow(ctx, a, b, from, e);
      assert false;
    }
  }

  lemma PatchObject(ctx: Context, a: Value, b: Value, from: Node, E: Changes, A: set<Path>)
    requires a.Obj? && b.Obj? && Matches(ctx, a, b, from, E, A) && from.raw !in E
    requires forall k :: k in a.fields && k in b.fields ==>
      Patch(a.fields[k], from.raw + [Key(k)], E) == Erase(b.fields[k], from.raw + [Key(k)], A)
    ensures Patch(a, from.raw, E) == Erase(b, from.raw, A)
  {
    hide *;
    PatchedObject(a, from.raw, E);
    ErasedObject(b, from.raw, A);
    var p, q := Patch(a, from.raw, E).fields, Erase(b, from.raw, A).fields;
    forall k ensures (k in p <==> k in q) && (k in p ==> p[k] == q[k]) {
      var at := from.raw + [Key(k)];
      ChangesAtKey(ctx, a, b, from, E, A, k);
      NotBoth(E, at);
      FieldIs(a, from.raw, E, k);
      PatchedField(a, from.raw, E, k);
      ErasedField(b, from.raw, A, k);
      if k in b.fields && k !in a.fields && at !in A {
        AddedErases(ctx, a, b, from, E, A, k);
      }
    }
    assert p == q;
  }

  lemma PatchedObject(t: Value, at: Path, E: Changes)
    requires t.Obj? && at !in E
    ensures Patch(t, at, E).Obj?
  {
  }

  lemma ErasedObject(t: Value, at: Path, A: set<Path>)
    requires t.Obj?
    ensures Erase(t, at, A).Obj?
  {
  }

  lemma PatchedField(t: Value, at: Path, E: Changes, k: string)
    requires t.Obj? && at !in E && Patch(t, at, E).Obj?
    ensures var p := Patch(t, at, E).fields;
      && (k in p <==> (k in t.fields || IsNew(E, at + [Key(k)])) && !IsDropped(E, at + [Key(k)]))
      && (k in p ==> p[k] == PatchField(t, at, E, k))
  {
    hide NewNames, PatchField;
    NewNamesAre(E, at, k);
  }

  lemma ErasedField(t: Value, at: Path, A: set<Path>, k: string)
    requires t.Obj? && Erase(t, at, A).Obj?
    ensures var q := Erase(t, at, A).fields;
      && (k in q <==> k in t.fields && at + [Key(k)] !in A)
      && (k in q ==> q[k] == Erase(t.fields[k], at + [Key(k)], A))
  {
  }

  lemma FieldIs(t: Value, at: Path, E: Changes, k: string)
    requires t.Obj?
    ensures var p := at + [Key(k)];
      && (IsNew(E, p) ==> p in E && E[p].PutNew? && PatchField(t, at, E, k) == E[p].value)
      && (!IsNew(E, p) && k in t.fields ==> PatchField(t, at, E, k) == Patch(t.fields[k], p, E))
  {
  }

  lemma NotBoth(E: Changes, p: Path)
    ensures !(IsNew(E, p) && IsDropped(E, p))
    ensures p !in E ==> !IsNew(E, p) && !IsDropped(E, p)
  {
  }

  // ---- arrays

  lemma IndexPath(raw: Path, i: nat, j: nat)
    ensures raw <= raw + [Index(i)]
    ensures raw + [Index(i)] == raw + [Index(j)] <==> i == j
  {
    assert (raw + [Index(i)])[|raw|] == Index(i) && (raw + [Index(j)])[|raw|] == Index(j);
  }

  predicate TailEdit(cls: Class, xs: seq<Value>, raw: Path, i: nat, e: Edit) {
    i < |xs| && e.cls == cls && e.raw == raw + [Index(i)] && e.value == xs[i]
  }

  lemma EditAtIndex(ctx: Context, a: Value, b: Value, from: Node, i: nat, e: Edit)
    requires a.Arr? && b.Arr? && e in Walk(ctx, a, b, from) && e.raw == from.raw + [Index(i)]
    ensures i < |a.items| && i < |b.items| ==> e.cls.Changed?
    ensures |b.items| <= i < |a.items| ==> TailEdit(Removed, a.items, from.raw, i, e)
    ensures |a.items| <= i < |b.items| ==> TailEdit(Added, b.items, from.raw, i, e)
    ensures i < |a.items| || i < |b.items|
  {
    hide Walk, Child;
    ArrayMember(ctx, a, b, from, e);
    var n := Enter(ctx, from);
    var m := Min(|a.items|, |b.items|);
    if j :| 0 <= j < m && InItem(ctx, a, b, n, j, e) {
      var c := IndexNode(n, j);
      EditsBelow(ctx, a.items[j], b.items[j], c, e);
      assert c.raw == e.raw;
      IndexPath(from.raw, i, j);
    } else if j :| m <= j < |a.items| && e == Edit(Removed, IndexNode(n, j).path, IndexNode(n, j).raw, a.items[j]) {
      IndexPath(from.raw, i, j);
    } else {
      var j :| m <= j < |b.items| && e == Edit(Added, IndexNode(n, j).path, IndexNode(n, j).raw, b.items[j]);
      IndexPath(from.raw, i, j);
    }
  }

  lemma TailIsEdit(ctx: Context, a: Value, b: Value, from: Node, i: nat) returns (e: Edit)
    requires a.Arr? && b.Arr? && (|b.items| <= i < |a.items| || |a.items| <= i < |b.items|)
    ensures e in Walk(ctx, a, b, from)
    ensures |b.items| <= i < |a.items| ==> TailEdit(Removed, a.items, from.raw, i, e)
    ensures |a.items| <= i < |b.items| ==> TailEdit(Added, b.items, from.raw, i, e)
  {
    hide Walk, Child, InItem;
    var c := IndexNode(Enter(ctx, from), i);
    e := if i < |a.items| then Edit(Removed, c.path, c.raw, a.items[i]) else Edit(Added, c.path, c.raw, b.items[i]);
    ArrayMember(ctx, a, b, from, e);
  }

  lemma ChangesAtIndex(ctx: Context, a: Value, b: Value, from: Node, E: Changes, A: set<Path>, i: nat)
    requires a.Arr? && b.Arr? && Matches(ctx, a, b, from, E, A)
    ensures var p := from.raw + [Index(i)];
      && p !in A
      && (i < |a.items| && i < |b.items| ==> !IsNew(E, p) && !IsDropped(E, p))
      && (|b.items| <= i < |a.items| ==> IsDropped(E, p))
      && (|a.items| <= i < |b.items| ==> IsNew(E, p) && E[p].value == b.items[i])
      && (i >= |a.items| && i >= |b.items| ==> p !in E)
  {
    hide Walk, Child;
    var p := from.raw + [Index(i)];
    IndexPath(from.raw, i, i);
    if p in A {
      var e :| e in Walk(ctx, a, b, from) && e.raw == p && e.cls.Allowed?;
      EditAtIndex(ctx, a, b, from, i, e);
    }
    if p in E {
      var e := ChangeAt(ctx, a, b, from, E, A, p);
      EditAtIndex(ctx, a, b, from, i, e);
    }
    if |b.items| <= i < |a.items| || |a.items| <= i < |b.items| {
      var e := TailIsEdit(ctx, a, b, from, i);
    }
  }

  /** Element i of a patched array, before any added tail. */
  lemma {:induction false} PatchedItems(t: Value, at: Path, E: Changes, n: nat, keep: nat)
    requires t.Arr? && n <= |t.items| && keep <= |t.items|
    requires forall i :: 0 <= i < |t.items| ==> (IsDropped(E, at + [Index(i)]) <==> keep <= i)
    ensures |PatchItems(t, at, E, n)| == Min(n, keep)
    ensures forall i :: 0 <= i < n && i < keep ==> PatchItems(t, at, E, n)[i] == Patch(t.items[i], at + [Index(i)], E)
    decreases n
  {
    hide Patch, IsDropped;
    if n > 0 { PatchedItems(t, at, E, n - 1, keep); }
  }

  lemma {:induction false} NewItemsAre(E: Changes, at: Path, xs: seq<Value>, n: nat, limit: nat)
    requires n <= |xs| <= limit
    requires forall i :: n <= i < |xs| ==> IsNew(E, at + [Index(i)]) && E[at + [Index(i)]].value == xs[i]
    requires !IsNew(E, at + [Index(|xs|)])
    ensures NewItems(E, at, n, limit) == xs[n..]
    decreases |xs| - n
  {
    if n < |xs| {
      NewItemsAre(E, at, xs, n + 1, limit);
      assert xs[n..] == [xs[n]] + xs[n + 1..];
    }
  }

  function IndexPaths(at: Path, m: nat, n: nat): set<Path> {
    set i: nat | m <= i < n :: at + [Index(i)]
  }

  lemma {:induction false} IndexPathsSize(at: Path, m: nat, n: nat)
    requires m <= n
    ensures |IndexPaths(at, m, n)| == n - m
    decreases n
  {
    if m == n {
      assert IndexPaths(at, m, n) == {};
    } else {
      IndexPathsSize(at, m, n - 1);
      var p := at + [Index(n - 1)];
      assert IndexPaths(at, m, n) == IndexPaths(at, m, n - 1) + {p};
      assert p !in IndexPaths(at, m, n - 1) by {
        forall i: nat | m <= i < n - 1 ensures at + [Index(i)] != p { IndexPath(at, i, n - 1); }
      }
    }
  }

  lemma EnoughRoom(E: Changes, at: Path, m: nat, n: nat)
    requires m <= n && forall i: nat :: m <= i < n ==> at + [Index(i)] in E
    ensures n <= m + |E|
  {
    IndexPathsSize(at, m, n);
    assert IndexPaths(at, m, n) <= E.Keys;
    SubsetSize(IndexPaths(at, m, n), E.Keys);
  }

  lemma {:induction false} SubsetSize<T>(x: set<T>, y: set<T>)
    requires x <= y
    ensures |x| <= |y|
    decreases x
  {
    if x != {} {
      var e :| e in x;
      SubsetSize(x - {e}, y - {e});
    }
  }

  lemma PatchArray(ctx: Context, a: Value, b: Value, from: Node, E: Changes, A: set<Path>)
    requires a.Arr? && b.Arr? && Matches(ctx, a, b, from, E, A) && from.raw !in E
    requires forall i :: 0 <= i < |a.items| && i < |b.items| ==>
      Patch(a.items[i], from.raw + [Index(i)], E) == Erase(b.items[i], from.raw + [Index(i)], A)
    ensures Patch(a, from.raw, E) == Erase(b, from.raw, A)
  {
    hide *;
    var at := from.raw;
    var m := Min(|a.items|, |b.items|);
    MinBelow(|a.items|, |b.items|);
    forall i | 0 <= i < |a.items| ensures IsDropped(E, at + [Index(i)]) <==> m <= i {
      ChangesAtIndex(ctx, a, b, from, E, A, i);
      MinIs(|a.items|, |b.items|);
    }
    PatchedItems(a, at, E, |a.items|, m);
    ErasedItems(b, at, A);
    NewTail(ctx, a, b, from, E, A);
    MinIs(|a.items|, |b.items|);
    MinIs(|a.items|, m);
    var kept, more := PatchItems(a, at, E, |a.items|), NewItems(E, at, |a.items|, |a.items| + |E|);
    var items := Erase(b, at, A).items;
    assert |kept + more| == |items|;
    forall i | 0 <= i < |items| ensures (kept + more)[i] == items[i] {
      if i >= m {
        TailErases(ctx, a, b, from, E, A, i);
        assert (kept + more)[i] == more[i - m] == b.items[i];
      }
    }
    assert kept + more == items;
    PatchedArray(a, at, E);
    ErasedArray(b, at, A);
  }

  lemma MinIs(a: nat, b: nat)
    ensures Min(a, b) == if a < b then a else b
  {
  }

  lemma PatchedArray(t: Value, at: Path, E: Changes)
    requires t.Arr? && at !in E
    ensures Patch(t, at, E) == Arr(PatchItems(t, at, E, |t.items|) + NewItems(E, at, |t.items|, |t.items| + |E|))
  {
  }

  lemma ErasedArray(t: Value, at: Path, A: set<Path>)
    requires t.Arr?
    ensures Erase(t, at, A).Arr? && Erase(t, at, A) == Arr(Erase(t, at, A).items)
  {
  }

  /** The added tail is the head's own tail. */
  lemma NewTail(ctx: Context, a: Value, b: Value, from: Node, E: Changes, A: set<Path>)
    requires a.Arr? && b.Arr? && Matches(ctx, a, b, from, E, A)
    ensures NewItems(E, from.raw, |a.items|, |a.items| + |E|) ==
      if |b.items| <= |a.items| then [] else b.items[|a.items|..]
  {
    hide *;
    var at := from.raw;
    if |b.items| <= |a.items| {
      ChangesAtIndex(ctx, a, b, from, E, A, |a.items|);
      NotBoth(E, at + [Index(|a.items|)]);
      NewItemsAre(E, at, a.items, |a.items|, |a.items| + |E|);
    } else {
      forall i: nat | |a.items| <= i < |b.items|
        ensures IsNew(E, at + [Index(i)]) && at + [Index(i)] in E && E[at + [Index(i)]] == PutNew(b.items[i])
      {
        ChangesAtIndex(ctx, a, b, from, E, A, i);
        NewIs(E, at + [Index(i)]);
      }
      ChangesAtIndex(ctx, a, b, from, E, A, |b.items|);
      NotBoth(E, at + [Index(|b.items|)]);
      EnoughRoom(E, at, |a.items|, |b.items|);
      NewItemsAre(E, at, b.items, |a.items|, |a.items| + |E|);
    }
  }

  lemma NewIs(E: Changes, p: Path)
    requires IsNew(E, p)
    ensures p in E && E[p].PutNew?
  {
  }

  lemma ErasedItems(t: Value, at: Path, A: set<Path>)
    requires t.Arr?
    ensures Erase(t, at, A).Arr? && |Erase(t, at, A).items| == |t.items|
    ensures forall i :: 0 <= i < |t.items| ==> Erase(t, at, A).items[i] == Erase(t.items[i], at + [Index(i)], A)
  {
  }

  lemma TailErases(ctx: Context, a: Value, b: Value, from: Node, E: Changes, A: set<Path>, i: nat)
    requires a.Arr? && b.Arr? && |a.items| <= i < |b.items| && Matches(ctx, a, b, from, E, A)
    ensures Erase(b.items[i], from.raw + [Index(i)], A) == b.items[i]
  {
    hide Walk, Matches, Child;
    var e := TailIsEdit(ctx, a, b, from, i);
    ChangesAtIndex(ctx, a, b, from, E, A, i);
    forall f | f in Walk(ctx, a, b, from) && e.raw <= f.raw ensures f == e {
      AloneAtIndex(ctx, a, b, from, i, e, f);
    }
    NothingBelow(ctx, a, b, from, E, A, e);
    EraseNothing(b.items[i], from.raw + [Index(i)], A);
  }

  lemma AloneAtIndex(ctx: Context, a: Value, b: Value, from: Node, i: nat, e: Edit, f: Edit)
    requires a.Arr? && b.Arr? && Min(|a.items|, |b.items|) <= i
    requires e in Walk(ctx, a, b, from) && e.raw == from.raw + [Index(i)]
    requires f in Walk(ctx, a, b, from) && e.raw <= f.raw
    ensures f == e
  {
    hide Walk, Child;
    var n := Enter(ctx, from);
    ArrayMember(ctx, a, b, from, f);
    assert f.raw[|from.raw|] == Index(i);
    forall j | 0 <= j < Min(|a.items|, |b.items|) ensures !InItem(ctx, a, b, n, j, f) {
      IndexOwns(ctx, a, b, from, j, f);
      Diverges(from.raw, Index(j), Index(i), f.raw);
    }
    assert f.raw == e.raw;
    OneEditPerPath(ctx, a, b, from, e, f);
  }

  // ---- edits as changes

  function PathsOf(es: seq<Edit>): set<Path> {
    set e | e in es :: e.raw
  }

  function EditAt(es: seq<Edit>, p: Path): (e: Edit)
    requires p in PathsOf(es)
    ensures e in es && e.raw == p
  {
    if es[0].raw == p then es[0] else EditAt(es[1..], p)
  }

  function ChangesOf(es: seq<Edit>): Changes {
    map p | p in PathsOf(es) :: ChangeOf(EditAt(es, p))
  }

  /** The edits that are not allowed additions: what the gate records as observed. */
  function Remaining(es: seq<Edit>): (r: seq<Edit>)
    ensures forall e :: e in r <==> e in es && !e.cls.Allowed?
  {
    if es == [] then [] else (if es[0].cls.Allowed? then [] else [es[0]]) + Remaining(es[1..])
  }

  function AllowedPaths(es: seq<Edit>): set<Path> {
    set e | e in es && e.cls.Allowed? :: e.raw
  }

  predicate UniquePaths(es: seq<Edit>) {
    forall e, f :: e in es && f in es && e.raw == f.raw ==> e == f
  }

  lemma ChangesHold(es: seq<Edit>, e: Edit)
    requires UniquePaths(es) && e in es
    ensures e.raw in ChangesOf(es) && ChangesOf(es)[e.raw] == ChangeOf(e)
  {
    hide ChangeOf;
    assert e.raw in PathsOf(es);
    assert EditAt(es, e.raw) == e;
  }

  lemma WalkUnique(ctx: Context, a: Value, b: Value, n: Node)
    ensures UniquePaths(Walk(ctx, a, b, n))
  {
    hide Walk;
    forall e, f | e in Walk(ctx, a, b, n) && f in Walk(ctx, a, b, n) && e.raw == f.raw ensures e == f {
      OneEditPerPath(ctx, a, b, n, e, f);
    }
  }

  /** Diff then patch is the identity: the recorded edits, allowed additions included, turn the base into the
      head, for any two trees, declarations and vocabulary. */
  lemma DiffPatchRoundTrip(ctx: Context, a: Value, b: Value)
    ensures Patch(a, [], ChangesOf(Walk(ctx, a, b, ROOT))) == b
  {
    hide *;
    WalkMatches(ctx, a, b);
    PatchIsErasedHead(ctx, a, b, ROOT, ChangesOf(Walk(ctx, a, b, ROOT)), {});
    EraseNothing(b, [], {});
  }

  lemma WalkMatches(ctx: Context, a: Value, b: Value)
    ensures Matches(ctx, a, b, ROOT, ChangesOf(Walk(ctx, a, b, ROOT)), {}) && ROOT.raw == []
  {
    hide Walk, ChangesOf, ChangeOf, UniquePaths;
    var es := Walk(ctx, a, b, ROOT);
    WalkUnique(ctx, a, b, ROOT);
    forall e | e in es ensures e.raw in ChangesOf(es) && ChangesOf(es)[e.raw] == ChangeOf(e) { ChangesHold(es, e); }
    forall p | p in ChangesOf(es) ensures exists e :: e in es && e.raw == p { ChangesFrom(es, p); }
  }

  lemma ChangesFrom(es: seq<Edit>, p: Path)
    requires p in ChangesOf(es)
    ensures exists e :: e in es && e.raw == p
  {
  }

  /** Patching with the observed edits alone gives the head without its allowed additions. */
  lemma ObservedPatch(ctx: Context, a: Value, b: Value)
    ensures var es := Walk(ctx, a, b, ROOT);
      Patch(a, [], ChangesOf(Remaining(es))) == Erase(b, [], AllowedPaths(es))
  {
    hide Walk, ChangesOf, ChangeOf, Patch;
    var es := Walk(ctx, a, b, ROOT);
    var E, A := ChangesOf(Remaining(es)), AllowedPaths(es);
    WalkUnique(ctx, a, b, ROOT);
    forall e | e in es && e.raw !in A ensures e.raw in E && E[e.raw] == ChangeOf(e) {
      assert e in Remaining(es);
      ChangesHold(Remaining(es), e);
    }
    forall p | p in E ensures p !in A && exists e :: e in es && e.raw == p {
      ChangesFrom(Remaining(es), p);
      var e :| e in Remaining(es) && e.raw == p;
      assert forall f :: f in es && f.raw == p ==> f == e;
    }
    PatchIsErasedHead(ctx, a, b, ROOT, E, A);
  }

  // ---- signatures

  /** What an observed or signed entry is compared by: display path, class and digest. */
  datatype EntryKey<D> = EntryKey(path: string, cls: Class, digest: D)

  function KeyOf<D>(hash: string -> D, e: Edit): EntryKey<D> {
    EntryKey(e.path, e.cls, EntryDigest(hash, e.raw, e.value))
  }

  function KeysOf<D>(hash: string -> D, es: seq<Edit>): (ks: seq<EntryKey<D>>)
    ensures |ks| == |es| && forall i :: 0 <= i < |es| ==> ks[i] == KeyOf(hash, es[i])
  {
    seq(|es|, i requires 0 <= i < |es| => KeyOf(hash, es[i]))
  }

  lemma {:induction false} WalkWellFormed(ctx: Context, a: Value, b: Value, from: Node, e: Edit)
    requires WellFormed(a) && WellFormed(b) && e in Walk(ctx, a, b, from)
    ensures WellFormed(e.value)
    decreases a
  {
    hide Label, IsAllowed, Child, SortedKeys, NumberText;
    var n := Enter(ctx, from);
    if SameKind(a, b) && a.Obj? {
      ObjectMember(ctx, a, b, from, e);
      if k :| k in a.fields && k in b.fields && InKey(ctx, a, b, n, k, e) {
        WalkWellFormed(ctx, a.fields[k], b.fields[k], KeyNode(ctx, n, a.fields.Keys + b.fields.Keys, k), e);
      }
    } else if SameKind(a, b) && a.Arr? {
      ArrayMember(ctx, a, b, from, e);
      if i :| 0 <= i < Min(|a.items|, |b.items|) && InItem(ctx, a, b, n, i, e) {
        WalkWellFormed(ctx, a.items[i], b.items[i], IndexNode(n, i), e);
      }
    }
  }

  /** Equal key lists, up to order, come from the same edits. */
  lemma SameKeysSameEdit<D(!new)>(hash: string -> D, xs: seq<Edit>, ys: seq<Edit>, e: Edit) returns (f: Edit)
    requires CollisionFree(hash) && multiset(KeysOf(hash, xs)) == multiset(KeysOf(hash, ys)) && e in xs
    requires (forall x :: x in xs ==> WellFormed(x.value)) && (forall y :: y in ys ==> WellFormed(y.value))
    ensures f in ys && f.raw == e.raw && f.cls == e.cls && f.value == e.value
  {
    hide EntryDigest, WellFormed;
    var i :| 0 <= i < |xs| && xs[i] == e;
    assert KeysOf(hash, xs)[i] in multiset(KeysOf(hash, xs));
    var key := KeyOf(hash, e);
    assert key in multiset(KeysOf(hash, ys));
    var j :| 0 <= j < |KeysOf(hash, ys)| && KeysOf(hash, ys)[j] == key;
    f := ys[j];
    DigestIdentifies(hash, e.raw, e.value, f.raw, f.value);
  }

  /** Signature soundness: two heads whose observed diffs against one base match the same signed list are equal
      once each is stripped of its allowed additions. */
  lemma SignaturePinsHead<D(!new)>(hash: string -> D, c1: Context, c2: Context, a: Value, b1: Value, b2: Value,
                                   signed: seq<EntryKey<D>>)
    requires CollisionFree(hash) && WellFormed(a) && WellFormed(b1) && WellFormed(b2)
    requires multiset(KeysOf(hash, Remaining(Walk(c1, a, b1, ROOT)))) == multiset(signed)
    requires multiset(KeysOf(hash, Remaining(Walk(c2, a, b2, ROOT)))) == multiset(signed)
    ensures Erase(b1, [], AllowedPaths(Walk(c1, a, b1, ROOT))) == Erase(b2, [], AllowedPaths(Walk(c2, a, b2, ROOT)))
  {
    hide Walk, ChangesOf, Patch, Erase, AllowedPaths, EntryDigest, CollisionFree, WellFormed;
    var xs, ys := Remaining(Walk(c1, a, b1, ROOT)), Remaining(Walk(c2, a, b2, ROOT));
    forall e | e in xs ensures WellFormed(e.value) { WalkWellFormed(c1, a, b1, ROOT, e); }
    forall e | e in ys ensures WellFormed(e.value) { WalkWellFormed(c2, a, b2, ROOT, e); }
    WalkUnique(c1, a, b1, ROOT);
    WalkUnique(c2, a, b2, ROOT);
    forall e | e in xs ensures exists f :: f in ys && f.raw == e.raw && ChangeOf(f) == ChangeOf(e) {
      var f := SameKeysSameEdit(hash, xs, ys, e);
    }
    forall e | e in ys ensures exists f :: f in xs && f.raw == e.raw && ChangeOf(f) == ChangeOf(e) {
      var f := SameKeysSameEdit(hash, ys, xs, e);
    }
    SameChanges(xs, ys);
    ObservedPatch(c1, a, b1);
    ObservedPatch(c2, a, b2);
  }

  lemma SameChanges(xs: seq<Edit>, ys: seq<Edit>)
    requires UniquePaths(xs) && UniquePaths(ys)
    requires forall e :: e in xs ==> exists f :: f in ys && f.raw == e.raw && ChangeOf(f) == ChangeOf(e)
    requires forall e :: e in ys ==> exists f :: f in xs && f.raw == e.raw && ChangeOf(f) == ChangeOf(e)
    ensures ChangesOf(xs) == ChangesOf(ys)
  {
    hide ChangeOf, ChangesOf;
    forall p | p in ChangesOf(xs) ensures p in ChangesOf(ys) && ChangesOf(ys)[p] == ChangesOf(xs)[p] {
      ChangesFrom(xs, p);
      var e :| e in xs && e.raw == p;
      ChangesHold(xs, e);
      var f :| f in ys && f.raw == e.raw && ChangeOf(f) == ChangeOf(e);
      ChangesHold(ys, f);
    }
    forall p | p in ChangesOf(ys) ensures p in ChangesOf(xs) {
      ChangesFrom(ys, p);
      var e :| e in ys && e.raw == p;
      var f :| f in xs && f.raw == e.raw && ChangeOf(f) == ChangeOf(e);
      ChangesHold(xs, f);
    }
  }
}
