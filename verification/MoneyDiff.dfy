/** The structural diff of two decoded receipts, and the patch that undoes it. */
module MoneyDiff {
  import opened Prelude
  import opened Json
  import opened MoneyPaths

  /** The only in-tree envelope addition, with its exact value. */
  const ALLOWLIST: map<string, string> := map["usage_decrease_hold_ack_contract" := "usage_decrease_hold_ack:v1"]

  /** Display vocabulary: the field names that are shown, by location. */
  datatype Schema = Schema(children: map<string, Schema>)

  const NO_SCHEMA: Schema := Schema(map[])

  datatype Scope = NoScope | EnvelopeScope | SnapshotsScope | SnapshotScope

  /** The non-money parts of a change request's declared additions. */
  datatype Declarations = Declarations(envelope: map<string, Value>, snapshot: map<string, Value>)

  /** What one comparison holds fixed: envelope paths on both sides and on either side, the declarations, every
      object key of the base, and the vocabulary of an envelope. */
  datatype Context = Context(
    envelopes: set<string>, display: set<string>, declared: Declarations, baseKeys: set<string>, vocabulary: Schema)

  datatype Class = Added | Removed | Changed | Allowed

  datatype Edit = Edit(cls: Class, path: string, raw: Path, value: Value)

  /** Where the walk stands. */
  datatype Node = Node(path: string, raw: Path, schema: Schema, scope: Scope)

  const ROOT: Node := Node("", [], NO_SCHEMA, NoScope)

  function Enter(ctx: Context, n: Node): Node {
    if n.path in ctx.display
    then n.(schema := ctx.vocabulary, scope := if n.path in ctx.envelopes then EnvelopeScope else NoScope)
    else n
  }

  function DeclaredAt(ctx: Context, scope: Scope): map<string, Value> {
    match scope
    case EnvelopeScope => ctx.declared.envelope
    case SnapshotScope => ctx.declared.snapshot
    case _ => map[]
  }

  predicate IsAllowed(ctx: Context, scope: Scope, key: string, v: Value) {
    || (scope.EnvelopeScope? && key in ALLOWLIST && v == Text(ALLOWLIST[key]))
    || (key in DeclaredAt(ctx, scope) && key !in ctx.baseKeys && v == DeclaredAt(ctx, scope)[key])
  }

  function Position(ks: seq<string>, key: string): (i: nat)
    requires key in ks
    ensures i < |ks| && ks[i] == key
  {
    if ks[0] == key then 0 else 1 + Position(ks[1..], key)
  }

  /** A shown key is its own label; any other key is its ordinal among the keys of both sides. */
  function Label(ctx: Context, n: Node, keys: set<string>, key: string): string
    requires key in keys
  {
    if key in n.schema.children || key in DeclaredAt(ctx, n.scope) then key
    else "<key#" + Decimal(Position(SortedKeys(keys), key)) + ">"
  }

  function KeyNode(ctx: Context, n: Node, keys: set<string>, key: string): Node
    requires key in keys
  {
    Node(Child(n.path, Label(ctx, n, keys, key)), n.raw + [Key(key)],
         if key in n.schema.children then n.schema.children[key] else NO_SCHEMA,
         if n.scope.EnvelopeScope? && key == "snapshots" then SnapshotsScope else NoScope)
  }

  function IndexNode(n: Node, i: nat): Node {
    Node(Child(n.path, Decimal(i)), n.raw + [Index(i)], n.schema,
         if n.scope.SnapshotsScope? then SnapshotScope else NoScope)
  }

  function AddedKeys(ctx: Context, a: Value, b: Value, n: Node): seq<Edit>
    requires a.Obj? && b.Obj?
  {
    var ks := SortedKeys(b.fields.Keys - a.fields.Keys);
    assert forall i :: 0 <= i < |ks| ==> ks[i] in ks;
    seq(|ks|, i requires 0 <= i < |ks| => AddedKey(ctx, a, b, n, ks[i]))
  }

  function AddedKey(ctx: Context, a: Value, b: Value, n: Node, k: string): Edit
    requires a.Obj? && b.Obj? && k in b.fields
  {
    var c := KeyNode(ctx, n, a.fields.Keys + b.fields.Keys, k);
    Edit(if IsAllowed(ctx, n.scope, k, b.fields[k]) then Allowed else Added, c.path, c.raw, b.fields[k])
  }

  function RemovedKeys(ctx: Context, a: Value, b: Value, n: Node): seq<Edit>
    requires a.Obj? && b.Obj?
  {
    var ks := SortedKeys(a.fields.Keys - b.fields.Keys);
    assert forall i :: 0 <= i < |ks| ==> ks[i] in ks;
    seq(|ks|, i requires 0 <= i < |ks| => RemovedKey(ctx, a, b, n, ks[i]))
  }

  function RemovedKey(ctx: Context, a: Value, b: Value, n: Node, k: string): Edit
    requires a.Obj? && b.Obj? && k in a.fields
  {
    var c := KeyNode(ctx, n, a.fields.Keys + b.fields.Keys, k);
    Edit(Removed, c.path, c.raw, a.fields[k])
  }

  function Common(a: Value, b: Value): seq<string>
    requires a.Obj? && b.Obj?
  {
    SortedKeys(a.fields.Keys * b.fields.Keys)
  }

  /** Elements of `xs` from index `from` on, each recorded with the same class. */
  function TailItems(cls: Class, xs: seq<Value>, n: Node, from: nat): seq<Edit>
    requires from <= |xs|
  {
    seq(|xs| - from, j requires 0 <= j < |xs| - from =>
      Edit(cls, IndexNode(n, from + j).path, IndexNode(n, from + j).raw, xs[from + j]))
  }

  function Min(a: nat, b: nat): nat {
    if a < b then a else b
  }

  /** The edits `walk` records below a node, in its order. */
  function Walk(ctx: Context, a: Value, b: Value, from: Node): seq<Edit>
    decreases a
  {
    var n := Enter(ctx, from);
    if !SameKind(a, b) then [Edit(Changed, n.path, n.raw, b)]
    else if a.Obj? then
      AddedKeys(ctx, a, b, n) + RemovedKeys(ctx, a, b, n) + WalkKeys(ctx, a, b, n, Common(a, b))
    else if a.Arr? then
      var m := Min(|a.items|, |b.items|);
      WalkItems(ctx, a, b, n, m) + TailItems(Removed, a.items, n, m) + TailItems(Added, b.items, n, m)
    else if a != b then [Edit(Changed, n.path, n.raw, b)]
    else []
  }

  function WalkKeys(ctx: Context, a: Value, b: Value, n: Node, ks: seq<string>): seq<Edit>
    requires a.Obj? && b.Obj? && forall k :: k in ks ==> k in a.fields && k in b.fields
    decreases a, |ks|
  {
    if ks == [] then []
    else
      Walk(ctx, a.fields[ks[0]], b.fields[ks[0]], KeyNode(ctx, n, a.fields.Keys + b.fields.Keys, ks[0]))
      + WalkKeys(ctx, a, b, n, ks[1..])
  }

  /** The first m elements, compared pairwise. */
  function WalkItems(ctx: Context, a: Value, b: Value, n: Node, m: nat): seq<Edit>
    requires a.Arr? && b.Arr? && m <= |a.items| && m <= |b.items|
    decreases a, m
  {
    if m == 0 then []
    else WalkItems(ctx, a, b, n, m - 1) + Walk(ctx, a.items[m - 1], b.items[m - 1], IndexNode(n, m - 1))
  }

  // ---- which edits there are

  predicate InKey(ctx: Context, a: Value, b: Value, n: Node, k: string, e: Edit)
    requires a.Obj? && b.Obj? && k in a.fields && k in b.fields
  {
    e in Walk(ctx, a.fields[k], b.fields[k], KeyNode(ctx, n, a.fields.Keys + b.fields.Keys, k))
  }

  lemma KeysStep(ctx: Context, a: Value, b: Value, n: Node, ks: seq<string>, e: Edit)
    requires a.Obj? && b.Obj? && ks != [] && forall k :: k in ks ==> k in a.fields && k in b.fields
    ensures e in WalkKeys(ctx, a, b, n, ks) <==> InKey(ctx, a, b, n, ks[0], e) || e in WalkKeys(ctx, a, b, n, ks[1..])
  {
    hide Walk, KeyNode;
  }

  lemma KeysNone(ctx: Context, a: Value, b: Value, n: Node)
    requires a.Obj? && b.Obj?
    ensures WalkKeys(ctx, a, b, n, []) == []
  {
  }

  /** The key under which an edit of the common keys lies. */
  lemma {:induction false} KeyOfEdit(ctx: Context, a: Value, b: Value, n: Node, ks: seq<string>, e: Edit)
    returns (k: string)
    requires a.Obj? && b.Obj? && forall k :: k in ks ==> k in a.fields && k in b.fields
    requires e in WalkKeys(ctx, a, b, n, ks)
    ensures k in ks && InKey(ctx, a, b, n, k, e)
    decreases |ks|
  {
    hide *;
    if ks == [] {
      k := "";
      KeysNone(ctx, a, b, n);
    } else {
      KeysStep(ctx, a, b, n, ks, e);
      if InKey(ctx, a, b, n, ks[0], e) {
        k := ks[0];
      } else {
        k := KeyOfEdit(ctx, a, b, n, ks[1..], e);
      }
    }
  }

  lemma {:induction false} EditOfKey(ctx: Context, a: Value, b: Value, n: Node, ks: seq<string>, i: nat, e: Edit)
    requires a.Obj? && b.Obj? && forall k :: k in ks ==> k in a.fields && k in b.fields
    requires i < |ks| && InKey(ctx, a, b, n, ks[i], e)
    ensures e in WalkKeys(ctx, a, b, n, ks)
    decreases |ks|
  {
    hide *;
    KeysStep(ctx, a, b, n, ks, e);
    if i > 0 { EditOfKey(ctx, a, b, n, ks[1..], i - 1, e); }
  }

  lemma KeysMember(ctx: Context, a: Value, b: Value, n: Node, ks: seq<string>, e: Edit)
    requires a.Obj? && b.Obj? && forall k :: k in ks ==> k in a.fields && k in b.fields
    ensures e in WalkKeys(ctx, a, b, n, ks) <==> exists k :: k in ks && InKey(ctx, a, b, n, k, e)
  {
    hide *;
    if e in WalkKeys(ctx, a, b, n, ks) {
      var k := KeyOfEdit(ctx, a, b, n, ks, e);
    }
    if k :| k in ks && InKey(ctx, a, b, n, k, e) {
      var i :| 0 <= i < |ks| && ks[i] == k;
      EditOfKey(ctx, a, b, n, ks, i, e);
    }
  }

  predicate InItem(ctx: Context, a: Value, b: Value, n: Node, i: nat, e: Edit)
    requires a.Arr? && b.Arr? && i < |a.items| && i < |b.items|
  {
    e in Walk(ctx, a.items[i], b.items[i], IndexNode(n, i))
  }

  lemma ItemsStep(ctx: Context, a: Value, b: Value, n: Node, m: nat, e: Edit)
    requires a.Arr? && b.Arr? && 0 < m <= |a.items| && m <= |b.items|
    ensures e in WalkItems(ctx, a, b, n, m) <==> e in WalkItems(ctx, a, b, n, m - 1) || InItem(ctx, a, b, n, m - 1, e)
  {
    hide Walk, IndexNode;
  }

  lemma {:induction false} ItemsMember(ctx: Context, a: Value, b: Value, n: Node, m: nat, e: Edit)
    requires a.Arr? && b.Arr? && m <= |a.items| && m <= |b.items|
    ensures e in WalkItems(ctx, a, b, n, m) <==> exists i :: 0 <= i < m && InItem(ctx, a, b, n, i, e)
    decreases m
  {
    hide *;
    if m == 0 {
      ItemsNone(ctx, a, b, n);
    } else {
      ItemsMember(ctx, a, b, n, m - 1, e);
      ItemsStep(ctx, a, b, n, m, e);
    }
  }

  lemma ItemsNone(ctx: Context, a: Value, b: Value, n: Node)
    requires a.Arr? && b.Arr?
    ensures WalkItems(ctx, a, b, n, 0) == []
  {
  }

  /** An edit of an object is an added key, a removed key or an edit of a common child. */
  predicate ObjectEdit(ctx: Context, a: Value, b: Value, n: Node, e: Edit)
    requires a.Obj? && b.Obj?
  {
    || (exists k :: k in b.fields && k !in a.fields && e == AddedKey(ctx, a, b, n, k))
    || (exists k :: k in a.fields && k !in b.fields && e == RemovedKey(ctx, a, b, n, k))
    || (exists k :: k in a.fields && k in b.fields && InKey(ctx, a, b, n, k, e))
  }

  lemma AddedMember(ctx: Context, a: Value, b: Value, n: Node, e: Edit)
    requires a.Obj? && b.Obj?
    ensures e in AddedKeys(ctx, a, b, n) <==>
      exists k :: k in b.fields && k !in a.fields && e == AddedKey(ctx, a, b, n, k)
  {
    hide AddedKey, SortedKeys;
    var ks, xs := SortedKeys(b.fields.Keys - a.fields.Keys), AddedKeys(ctx, a, b, n);
    forall k | k in b.fields && k !in a.fields ensures AddedKey(ctx, a, b, n, k) in xs {
      assert k in ks;
      var i :| 0 <= i < |ks| && ks[i] == k;
      assert xs[i] == AddedKey(ctx, a, b, n, k);
    }
    if e in xs {
      var i :| 0 <= i < |xs| && xs[i] == e;
      assert ks[i] in ks && e == AddedKey(ctx, a, b, n, ks[i]);
    }
  }

  lemma RemovedMember(ctx: Context, a: Value, b: Value, n: Node, e: Edit)
    requires a.Obj? && b.Obj?
    ensures e in RemovedKeys(ctx, a, b, n) <==>
      exists k :: k in a.fields && k !in b.fields && e == RemovedKey(ctx, a, b, n, k)
  {
    hide RemovedKey, SortedKeys;
    var ks, xs := SortedKeys(a.fields.Keys - b.fields.Keys), RemovedKeys(ctx, a, b, n);
    forall k | k in a.fields && k !in b.fields ensures RemovedKey(ctx, a, b, n, k) in xs {
      assert k in ks;
      var i :| 0 <= i < |ks| && ks[i] == k;
      assert xs[i] == RemovedKey(ctx, a, b, n, k);
    }
    if e in xs {
      var i :| 0 <= i < |xs| && xs[i] == e;
      assert ks[i] in ks && e == RemovedKey(ctx, a, b, n, ks[i]);
    }
  }

  lemma ObjectMember(ctx: Context, a: Value, b: Value, from: Node, e: Edit)
    requires a.Obj? && b.Obj?
    ensures e in Walk(ctx, a, b, from) <==> ObjectEdit(ctx, a, b, Enter(ctx, from), e)
  {
    hide KeyNode, AddedKey, RemovedKey, AddedKeys, RemovedKeys, SortedKeys, WalkKeys;
    var n := Enter(ctx, from);
    AddedMember(ctx, a, b, n, e);
    RemovedMember(ctx, a, b, n, e);
    KeysMember(ctx, a, b, n, Common(a, b), e);
    assert Walk(ctx, a, b, from) ==
      AddedKeys(ctx, a, b, n) + RemovedKeys(ctx, a, b, n) + WalkKeys(ctx, a, b, n, Common(a, b));
    assert forall k :: k in Common(a, b) <==> k in a.fields && k in b.fields;
  }

  /** An edit of an array is in a common index or is a removed or added tail element. */
  predicate ArrayEdit(ctx: Context, a: Value, b: Value, n: Node, e: Edit)
    requires a.Arr? && b.Arr?
  {
    var m := Min(|a.items|, |b.items|);
    || (exists i :: 0 <= i < m && InItem(ctx, a, b, n, i, e))
    || (exists i :: m <= i < |a.items| && e == Edit(Removed, IndexNode(n, i).path, IndexNode(n, i).raw, a.items[i]))
    || (exists i :: m <= i < |b.items| && e == Edit(Added, IndexNode(n, i).path, IndexNode(n, i).raw, b.items[i]))
  }

  lemma TailMember(cls: Class, xs: seq<Value>, n: Node, from: nat, e: Edit)
    requires from <= |xs|
    ensures e in TailItems(cls, xs, n, from) <==>
      exists i :: from <= i < |xs| && e == Edit(cls, IndexNode(n, i).path, IndexNode(n, i).raw, xs[i])
  {
    hide IndexNode;
    var t := TailItems(cls, xs, n, from);
    forall i | from <= i < |xs| ensures Edit(cls, IndexNode(n, i).path, IndexNode(n, i).raw, xs[i]) in t {
      assert t[i - from] == Edit(cls, IndexNode(n, i).path, IndexNode(n, i).raw, xs[i]);
    }
    if e in t {
      var j :| 0 <= j < |t| && t[j] == e;
      assert e == Edit(cls, IndexNode(n, from + j).path, IndexNode(n, from + j).raw, xs[from + j]);
    }
  }

  lemma ArrayMember(ctx: Context, a: Value, b: Value, from: Node, e: Edit)
    requires a.Arr? && b.Arr?
    ensures e in Walk(ctx, a, b, from) <==> ArrayEdit(ctx, a, b, Enter(ctx, from), e)
  {
    hide IndexNode, TailItems, WalkItems;
    var n := Enter(ctx, from);
    var m := Min(|a.items|, |b.items|);
    ItemsMember(ctx, a, b, n, m, e);
    TailMember(Removed, a.items, n, m, e);
    TailMember(Added, b.items, n, m, e);
    assert Walk(ctx, a, b, from) ==
      WalkItems(ctx, a, b, n, m) + TailItems(Removed, a.items, n, m) + TailItems(Added, b.items, n, m);
  }

  // ---- where they are

  /** Every edit lies at or below its node; one exactly at the node is a change. */
  lemma {:induction false} EditsBelow(ctx: Context, a: Value, b: Value, from: Node, e: Edit)
    requires e in Walk(ctx, a, b, from)
    ensures from.raw <= e.raw
    ensures |e.raw| == |from.raw| ==> e.cls.Changed? && (!SameKind(a, b) || (!a.Obj? && !a.Arr?))
    decreases a
  {
    hide Label, IsAllowed, Child, SortedKeys;
    var n := Enter(ctx, from);
    if SameKind(a, b) && a.Obj? {
      ObjectMember(ctx, a, b, from, e);
      var keys := a.fields.Keys + b.fields.Keys;
      if k :| k in a.fields && k in b.fields && InKey(ctx, a, b, n, k, e) {
        EditsBelow(ctx, a.fields[k], b.fields[k], KeyNode(ctx, n, keys, k), e);
      }
    } else if SameKind(a, b) && a.Arr? {
      ArrayMember(ctx, a, b, from, e);
      if i :| 0 <= i < Min(|a.items|, |b.items|) && InItem(ctx, a, b, n, i, e) {
        EditsBelow(ctx, a.items[i], b.items[i], IndexNode(n, i), e);
      }
    }
  }

  /** The edits below one common key are exactly the edits of that child. */
  lemma KeyOwns(ctx: Context, a: Value, b: Value, from: Node, k: string, e: Edit)
    requires a.Obj? && b.Obj? && k in a.fields && k in b.fields
    ensures var c := KeyNode(ctx, Enter(ctx, from), a.fields.Keys + b.fields.Keys, k);
      e in Walk(ctx, a.fields[k], b.fields[k], c) <==> e in Walk(ctx, a, b, from) && c.raw <= e.raw
  {
    hide Label, IsAllowed, Child, SortedKeys, Walk;
    var n := Enter(ctx, from);
    var keys := a.fields.Keys + b.fields.Keys;
    var c := KeyNode(ctx, n, keys, k);
    ObjectMember(ctx, a, b, from, e);
    if e in Walk(ctx, a.fields[k], b.fields[k], c) {
      EditsBelow(ctx, a.fields[k], b.fields[k], c, e);
      assert InKey(ctx, a, b, n, k, e);
    }
    if e in Walk(ctx, a, b, from) && c.raw <= e.raw {
      assert e.raw[|from.raw|] == Key(k);
      if j :| j in a.fields && j in b.fields && InKey(ctx, a, b, n, j, e) {
        EditsBelow(ctx, a.fields[j], b.fields[j], KeyNode(ctx, n, keys, j), e);
        assert e.raw[|from.raw|] == Key(j);
      }
    }
  }

  lemma IndexOwns(ctx: Context, a: Value, b: Value, from: Node, i: nat, e: Edit)
    requires a.Arr? && b.Arr? && i < |a.items| && i < |b.items|
    ensures var c := IndexNode(Enter(ctx, from), i);
      e in Walk(ctx, a.items[i], b.items[i], c) <==> e in Walk(ctx, a, b, from) && c.raw <= e.raw
  {
    hide Child, Walk;
    var n := Enter(ctx, from);
    var c := IndexNode(n, i);
    ArrayMember(ctx, a, b, from, e);
    if e in Walk(ctx, a.items[i], b.items[i], c) {
      EditsBelow(ctx, a.items[i], b.items[i], c, e);
      assert InItem(ctx, a, b, n, i, e);
    }
    if e in Walk(ctx, a, b, from) && c.raw <= e.raw {
      assert e.raw[|from.raw|] == Index(i);
      if j :| 0 <= j < Min(|a.items|, |b.items|) && InItem(ctx, a, b, n, j, e) {
        EditsBelow(ctx, a.items[j], b.items[j], IndexNode(n, j), e);
        assert e.raw[|from.raw|] == Index(j);
      }
    }
  }

  /** No two edits of one diff share a raw path. */
  lemma {:induction false} OneEditPerPath(ctx: Context, a: Value, b: Value, from: Node, e: Edit, f: Edit)
    requires e in Walk(ctx, a, b, from) && f in Walk(ctx, a, b, from) && e.raw == f.raw
    ensures e == f
    decreases a
  {
    hide *;
    var n := Enter(ctx, from);
    if !SameKind(a, b) || (!a.Obj? && !a.Arr?) {
      LeafEdit(ctx, a, b, from, e, f);
    } else if a.Obj? {
      KindObj(a, b);
      if k :| k in a.fields && k in b.fields && KeyNode(ctx, n, a.fields.Keys + b.fields.Keys, k).raw <= e.raw {
        KeyOwns(ctx, a, b, from, k, e);
        KeyOwns(ctx, a, b, from, k, f);
        OneEditPerPath(ctx, a.fields[k], b.fields[k], KeyNode(ctx, n, a.fields.Keys + b.fields.Keys, k), e, f);
      } else {
        OneTopKey(ctx, a, b, from, e, f);
      }
    } else {
      KindArr(a, b);
      if i :| 0 <= i < Min(|a.items|, |b.items|) && IndexNode(n, i).raw <= e.raw {
        MinBelow(|a.items|, |b.items|);
        IndexOwns(ctx, a, b, from, i, e);
        IndexOwns(ctx, a, b, from, i, f);
        OneEditPerPath(ctx, a.items[i], b.items[i], IndexNode(n, i), e, f);
      } else {
        OneTopIndex(ctx, a, b, from, e, f);
      }
    }
  }

  lemma KindObj(a: Value, b: Value)
    requires SameKind(a, b) && a.Obj?
    ensures b.Obj?
  {
  }

  lemma KindArr(a: Value, b: Value)
    requires SameKind(a, b) && a.Arr?
    ensures b.Arr?
  {
  }

  lemma MinBelow(a: nat, b: nat)
    ensures Min(a, b) <= a && Min(a, b) <= b
  {
  }

  lemma LeafEdit(ctx: Context, a: Value, b: Value, from: Node, e: Edit, f: Edit)
    requires !SameKind(a, b) || (!a.Obj? && !a.Arr?)
    requires e in Walk(ctx, a, b, from) && f in Walk(ctx, a, b, from)
    ensures e == f == Edit(Changed, from.path, from.raw, b)
  {
  }

  lemma OneTopKey(ctx: Context, a: Value, b: Value, from: Node, e: Edit, f: Edit)
    requires a.Obj? && b.Obj? && e in Walk(ctx, a, b, from) && f in Walk(ctx, a, b, from) && e.raw == f.raw
    requires forall k :: k in a.fields && k in b.fields ==>
      !(KeyNode(ctx, Enter(ctx, from), a.fields.Keys + b.fields.Keys, k).raw <= e.raw)
    ensures e == f
  {
    hide Walk, Label, IsAllowed, Child;
    ObjectMember(ctx, a, b, from, e);
    ObjectMember(ctx, a, b, from, f);
    var n := Enter(ctx, from);
    forall k | k in a.fields && k in b.fields ensures !InKey(ctx, a, b, n, k, e) && !InKey(ctx, a, b, n, k, f) {
      KeyOwns(ctx, a, b, from, k, e);
      KeyOwns(ctx, a, b, from, k, f);
    }
    LastSeg(n.raw, e, f);
  }

  lemma OneTopIndex(ctx: Context, a: Value, b: Value, from: Node, e: Edit, f: Edit)
    requires a.Arr? && b.Arr? && e in Walk(ctx, a, b, from) && f in Walk(ctx, a, b, from) && e.raw == f.raw
    requires forall i :: 0 <= i < Min(|a.items|, |b.items|) ==> !(IndexNode(Enter(ctx, from), i).raw <= e.raw)
    ensures e == f
  {
    hide Walk, Child;
    ArrayMember(ctx, a, b, from, e);
    ArrayMember(ctx, a, b, from, f);
    var n := Enter(ctx, from);
    forall i | 0 <= i < Min(|a.items|, |b.items|) ensures !InItem(ctx, a, b, n, i, e) && !InItem(ctx, a, b, n, i, f) {
      IndexOwns(ctx, a, b, from, i, e);
      IndexOwns(ctx, a, b, from, i, f);
    }
    LastSeg(n.raw, e, f);
  }

  lemma LastSeg(raw: Path, e: Edit, f: Edit)
    requires e.raw == f.raw
    ensures forall s, t :: e.raw == raw + [s] && f.raw == raw + [t] ==> s == t
  {
    forall s, t | e.raw == raw + [s] && f.raw == raw + [t] ensures s == t {
      assert (raw + [s])[|raw|] == s && (raw + [t])[|raw|] == t;
    }
  }
}
