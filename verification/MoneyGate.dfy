/** The gate without a signature: it passes exactly when the head is the base plus permitted keys. */
module MoneyGate {
  import opened Prelude
  import opened Json
  import opened MoneyPaths
  import opened MoneyDiff
  import opened MoneyPatch

  // ---- decoded receipts

  predicate IsBatchList(t: Value) {
    t.Arr? && t.items != [] && forall j :: 0 <= j < |t.items| ==> t.items[j].Obj?
  }

  /** A nonempty list whose elements are batch envelopes or nonempty lists of them. */
  predicate IsReceipt(t: Value) {
    t.Arr? && t.items != [] && forall i :: 0 <= i < |t.items| ==> t.items[i].Obj? || IsBatchList(t.items[i])
  }

  function IndexText(i: nat): string {
    "/" + Decimal(i)
  }

  /** The display paths of the batch envelopes, as decoding collects them. */
  function Envelopes(t: Value): set<string>
    requires IsReceipt(t)
  {
    (set i | 0 <= i < |t.items| && t.items[i].Obj? :: IndexText(i))
    + (set i, j | 0 <= i < |t.items| && t.items[i].Arr? && 0 <= j < |t.items[i].items| :: IndexText(i) + IndexText(j))
  }

  /** Every object key anywhere in a tree. */
  function ObjectKeys(v: Value): set<string> {
    match v
    case Obj(f) => f.Keys + set k, l | k in f && l in ObjectKeys(f[k]) :: l
    case Arr(xs) => set i, l | 0 <= i < |xs| && l in ObjectKeys(xs[i]) :: l
    case _ => {}
  }

  function ContextOf(base: Value, head: Value, declared: Declarations, vocabulary: Schema): Context
    requires IsReceipt(base) && IsReceipt(head)
  {
    var left, right := Envelopes(base), Envelopes(head);
    Context(left * right, left + right, declared, ObjectKeys(base), vocabulary)
  }

  // ---- positions, without any path text

  /** An envelope's raw path: one index, or two inside a list of encoded batches. */
  predicate IsEnvelope(t: Value, raw: Path)
    requires IsReceipt(t)
  {
    || (|raw| == 1 && raw[0].Index? && raw[0].at < |t.items| && t.items[raw[0].at].Obj?)
    || (&& |raw| == 2 && raw[0].Index? && raw[1].Index? && raw[0].at < |t.items|
        && t.items[raw[0].at].Arr? && raw[1].at < |t.items[raw[0].at].items|)
  }

  function Init(raw: Path): Path
    requires raw != []
  {
    raw[..|raw| - 1]
  }

  function Last(raw: Path): Seg
    requires raw != []
  {
    raw[|raw| - 1]
  }

  /** What the position of a node permits, read off its raw path alone. */
  function ScopeAt(base: Value, head: Value, raw: Path): Scope
    requires IsReceipt(base) && IsReceipt(head)
  {
    if IsEnvelope(base, raw) && IsEnvelope(head, raw) then EnvelopeScope
    else PassedScope(base, head, raw)
  }

  function PassedScope(base: Value, head: Value, raw: Path): Scope
    requires IsReceipt(base) && IsReceipt(head)
  {
    if raw == [] then NoScope
    else if Last(raw) == Key("snapshots") && IsEnvelope(base, Init(raw)) && IsEnvelope(head, Init(raw))
    then SnapshotsScope
    else if Last(raw).Index? && Init(raw) != [] && Last(Init(raw)) == Key("snapshots")
            && IsEnvelope(base, Init(Init(raw))) && IsEnvelope(head, Init(Init(raw))) then SnapshotScope
    else NoScope
  }

  function Lookup(t: Value, raw: Path): Option<Value>
    decreases raw
  {
    if raw == [] then Some(t)
    else
      var parent := Lookup(t, Init(raw));
      if parent.None? then None else ChildOf(parent.value, Last(raw))
  }

  function ChildOf(t: Value, s: Seg): Option<Value> {
    match s
    case Key(k) => if t.Obj? && k in t.fields then Some(t.fields[k]) else None
    case Index(i) => if t.Arr? && i < |t.items| then Some(t.items[i]) else None
  }

  /** An object somewhere in the tree has this key. */
  ghost predicate KeyOccurs(t: Value, k: string) {
    exists raw :: Lookup(t, raw + [Key(k)]).Some?
  }

  /** A key the head may have that the base has not: the allowlisted constant directly in an envelope present on
      both sides, or a declared key with its exact value, directly in such an envelope or in one of its snapshots,
      that occurs nowhere in the base. */
  ghost predicate Permitted(base: Value, head: Value, declared: Declarations, p: Path)
    requires IsReceipt(base) && IsReceipt(head)
  {
    && p != [] && Last(p).Key?
    && Lookup(head, p).Some?
    && var k, v := Last(p).name, Lookup(head, p).value;
       var scope := ScopeAt(base, head, Init(p));
       || (scope.EnvelopeScope? && k in ALLOWLIST && v == Text(ALLOWLIST[k]))
       || (scope.EnvelopeScope? && k in declared.envelope && v == declared.envelope[k] && !KeyOccurs(base, k))
       || (scope.SnapshotScope? && k in declared.snapshot && v == declared.snapshot[k] && !KeyOccurs(base, k))
  }

  ghost predicate AllPermitted(base: Value, head: Value, declared: Declarations, A: set<Path>)
    requires IsReceipt(base) && IsReceipt(head)
  {
    forall p :: p in A ==> Permitted(base, head, declared, p)
  }

  lemma {:induction false} LookupCons(t: Value, s: Seg, rest: Path)
    ensures Lookup(t, [s] + rest) == match ChildOf(t, s) case None => None case Some(c) => Lookup(c, rest)
    decreases rest
  {
    hide ChildOf;
    if rest == [] {
      assert [s] + rest == [] + [s];
      LookupStep(t, [], s);
    } else {
      LookupCons(t, s, Init(rest));
      assert [s] + rest == [s] + Init(rest) + [Last(rest)];
      LookupStep(t, [s] + Init(rest), Last(rest));
    }
  }

  /** A path below a child is a path of the tree. */
  lemma OccursBelow(t: Value, s: Seg, c: Value, k: string)
    requires ChildOf(t, s) == Some(c) && KeyOccurs(c, k)
    ensures KeyOccurs(t, k)
  {
    hide Lookup;
    var raw :| Lookup(c, raw + [Key(k)]).Some?;
    LookupCons(t, s, raw + [Key(k)]);
    assert [s] + (raw + [Key(k)]) == ([s] + raw) + [Key(k)];
  }

  lemma OccursHere(t: Value, k: string)
    requires t.Obj? && k in t.fields
    ensures KeyOccurs(t, k)
  {
    LookupStep(t, [], Key(k));
    assert [] + [Key(k)] == [Key(k)];
  }

  lemma {:induction false} CollectedOccurs(t: Value, k: string)
    requires k in ObjectKeys(t)
    ensures KeyOccurs(t, k)
    decreases t
  {
    hide KeyOccurs, Lookup;
    match t
    case Obj(f) =>
      if k in f {
        OccursHere(t, k);
      } else {
        var j :| j in f && k in ObjectKeys(f[j]);
        CollectedOccurs(f[j], k);
        OccursBelow(t, Key(j), f[j], k);
      }
    case Arr(xs) =>
      var i :| 0 <= i < |xs| && k in ObjectKeys(xs[i]);
      CollectedOccurs(xs[i], k);
      OccursBelow(t, Index(i), xs[i], k);
    case _ =>
  }

  lemma {:induction false} OccurringCollected(t: Value, raw: Path, k: string)
    requires Lookup(t, raw + [Key(k)]).Some?
    ensures k in ObjectKeys(t)
    decreases raw
  {
    hide Lookup;
    if raw == [] {
      assert raw + [Key(k)] == [Key(k)] + [];
      LookupCons(t, Key(k), []);
    } else {
      assert raw + [Key(k)] == [raw[0]] + (raw[1..] + [Key(k)]);
      LookupCons(t, raw[0], raw[1..] + [Key(k)]);
      OccurringCollected(ChildOf(t, raw[0]).value, raw[1..], k);
    }
  }

  /** The collected keys are exactly those some path of the tree ends in, at any depth. */
  lemma KeysOccur(t: Value, k: string)
    ensures k in ObjectKeys(t) <==> KeyOccurs(t, k)
  {
    hide ObjectKeys, Lookup;
    if k in ObjectKeys(t) { CollectedOccurs(t, k); }
    if raw :| Lookup(t, raw + [Key(k)]).Some? { OccurringCollected(t, raw, k); }
  }

  lemma PermittedIsAllowed(base: Value, head: Value, declared: Declarations, vocabulary: Schema, raw: Path, k: string)
    requires IsReceipt(base) && IsReceipt(head) && Lookup(head, raw + [Key(k)]).Some?
    ensures Permitted(base, head, declared, raw + [Key(k)]) <==>
      IsAllowed(ContextOf(base, head, declared, vocabulary), ScopeAt(base, head, raw), k,
                Lookup(head, raw + [Key(k)]).value)
  {
    hide ScopeAt, Lookup, ObjectKeys, KeyOccurs, Envelopes, IsReceipt;
    KeysOccur(base, k);
    var p := raw + [Key(k)];
    assert Init(p) == raw && Last(p) == Key(k);
  }

  // ---- how display paths of walked nodes relate to positions

  function Slashes(s: string): nat {
    if s == [] then 0 else (if s[0] == '/' then 1 else 0) + Slashes(s[1..])
  }

  lemma {:induction false} SlashesConcat(s: string, t: string)
    ensures Slashes(s + t) == Slashes(s) + Slashes(t)
  {
    if s == [] {
      assert s + t == t;
    } else {
      assert (s + t)[1..] == s[1..] + t;
      SlashesConcat(s[1..], t);
    }
  }

  lemma {:induction false} NoSlashes(s: string)
    requires '/' !in s
    ensures Slashes(s) == 0
  {
    if s != [] { NoSlashes(s[1..]); }
  }

  lemma ChildSlashes(path: string, name: string)
    ensures Slashes(Child(path, name)) == Slashes(path) + 1
  {
    EscapedHasNoSlash(name);
    NoSlashes(EscapeLabel(name));
    SlashesConcat(path + "/", EscapeLabel(name));
    SlashesConcat(path, "/");
  }

  lemma {:induction false} DigitsUnescaped(s: string)
    requires forall i :: 0 <= i < |s| ==> '0' <= s[i] <= '9'
    ensures EscapeLabel(s) == s
  {
    if s != [] {
      EscapeCons(s);
      DigitsUnescaped(s[1..]);
    }
  }

  lemma IndexChild(path: string, i: nat)
    ensures Child(path, Decimal(i)) == path + IndexText(i)
  {
    DigitsUnescaped(Decimal(i));
  }

  lemma IndexTextSlashes(i: nat)
    ensures Slashes(IndexText(i)) == 1
  {
    IndexChild("", i);
    ChildSlashes("", Decimal(i));
    assert "" + IndexText(i) == IndexText(i);
  }

  lemma IndexChildUnique(p: string, i: nat, q: string, j: nat)
    requires p + IndexText(i) == q + IndexText(j)
    ensures p == q && i == j
  {
    IndexChild(p, i);
    IndexChild(q, j);
    ChildInjective(p, Decimal(i), q, Decimal(j));
    DecimalInjective(i, j);
  }

  /** Envelope paths have one or two slashes, and those with one or two indexes are read back exactly. */
  lemma EnvelopeText(t: Value, s: string)
    requires IsReceipt(t) && s in Envelopes(t)
    ensures Slashes(s) == 1 || Slashes(s) == 2
  {
    if i :| 0 <= i < |t.items| && t.items[i].Obj? && s == IndexText(i) {
      IndexTextSlashes(i);
    } else {
      var i, j :| 0 <= i < |t.items| && t.items[i].Arr? && 0 <= j < |t.items[i].items|
        && s == IndexText(i) + IndexText(j);
      IndexTextSlashes(i);
      IndexTextSlashes(j);
      SlashesConcat(IndexText(i), IndexText(j));
    }
  }

  lemma OneIndex(t: Value, i: nat)
    requires IsReceipt(t)
    ensures IndexText(i) in Envelopes(t) <==> IsEnvelope(t, [Index(i)])
  {
    var s := IndexText(i);
    if s in Envelopes(t) {
      IndexTextSlashes(i);
      if k :| 0 <= k < |t.items| && t.items[k].Obj? && s == IndexText(k) {
        IndexChildUnique("", i, "", k);
      } else {
        var k, j :| 0 <= k < |t.items| && t.items[k].Arr? && 0 <= j < |t.items[k].items|
          && s == IndexText(k) + IndexText(j);
        IndexTextSlashes(k);
        IndexTextSlashes(j);
        SlashesConcat(IndexText(k), IndexText(j));
      }
    }
  }

  lemma TwoLabels(t: Value, i: nat, name: string)
    requires IsReceipt(t) && i < |t.items|
    ensures Child(IndexText(i), name) in Envelopes(t) ==>
      t.items[i].Arr? && exists j: nat :: j < |t.items[i].items| && name == Decimal(j)
  {
    var s := Child(IndexText(i), name);
    if s in Envelopes(t) {
      IndexTextSlashes(i);
      ChildSlashes(IndexText(i), name);
      if k :| 0 <= k < |t.items| && t.items[k].Obj? && s == IndexText(k) {
        IndexTextSlashes(k);
      } else {
        var k, j :| 0 <= k < |t.items| && t.items[k].Arr? && 0 <= j < |t.items[k].items|
          && s == IndexText(k) + IndexText(j);
        IndexChild(IndexText(k), j);
        ChildInjective(IndexText(i), name, IndexText(k), Decimal(j));
        IndexChildUnique("", i, "", k);
        assert j < |t.items[i].items| && name == Decimal(j);
      }
    }
  }

  lemma TwoIndexes(t: Value, i: nat, j: nat)
    requires IsReceipt(t) && i < |t.items|
    ensures Child(IndexText(i), Decimal(j)) in Envelopes(t) <==> IsEnvelope(t, [Index(i), Index(j)])
  {
    TwoLabels(t, i, Decimal(j));
    IndexChild(IndexText(i), j);
    if Child(IndexText(i), Decimal(j)) in Envelopes(t) {
      var n: nat :| n < |t.items[i].items| && Decimal(j) == Decimal(n);
      DecimalInjective(j, n);
    }
  }

  ghost predicate SecondText(raw: Path, path: string)
    requires |raw| == 2 && raw[0].Index?
  {
    exists name :: path == Child(IndexText(raw[0].at), name) && (raw[1].Index? ==> name == Decimal(raw[1].at))
  }

  /** What holds of every node the walk visits. */
  ghost predicate Visited(base: Value, head: Value, a: Value, b: Value, n: Node)
    requires IsReceipt(base) && IsReceipt(head)
  {
    && Lookup(base, n.raw) == Some(a) && Lookup(head, n.raw) == Some(b)
    && Slashes(n.path) == |n.raw|
    && (n.raw == [] ==> n.path == "")
    && (|n.raw| == 1 ==> n.raw[0].Index? && n.path == IndexText(n.raw[0].at))
    && (|n.raw| == 2 ==> n.raw[0].Index? && SecondText(n.raw, n.path))
    && n.scope == PassedScope(base, head, n.raw)
  }

  lemma LookupStep(t: Value, raw: Path, s: Seg)
    ensures Init(raw + [s]) == raw && Last(raw + [s]) == s
    ensures Lookup(t, raw).None? ==> Lookup(t, raw + [s]).None?
    ensures Lookup(t, raw).Some? ==> Lookup(t, raw + [s]) == ChildOf(Lookup(t, raw).value, s)
  {
    assert Init(raw + [s]) == raw;
  }

  lemma DeepPath(base: Value, head: Value, path: string)
    requires IsReceipt(base) && IsReceipt(head) && Slashes(path) != 1 && Slashes(path) != 2
    ensures path !in Envelopes(base) && path !in Envelopes(head)
  {
    hide Envelopes, Slashes, IsReceipt;
    if path in Envelopes(base) { EnvelopeText(base, path); }
    if path in Envelopes(head) { EnvelopeText(head, path); }
  }

  /** Below an object the second segment is a key, and such a path is never an envelope path. */
  lemma KeyPathNotEnvelope(t: Value, i: nat, k: string, name: string)
    requires IsReceipt(t) && Lookup(t, [Index(i), Key(k)]).Some?
    ensures Child(IndexText(i), name) !in Envelopes(t)
  {
    hide Envelopes, Child, IndexText, IsReceipt;
    LookupStep(t, [], Index(i));
    LookupStep(t, [Index(i)], Key(k));
    assert [] + [Index(i)] == [Index(i)] && [Index(i)] + [Key(k)] == [Index(i), Key(k)];
    TwoLabels(t, i, name);
  }

  /** The display-path test of the walk agrees with the positions of the envelopes. */
  lemma EnvelopeTest(base: Value, head: Value, a: Value, b: Value, n: Node, t: Value)
    requires IsReceipt(base) && IsReceipt(head) && Visited(base, head, a, b, n) && (t == base || t == head)
    ensures n.path in Envelopes(t) <==> IsEnvelope(t, n.raw)
  {
    hide Envelopes, Slashes, Child, IsReceipt, IndexText, PassedScope;
    if |n.raw| == 1 {
      OneIndex(t, n.raw[0].at);
      assert n.raw == [n.raw[0]];
    } else if |n.raw| == 2 {
      var i := n.raw[0].at;
      var name :| n.path == Child(IndexText(i), name) && (n.raw[1].Index? ==> name == Decimal(n.raw[1].at));
      assert n.raw == [n.raw[0], n.raw[1]];
      SecondLevel(t, i, n.raw[1]);
      if n.raw[1].Index? {
        TwoIndexes(t, i, n.raw[1].at);
      } else {
        KeyPathNotEnvelope(t, i, n.raw[1].name, name);
      }
    } else {
      DeepPath(base, head, n.path);
    }
  }

  lemma SecondLevel(t: Value, i: nat, s: Seg)
    requires IsReceipt(t) && Lookup(t, [Index(i), s]).Some?
    ensures i < |t.items|
  {
    LookupStep(t, [], Index(i));
    LookupStep(t, [Index(i)], s);
    assert [] + [Index(i)] == [Index(i)] && [Index(i)] + [s] == [Index(i), s];
  }

  lemma ScopeIsPosition(base: Value, head: Value, declared: Declarations, vocabulary: Schema, a: Value, b: Value,
                        n: Node)
    requires IsReceipt(base) && IsReceipt(head) && Visited(base, head, a, b, n)
    ensures Enter(ContextOf(base, head, declared, vocabulary), n).scope == ScopeAt(base, head, n.raw)
  {
    hide Envelopes, Slashes, Child, IsReceipt, IndexText, ObjectKeys, Lookup;
    EnvelopeTest(base, head, a, b, n, base);
    EnvelopeTest(base, head, a, b, n, head);
  }

  lemma VisitedKey(base: Value, head: Value, declared: Declarations, vocabulary: Schema, a: Value, b: Value, n: Node,
                   k: string)
    requires IsReceipt(base) && IsReceipt(head) && Visited(base, head, a, b, n)
    requires a.Obj? && b.Obj? && k in a.fields && k in b.fields
    ensures var ctx := ContextOf(base, head, declared, vocabulary);
      Visited(base, head, a.fields[k], b.fields[k], KeyNode(ctx, Enter(ctx, n), a.fields.Keys + b.fields.Keys, k))
  {
    hide Envelopes, Slashes, Child, IndexText, ObjectKeys, Label, Lookup;
    var ctx := ContextOf(base, head, declared, vocabulary);
    var m := Enter(ctx, n);
    ScopeIsPosition(base, head, declared, vocabulary, a, b, n);
    LookupStep(base, n.raw, Key(k));
    LookupStep(head, n.raw, Key(k));
    ChildSlashes(n.path, Label(ctx, m, a.fields.Keys + b.fields.Keys, k));
    NotRoot(base, a, n.raw);
    assert |n.raw| == 1 ==> n.raw + [Key(k)] == [n.raw[0], Key(k)];
  }

  lemma NotRoot(base: Value, a: Value, raw: Path)
    requires IsReceipt(base) && Lookup(base, raw) == Some(a) && a.Obj?
    ensures raw != []
  {
  }

  lemma VisitedIndex(base: Value, head: Value, declared: Declarations, vocabulary: Schema, a: Value, b: Value,
                     n: Node, i: nat)
    requires IsReceipt(base) && IsReceipt(head) && Visited(base, head, a, b, n)
    requires a.Arr? && b.Arr? && i < |a.items| && i < |b.items|
    ensures var ctx := ContextOf(base, head, declared, vocabulary);
      Visited(base, head, a.items[i], b.items[i], IndexNode(Enter(ctx, n), i))
  {
    hide Envelopes, Slashes, Child, IndexText, ObjectKeys, Lookup;
    var ctx := ContextOf(base, head, declared, vocabulary);
    ScopeIsPosition(base, head, declared, vocabulary, a, b, n);
    LookupStep(base, n.raw, Index(i));
    LookupStep(head, n.raw, Index(i));
    ChildSlashes(n.path, Decimal(i));
    if n.raw == [] {
      IndexChild(n.path, i);
      assert n.path + IndexText(i) == IndexText(i);
      assert n.raw + [Index(i)] == [Index(i)];
    }
    assert |n.raw| == 1 ==> n.raw + [Index(i)] == [n.raw[0], Index(i)];
  }

  lemma VisitedRoot(base: Value, head: Value)
    requires IsReceipt(base) && IsReceipt(head)
    ensures Visited(base, head, base, head, ROOT)
  {
  }

  // ---- the two directions

  /** Every allowed addition the walk records is a permitted one. */
  lemma {:induction false} AllowedIsPermitted(base: Value, head: Value, declared: Declarations, vocabulary: Schema,
                                              a: Value, b: Value, n: Node, e: Edit)
    requires IsReceipt(base) && IsReceipt(head) && Visited(base, head, a, b, n)
    requires e in Walk(ContextOf(base, head, declared, vocabulary), a, b, n) && e.cls.Allowed?
    ensures Permitted(base, head, declared, e.raw)
    decreases a
  {
    hide *;
    var ctx := ContextOf(base, head, declared, vocabulary);
    if !SameKind(a, b) || (!a.Obj? && !a.Arr?) {
      LeafEdit(ctx, a, b, n, e, e);
    } else if a.Obj? {
      KindObj(a, b);
      if k :| k in a.fields && k in b.fields && InKey(ctx, a, b, Enter(ctx, n), k, e) {
        VisitedKey(base, head, declared, vocabulary, a, b, n, k);
        InKeyIs(ctx, a, b, Enter(ctx, n), k, e);
        AllowedIsPermitted(base, head, declared, vocabulary, a.fields[k], b.fields[k],
                           KeyNode(ctx, Enter(ctx, n), a.fields.Keys + b.fields.Keys, k), e);
      } else {
        AllowedHere(base, head, declared, vocabulary, a, b, n, e);
      }
    } else {
      KindArr(a, b);
      MinBelow(|a.items|, |b.items|);
      AllowedInItem(ctx, a, b, n, e);
      var i :| 0 <= i < Min(|a.items|, |b.items|) && InItem(ctx, a, b, Enter(ctx, n), i, e);
      VisitedIndex(base, head, declared, vocabulary, a, b, n, i);
      InItemIs(ctx, a, b, Enter(ctx, n), i, e);
      AllowedIsPermitted(base, head, declared, vocabulary, a.items[i], b.items[i], IndexNode(Enter(ctx, n), i), e);
    }
  }

  lemma InKeyIs(ctx: Context, a: Value, b: Value, n: Node, k: string, e: Edit)
    requires a.Obj? && b.Obj? && k in a.fields && k in b.fields && InKey(ctx, a, b, n, k, e)
    ensures e in Walk(ctx, a.fields[k], b.fields[k], KeyNode(ctx, n, a.fields.Keys + b.fields.Keys, k))
  {
  }

  lemma InItemIs(ctx: Context, a: Value, b: Value, n: Node, i: nat, e: Edit)
    requires a.Arr? && b.Arr? && i < |a.items| && i < |b.items| && InItem(ctx, a, b, n, i, e)
    ensures e in Walk(ctx, a.items[i], b.items[i], IndexNode(n, i))
  {
  }

  lemma AllowedInItem(ctx: Context, a: Value, b: Value, n: Node, e: Edit)
    requires a.Arr? && b.Arr? && e in Walk(ctx, a, b, n) && e.cls.Allowed?
    ensures exists i :: 0 <= i < Min(|a.items|, |b.items|) && InItem(ctx, a, b, Enter(ctx, n), i, e)
  {
    hide Walk, IndexNode, InItem;
    ArrayMember(ctx, a, b, n, e);
  }

  lemma AllowedHere(base: Value, head: Value, declared: Declarations, vocabulary: Schema, a: Value, b: Value,
                    n: Node, e: Edit)
    requires IsReceipt(base) && IsReceipt(head) && Visited(base, head, a, b, n) && a.Obj? && b.Obj?
    requires var ctx := ContextOf(base, head, declared, vocabulary);
      e in Walk(ctx, a, b, n) && e.cls.Allowed?
      && forall k :: k in a.fields && k in b.fields ==> !InKey(ctx, a, b, Enter(ctx, n), k, e)
    ensures Permitted(base, head, declared, e.raw)
  {
    hide Walk, InKey, IsAllowed, Label, Child, Permitted, ScopeAt, IsReceipt, Envelopes, ObjectKeys, Lookup, Slashes;
    var ctx := ContextOf(base, head, declared, vocabulary);
    ObjectMember(ctx, a, b, n, e);
    var k :| k in b.fields && k !in a.fields && e == AddedKey(ctx, a, b, Enter(ctx, n), k);
    ScopeIsPosition(base, head, declared, vocabulary, a, b, n);
    LookupStep(head, n.raw, Key(k));
    PermittedIsAllowed(base, head, declared, vocabulary, n.raw, k);
  }

  /** If erasing permitted keys from the head gives the base, the walk records nothing but allowed additions. */
  lemma {:induction false} PermittedIsClean(base: Value, head: Value, declared: Declarations, vocabulary: Schema,
                                            A: set<Path>, a: Value, b: Value, n: Node, e: Edit)
    requires IsReceipt(base) && IsReceipt(head) && Visited(base, head, a, b, n)
    requires AllPermitted(base, head, declared, A) && Erase(b, n.raw, A) == a
    requires e in Walk(ContextOf(base, head, declared, vocabulary), a, b, n)
    ensures e.cls.Allowed?
    decreases a
  {
    hide *;
    var ctx := ContextOf(base, head, declared, vocabulary);
    EraseKind(b, n.raw, A);
    if !a.Obj? && !a.Arr? {
      CleanLeaf(ctx, b, n, A);
    } else if a.Obj? {
      KindObj(a, b);
      if k :| k in a.fields && k in b.fields && InKey(ctx, a, b, Enter(ctx, n), k, e) {
        VisitedKey(base, head, declared, vocabulary, a, b, n, k);
        InKeyIs(ctx, a, b, Enter(ctx, n), k, e);
        KeyNodeRaw(ctx, a, b, n, k);
        ErasedField(b, n.raw, A, k);
        PermittedIsClean(base, head, declared, vocabulary, A, a.fields[k], b.fields[k],
                         KeyNode(ctx, Enter(ctx, n), a.fields.Keys + b.fields.Keys, k), e);
      } else {
        CleanHere(base, head, declared, vocabulary, A, a, b, n, e);
      }
    } else {
      KindArr(a, b);
      ErasedItems(b, n.raw, A);
      MinBelow(|a.items|, |b.items|);
      SameLengthInItem(ctx, a, b, n, e);
      var i :| 0 <= i < Min(|a.items|, |b.items|) && InItem(ctx, a, b, Enter(ctx, n), i, e);
      VisitedIndex(base, head, declared, vocabulary, a, b, n, i);
      InItemIs(ctx, a, b, Enter(ctx, n), i, e);
      IndexNodeRaw(ctx, n, i);
      PermittedIsClean(base, head, declared, vocabulary, A, a.items[i], b.items[i], IndexNode(Enter(ctx, n), i), e);
    }
  }

  lemma EraseKind(b: Value, raw: Path, A: set<Path>)
    ensures SameKind(Erase(b, raw, A), b)
    ensures !b.Obj? && !b.Arr? ==> Erase(b, raw, A) == b
  {
  }

  lemma CleanLeaf(ctx: Context, b: Value, n: Node, A: set<Path>)
    requires !Erase(b, n.raw, A).Obj? && !Erase(b, n.raw, A).Arr?
    ensures Walk(ctx, Erase(b, n.raw, A), b, n) == []
  {
    EraseKind(b, n.raw, A);
  }

  lemma SameLengthInItem(ctx: Context, a: Value, b: Value, n: Node, e: Edit)
    requires a.Arr? && b.Arr? && |a.items| == |b.items| && e in Walk(ctx, a, b, n)
    ensures exists i :: 0 <= i < Min(|a.items|, |b.items|) && InItem(ctx, a, b, Enter(ctx, n), i, e)
  {
    hide Walk, IndexNode, InItem;
    ArrayMember(ctx, a, b, n, e);
  }

  lemma CleanHere(base: Value, head: Value, declared: Declarations, vocabulary: Schema, A: set<Path>,
                  a: Value, b: Value, n: Node, e: Edit)
    requires IsReceipt(base) && IsReceipt(head) && Visited(base, head, a, b, n) && a.Obj? && b.Obj?
    requires AllPermitted(base, head, declared, A) && Erase(b, n.raw, A) == a
    requires var ctx := ContextOf(base, head, declared, vocabulary);
      e in Walk(ctx, a, b, n) && forall k :: k in a.fields && k in b.fields ==> !InKey(ctx, a, b, Enter(ctx, n), k, e)
    ensures e.cls.Allowed?
  {
    hide Walk, InKey, IsAllowed, Label, Child, Permitted, ScopeAt, IsReceipt, Envelopes, ObjectKeys, Lookup, Slashes,
      Erase;
    var ctx := ContextOf(base, head, declared, vocabulary);
    ObjectMember(ctx, a, b, n, e);
    forall k ensures k in a.fields <==> k in b.fields && n.raw + [Key(k)] !in A { ErasedField(b, n.raw, A, k); }
    var k :| k in b.fields && k !in a.fields && e == AddedKey(ctx, a, b, Enter(ctx, n), k);
    ScopeIsPosition(base, head, declared, vocabulary, a, b, n);
    LookupStep(head, n.raw, Key(k));
    PermittedIsAllowed(base, head, declared, vocabulary, n.raw, k);
  }

  // ---- the gate

  /** `has_forbidden_diff` without a signed list. */
  predicate NoForbiddenDiff(es: seq<Edit>) {
    forall e :: e in es ==> e.cls.Allowed?
  }

  ghost predicate OnlyPermittedAdditions(base: Value, head: Value, declared: Declarations)
    requires IsReceipt(base) && IsReceipt(head)
  {
    exists A: set<Path> :: AllPermitted(base, head, declared, A) && Erase(head, [], A) == base
  }

  lemma {:induction false} PatchNothing(t: Value, at: Path)
    ensures Patch(t, at, map[]) == t
    decreases t
  {
    match t
    case Obj(f) =>
      var p := Patch(t, at, map[]).fields;
      forall k | k in f ensures PatchField(t, at, map[], k) == f[k] { PatchNothing(f[k], at + [Key(k)]); }
      assert NewNames(map[], at) == {};
      assert p == f;
    case Arr(xs) =>
      PatchNoItems(t, at, |xs|);
      assert xs + [] == xs;
    case _ =>
  }

  lemma {:induction false} PatchNoItems(t: Value, at: Path, n: nat)
    requires t.Arr? && n <= |t.items|
    ensures PatchItems(t, at, map[], n) == t.items[..n]
    decreases t, n
  {
    hide Patch;
    if n > 0 {
      PatchNothing(t.items[n - 1], at + [Index(n - 1)]);
      PatchNoItems(t, at, n - 1);
      assert t.items[..n] == t.items[..n - 1] + [t.items[n - 1]];
    }
  }

  /** The gate passes exactly when the head is the base plus permitted additions and nothing else. */
  lemma GateIsExact(base: Value, head: Value, declared: Declarations, vocabulary: Schema)
    requires IsReceipt(base) && IsReceipt(head)
    ensures NoForbiddenDiff(Walk(ContextOf(base, head, declared, vocabulary), base, head, ROOT)) <==>
      OnlyPermittedAdditions(base, head, declared)
  {
    hide Walk, ContextOf, Permitted, Erase, IsReceipt, Visited, Patch, ChangesOf;
    var ctx := ContextOf(base, head, declared, vocabulary);
    var es := Walk(ctx, base, head, ROOT);
    VisitedRoot(base, head);
    if NoForbiddenDiff(es) {
      var A := AllowedPaths(es);
      forall p | p in A ensures Permitted(base, head, declared, p) {
        var e :| e in es && e.cls.Allowed? && e.raw == p;
        AllowedIsPermitted(base, head, declared, vocabulary, base, head, ROOT, e);
      }
      ObservedPatch(ctx, base, head);
      NothingRemains(es);
      PatchNothing(base, []);
      assert Erase(head, [], A) == base;
    }
    if OnlyPermittedAdditions(base, head, declared) {
      var A: set<Path> :| AllPermitted(base, head, declared, A) && Erase(head, [], A) == base;
      forall e | e in es ensures e.cls.Allowed? {
        PermittedIsClean(base, head, declared, vocabulary, A, base, head, ROOT, e);
      }
    }
  }

  lemma NothingRemains(es: seq<Edit>)
    requires NoForbiddenDiff(es)
    ensures Remaining(es) == [] && ChangesOf(Remaining(es)) == map[]
  {
    assert forall e :: e !in Remaining(es);
    assert PathsOf([]) == {};
  }

  /** Identical receipts always pass. */
  lemma IdenticalPasses(t: Value, declared: Declarations, vocabulary: Schema)
    requires IsReceipt(t)
    ensures NoForbiddenDiff(Walk(ContextOf(t, t, declared, vocabulary), t, t, ROOT))
  {
    hide Walk, ContextOf, Erase, IsReceipt;
    EraseNothing(t, [], {});
    assert OnlyPermittedAdditions(t, t, declared);
    GateIsExact(t, t, declared, vocabulary);
  }
}
