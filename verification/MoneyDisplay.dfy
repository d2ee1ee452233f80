/** Display paths: redaction labels are distinct, so no two edits of one diff are shown under one path. */
module MoneyDisplay {
  import opened Prelude
  import opened Json
  import opened MoneyPaths
  import opened MoneyDiff
  import opened MoneyPatch

  predicate LooksRedacted(s: string) {
    "<key#" <= s
  }

  predicate CleanSchema(s: Schema) {
    forall k :: k in s.children ==> !LooksRedacted(k) && CleanSchema(s.children[k])
  }

  /** No shown or declared key looks like a redaction label; declarations with such a key are refused. */
  predicate CleanContext(ctx: Context) {
    && CleanSchema(ctx.vocabulary)
    && (forall k :: k in ctx.declared.envelope ==> !LooksRedacted(k))
    && (forall k :: k in ctx.declared.snapshot ==> !LooksRedacted(k))
  }

  lemma OrdinalInjective(i: nat, j: nat)
    requires "<key#" + Decimal(i) + ">" == "<key#" + Decimal(j) + ">"
    ensures i == j
  {
    var s, t := "<key#" + Decimal(i) + ">", "<key#" + Decimal(j) + ">";
    assert |Decimal(i)| == |s| - 6 && |Decimal(j)| == |t| - 6;
    assert Decimal(i) == s[5..|s| - 1] && Decimal(j) == t[5..|t| - 1];
    DecimalInjective(i, j);
  }

  /** Labels within one object are distinct. */
  lemma LabelInjective(ctx: Context, n: Node, keys: set<string>, k: string, j: string)
    requires CleanContext(ctx) && CleanSchema(n.schema) && k in keys && j in keys
    requires Label(ctx, n, keys, k) == Label(ctx, n, keys, j)
    ensures k == j
  {
    var ks := SortedKeys(keys);
    var x, y := "<key#" + Decimal(Position(ks, k)) + ">", "<key#" + Decimal(Position(ks, j)) + ">";
    assert LooksRedacted(x) && LooksRedacted(y);
    var shownK := k in n.schema.children || k in DeclaredAt(ctx, n.scope);
    var shownJ := j in n.schema.children || j in DeclaredAt(ctx, n.scope);
    assert shownK ==> !LooksRedacted(k);
    assert shownJ ==> !LooksRedacted(j);
    if !shownK && !shownJ {
      OrdinalInjective(Position(ks, k), Position(ks, j));
    }
  }

  /** A path at or below another. */
  predicate Below(p: string, q: string) {
    p <= q && (|p| == |q| || q[|p|] == '/')
  }

  lemma SegmentUnique(base: string, s: string, t: string, q: string)
    requires '/' !in s && '/' !in t && Below(base + "/" + s, q) && Below(base + "/" + t, q)
    ensures s == t
  {
    SegmentNotShorter(base, s, t, q);
    SegmentNotShorter(base, t, s, q);
    var m := |base| + 1;
    assert s == (base + "/" + s)[m..] == q[m..m + |s|];
    assert t == (base + "/" + t)[m..] == q[m..m + |t|];
  }

  lemma SegmentNotShorter(base: string, s: string, t: string, q: string)
    requires '/' !in t && Below(base + "/" + s, q) && Below(base + "/" + t, q)
    ensures |s| >= |t|
  {
    var m := |base| + 1;
    assert forall i :: 0 <= i < |t| ==> (base + "/" + t)[m + i] == t[i];
    assert forall i :: m <= i < m + |t| ==> q[i] == t[i - m] && q[i] != '/';
    assert |base + "/" + s| == m + |s|;
  }

  lemma ChildUnique(path: string, a: string, b: string, q: string)
    requires Below(Child(path, a), q) && Below(Child(path, b), q)
    ensures a == b
  {
    EscapedHasNoSlash(a);
    EscapedHasNoSlash(b);
    SegmentUnique(path, EscapeLabel(a), EscapeLabel(b), q);
    EscapeInjective(a, b);
  }

  lemma BelowChild(path: string, name: string, q: string)
    requires Below(Child(path, name), q)
    ensures Below(path, q)
  {
    assert Child(path, name)[|path|] == '/';
  }

  lemma {:induction false} EditsShownBelow(ctx: Context, a: Value, b: Value, from: Node, e: Edit)
    requires e in Walk(ctx, a, b, from)
    ensures Below(from.path, e.path)
    decreases a
  {
    hide *;
    if !SameKind(a, b) || (!a.Obj? && !a.Arr?) {
      LeafEdit(ctx, a, b, from, e, e);
      BelowSelf(from.path);
    } else if a.Obj? {
      KindObj(a, b);
      var k := ShownKey(ctx, a, b, from, e);
      ShownStep(ctx, a, b, from, k, e.path);
    } else {
      KindArr(a, b);
      var i := ShownIndex(ctx, a, b, from, e);
      ShownItem(ctx, from, i, e.path);
    }
  }

  lemma BelowSelf(p: string)
    ensures Below(p, p)
  {
  }

  lemma ShownStep(ctx: Context, a: Value, b: Value, from: Node, k: string, q: string)
    requires a.Obj? && b.Obj? && k in a.fields.Keys + b.fields.Keys
    requires Below(KeyNode(ctx, Enter(ctx, from), a.fields.Keys + b.fields.Keys, k).path, q)
    ensures Below(from.path, q)
  {
    hide Label, Child, Below;
    BelowChild(from.path, Label(ctx, Enter(ctx, from), a.fields.Keys + b.fields.Keys, k), q);
  }

  lemma ShownItem(ctx: Context, from: Node, i: nat, q: string)
    requires Below(IndexNode(Enter(ctx, from), i).path, q)
    ensures Below(from.path, q)
  {
    hide Child, Below;
    BelowChild(from.path, Decimal(i), q);
  }

  /** The key an edit of an object lies under, on screen and in its raw path. */
  lemma {:induction false} ShownKey(ctx: Context, a: Value, b: Value, from: Node, e: Edit) returns (k: string)
    requires a.Obj? && b.Obj? && e in Walk(ctx, a, b, from)
    ensures k in a.fields.Keys + b.fields.Keys
    ensures var c := KeyNode(ctx, Enter(ctx, from), a.fields.Keys + b.fields.Keys, k);
      c.raw <= e.raw && Below(c.path, e.path) && ((k in a.fields) != (k in b.fields) ==> e.raw == c.raw)
    decreases a, 0
  {
    hide Walk, Label, IsAllowed, Child;
    var n := Enter(ctx, from);
    ObjectMember(ctx, a, b, from, e);
    if j :| j in a.fields && j in b.fields && InKey(ctx, a, b, n, j, e) {
      k := j;
      var c := KeyNode(ctx, n, a.fields.Keys + b.fields.Keys, k);
      EditsBelow(ctx, a.fields[k], b.fields[k], c, e);
      EditsShownBelow(ctx, a.fields[k], b.fields[k], c, e);
    } else if j :| j in b.fields && j !in a.fields && e == AddedKey(ctx, a, b, n, j) {
      k := j;
    } else {
      k :| k in a.fields && k !in b.fields && e == RemovedKey(ctx, a, b, n, k);
    }
  }

  lemma {:induction false} ShownIndex(ctx: Context, a: Value, b: Value, from: Node, e: Edit) returns (i: nat)
    requires a.Arr? && b.Arr? && e in Walk(ctx, a, b, from)
    ensures var c := IndexNode(Enter(ctx, from), i);
      c.raw <= e.raw && Below(c.path, e.path) && (Min(|a.items|, |b.items|) <= i ==> e.raw == c.raw)
    decreases a, 0
  {
    hide Walk, Child;
    var n := Enter(ctx, from);
    ArrayMember(ctx, a, b, from, e);
    var m := Min(|a.items|, |b.items|);
    if j :| 0 <= j < m && InItem(ctx, a, b, n, j, e) {
      i := j;
      EditsBelow(ctx, a.items[i], b.items[i], IndexNode(n, i), e);
      EditsShownBelow(ctx, a.items[i], b.items[i], IndexNode(n, i), e);
    } else if j :| m <= j < |a.items| && e == Edit(Removed, IndexNode(n, j).path, IndexNode(n, j).raw, a.items[j]) {
      i := j;
    } else {
      i :| m <= i < |b.items| && e == Edit(Added, IndexNode(n, i).path, IndexNode(n, i).raw, b.items[i]);
    }
  }

  lemma SameKeyShown(ctx: Context, a: Value, b: Value, from: Node, k: string, j: string, q: string)
    requires CleanContext(ctx) && CleanSchema(Enter(ctx, from).schema) && a.Obj? && b.Obj?
    requires k in a.fields.Keys + b.fields.Keys && j in a.fields.Keys + b.fields.Keys
    requires Below(KeyNode(ctx, Enter(ctx, from), a.fields.Keys + b.fields.Keys, k).path, q)
    requires Below(KeyNode(ctx, Enter(ctx, from), a.fields.Keys + b.fields.Keys, j).path, q)
    ensures k == j
  {
    hide Label, Child, Below, CleanSchema, CleanContext;
    var n, keys := Enter(ctx, from), a.fields.Keys + b.fields.Keys;
    ChildUnique(n.path, Label(ctx, n, keys, k), Label(ctx, n, keys, j), q);
    LabelInjective(ctx, n, keys, k, j);
  }

  lemma SameIndexShown(n: Node, i: nat, j: nat, q: string)
    requires Below(IndexNode(n, i).path, q) && Below(IndexNode(n, j).path, q)
    ensures i == j
  {
    hide Child, Below;
    ChildUnique(n.path, Decimal(i), Decimal(j), q);
    DecimalInjective(i, j);
  }

  lemma CleanEnter(ctx: Context, from: Node)
    requires CleanContext(ctx) && CleanSchema(from.schema)
    ensures CleanSchema(Enter(ctx, from).schema)
  {
  }

  lemma CleanKey(ctx: Context, n: Node, keys: set<string>, k: string)
    requires CleanSchema(n.schema) && k in keys
    ensures CleanSchema(KeyNode(ctx, n, keys, k).schema)
  {
  }

  /** Distinct raw paths of one diff never share a display path. */
  lemma {:induction false} OneEditPerDisplayPath(ctx: Context, a: Value, b: Value, from: Node, e: Edit, f: Edit)
    requires CleanContext(ctx) && CleanSchema(from.schema)
    requires e in Walk(ctx, a, b, from) && f in Walk(ctx, a, b, from) && e.path == f.path
    ensures e == f
    decreases a
  {
    hide *;
    var n := Enter(ctx, from);
    CleanEnter(ctx, from);
    if !SameKind(a, b) || (!a.Obj? && !a.Arr?) {
      LeafEdit(ctx, a, b, from, e, f);
    } else if a.Obj? {
      KindObj(a, b);
      var k := ShownKey(ctx, a, b, from, e);
      var j := ShownKey(ctx, a, b, from, f);
      SameKeyShown(ctx, a, b, from, k, j, e.path);
      if k in a.fields && k in b.fields {
        KeyOwns(ctx, a, b, from, k, e);
        KeyOwns(ctx, a, b, from, k, f);
        CleanKey(ctx, n, a.fields.Keys + b.fields.Keys, k);
        OneEditPerDisplayPath(ctx, a.fields[k], b.fields[k], KeyNode(ctx, n, a.fields.Keys + b.fields.Keys, k), e, f);
      } else {
        OneEditPerPath(ctx, a, b, from, e, f);
      }
    } else {
      KindArr(a, b);
      var i := ShownIndex(ctx, a, b, from, e);
      var j := ShownIndex(ctx, a, b, from, f);
      SameIndexShown(n, i, j, e.path);
      if i < Min(|a.items|, |b.items|) {
        MinBelow(|a.items|, |b.items|);
        IndexOwns(ctx, a, b, from, i, e);
        IndexOwns(ctx, a, b, from, i, f);
        SchemaOfItem(n, i);
        OneEditPerDisplayPath(ctx, a.items[i], b.items[i], IndexNode(n, i), e, f);
      } else {
        OneEditPerPath(ctx, a, b, from, e, f);
      }
    }
  }

  lemma SchemaOfItem(n: Node, i: nat)
    ensures IndexNode(n, i).schema == n.schema
  {
  }

  // ---- what a display path may show

  ghost function Smaller(keys: set<string>, key: string): set<string> {
    set k | k in keys && Less(k, key)
  }

  lemma SortedCons(keys: set<string>)
    requires keys != {}
    ensures SortedKeys(keys) == [Least(keys)] + SortedKeys(keys - {Least(keys)})
  {
    hide Least;
  }

  lemma PositionCons(x: string, ks: seq<string>, key: string)
    requires key in ks || key == x
    ensures Position([x] + ks, key) == if key == x then 0 else 1 + Position(ks, key)
  {
    assert ([x] + ks)[1..] == ks;
  }

  lemma SmallerRest(keys: set<string>, key: string, first: string)
    requires IsLeast(first, keys) && key in keys
    ensures key == first ==> Smaller(keys, key) == {}
    ensures key != first ==> Smaller(keys, key) == Smaller(keys - {first}, key) + {first}
  {
    hide Less;
    LessTotal(key, key);
    forall k | k in keys ensures !(Less(k, key) && Less(key, k)) { LessTotal(k, key); }
  }

  /** The ordinal of a key is how many keys come before it. */
  lemma {:induction false} RankIs(keys: set<string>, key: string)
    requires key in keys
    ensures Position(SortedKeys(keys), key) == |Smaller(keys, key)|
    decreases |keys|
  {
    hide SortedKeys, Position, Smaller, IsLeast;
    var first := Least(keys);
    SortedCons(keys);
    SmallerRest(keys, key, first);
    LeastIn(first, keys);
    PositionCons(first, SortedKeys(keys - {first}), key);
    if key != first {
      RankIs(keys - {first}, key);
      assert first !in Smaller(keys - {first}, key) by { SmallerIn(keys - {first}, key); }
    }
  }

  lemma LeastIn(first: string, keys: set<string>)
    requires IsLeast(first, keys)
    ensures first in keys
  {
  }

  lemma SmallerIn(keys: set<string>, key: string)
    ensures Smaller(keys, key) <= keys
  {
  }

  /** The vocabulary names the key somewhere. */
  predicate Names(s: Schema, key: string) {
    key in s.children || exists k :: k in s.children && Names(s.children[k], key)
  }

  /** A key may be shown: the vocabulary or a declaration names it. */
  predicate MayShow(ctx: Context, key: string) {
    Names(ctx.vocabulary, key) || key in ctx.declared.envelope || key in ctx.declared.snapshot
  }

  /** A name gives away no other key: it is one that may be shown, an index or an ordinal. */
  ghost predicate SafeLabel(ctx: Context, name: string) {
    MayShow(ctx, name) || exists i: nat :: name == Decimal(i) || name == "<key#" + Decimal(i) + ">"
  }

  ghost predicate SafePath(ctx: Context, path: string) {
    exists labels :: Pointer(labels) == path && forall l :: l in labels ==> SafeLabel(ctx, l)
  }

  ghost predicate Within(ctx: Context, s: Schema) {
    forall key :: Names(s, key) ==> Names(ctx.vocabulary, key)
  }

  lemma SafeChild(ctx: Context, path: string, name: string)
    requires SafePath(ctx, path) && SafeLabel(ctx, name)
    ensures SafePath(ctx, Child(path, name))
  {
    hide Child, SafeLabel;
    var labels :| Pointer(labels) == path && forall l :: l in labels ==> SafeLabel(ctx, l);
    var more := labels + [name];
    assert more[..|more| - 1] == labels;
    assert Pointer(more) == Child(path, name);
  }

  /** A key that may not be shown is shown as its ordinal among the keys of both sides. */
  lemma LabelIs(ctx: Context, n: Node, keys: set<string>, key: string)
    requires key in keys && Within(ctx, n.schema)
    ensures SafeLabel(ctx, Label(ctx, n, keys, key))
    ensures !MayShow(ctx, key) ==> Label(ctx, n, keys, key) == "<key#" + Decimal(|Smaller(keys, key)|) + ">"
  {
    hide Position, SortedKeys, Decimal, Smaller, SafeLabel;
    RankIs(keys, key);
    OrdinalSafe(ctx, |Smaller(keys, key)|);
    assert key in n.schema.children ==> Names(n.schema, key);
    if MayShow(ctx, key) { ShownSafe(ctx, key); }
  }

  lemma OrdinalSafe(ctx: Context, i: nat)
    ensures SafeLabel(ctx, "<key#" + Decimal(i) + ">") && SafeLabel(ctx, Decimal(i))
  {
    hide Decimal;
  }

  lemma ShownSafe(ctx: Context, key: string)
    requires MayShow(ctx, key)
    ensures SafeLabel(ctx, key)
  {
    hide MayShow;
  }

  lemma IndexSafe(ctx: Context, n: Node, i: nat)
    requires SafePath(ctx, n.path)
    ensures SafePath(ctx, IndexNode(n, i).path)
  {
    hide SafePath;
    OrdinalSafe(ctx, i);
    SafeChild(ctx, n.path, Decimal(i));
  }

  lemma KeySafe(ctx: Context, n: Node, keys: set<string>, k: string)
    requires SafePath(ctx, n.path) && Within(ctx, n.schema) && k in keys
    ensures var c := KeyNode(ctx, n, keys, k); SafePath(ctx, c.path) && Within(ctx, c.schema)
  {
    hide SafePath, Label, SafeLabel;
    LabelIs(ctx, n, keys, k);
    SafeChild(ctx, n.path, Label(ctx, n, keys, k));
    if k in n.schema.children {
      forall key | Names(n.schema.children[k], key) ensures Names(ctx.vocabulary, key) {
        assert Names(n.schema, key);
      }
    }
  }

  lemma EnterSafe(ctx: Context, from: Node)
    requires SafePath(ctx, from.path) && Within(ctx, from.schema)
    ensures SafePath(ctx, Enter(ctx, from).path) && Within(ctx, Enter(ctx, from).schema)
  {
    hide SafePath;
  }

  /** No edit shows a key that neither the vocabulary nor a declaration names. */
  lemma {:induction false} OnlyKnownKeysShown(ctx: Context, a: Value, b: Value, from: Node, e: Edit)
    requires e in Walk(ctx, a, b, from) && SafePath(ctx, from.path) && Within(ctx, from.schema)
    ensures SafePath(ctx, e.path)
    decreases a
  {
    hide Label, IsAllowed, Child, SortedKeys, SafePath, Within, Walk;
    var n := Enter(ctx, from);
    EnterSafe(ctx, from);
    if !SameKind(a, b) || (!a.Obj? && !a.Arr?) {
      LeafEdit(ctx, a, b, from, e, e);
    } else if a.Obj? {
      KindObj(a, b);
      ObjectMember(ctx, a, b, from, e);
      var keys := a.fields.Keys + b.fields.Keys;
      forall k | k in keys
        ensures SafePath(ctx, KeyNode(ctx, n, keys, k).path) && Within(ctx, KeyNode(ctx, n, keys, k).schema)
      {
        KeySafe(ctx, n, keys, k);
      }
      if k :| k in a.fields && k in b.fields && InKey(ctx, a, b, n, k, e) {
        OnlyKnownKeysShown(ctx, a.fields[k], b.fields[k], KeyNode(ctx, n, keys, k), e);
      }
    } else {
      KindArr(a, b);
      ArrayMember(ctx, a, b, from, e);
      forall i: nat ensures SafePath(ctx, IndexNode(n, i).path) { IndexSafe(ctx, n, i); }
      if i :| 0 <= i < Min(|a.items|, |b.items|) && InItem(ctx, a, b, n, i, e) {
        SchemaOfItem(n, i);
        OnlyKnownKeysShown(ctx, a.items[i], b.items[i], IndexNode(n, i), e);
      }
    }
  }

  /** So it is for a whole receipt. */
  lemma ReportsOnlyKnownKeys(ctx: Context, a: Value, b: Value, e: Edit)
    requires e in Walk(ctx, a, b, ROOT)
    ensures SafePath(ctx, e.path)
  {
    hide Walk;
    assert Pointer([]) == ROOT.path;
    OnlyKnownKeysShown(ctx, a, b, ROOT, e);
  }
}
