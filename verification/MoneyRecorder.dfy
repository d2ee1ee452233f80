/** The gate's imperative parts: decoding, the recording walk, and the comparison with a signed list. */
module MoneyRecorder {
  import opened Prelude
  import opened Bags
  import opened Json
  import opened MoneyPaths
  import opened MoneyDiff
  import opened MoneyPatch
  import opened MoneyGate

  // ---- the recording walk

  /** What the walk has written so far. */
  datatype Log<D> = Log(added: seq<string>, removed: seq<string>, changed: seq<string>, allowed: seq<string>,
                        observed: seq<EntryKey<D>>)

  function Logged<D>(hash: string -> D, log: Log<D>, e: Edit): Log<D> {
    match e.cls
    case Added => log.(added := log.added + [e.path], observed := log.observed + [KeyOf(hash, e)])
    case Removed => log.(removed := log.removed + [e.path], observed := log.observed + [KeyOf(hash, e)])
    case Changed => log.(changed := log.changed + [e.path], observed := log.observed + [KeyOf(hash, e)])
    case Allowed => log.(allowed := log.allowed + [e.path])
  }

  function LoggedAll<D>(hash: string -> D, log: Log<D>, es: seq<Edit>): Log<D>
    decreases es
  {
    if es == [] then log else LoggedAll(hash, Logged(hash, log, es[0]), es[1..])
  }

  lemma {:induction false} LoggedConcat<D>(hash: string -> D, log: Log<D>, xs: seq<Edit>, ys: seq<Edit>)
    ensures LoggedAll(hash, log, xs + ys) == LoggedAll(hash, LoggedAll(hash, log, xs), ys)
    decreases xs
  {
    if xs == [] {
      assert xs + ys == ys;
    } else {
      assert (xs + ys)[1..] == xs[1..] + ys;
      LoggedConcat(hash, Logged(hash, log, xs[0]), xs[1..], ys);
    }
  }

  lemma LoggedOne<D>(hash: string -> D, log: Log<D>, e: Edit)
    ensures LoggedAll(hash, log, [e]) == Logged(hash, log, e)
  {
    assert [e][1..] == [];
  }

  /** The display paths of the edits of one class, in order. */
  function PathsIn(es: seq<Edit>, cls: Class): seq<string> {
    if es == [] then [] else (if es[0].cls == cls then [es[0].path] else []) + PathsIn(es[1..], cls)
  }

  /** Each list gains the paths of its own class. */
  predicate Listed<D>(before: Log<D>, after: Log<D>, es: seq<Edit>) {
    && after.added == before.added + PathsIn(es, Added) && after.removed == before.removed + PathsIn(es, Removed)
    && after.changed == before.changed + PathsIn(es, Changed) && after.allowed == before.allowed + PathsIn(es, Allowed)
  }

  lemma PathsCons(es: seq<Edit>, cls: Class)
    requires es != []
    ensures PathsIn(es, cls) == (if es[0].cls == cls then [es[0].path] else []) + PathsIn(es[1..], cls)
  {
  }

  lemma AppendTwice(before: seq<string>, one: seq<string>, rest: seq<string>)
    ensures (before + one) + rest == before + (one + rest)
  {
  }

  lemma ListedClass(before: seq<string>, es: seq<Edit>, cls: Class)
    requires es != []
    ensures (before + if es[0].cls == cls then [es[0].path] else []) + PathsIn(es[1..], cls) ==
      before + PathsIn(es, cls)
  {
    hide PathsIn;
    PathsCons(es, cls);
    AppendTwice(before, if es[0].cls == cls then [es[0].path] else [], PathsIn(es[1..], cls));
  }

  lemma ListedStep<D>(hash: string -> D, log: Log<D>, after: Log<D>, es: seq<Edit>)
    requires es != [] && Listed(Logged(hash, log, es[0]), after, es[1..])
    ensures Listed(log, after, es)
  {
    hide KeyOf, Logged, PathsIn;
    OneListed(hash, log, es[0]);
    ListedClass(log.added, es, Added);
    ListedClass(log.removed, es, Removed);
    ListedClass(log.changed, es, Changed);
    ListedClass(log.allowed, es, Allowed);
  }

  lemma OneListed<D>(hash: string -> D, log: Log<D>, e: Edit)
    ensures var next := Logged(hash, log, e);
      && next.added == log.added + (if e.cls == Added then [e.path] else [])
      && next.removed == log.removed + (if e.cls == Removed then [e.path] else [])
      && next.changed == log.changed + (if e.cls == Changed then [e.path] else [])
      && next.allowed == log.allowed + (if e.cls == Allowed then [e.path] else [])
  {
    hide KeyOf;
  }

  /** How many entries the three reported lists hold. */
  function Reported<D>(log: Log<D>): nat {
    |log.added| + |log.removed| + |log.changed|
  }

  lemma LogStep<D>(hash: string -> D, log: Log<D>, e: Edit)
    ensures e.cls.Allowed? ==>
      Logged(hash, log, e).observed == log.observed && Reported(Logged(hash, log, e)) == Reported(log)
    ensures !e.cls.Allowed? ==>
      && Logged(hash, log, e).observed == log.observed + [KeyOf(hash, e)]
      && Reported(Logged(hash, log, e)) == Reported(log) + 1
  {
  }

  lemma {:induction false} RemainingStep<D>(hash: string -> D, es: seq<Edit>)
    requires es != []
    ensures es[0].cls.Allowed? ==> Remaining(es) == Remaining(es[1..])
    ensures !es[0].cls.Allowed? ==>
      && KeysOf(hash, Remaining(es)) == [KeyOf(hash, es[0])] + KeysOf(hash, Remaining(es[1..]))
      && |Remaining(es)| == |Remaining(es[1..])| + 1
  {
    hide KeyOf, KeysOf;
    var rest := Remaining(es[1..]);
    if es[0].cls.Allowed? {
      assert Remaining(es) == [] + rest == rest;
    } else {
      assert Remaining(es) == [es[0]] + rest;
      KeysCons(hash, es[0], rest);
    }
  }

  lemma KeysCons<D>(hash: string -> D, e: Edit, rest: seq<Edit>)
    ensures KeysOf(hash, [e] + rest) == [KeyOf(hash, e)] + KeysOf(hash, rest)
  {
    hide KeyOf;
    var all := [e] + rest;
    forall i | 0 <= i < |all| ensures KeysOf(hash, all)[i] == ([KeyOf(hash, e)] + KeysOf(hash, rest))[i] {
      assert all[i] == if i == 0 then e else rest[i - 1];
    }
  }

  /** The log of a walk: observed is the remaining edits' keys in order, each other list the paths of its own class,
      and the three reported lists are empty exactly when nothing remains. */
  lemma {:induction false} LogOfWalk<D>(hash: string -> D, log: Log<D>, es: seq<Edit>)
    ensures var r := LoggedAll(hash, log, es);
      && r.observed == log.observed + KeysOf(hash, Remaining(es)) && Reported(r) == Reported(log) + |Remaining(es)|
      && Listed(log, r, es)
    decreases es
  {
    hide KeyOf, Logged, Reported;
    if es == [] {
      assert Remaining(es) == [] && KeysOf(hash, Remaining(es)) == [];
    } else {
      hide Remaining, KeysOf;
      LogStep(hash, log, es[0]);
      RemainingStep(hash, es);
      LogOfWalk(hash, Logged(hash, log, es[0]), es[1..]);
      ListedStep(hash, log, LoggedAll(hash, log, es), es);
    }
  }

  class Recorder<D> {
    var log: Log<D>
    const hash: string -> D

    constructor (hash: string -> D)
      ensures log == Log([], [], [], [], []) && this.hash == hash
    {
      this.hash := hash;
      log := Log([], [], [], [], []);
    }

    /** `record`, and the plain append of an allowed addition. */
    method Record(e: Edit)
      modifies this
      ensures log == Logged(hash, old(log), e)
    {
      match e.cls {
        case Allowed => log := log.(allowed := log.allowed + [e.path]);
        case Added => log := log.(added := log.added + [e.path]);
        case Removed => log := log.(removed := log.removed + [e.path]);
        case Changed => log := log.(changed := log.changed + [e.path]);
      }
      if !e.cls.Allowed? { log := log.(observed := log.observed + [KeyOf(hash, e)]); }
    }

    method RecordAll(es: seq<Edit>)
      modifies this
      ensures log == LoggedAll(hash, old(log), es)
    {
      for i := 0 to |es|
        invariant LoggedAll(hash, log, es[i..]) == LoggedAll(hash, old(log), es)
      {
        assert es[i..][1..] == es[i + 1..];
        Record(es[i]);
      }
    }

    /** `walk`: appends while it recurses, in the order of the diff. */
    method WalkInto(ctx: Context, a: Value, b: Value, from: Node)
      modifies this
      ensures log == LoggedAll(hash, old(log), Walk(ctx, a, b, from))
      decreases a, 1
    {
      hide Logged, AddedKeys, RemovedKeys, TailItems, KeyNode, IndexNode, WalkKeys, WalkItems, SortedKeys;
      var n := Enter(ctx, from);
      if !SameKind(a, b) {
        LoggedOne(hash, log, Edit(Changed, n.path, n.raw, b));
        Record(Edit(Changed, n.path, n.raw, b));
      } else if a.Obj? {
        var xs, ys := AddedKeys(ctx, a, b, n), RemovedKeys(ctx, a, b, n);
        RecordAll(xs);
        LoggedConcat(hash, old(log), xs, ys);
        RecordAll(ys);
        LoggedConcat(hash, old(log), xs + ys, WalkKeys(ctx, a, b, n, Common(a, b)));
        WalkEachKey(ctx, a, b, n);
      } else if a.Arr? {
        var m := Min(|a.items|, |b.items|);
        var zs := WalkItems(ctx, a, b, n, m);
        WalkEachItem(ctx, a, b, n, m);
        LoggedConcat(hash, old(log), zs, TailItems(Removed, a.items, n, m));
        RecordAll(TailItems(Removed, a.items, n, m));
        LoggedConcat(hash, old(log), zs + TailItems(Removed, a.items, n, m), TailItems(Added, b.items, n, m));
        RecordAll(TailItems(Added, b.items, n, m));
      } else if a != b {
        LoggedOne(hash, log, Edit(Changed, n.path, n.raw, b));
        Record(Edit(Changed, n.path, n.raw, b));
      }
    }

    method WalkEachKey(ctx: Context, a: Value, b: Value, n: Node)
      requires a.Obj? && b.Obj?
      modifies this
      ensures log == LoggedAll(hash, old(log), WalkKeys(ctx, a, b, n, Common(a, b)))
      decreases a, 0
    {
      hide Logged, KeyNode, Walk, SortedKeys;
      var ks := Common(a, b);
      assert forall k :: k in ks ==> k in a.fields && k in b.fields;
      for i := 0 to |ks|
        invariant LoggedAll(hash, log, WalkKeys(ctx, a, b, n, ks[i..])) ==
          LoggedAll(hash, old(log), WalkKeys(ctx, a, b, n, ks))
      {
        var k := ks[i];
        var c := KeyNode(ctx, n, a.fields.Keys + b.fields.Keys, k);
        assert ks[i..][1..] == ks[i + 1..];
        LoggedConcat(hash, log, Walk(ctx, a.fields[k], b.fields[k], c), WalkKeys(ctx, a, b, n, ks[i + 1..]));
        WalkInto(ctx, a.fields[k], b.fields[k], c);
      }
    }

    method WalkEachItem(ctx: Context, a: Value, b: Value, n: Node, m: nat)
      requires a.Arr? && b.Arr? && m <= |a.items| && m <= |b.items|
      modifies this
      ensures log == LoggedAll(hash, old(log), WalkItems(ctx, a, b, n, m))
      decreases a, 0
    {
      hide Logged, IndexNode, Walk;
      for i := 0 to m
        invariant log == LoggedAll(hash, old(log), WalkItems(ctx, a, b, n, i))
      {
        var c := IndexNode(n, i);
        LoggedConcat(hash, old(log), WalkItems(ctx, a, b, n, i), Walk(ctx, a.items[i], b.items[i], c));
        WalkInto(ctx, a.items[i], b.items[i], c);
      }
    }
  }

  // ---- signed lists

  function CountIn<K(==)>(counts: map<K, int>, k: K): int {
    if k in counts then counts[k] else 0
  }

  /** A Counter of `plus` from which `minus` was subtracted: counts may go negative. */
  method Tally<K(==)>(plus: seq<K>, minus: seq<K>) returns (counts: map<K, int>)
    ensures forall k :: CountIn(counts, k) + multiset(minus)[k] == multiset(plus)[k]
  {
    counts := map[];
    for i := 0 to |plus|
      invariant forall k :: CountIn(counts, k) == multiset(plus[..i])[k]
    {
      assert plus[..i + 1] == plus[..i] + [plus[i]];
      counts := counts[plus[i] := CountIn(counts, plus[i]) + 1];
    }
    assert plus[..|plus|] == plus;
    for i := 0 to |minus|
      invariant forall k :: CountIn(counts, k) + multiset(minus[..i])[k] == multiset(plus)[k]
    {
      assert minus[..i + 1] == minus[..i] + [minus[i]];
      counts := counts[minus[i] := CountIn(counts, minus[i]) - 1];
    }
    assert minus[..|minus|] == minus;
  }

  /** Each key as often as its count says, none for a count at or below zero. */
  method Expand<K(==)>(counts: map<K, int>) returns (r: seq<K>)
    ensures forall k :: multiset(r)[k] == if CountIn(counts, k) > 0 then CountIn(counts, k) else 0
  {
    r := [];
    var todo := counts.Keys;
    while todo != {}
      invariant todo <= counts.Keys
      invariant forall k :: multiset(r)[k] == if k !in todo && CountIn(counts, k) > 0 then CountIn(counts, k) else 0
      decreases |todo|
    {
      var key :| key in todo;
      ghost var before := r;
      var n := 0;
      while n < counts[key]
        invariant n == 0 || n <= counts[key]
        invariant 0 <= n
        invariant multiset(r) == multiset(before)[key := n]
      {
        r := r + [key];
        n := n + 1;
      }
      todo := todo - {key};
    }
  }

  /** `signed_mismatch`: signed entries not observed, and observed entries not signed, with multiplicity and in the
      order of the keys. */
  method SignedMismatch<K(==, !new)>(observed: seq<K>, signed: seq<K>, le: (K, K) -> bool)
    returns (missing: seq<K>, extra: seq<K>)
    requires Ordering(le)
    ensures multiset(missing) == multiset(signed) - multiset(observed)
    ensures multiset(extra) == multiset(observed) - multiset(signed)
    ensures Sorted(missing, le) && Sorted(extra, le)
    ensures missing == [] && extra == [] <==> multiset(observed) == multiset(signed)
  {
    hide Ordering, Sorted, Stable;
    var short := Tally(signed, observed);
    var fewer := Expand(short);
    missing := SortBy(fewer, le);
    var over := Tally(observed, signed);
    var more := Expand(over);
    extra := SortBy(more, le);
    assert forall k :: multiset(missing)[k] == (multiset(signed) - multiset(observed))[k];
    assert forall k :: multiset(extra)[k] == (multiset(observed) - multiset(signed))[k];
    EmptyBag(missing);
    EmptyBag(extra);
    BothEmpty(multiset(observed), multiset(signed));
  }

  lemma EmptyBag<K>(s: seq<K>)
    ensures s == [] <==> multiset(s) == multiset{}
  {
    assert |multiset(s)| == |s|;
  }

  lemma BothEmpty<K>(x: multiset<K>, y: multiset<K>)
    ensures x - y == multiset{} && y - x == multiset{} <==> x == y
  {
    if x - y == multiset{} && y - x == multiset{} {
      forall k ensures x[k] == y[k] {
        assert (x - y)[k] == 0 && (y - x)[k] == 0;
      }
    }
  }

  /** `receipt_diff` and `has_forbidden_diff` together. Without a signed list the gate passes when nothing
      remains; with one, exactly when the observed entries are the signed ones. */
  method Gate<D(==, !new)>(hash: string -> D, base: Value, head: Value, declared: Declarations, vocabulary: Schema,
                     signed: Option<seq<EntryKey<D>>>, le: (EntryKey<D>, EntryKey<D>) -> bool)
    returns (pass: bool)
    requires IsReceipt(base) && IsReceipt(head) && Ordering(le)
    ensures var es := Walk(ContextOf(base, head, declared, vocabulary), base, head, ROOT);
      && (signed.None? ==> (pass <==> NoForbiddenDiff(es)) && (pass <==> OnlyPermittedAdditions(base, head, declared)))
      && (signed.Some? ==> (pass <==> multiset(KeysOf(hash, Remaining(es))) == multiset(signed.value)))
  {
    hide Walk, IsReceipt, ContextOf, Ordering, Sorted, OnlyPermittedAdditions;
    GateIsExact(base, head, declared, vocabulary);
    var ctx := ContextOf(base, head, declared, vocabulary);
    ghost var es := Walk(ctx, base, head, ROOT);
    var recorder := new Recorder(hash);
    recorder.WalkInto(ctx, base, head, ROOT);
    LogOfWalk(hash, Log([], [], [], [], []), es);
    NoneRemain(es);
    var log := recorder.log;
    assert log.observed == KeysOf(hash, Remaining(es));
    var missingSigned := false;
    var clean := |log.added| == 0 && |log.removed| == 0 && |log.changed| == 0;
    if signed.Some? {
      var missing, extra := SignedMismatch(log.observed, signed.value, le);
      missingSigned := missing != [];
      if missing == [] && extra == [] { clean := true; }
      assert extra != [] ==> log.observed != [];
    }
    pass := clean && !missingSigned;
  }

  lemma NoneRemain(es: seq<Edit>)
    ensures NoForbiddenDiff(es) <==> |Remaining(es)| == 0
  {
    if |Remaining(es)| > 0 { assert Remaining(es)[0] in Remaining(es); }
  }
}
