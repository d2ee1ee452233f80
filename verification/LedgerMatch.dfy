/** Pairing the items of two commits by key: same file first, then in base order. */
module LedgerMatch {
  import opened Prelude
  import opened Bags

  type ModulePath = seq<string>

  /** A visibility token, by what it names. */
  datatype Vis = Private | PubSelf | Pub | PubSuper | PubCrate | PubIn(parts: seq<string>) | OtherVis(text: string)

  /** A path literal in an item and the bytes of its target, if it exists. */
  datatype PathRef = PathRef(word: string, literal: string, target: Option<seq<int>>)

  datatype Unit = Unit(file: string, place: nat, item: string, name: string, home: Option<ModulePath>,
                       chain: set<string>, depth: nat, container: string, text: string, vis: seq<(int, Vis)>,
                       paths: seq<PathRef>)

  type Pair = (Unit, Unit)

  function Olds(ps: seq<Pair>): seq<Unit> {
    if ps == [] then [] else [ps[0].0] + Olds(ps[1..])
  }

  function News(ps: seq<Pair>): seq<Unit> {
    if ps == [] then [] else [ps[0].1] + News(ps[1..])
  }

  // ---- candidate lists

  function FirstIndex<T(!new)>(xs: seq<T>, ok: T -> bool): (r: Option<nat>)
    ensures r.None? ==> forall x :: x in xs ==> !ok(x)
    ensures r.Some? ==> r.value < |xs| && ok(xs[r.value])
  {
    if xs == [] then None
    else if ok(xs[0]) then Some(0)
    else match FirstIndex(xs[1..], ok) case None => None case Some(i) => Some(i + 1)
  }

  function Without<T>(xs: seq<T>, i: nat): (r: seq<T>)
    requires i < |xs|
    ensures multiset(xs) == multiset(r) + multiset{xs[i]}
  {
    RemoveFirst(xs, i);
    xs[..i] + xs[i + 1..]
  }

  function HasKey<K(==)>(key: Unit -> K, k: K): Unit -> bool {
    (u: Unit) => key(u) == k
  }

  function InFile(file: string): Unit -> bool {
    (u: Unit) => u.file == file
  }

  function HasKeyInFile<K(==)>(key: Unit -> K, k: K, file: string): Unit -> bool {
    (u: Unit) => key(u) == k && u.file == file
  }

  /** The first match in a filtered list is the first match of both conditions in the whole list. */
  lemma {:induction false} FilterFirst<T(!new)>(xs: seq<T>, a: T -> bool, b: T -> bool, both: T -> bool)
    requires forall x :: both(x) <==> a(x) && b(x)
    ensures FirstIndex(xs, both).Some? <==> FirstIndex(Filter(xs, a), b).Some?
    ensures FirstIndex(xs, both).Some? ==>
      var i, j := FirstIndex(xs, both).value, FirstIndex(Filter(xs, a), b).value;
      xs[i] == Filter(xs, a)[j] && Filter(Without(xs, i), a) == Without(Filter(xs, a), j)
  {
    hide FirstIndex, Filter, Without;
    if xs == [] {
      FirstOfNone(both);
      FirstOfNone(b);
      FilterNone(a);
    } else {
      var x, rest := xs[0], xs[1..];
      assert xs == [x] + rest;
      var ys := Filter(rest, a);
      FilterFirst(rest, a, b, both);
      FirstOfCons(x, rest, both);
      FirstOfCons(x, ys, b);
      FilterCons(x, rest, a);
      if both(x) {
        WithoutHead(x, rest);
        WithoutHead(x, ys);
      } else if FirstIndex(rest, both).Some? {
        var i, j := FirstIndex(rest, both).value, FirstIndex(ys, b).value;
        WithoutCons(x, rest, i);
        WithoutCons(x, ys, j);
        FilterCons(x, Without(rest, i), a);
      }
    }
  }

  lemma FilterNone<T(!new)>(a: T -> bool)
    ensures Filter([], a) == []
  {
  }

  lemma FirstOfNone<T(!new)>(ok: T -> bool)
    ensures FirstIndex([], ok) == None
  {
  }

  lemma FirstOfCons<T(!new)>(x: T, xs: seq<T>, ok: T -> bool)
    ensures ok(x) ==> FirstIndex([x] + xs, ok) == Some(0)
    ensures !ok(x) ==> (FirstIndex([x] + xs, ok).Some? <==> FirstIndex(xs, ok).Some?)
    ensures !ok(x) && FirstIndex(xs, ok).Some? ==> FirstIndex([x] + xs, ok).value == FirstIndex(xs, ok).value + 1
  {
    assert ([x] + xs)[1..] == xs;
  }

  lemma FilterCons<T(!new)>(x: T, xs: seq<T>, a: T -> bool)
    ensures Filter([x] + xs, a) == if a(x) then [x] + Filter(xs, a) else Filter(xs, a)
  {
    assert ([x] + xs)[1..] == xs;
  }

  lemma WithoutHead<T>(x: T, xs: seq<T>)
    ensures Without([x] + xs, 0) == xs
  {
  }

  lemma WithoutCons<T>(x: T, xs: seq<T>, i: nat)
    requires i < |xs|
    ensures Without([x] + xs, i + 1) == [x] + Without(xs, i)
  {
  }

  lemma {:induction false} FilterOther<T(!new)>(xs: seq<T>, i: nat, a: T -> bool)
    requires i < |xs| && !a(xs[i])
    ensures Filter(Without(xs, i), a) == Filter(xs, a)
  {
    hide Filter, Without;
    var x, rest := xs[0], xs[1..];
    assert xs == [x] + rest;
    FilterCons(x, rest, a);
    if i == 0 {
      WithoutHead(x, rest);
    } else {
      FilterOther(rest, i - 1, a);
      WithoutCons(x, rest, i - 1);
      FilterCons(x, Without(rest, i - 1), a);
    }
  }

  // ---- the two passes, on the plain list of unmatched head items

  datatype Split = Split(pairs: seq<Pair>, left: seq<Unit>, rest: seq<Unit>)

  function SamePass<K(==)>(base: seq<Unit>, rest: seq<Unit>, kb: Unit -> K, kh: Unit -> K): Split
    decreases base
  {
    if base == [] then Split([], [], rest)
    else
      var u := base[0];
      match FirstIndex(rest, HasKeyInFile(kh, kb(u), u.file))
      case Some(i) =>
        var s := SamePass(base[1..], Without(rest, i), kb, kh);
        s.(pairs := [(u, rest[i])] + s.pairs)
      case None =>
        var s := SamePass(base[1..], rest, kb, kh);
        s.(left := [u] + s.left)
  }

  function AnyPass<K(==)>(pending: seq<Unit>, rest: seq<Unit>, kb: Unit -> K, kh: Unit -> K): Split
    decreases pending
  {
    if pending == [] then Split([], [], rest)
    else
      var u := pending[0];
      match FirstIndex(rest, HasKey(kh, kb(u)))
      case Some(i) =>
        var s := AnyPass(pending[1..], Without(rest, i), kb, kh);
        s.(pairs := [(u, rest[i])] + s.pairs)
      case None =>
        var s := AnyPass(pending[1..], rest, kb, kh);
        s.(left := [u] + s.left)
  }

  /** A pass neither loses nor invents units. */
  ghost predicate Conserves(s: Split, base: seq<Unit>, rest: seq<Unit>) {
    && multiset(base) == multiset(Olds(s.pairs)) + multiset(s.left)
    && multiset(rest) == multiset(News(s.pairs)) + multiset(s.rest)
  }

  lemma ConservePair(s: Split, u: Unit, base: seq<Unit>, rest: seq<Unit>, i: nat)
    requires i < |rest| && base != [] && base[0] == u && Conserves(s, base[1..], Without(rest, i))
    ensures Conserves(s.(pairs := [(u, rest[i])] + s.pairs), base, rest)
  {
    var ps := [(u, rest[i])] + s.pairs;
    assert ps[1..] == s.pairs;
    assert base == [u] + base[1..];
    assert Olds(ps) == [u] + Olds(s.pairs) && News(ps) == [rest[i]] + News(s.pairs);
  }

  lemma ConserveLeft(s: Split, u: Unit, base: seq<Unit>, rest: seq<Unit>)
    requires base != [] && base[0] == u && Conserves(s, base[1..], rest)
    ensures Conserves(s.(left := [u] + s.left), base, rest)
  {
    assert base == [u] + base[1..];
  }

  lemma {:induction false} SamePassConserves<K>(base: seq<Unit>, rest: seq<Unit>, kb: Unit -> K, kh: Unit -> K)
    ensures Conserves(SamePass(base, rest, kb, kh), base, rest)
    decreases base
  {
    hide Conserves;
    if base == [] {
      ConserveNothing(rest);
    } else {
      var u := base[0];
      match FirstIndex(rest, HasKeyInFile(kh, kb(u), u.file))
      case Some(i) =>
        SamePassConserves(base[1..], Without(rest, i), kb, kh);
        ConservePair(SamePass(base[1..], Without(rest, i), kb, kh), u, base, rest, i);
      case None =>
        SamePassConserves(base[1..], rest, kb, kh);
        ConserveLeft(SamePass(base[1..], rest, kb, kh), u, base, rest);
    }
  }

  lemma ConserveNothing(rest: seq<Unit>)
    ensures Conserves(Split([], [], rest), [], rest)
  {
  }

  lemma {:induction false} AnyPassConserves<K>(base: seq<Unit>, rest: seq<Unit>, kb: Unit -> K, kh: Unit -> K)
    ensures Conserves(AnyPass(base, rest, kb, kh), base, rest)
    decreases base
  {
    hide Conserves;
    if base == [] {
      ConserveNothing(rest);
    } else {
      var u := base[0];
      match FirstIndex(rest, HasKey(kh, kb(u)))
      case Some(i) =>
        AnyPassConserves(base[1..], Without(rest, i), kb, kh);
        ConservePair(AnyPass(base[1..], Without(rest, i), kb, kh), u, base, rest, i);
      case None =>
        AnyPassConserves(base[1..], rest, kb, kh);
        ConserveLeft(AnyPass(base[1..], rest, kb, kh), u, base, rest);
    }
  }

  /** What is unmatched at the end was unmatched at the start. */
  lemma RestShrinks(s: Split, base: seq<Unit>, rest: seq<Unit>)
    requires Conserves(s, base, rest)
    ensures forall v :: v in s.rest ==> v in rest
    ensures forall u :: u in s.left ==> u in base
  {
    forall v | v in s.rest ensures v in rest { assert v in multiset(rest); }
    forall u | u in s.left ensures u in base { assert u in multiset(base); }
  }

  /** After the first pass no unmatched units share key and file; every pair does. */
  lemma {:induction false} SamePassExhausts<K>(base: seq<Unit>, rest: seq<Unit>, kb: Unit -> K, kh: Unit -> K)
    ensures var s := SamePass(base, rest, kb, kh);
      && (forall p :: p in s.pairs ==> kb(p.0) == kh(p.1) && p.0.file == p.1.file)
      && (forall u, v :: u in s.left && v in s.rest ==> !(kb(u) == kh(v) && u.file == v.file))
    decreases base
  {
    hide Conserves, Without;
    if base != [] {
      var u := base[0];
      match FirstIndex(rest, HasKeyInFile(kh, kb(u), u.file))
      case Some(i) =>
        SamePassExhausts(base[1..], Without(rest, i), kb, kh);
      case None =>
        SamePassExhausts(base[1..], rest, kb, kh);
        SamePassConserves(base[1..], rest, kb, kh);
        RestShrinks(SamePass(base[1..], rest, kb, kh), base[1..], rest);
        forall v | v in rest ensures !(kb(u) == kh(v) && u.file == v.file) {
          assert !HasKeyInFile(kh, kb(u), u.file)(v);
        }
    }
  }

  /** After the second pass no unmatched units share a key. */
  lemma {:induction false} AnyPassExhausts<K>(base: seq<Unit>, rest: seq<Unit>, kb: Unit -> K, kh: Unit -> K)
    ensures var s := AnyPass(base, rest, kb, kh);
      && (forall p :: p in s.pairs ==> kb(p.0) == kh(p.1))
      && (forall u, v :: u in s.left && v in s.rest ==> kb(u) != kh(v))
    decreases base
  {
    hide Conserves, Without;
    if base != [] {
      var u := base[0];
      match FirstIndex(rest, HasKey(kh, kb(u)))
      case Some(i) =>
        AnyPassExhausts(base[1..], Without(rest, i), kb, kh);
      case None =>
        AnyPassExhausts(base[1..], rest, kb, kh);
        AnyPassConserves(base[1..], rest, kb, kh);
        RestShrinks(AnyPass(base[1..], rest, kb, kh), base[1..], rest);
        forall v | v in rest ensures kb(u) != kh(v) { assert !HasKey(kh, kb(u))(v); }
    }
  }

  // ---- the matching with a dictionary of candidate lists

  function Candidates<K(==)>(d: map<K, seq<Unit>>, k: K): seq<Unit> {
    if k in d then d[k] else []
  }

  /** The dictionary holds, under every key, the unmatched head items with that key, in order. */
  ghost predicate Indexes<K(!new)>(d: map<K, seq<Unit>>, rest: seq<Unit>, kh: Unit -> K) {
    forall k :: Candidates(d, k) == Filter(rest, HasKey(kh, k))
  }

  method IndexHead<K(==, !new)>(head: seq<Unit>, kh: Unit -> K) returns (d: map<K, seq<Unit>>)
    ensures Indexes(d, head, kh)
  {
    hide Filter;
    d := map[];
    forall k ensures Filter([], HasKey(kh, k)) == [] { FilterNone(HasKey(kh, k)); }
    for i := 0 to |head|
      invariant Indexes(d, head[..i], kh)
    {
      var u := head[i];
      assert head[..i + 1] == head[..i] + [u];
      ghost var prior := d;
      d := d[kh(u) := Candidates(d, kh(u)) + [u]];
      forall k ensures Candidates(d, k) == Filter(head[..i + 1], HasKey(kh, k)) {
        FilterSnoc(head[..i], u, HasKey(kh, k));
        assert Candidates(prior, k) == Filter(head[..i], HasKey(kh, k));
      }
    }
    assert head[..|head|] == head;
  }

  /** Removing the first match from its candidate list removes it from the list of unmatched items. */
  lemma IndexRemove<K(!new)>(d: map<K, seq<Unit>>, rest: seq<Unit>, kh: Unit -> K, k: K, b: Unit -> bool,
                             both: Unit -> bool)
    requires Indexes(d, rest, kh) && forall u :: both(u) <==> HasKey(kh, k)(u) && b(u)
    ensures FirstIndex(rest, both).Some? <==> FirstIndex(Candidates(d, k), b).Some?
    ensures FirstIndex(rest, both).Some? ==>
      var i, j := FirstIndex(rest, both).value, FirstIndex(Candidates(d, k), b).value;
      && k in d && rest[i] == Candidates(d, k)[j]
      && Indexes(d[k := Without(Candidates(d, k), j)], Without(rest, i), kh)
  {
    hide Filter, FirstIndex, Without;
    var mine := HasKey(kh, k);
    assert Candidates(d, k) == Filter(rest, mine);
    FilterFirst(rest, mine, b, both);
    if FirstIndex(rest, both).Some? {
      var i, j := FirstIndex(rest, both).value, FirstIndex(Candidates(d, k), b).value;
      var next := d[k := Without(Candidates(d, k), j)];
      forall o ensures Candidates(next, o) == Filter(Without(rest, i), HasKey(kh, o)) {
        if o != k { FilterOther(rest, i, HasKey(kh, o)); }
        assert Candidates(d, o) == Filter(rest, HasKey(kh, o));
      }
    }
  }

  /** `match_units` without its result order: the two passes over the candidate lists. */
  method FirstPass<K(==, !new)>(base: seq<Unit>, d0: map<K, seq<Unit>>, ghost head: seq<Unit>, kb: Unit -> K,
                                kh: Unit -> K)
    returns (pairs: seq<Pair>, pending: seq<Unit>, d: map<K, seq<Unit>>)
    requires Indexes(d0, head, kh)
    ensures var s := SamePass(base, head, kb, kh);
      pairs == s.pairs && pending == s.left && Indexes(d, s.rest, kh)
  {
    hide Indexes, Without, FirstIndex, HasKeyInFile, InFile, Filter;
    pairs, pending, d := [], [], d0;
    ghost var rest := head;
    assert base[0..] == base;
    for i := 0 to |base|
      invariant Indexes(d, rest, kh)
      invariant var s, t := SamePass(base, head, kb, kh), SamePass(base[i..], rest, kb, kh);
        s.pairs == pairs + t.pairs && s.left == pending + t.left && s.rest == t.rest
    {
      var u := base[i];
      assert base[i..][1..] == base[i + 1..];
      var candidates := Candidates(d, kb(u));
      SameIsBoth(kh, kb(u), u.file);
      IndexRemove(d, rest, kh, kb(u), InFile(u.file), HasKeyInFile(kh, kb(u), u.file));
      var found := FirstIndex(candidates, InFile(u.file));
      if found.Some? {
        pairs := pairs + [(u, candidates[found.value])];
        d := d[kb(u) := Without(candidates, found.value)];
        rest := Without(rest, FirstIndex(rest, HasKeyInFile(kh, kb(u), u.file)).value);
      } else {
        pending := pending + [u];
      }
    }
    assert base[|base|..] == [];
  }

  lemma SameIsBoth<K>(kh: Unit -> K, k: K, file: string)
    ensures forall u :: HasKeyInFile(kh, k, file)(u) <==> HasKey(kh, k)(u) && InFile(file)(u)
  {
  }

  function Anything(): Unit -> bool {
    (u: Unit) => true
  }

  lemma AnyIsFirst<K>(kh: Unit -> K, k: K, xs: seq<Unit>)
    ensures forall u :: HasKey(kh, k)(u) <==> HasKey(kh, k)(u) && Anything()(u)
    ensures FirstIndex(xs, Anything()) == if xs == [] then None else Some(0)
    ensures xs != [] ==> Without(xs, 0) == xs[1..]
  {
  }

  method SecondPass<K(==, !new)>(pending: seq<Unit>, d0: map<K, seq<Unit>>, ghost rest0: seq<Unit>, kb: Unit -> K,
                                 kh: Unit -> K)
    returns (pairs: seq<Pair>, lost: seq<Unit>, d: map<K, seq<Unit>>)
    requires Indexes(d0, rest0, kh)
    ensures var s := AnyPass(pending, rest0, kb, kh);
      pairs == s.pairs && lost == s.left && Indexes(d, s.rest, kh)
  {
    hide Indexes, Without, FirstIndex, HasKey, Anything, Filter;
    pairs, lost, d := [], [], d0;
    ghost var rest := rest0;
    assert pending[0..] == pending;
    for i := 0 to |pending|
      invariant Indexes(d, rest, kh)
      invariant var s, t := AnyPass(pending, rest0, kb, kh), AnyPass(pending[i..], rest, kb, kh);
        s.pairs == pairs + t.pairs && s.left == lost + t.left && s.rest == t.rest
    {
      var u := pending[i];
      assert pending[i..][1..] == pending[i + 1..];
      var candidates := Candidates(d, kb(u));
      AnyIsFirst(kh, kb(u), candidates);
      IndexRemove(d, rest, kh, kb(u), Anything(), HasKey(kh, kb(u)));
      if candidates != [] {
        pairs := pairs + [(u, candidates[0])];
        d := d[kb(u) := candidates[1..]];
        rest := Without(rest, FirstIndex(rest, HasKey(kh, kb(u))).value);
      } else {
        lost := lost + [u];
      }
    }
    assert pending[|pending|..] == [];
  }

  /** All candidates left, from all lists. */
  method Leftovers<K(==, !new)>(d: map<K, seq<Unit>>, ghost rest: seq<Unit>, kh: Unit -> K) returns (r: seq<Unit>)
    requires Indexes(d, rest, kh)
    ensures multiset(r) == multiset(rest)
  {
    hide Filter;
    r := [];
    var todo := d.Keys;
    ghost var done: set<K> := {};
    while todo != {}
      invariant todo + done == d.Keys && todo !! done
      invariant forall u :: multiset(r)[u] == if kh(u) in done then multiset(rest)[u] else 0
      decreases todo
    {
      var k :| k in todo;
      ghost var prior := r;
      r := r + d[k];
      forall u ensures multiset(r)[u] == if kh(u) in done + {k} then multiset(rest)[u] else 0 {
        FilterCount(rest, HasKey(kh, k), u);
        assert Candidates(d, k) == Filter(rest, HasKey(kh, k));
        assert multiset(r)[u] == multiset(prior)[u] + multiset(d[k])[u];
      }
      todo, done := todo - {k}, done + {k};
    }
    forall u ensures multiset(r)[u] == multiset(rest)[u] {
      FilterCount(rest, HasKey(kh, kh(u)), u);
      assert Candidates(d, kh(u)) == Filter(rest, HasKey(kh, kh(u)));
    }
  }

  // ---- the result

  predicate UnitLe(u: Unit, v: Unit) {
    Less(u.file, v.file) || (u.file == v.file && u.place <= v.place)
  }

  lemma UnitOrdering()
    ensures Ordering(UnitLe)
  {
    forall u, v ensures UnitLe(u, v) || UnitLe(v, u) { LessTotal(u.file, v.file); }
    forall u, v, w | UnitLe(u, v) && UnitLe(v, w) ensures UnitLe(u, w) {
      if Less(u.file, v.file) && Less(v.file, w.file) { LessTransitive(u.file, v.file, w.file); }
    }
  }

  /** The first `n` pairs stay in their file, the others leave theirs, and no further pair could have stayed. */
  ghost predicate SameFileFirst<K(!new)>(pairs: seq<Pair>, n: nat, lost: seq<Unit>, gained: seq<Unit>, kb: Unit -> K,
                                         kh: Unit -> K) {
    && n <= |pairs|
    && (forall p :: p in pairs[..n] ==> p.0.file == p.1.file)
    && (forall u, v :: u in Olds(pairs[n..]) + lost && v in News(pairs[n..]) + gained ==>
          !(kb(u) == kh(v) && u.file == v.file))
  }

  ghost predicate Matching<K(!new)>(base: seq<Unit>, head: seq<Unit>, kb: Unit -> K, kh: Unit -> K,
                                    pairs: seq<Pair>, lost: seq<Unit>, gained: seq<Unit>) {
    && multiset(base) == multiset(Olds(pairs) + lost)
    && multiset(head) == multiset(News(pairs) + gained)
    && (forall p :: p in pairs ==> kb(p.0) == kh(p.1))
    && (forall u, v :: u in lost && v in gained ==> kb(u) != kh(v))
    && (exists n :: SameFileFirst(pairs, n, lost, gained, kb, kh))
  }

  /** The pairs the two passes find, one after the other. */
  function Greedy<K(==)>(base: seq<Unit>, head: seq<Unit>, kb: Unit -> K, kh: Unit -> K): seq<Pair> {
    var s := SamePass(base, head, kb, kh);
    s.pairs + AnyPass(s.left, s.rest, kb, kh).pairs
  }

  /** `match_units`: every unit is paired, lost or gained; pairs have equal keys; same-file pairs come first and
      as many as possible; no two unmatched units have equal keys. */
  method MatchUnits<K(==, !new)>(base: seq<Unit>, head: seq<Unit>, kb: Unit -> K, kh: Unit -> K)
    returns (pairs: seq<Pair>, lost: seq<Unit>, gained: seq<Unit>)
    ensures Matching(base, head, kb, kh, pairs, lost, gained) && Sorted(gained, UnitLe)
    ensures pairs == Greedy(base, head, kb, kh)
  {
    hide Indexes, Stable, SamePass, AnyPass, Ordering, Sorted, Matching;
    var d := IndexHead(head, kh);
    var same, pending, d1 := FirstPass(base, d, head, kb, kh);
    ghost var s := SamePass(base, head, kb, kh);
    var other, left, d2 := SecondPass(pending, d1, s.rest, kb, kh);
    ghost var t := AnyPass(s.left, s.rest, kb, kh);
    var all := Leftovers(d2, t.rest, kh);
    UnitOrdering();
    gained := SortBy(all, UnitLe);
    pairs, lost := same + other, left;
    PassesMatch(base, head, kb, kh, gained);
  }

  lemma {:induction false} OldsConcat(xs: seq<Pair>, ys: seq<Pair>)
    ensures Olds(xs + ys) == Olds(xs) + Olds(ys) && News(xs + ys) == News(xs) + News(ys)
  {
    if xs == [] {
      assert xs + ys == ys;
    } else {
      assert (xs + ys)[1..] == xs[1..] + ys;
      OldsConcat(xs[1..], ys);
    }
  }

  lemma PassesMatch<K(!new)>(base: seq<Unit>, head: seq<Unit>, kb: Unit -> K, kh: Unit -> K, gained: seq<Unit>)
    requires var s := SamePass(base, head, kb, kh);
      multiset(gained) == multiset(AnyPass(s.left, s.rest, kb, kh).rest)
    ensures var s := SamePass(base, head, kb, kh);
      var t := AnyPass(s.left, s.rest, kb, kh);
      Matching(base, head, kb, kh, s.pairs + t.pairs, t.left, gained)
  {
    hide SamePass, AnyPass, Olds, News, Conserves, SameFileFirst;
    var s := SamePass(base, head, kb, kh);
    var t := AnyPass(s.left, s.rest, kb, kh);
    SamePassConserves(base, head, kb, kh);
    AnyPassConserves(s.left, s.rest, kb, kh);
    SamePassExhausts(base, head, kb, kh);
    AnyPassExhausts(s.left, s.rest, kb, kh);
    OldsConcat(s.pairs, t.pairs);
    BothConserve(base, head, s, t, gained);
    forall v | v in gained ensures v in t.rest { assert v in multiset(t.rest); }
    SameFirst(s, t, kb, kh, gained);
  }

  lemma BothConserve(base: seq<Unit>, head: seq<Unit>, s: Split, t: Split, gained: seq<Unit>)
    requires Conserves(s, base, head) && Conserves(t, s.left, s.rest) && multiset(gained) == multiset(t.rest)
    ensures multiset(base) == multiset(Olds(s.pairs) + Olds(t.pairs) + t.left)
    ensures multiset(head) == multiset(News(s.pairs) + News(t.pairs) + gained)
  {
  }

  lemma SameFirst<K(!new)>(s: Split, t: Split, kb: Unit -> K, kh: Unit -> K, gained: seq<Unit>)
    requires Conserves(t, s.left, s.rest) && multiset(gained) == multiset(t.rest)
    requires forall p :: p in s.pairs ==> p.0.file == p.1.file
    requires forall u, v :: u in s.left && v in s.rest ==> !(kb(u) == kh(v) && u.file == v.file)
    ensures SameFileFirst(s.pairs + t.pairs, |s.pairs|, t.left, gained, kb, kh)
  {
    var ps, n := s.pairs + t.pairs, |s.pairs|;
    assert ps[..n] == s.pairs && ps[n..] == t.pairs;
    forall u | u in Olds(t.pairs) + t.left ensures u in s.left { assert u in multiset(s.left); }
    forall v | v in News(t.pairs) + gained ensures v in s.rest { assert v in multiset(s.rest); }
  }

  // ---- what a matching counts

  function Count<T(!new)>(xs: seq<T>, ok: T -> bool): nat {
    |Filter(xs, ok)|
  }

  lemma CountBag<T(!new)>(xs: seq<T>, ys: seq<T>, ok: T -> bool)
    requires multiset(xs) == multiset(ys)
    ensures Count(xs, ok) == Count(ys, ok)
  {
    hide Filter;
    var a, b := multiset(Filter(xs, ok)), multiset(Filter(ys, ok));
    forall x ensures a[x] == b[x] {
      FilterCount(xs, ok, x);
      FilterCount(ys, ok, x);
    }
    assert a == b;
    assert |a| == |Filter(xs, ok)| && |b| == |Filter(ys, ok)|;
  }

  lemma {:induction false} CountConcat<T(!new)>(xs: seq<T>, ys: seq<T>, ok: T -> bool)
    ensures Count(xs + ys, ok) == Count(xs, ok) + Count(ys, ok)
  {
    if xs == [] {
      assert xs + ys == ys;
    } else {
      assert (xs + ys)[1..] == xs[1..] + ys;
      CountConcat(xs[1..], ys, ok);
    }
  }

  lemma {:induction false} CountPairs(ps: seq<Pair>, a: Unit -> bool, b: Unit -> bool)
    requires forall p :: p in ps ==> (a(p.0) <==> b(p.1))
    ensures Count(Olds(ps), a) == Count(News(ps), b)
  {
    if ps != [] {
      CountPairs(ps[1..], a, b);
      CountConcat([ps[0].0], Olds(ps[1..]), a);
      CountConcat([ps[0].1], News(ps[1..]), b);
      CountOne(ps[0].0, a);
      CountOne(ps[0].1, b);
    }
  }

  lemma CountOne<T(!new)>(x: T, ok: T -> bool)
    ensures Count([x], ok) == if ok(x) then 1 else 0
  {
    assert [x][1..] == [];
    FilterNone(ok);
  }

  lemma CountNone<T(!new)>(xs: seq<T>, ok: T -> bool)
    ensures Count(xs, ok) == 0 <==> forall x :: x in xs ==> !ok(x)
  {
    hide Filter;
    if Count(xs, ok) == 0 {
      assert Filter(xs, ok) == [];
      forall x | x in xs ensures !ok(x) { assert x !in Filter(xs, ok); }
    } else {
      assert Filter(xs, ok)[0] in Filter(xs, ok);
    }
  }

  function Min(a: nat, b: nat): nat {
    if a <= b then a else b
  }

  /** As many pairs of a key as either side has units of it. */
  lemma PairsPerKey<K(!new)>(base: seq<Unit>, head: seq<Unit>, kb: Unit -> K, kh: Unit -> K,
                             pairs: seq<Pair>, lost: seq<Unit>, gained: seq<Unit>, k: K)
    requires Matching(base, head, kb, kh, pairs, lost, gained)
    ensures Count(Olds(pairs), HasKey(kb, k)) == Min(Count(base, HasKey(kb, k)), Count(head, HasKey(kh, k)))
  {
    hide Count, SameFileFirst, Olds, News;
    var a, b := HasKey(kb, k), HasKey(kh, k);
    CountBag(base, Olds(pairs) + lost, a);
    CountBag(head, News(pairs) + gained, b);
    CountConcat(Olds(pairs), lost, a);
    CountConcat(News(pairs), gained, b);
    CountPairs(pairs, a, b);
    CountNone(lost, a);
    CountNone(gained, b);
  }

  /** As many pairs of a key within a file as either side has units of that key in that file. */
  lemma PairsPerFile<K(!new)>(base: seq<Unit>, head: seq<Unit>, kb: Unit -> K, kh: Unit -> K,
                              pairs: seq<Pair>, lost: seq<Unit>, gained: seq<Unit>, k: K, file: string) returns (n: nat)
    requires Matching(base, head, kb, kh, pairs, lost, gained)
    ensures SameFileFirst(pairs, n, lost, gained, kb, kh)
    ensures Count(Olds(pairs[..n]), HasKeyInFile(kb, k, file)) ==
      Min(Count(base, HasKeyInFile(kb, k, file)), Count(head, HasKeyInFile(kh, k, file)))
  {
    hide Count, Olds, News;
    n :| SameFileFirst(pairs, n, lost, gained, kb, kh);
    var a, b := HasKeyInFile(kb, k, file), HasKeyInFile(kh, k, file);
    var same, other := pairs[..n], pairs[n..];
    assert pairs == same + other;
    OldsConcat(same, other);
    var x, y := Olds(other) + lost, News(other) + gained;
    assert Olds(pairs) + lost == Olds(same) + x && News(pairs) + gained == News(same) + y;
    CountBag(base, Olds(same) + x, a);
    CountBag(head, News(same) + y, b);
    CountConcat(Olds(same), x, a);
    CountConcat(News(same), y, b);
    forall p | p in same ensures a(p.0) <==> b(p.1) { assert p in pairs; }
    CountPairs(same, a, b);
    CountNone(x, a);
    CountNone(y, b);
  }
}
