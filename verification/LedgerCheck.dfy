/** The move ledger: when does a change only move items? */
module LedgerCheck {
  import opened Prelude
  import opened Bags
  import opened LedgerMatch
  import opened LedgerVisibility

  datatype Failure =
    | ItemChanged(base: Unit, head: Unit)
    | ItemRemoved(base: Unit)
    | ItemAdded(head: Unit)
    | NestedDeeper(pair: Pair)
    | AttributesChanged(pair: Pair)
    | BadTarget(pair: Pair)
    | Widened(pair: Pair)
    | OrderChanged(file: string)

  // ---- items without a partner

  function NameKey(): Unit -> (string, string) {
    (u: Unit) => (u.container, u.item)
  }

  /** `explain_differences`: every lost and every gained item is named exactly once, twins by label together. */
  method ExplainDifferences(lost: seq<Unit>, gained: seq<Unit>)
    returns (failures: seq<Failure>, changed: seq<Pair>, removed: seq<Unit>, added: seq<Unit>)
    ensures failures == Report(changed, removed, added)
    ensures failures == [] <==> lost == [] && gained == []
    ensures multiset(lost) == multiset(Olds(changed)) + multiset(removed)
    ensures multiset(gained) == multiset(News(changed)) + multiset(added)
    ensures forall p :: p in changed ==> p.0.container == p.1.container && p.0.item == p.1.item
    ensures forall u, v :: u in removed && v in added ==> !(u.container == v.container && u.item == v.item)
  {
    hide Indexes, AnyPass, Conserves, Olds, News;
    var d := IndexHead(gained, NameKey());
    var d1;
    changed, removed, d1 := SecondPass(lost, d, gained, NameKey(), NameKey());
    ghost var s := AnyPass(lost, gained, NameKey(), NameKey());
    added := Leftovers(d1, s.rest, NameKey());
    AnyPassConserves(lost, gained, NameKey(), NameKey());
    AnyPassExhausts(lost, gained, NameKey(), NameKey());
    Explained(s, lost, gained, added);
    failures := BuildReport(changed, removed, added);
  }

  method BuildReport(changed: seq<Pair>, removed: seq<Unit>, added: seq<Unit>) returns (failures: seq<Failure>)
    ensures failures == Report(changed, removed, added)
  {
    failures := [];
    for i := 0 to |changed|
      invariant |failures| == i && forall j :: 0 <= j < i ==> failures[j] == ItemChanged(changed[j].0, changed[j].1)
    {
      failures := failures + [ItemChanged(changed[i].0, changed[i].1)];
    }
    var twins := failures;
    for i := 0 to |removed|
      invariant |failures| == |twins| + i && twins <= failures
      invariant forall j :: 0 <= j < i ==> failures[|twins| + j] == ItemRemoved(removed[j])
    {
      failures := failures + [ItemRemoved(removed[i])];
    }
    var gone := failures;
    for i := 0 to |added|
      invariant |failures| == |gone| + i && gone <= failures
      invariant forall j :: 0 <= j < i ==> failures[|gone| + j] == ItemAdded(added[j])
    {
      failures := failures + [ItemAdded(added[i])];
    }
    assert failures == Report(changed, removed, added);
  }

  /** One report per changed item with its twin, then one per removed item, then one per added item. */
  function Report(changed: seq<Pair>, removed: seq<Unit>, added: seq<Unit>): (r: seq<Failure>)
    ensures |r| == |changed| + |removed| + |added|
  {
    seq(|changed|, i requires 0 <= i < |changed| => ItemChanged(changed[i].0, changed[i].1))
    + seq(|removed|, i requires 0 <= i < |removed| => ItemRemoved(removed[i]))
    + seq(|added|, i requires 0 <= i < |added| => ItemAdded(added[i]))
  }

  lemma {:induction false} OldsSize(ps: seq<Pair>)
    ensures |Olds(ps)| == |ps| && |News(ps)| == |ps|
  {
    if ps != [] { OldsSize(ps[1..]); }
  }

  lemma Explained(s: Split, lost: seq<Unit>, gained: seq<Unit>, added: seq<Unit>)
    requires Conserves(s, lost, gained) && multiset(added) == multiset(s.rest)
    ensures multiset(lost) == multiset(Olds(s.pairs)) + multiset(s.left)
    ensures multiset(gained) == multiset(News(s.pairs)) + multiset(added)
    ensures |lost| == |s.pairs| + |s.left| && |gained| == |s.pairs| + |added|
    ensures forall v :: v in added ==> v in s.rest
  {
    OldsSize(s.pairs);
    assert |multiset(lost)| == |lost| && |multiset(gained)| == |gained|;
    assert |multiset(Olds(s.pairs))| == |s.pairs| && |multiset(News(s.pairs))| == |s.pairs|;
    assert |multiset(s.left)| == |s.left| && |multiset(added)| == |added|;
    forall v | v in added ensures v in s.rest { assert v in multiset(s.rest); }
  }

  // ---- one pair

  predicate TargetsKept(base: Unit, head: Unit) {
    && |base.paths| == |head.paths|
    && forall i :: 0 <= i < |base.paths| ==> base.paths[i].target.Some? && base.paths[i].target == head.paths[i].target
  }

  predicate PairKept(p: Pair, moves: Moves, names: set<string>) {
    && p.1.depth <= p.0.depth && p.0.chain == p.1.chain
    && TargetsKept(p.0, p.1) && VisibilityKept(p.0, p.1, moves, names)
  }

  /** `check_paths`; pairing literals of lists that differ in length raises. */
  method CheckPaths(p: Pair) returns (raised: bool, failures: seq<Failure>)
    ensures raised <==> |p.0.paths| != |p.1.paths|
    ensures !raised ==> (failures == [] <==> TargetsKept(p.0, p.1))
  {
    var xs, ys := p.0.paths, p.1.paths;
    failures := [];
    if |xs| != |ys| { return true, failures; }
    for i := 0 to |xs|
      invariant failures == [] <==> forall j :: 0 <= j < i ==> xs[j].target.Some? && xs[j].target == ys[j].target
    {
      if ys[i].target.None? || xs[i].target.None? || xs[i].target != ys[i].target {
        failures := failures + [BadTarget(p)];
      }
    }
    raised := false;
  }

  method CheckPair(p: Pair, moves: Moves, names: set<string>)
    returns (raised: bool, failures: seq<Failure>, widened: nat)
    ensures raised <==> |p.0.paths| != |p.1.paths|
    ensures !raised ==> (failures == [] <==> PairKept(p, moves, names))
  {
    hide TargetsKept, VisibilityKept;
    failures, widened := [], 0;
    if p.1.depth > p.0.depth { failures := failures + [NestedDeeper(p)]; }
    if p.0.chain != p.1.chain { failures := failures + [AttributesChanged(p)]; }
    var bad;
    raised, bad := CheckPaths(p);
    if raised { return; }
    failures := failures + bad;
    var refused;
    refused, widened := CheckVisibility(p.0, p.1, moves, names);
    failures := failures + seq(refused, _ => Widened(p));
  }

  method CheckPairs(pairs: seq<Pair>, moves: Moves, names: set<string>)
    returns (raised: bool, failures: seq<Failure>, widened: nat)
    ensures raised <==> exists p :: p in pairs && |p.0.paths| != |p.1.paths|
    ensures !raised ==> (failures == [] <==> forall p :: p in pairs ==> PairKept(p, moves, names))
  {
    hide PairKept;
    failures, widened := [], 0;
    for i := 0 to |pairs|
      invariant forall j :: 0 <= j < i ==> |pairs[j].0.paths| == |pairs[j].1.paths|
      invariant failures == [] <==> forall j :: 0 <= j < i ==> PairKept(pairs[j], moves, names)
    {
      var stop, more, wide := CheckPair(pairs[i], moves, names);
      if stop { return true, failures, widened; }
      failures, widened := failures + more, widened + wide;
    }
    raised := false;
  }

  // ---- order

  function BetweenFiles(files: (string, string)): Pair -> bool {
    (p: Pair) => (p.0.file, p.1.file) == files
  }

  function Group(groups: map<(string, string), seq<Pair>>, files: (string, string)): seq<Pair> {
    if files in groups then groups[files] else []
  }

  method GroupPairs(pairs: seq<Pair>) returns (groups: map<(string, string), seq<Pair>>)
    ensures forall files :: Group(groups, files) == Filter(pairs, BetweenFiles(files))
  {
    hide Filter;
    groups := map[];
    forall files ensures Filter([], BetweenFiles(files)) == [] { FilterNone(BetweenFiles(files)); }
    for i := 0 to |pairs|
      invariant forall files :: Group(groups, files) == Filter(pairs[..i], BetweenFiles(files))
    {
      var p := pairs[i];
      assert pairs[..i + 1] == pairs[..i] + [p];
      ghost var prior := groups;
      groups := groups[(p.0.file, p.1.file) := Group(groups, (p.0.file, p.1.file)) + [p]];
      forall files ensures Group(groups, files) == Filter(pairs[..i + 1], BetweenFiles(files)) {
        FilterSnoc(pairs[..i], p, BetweenFiles(files));
        assert Group(prior, files) == Filter(pairs[..i], BetweenFiles(files));
      }
    }
    assert pairs[..|pairs|] == pairs;
  }

  predicate PlaceLe(p: Pair, q: Pair) {
    p.1.place <= q.1.place
  }

  predicate InStep(p: Pair, q: Pair) {
    p.1.place < q.1.place ==> p.0.place <= q.0.place
  }

  /** Items that go from one file to one file keep their order. */
  predicate OrderKept(pairs: seq<Pair>) {
    forall p, q :: p in pairs && q in pairs && p.0.file == q.0.file && p.1.file == q.1.file ==> InStep(p, q)
  }

  predicate GroupInStep(group: seq<Pair>) {
    forall p, q :: p in group && q in group ==> InStep(p, q)
  }

  predicate BaseLe(p: Pair, q: Pair) {
    p.0.place <= q.0.place
  }

  /** The group is in base order; sorting it stably by head place leaves ties in base order, so the comparison of
      neighbours is exact. */
  method CheckGroup(group: seq<Pair>) returns (kept: bool)
    requires Sorted(group, BaseLe)
    ensures kept <==> GroupInStep(group)
  {
    assert Ordering(PlaceLe);
    var sorted := SortBy(group, PlaceLe);
    assert TiesKept(sorted, PlaceLe, BaseLe);
    SameMembers(sorted, group);
    var i := 0;
    while i + 1 < |sorted|
      invariant forall j, k :: 0 <= j < k <= i && k < |sorted| ==> sorted[j].0.place <= sorted[k].0.place
      invariant 0 <= i
    {
      if sorted[i + 1].0.place < sorted[i].0.place {
        assert PlaceLe(sorted[i], sorted[i + 1]);
        assert !PlaceLe(sorted[i + 1], sorted[i]);
        assert sorted[i] in group && sorted[i + 1] in group;
        assert !InStep(sorted[i], sorted[i + 1]);
        return false;
      }
      i := i + 1;
    }
    SortedInStep(sorted);
    kept := true;
  }

  lemma SameMembers(xs: seq<Pair>, ys: seq<Pair>)
    requires multiset(xs) == multiset(ys)
    ensures forall p :: p in xs <==> p in ys
  {
    assert forall p :: p in xs <==> p in multiset(xs);
    assert forall p :: p in ys <==> p in multiset(ys);
  }

  lemma SortedInStep(sorted: seq<Pair>)
    requires Sorted(sorted, PlaceLe)
    requires forall j, k :: 0 <= j < k < |sorted| ==> sorted[j].0.place <= sorted[k].0.place
    ensures forall p, q :: p in sorted && q in sorted ==> InStep(p, q)
  {
    forall p, q | p in sorted && q in sorted ensures InStep(p, q) {
      var j :| 0 <= j < |sorted| && sorted[j] == p;
      var k :| 0 <= k < |sorted| && sorted[k] == q;
      assert k < j ==> PlaceLe(sorted[k], sorted[j]);
    }
  }

  /** Pairs in the order of their base items, as the ledger holds them. */
  method CheckOrder(pairs: seq<Pair>) returns (failures: seq<Failure>)
    requires Sorted(pairs, PairLe)
    ensures failures == [] <==> OrderKept(pairs)
  {
    hide Filter, InStep, Sorted, OrderKept, GroupKept;
    failures := [];
    var groups := GroupPairs(pairs);
    var todo := groups.Keys;
    ghost var done: set<(string, string)> := {};
    while todo != {}
      invariant todo + done == groups.Keys
      invariant failures == [] <==> forall files :: files in done ==> GroupKept(pairs, files)
      decreases todo
    {
      var files :| files in todo;
      assert Group(groups, files) == Filter(pairs, BetweenFiles(files));
      GroupSorted(pairs, files);
      var kept := CheckGroup(groups[files]);
      GroupIs(pairs, files);
      if !kept { failures := failures + [OrderChanged(files.1)]; }
      todo, done := todo - {files}, done + {files};
    }
    OrderByGroup(pairs, groups);
  }

  ghost predicate GroupKept(pairs: seq<Pair>, files: (string, string)) {
    GroupInStep(Filter(pairs, BetweenFiles(files)))
  }

  lemma GroupIs(pairs: seq<Pair>, files: (string, string))
    ensures GroupKept(pairs, files) <==> GroupInStep(Filter(pairs, BetweenFiles(files)))
  {
  }

  lemma GroupSorted(pairs: seq<Pair>, files: (string, string))
    requires Sorted(pairs, PairLe)
    ensures Sorted(Filter(pairs, BetweenFiles(files)), BaseLe)
  {
    hide Filter;
    var group := Filter(pairs, BetweenFiles(files));
    FilterSorted(pairs, BetweenFiles(files), PairLe);
    LessTotal(files.0, files.0);
    forall i, j | 0 <= i < j < |group| ensures BaseLe(group[i], group[j]) {
      assert PairLe(group[i], group[j]);
      assert group[i] in group && group[j] in group;
      assert BetweenFiles(files)(group[i]) && BetweenFiles(files)(group[j]);
    }
  }

  /** Order is kept if and only if it is kept in every group. */
  lemma OrderByGroup(pairs: seq<Pair>, groups: map<(string, string), seq<Pair>>)
    requires forall files :: Group(groups, files) == Filter(pairs, BetweenFiles(files))
    ensures OrderKept(pairs) <==> forall files :: files in groups.Keys ==> GroupKept(pairs, files)
  {
    hide Filter, InStep;
    if forall files :: files in groups.Keys ==> GroupKept(pairs, files) {
      forall p, q | p in pairs && q in pairs && p.0.file == q.0.file && p.1.file == q.1.file ensures InStep(p, q) {
        var files := (p.0.file, p.1.file);
        assert BetweenFiles(files)(p) && BetweenFiles(files)(q);
        assert p in Filter(pairs, BetweenFiles(files));
        assert p in Group(groups, files);
        assert GroupKept(pairs, files);
      }
    }
    if OrderKept(pairs) {
      forall files | files in groups.Keys ensures GroupKept(pairs, files) {
        assert forall p :: p in Filter(pairs, BetweenFiles(files)) ==>
          p in pairs && p.0.file == files.0 && p.1.file == files.1;
      }
    }
  }

  // ---- the ledger

  /** The key of the re-wrap pass. A unit without one gets a key of its own, which no unit of the other side has. */
  datatype WrapKey<R> = Shape(shape: R) | Alone(atBase: bool)

  /** How rustfmt may have re-wrapped an item: its shape, and its visibility tokens by place. */
  type Reflow<!R> = Unit -> Option<(R, seq<(int, Vis)>)>

  function TextKey(): Unit -> (string, string) {
    (u: Unit) => (u.container, u.text)
  }

  function ShapeKey<R>(reflow: Reflow<R>, atBase: bool): Unit -> WrapKey<R> {
    (u: Unit) => match reflow(u) case Some(r) => Shape(r.0) case None => Alone(atBase)
  }

  function Rewrap<R>(reflow: Reflow<R>, u: Unit): Unit {
    match reflow(u) case Some(r) => u.(vis := r.1) case None => u
  }

  function RewrapAll<R>(reflow: Reflow<R>, ps: seq<Pair>): (r: seq<Pair>)
    ensures |r| == |ps| && forall i :: 0 <= i < |ps| ==> r[i] == (Rewrap(reflow, ps[i].0), Rewrap(reflow, ps[i].1))
  {
    seq(|ps|, i requires 0 <= i < |ps| => (Rewrap(reflow, ps[i].0), Rewrap(reflow, ps[i].1)))
  }

  predicate PairLe(p: Pair, q: Pair) {
    UnitLe(p.0, q.0)
  }

  datatype Ledger = Ledger(pairs: seq<Pair>, reflowed: seq<Pair>, moves: Moves, failures: seq<Failure>, widened: nat)

  /** Every base item is matched with exactly one head item and the other way round, byte for byte or re-wrapped. */
  ghost predicate Bijection<R(!new)>(base: seq<Unit>, head: seq<Unit>, reflow: Reflow<R>, exact: seq<Pair>,
                                     wraps: seq<Pair>) {
    && multiset(base) == multiset(Olds(exact) + Olds(wraps))
    && multiset(head) == multiset(News(exact) + News(wraps))
    && (forall p :: p in exact ==> p.0.container == p.1.container && p.0.text == p.1.text)
    && (forall p :: p in wraps ==> reflow(p.0).Some? && reflow(p.1).Some? && reflow(p.0).value.0 == reflow(p.1).value.0)
  }

  /** What the ledger vouches for. */
  ghost predicate MoveOnly<R(!new)>(base: seq<Unit>, head: seq<Unit>, headModules: set<ModulePath>, names: set<string>,
                                    reflow: Reflow<R>, exact: seq<Pair>, wraps: seq<Pair>, moves: Moves) {
    var all := exact + RewrapAll(reflow, wraps);
    && Bijection(base, head, reflow, exact, wraps)
    && MovesOk(moves, all, headModules)
    && (forall p :: p in all ==> PairKept(p, moves, names))
    && OrderKept(all)
  }

  /** Text keys are matched first; what they leave over is matched by shape. */
  ghost predicate GreedyMatch<R(!new)>(base: seq<Unit>, head: seq<Unit>, reflow: Reflow<R>, exact: seq<Pair>,
                                       wraps: seq<Pair>) {
    && exact == Greedy(base, head, TextKey(), TextKey())
    && exists lost, extra, l, g ::
         && Matching(base, head, TextKey(), TextKey(), exact, lost, extra)
         && Matching(lost, extra, ShapeKey(reflow, true), ShapeKey(reflow, false), wraps, l, g)
  }

  lemma GreedyIs<R(!new)>(base: seq<Unit>, head: seq<Unit>, reflow: Reflow<R>, exact: seq<Pair>, l1: seq<Unit>,
                          g1: seq<Unit>, wraps: seq<Pair>, lost: seq<Unit>, gained: seq<Unit>)
    requires exact == Greedy(base, head, TextKey(), TextKey())
    requires Matching(base, head, TextKey(), TextKey(), exact, l1, g1)
    requires Matching(l1, g1, ShapeKey(reflow, true), ShapeKey(reflow, false), wraps, lost, gained)
    ensures GreedyMatch(base, head, reflow, exact, wraps)
  {
    hide Matching, Greedy;
  }

  lemma PairOrdering()
    ensures Ordering(PairLe)
  {
    UnitOrdering();
    forall p, q ensures PairLe(p, q) || PairLe(q, p) { assert UnitLe(p.0, q.0) || UnitLe(q.0, p.0); }
    forall p, q, r | PairLe(p, q) && PairLe(q, r) ensures PairLe(p, r) { assert UnitLe(p.0, q.0) && UnitLe(q.0, r.0); }
  }

  /** The two passes leave nothing over exactly when they are a bijection. */
  lemma BijectionIff<R(!new)>(base: seq<Unit>, head: seq<Unit>, reflow: Reflow<R>, exact: seq<Pair>, l1: seq<Unit>,
                              g1: seq<Unit>,
                              wraps: seq<Pair>, lost: seq<Unit>, gained: seq<Unit>)
    requires Matching(base, head, TextKey(), TextKey(), exact, l1, g1)
    requires Matching(l1, g1, ShapeKey(reflow, true), ShapeKey(reflow, false), wraps, lost, gained)
    ensures lost == [] && gained == [] <==> Bijection(base, head, reflow, exact, wraps)
  {
    hide SameFileFirst, Olds, News;
    forall p | p in exact ensures p.0.container == p.1.container && p.0.text == p.1.text {
      assert TextKey()(p.0) == TextKey()(p.1);
    }
    forall p | p in wraps
      ensures reflow(p.0).Some? && reflow(p.1).Some? && reflow(p.0).value.0 == reflow(p.1).value.0 {
      assert ShapeKey(reflow, true)(p.0) == ShapeKey(reflow, false)(p.1);
    }
    NothingOver(base, Olds(exact), l1, Olds(wraps), lost);
    NothingOver(head, News(exact), g1, News(wraps), gained);
  }

  lemma NothingOver(all: seq<Unit>, x: seq<Unit>, rest: seq<Unit>, y: seq<Unit>, over: seq<Unit>)
    requires multiset(all) == multiset(x + rest) && multiset(rest) == multiset(y + over)
    ensures over == [] <==> multiset(all) == multiset(x + y)
  {
    assert multiset(x + rest) == multiset(x) + multiset(y) + multiset(over);
    assert multiset(x + y) == multiset(x) + multiset(y);
    assert |multiset(all)| == |x| + |y| + |over|;
    assert |multiset(x + y)| == |x| + |y|;
    if over == [] { assert multiset(over) == multiset{}; }
  }

  /** Which pairs there are matters to the checks, not their order in the list. */
  lemma SamePairsSameVerdict(xs: seq<Pair>, ys: seq<Pair>, moves: Moves, headModules: set<ModulePath>)
    requires forall p :: p in xs <==> p in ys
    ensures OrderKept(xs) <==> OrderKept(ys)
    ensures MovesOk(moves, xs, headModules) <==> MovesOk(moves, ys, headModules)
  {
    hide InStep, Under;
    forall m, t ensures MovedTo(xs, headModules, m, t) <==> MovedTo(ys, headModules, m, t) {}
  }

  /** `check`: with the pairs the greedy matching finds, the ledger has no failure if and only if the change moves
      items and does nothing else. */
  method Check<R(==, !new)>(base: seq<Unit>, head: seq<Unit>, headModules: set<ModulePath>, names: set<string>,
                            reflow: Reflow<R>)
    returns (ledger: Option<Ledger>, exact: seq<Pair>, wraps: seq<Pair>)
    ensures GreedyMatch(base, head, reflow, exact, wraps)
    ensures var all := exact + RewrapAll(reflow, wraps);
      && (ledger.None? <==> exists p :: p in all && |p.0.paths| != |p.1.paths|)
      && (ledger.Some? ==> multiset(ledger.value.pairs) == multiset(all) && Sorted(ledger.value.pairs, PairLe))
      && (ledger.Some? ==> MovesOk(ledger.value.moves, all, headModules))
      && (ledger.Some? ==> ledger.value.reflowed == RewrapAll(reflow, wraps))
      && (ledger.Some? ==> (ledger.value.failures == [] <==>
            MoveOnly(base, head, headModules, names, reflow, exact, wraps, ledger.value.moves)))
  {
    hide Matching, Bijection, MovesOk, PairKept, OrderKept, Ordering, Sorted, Stable, SamePass, AnyPass, GreedyMatch;
    var same, l1, g1 := MatchUnits(base, head, TextKey(), TextKey());
    var wrapped, lost, gained := MatchUnits(l1, g1, ShapeKey(reflow, true), ShapeKey(reflow, false));
    exact, wraps := same, wrapped;
    GreedyIs(base, head, reflow, same, l1, g1, wrapped, lost, gained);
    BijectionIff(base, head, reflow, same, l1, g1, wrapped, lost, gained);
    var reflowed := RewrapAll(reflow, wrapped);
    PairOrdering();
    var pairs := SortBy(same + reflowed, PairLe);
    var moves := ModuleMoves(pairs, headModules);
    SameMembers(pairs, same + reflowed);
    SamePairsSameVerdict(pairs, same + reflowed, moves, headModules);
    var failures, _, _, _ := ExplainDifferences(lost, gained);
    var raised, bad, widened := CheckPairs(pairs, moves, names);
    if raised { return None, same, wrapped; }
    var disordered := CheckOrder(pairs);
    ledger := Some(Ledger(pairs, reflowed, moves, failures + bad + disordered, widened));
  }
}
