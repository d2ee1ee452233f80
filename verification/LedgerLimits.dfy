/** When the greedy matching decides for all matchings, and an input on which it does not. */
module LedgerLimits {
  import opened Prelude
  import opened Bags
  import opened LedgerMatch
  import opened LedgerVisibility
  import opened LedgerCheck

  predicate SameText(p: Pair) {
    p.0.container == p.1.container && p.0.text == p.1.text
  }

  /** Two items that may be the same item: equal byte for byte, or a re-wrap of each other. */
  predicate Similar<R(==)>(reflow: Reflow<R>, u: Unit, v: Unit) {
    || (u.container == v.container && u.text == v.text)
    || (reflow(u).Some? && reflow(v).Some? && reflow(u).value.0 == reflow(v).value.0)
  }

  predicate NoRepeats(us: seq<Unit>) {
    forall i, j :: 0 <= i < j < |us| ==> us[i] != us[j]
  }

  /** Every base item has at most one head item it could be. */
  ghost predicate Unambiguous<R(!new)>(base: seq<Unit>, head: seq<Unit>, reflow: Reflow<R>) {
    && NoRepeats(head)
    && forall u, v, w :: u in base && v in head && w in head ==>
         Similar(reflow, u, v) && Similar(reflow, u, w) ==> v == w
  }

  /** Re-wrapping is only claimed where the texts differ. */
  predicate Proper(wraps: seq<Pair>) {
    forall p :: p in wraps ==> !SameText(p)
  }

  // ---- pairs by place

  lemma {:induction false} OldsAt(ps: seq<Pair>, i: nat)
    requires i < |ps|
    ensures |Olds(ps)| == |ps| == |News(ps)| && Olds(ps)[i] == ps[i].0 && News(ps)[i] == ps[i].1
  {
    if |ps| > 1 { OldsAt(ps[1..], if i > 0 then i - 1 else 0); }
  }

  lemma TwoPlaces(us: seq<Unit>, i: nat, j: nat)
    requires i < j < |us| && us[i] == us[j]
    ensures multiset(us)[us[i]] >= 2
  {
    assert us == us[..j] + [us[j]] + us[j + 1..];
    assert us[..j][i] == us[i];
    assert us[i] in multiset(us[..j]);
  }

  lemma {:induction false} CountAtMostOne(us: seq<Unit>, u: Unit)
    requires NoRepeats(us)
    ensures multiset(us)[u] <= 1
  {
    if us != [] {
      assert us == [us[0]] + us[1..];
      CountAtMostOne(us[1..], u);
      if us[0] == u { assert u !in us[1..]; }
    }
  }

  /** In a matching onto distinct head items, no two places hold the same head item. */
  lemma OneEach(ps: seq<Pair>, head: seq<Unit>, i: nat, j: nat)
    requires NoRepeats(head) && multiset(News(ps)) == multiset(head) && i < |ps| && j < |ps| && ps[i].1 == ps[j].1
    ensures i == j
  {
    OldsAt(ps, i);
    OldsAt(ps, j);
    CountAtMostOne(head, ps[i].1);
    if i < j { TwoPlaces(News(ps), i, j); } else if j < i { TwoPlaces(News(ps), j, i); }
  }

  /** The pair of a base item. */
  lemma PairOf(ps: seq<Pair>, base: seq<Unit>, u: Unit) returns (i: nat)
    requires multiset(Olds(ps)) == multiset(base) && u in base
    ensures i < |ps| && ps[i].0 == u
  {
    assert u in multiset(Olds(ps));
    var k :| 0 <= k < |Olds(ps)| && Olds(ps)[k] == u;
    OldsLength(ps);
    OldsAt(ps, k);
    i := k;
  }

  lemma {:induction false} OldsLength(ps: seq<Pair>)
    ensures |Olds(ps)| == |ps| == |News(ps)|
  {
    if ps != [] { OldsAt(ps, 0); }
  }

  lemma PairEnds(ps: seq<Pair>, base: seq<Unit>, head: seq<Unit>, i: nat)
    requires multiset(Olds(ps)) == multiset(base) && multiset(News(ps)) == multiset(head) && i < |ps|
    ensures ps[i].0 in base && ps[i].1 in head
  {
    OldsAt(ps, i);
    assert ps[i].0 in multiset(Olds(ps)) && ps[i].1 in multiset(News(ps));
  }

  lemma AllPairs<R(!new)>(base: seq<Unit>, head: seq<Unit>, reflow: Reflow<R>, exact: seq<Pair>, wraps: seq<Pair>)
    requires Bijection(base, head, reflow, exact, wraps)
    ensures multiset(Olds(exact + wraps)) == multiset(base) && multiset(News(exact + wraps)) == multiset(head)
    ensures forall p :: p in exact + wraps ==> Similar(reflow, p.0, p.1)
  {
    OldsConcat(exact, wraps);
  }

  lemma ExactTexts<R(!new)>(base: seq<Unit>, head: seq<Unit>, reflow: Reflow<R>, exact: seq<Pair>, wraps: seq<Pair>)
    requires Bijection(base, head, reflow, exact, wraps)
    ensures forall p :: p in exact ==> SameText(p)
  {
  }

  // ---- a matching is forced

  /** Two matchings of an unambiguous change have the same pairs. */
  lemma SamePairs<R(!new)>(base: seq<Unit>, head: seq<Unit>, reflow: Reflow<R>, e1: seq<Pair>, w1: seq<Pair>,
                           e2: seq<Pair>, w2: seq<Pair>)
    requires Unambiguous(base, head, reflow)
    requires Bijection(base, head, reflow, e1, w1) && Proper(w1) && Bijection(base, head, reflow, e2, w2) && Proper(w2)
    ensures forall p :: p in e1 ==> p in e2
    ensures forall p :: p in w1 ==> p in w2
  {
    hide Unambiguous, Bijection, Similar, SameText;
    AllPairs(base, head, reflow, e1, w1);
    AllPairs(base, head, reflow, e2, w2);
    ExactTexts(base, head, reflow, e1, w1);
    ExactTexts(base, head, reflow, e2, w2);
    forall p | p in e1 || p in w1 ensures p in e2 || p in w2 {
      PairFound(base, head, reflow, e1 + w1, e2 + w2, p);
    }
  }

  lemma PairFound<R(!new)>(base: seq<Unit>, head: seq<Unit>, reflow: Reflow<R>, ps: seq<Pair>, qs: seq<Pair>, p: Pair)
    requires Unambiguous(base, head, reflow) && p in ps && forall x :: x in ps + qs ==> Similar(reflow, x.0, x.1)
    requires multiset(Olds(ps)) == multiset(base) && multiset(News(ps)) == multiset(head)
    requires multiset(Olds(qs)) == multiset(base) && multiset(News(qs)) == multiset(head)
    ensures p in qs
  {
    hide Similar;
    var i :| 0 <= i < |ps| && ps[i] == p;
    PairEnds(ps, base, head, i);
    var j := PairOf(qs, base, p.0);
    PairEnds(qs, base, head, j);
    assert p in ps + qs && qs[j] in ps + qs;
    assert qs[j] == p;
  }

  /** If any matching exists, the greedy one leaves nothing over. */
  lemma GreedyFindsIt<R(!new)>(base: seq<Unit>, head: seq<Unit>, reflow: Reflow<R>, exact: seq<Pair>, wraps: seq<Pair>,
                               e: seq<Pair>, w: seq<Pair>)
    requires Unambiguous(base, head, reflow) && GreedyMatch(base, head, reflow, exact, wraps)
    requires Bijection(base, head, reflow, e, w)
    ensures Bijection(base, head, reflow, exact, wraps) && Proper(wraps)
  {
    hide Unambiguous, Greedy, Matching, Bijection;
    var lost, extra, l, g :|
      && Matching(base, head, TextKey(), TextKey(), exact, lost, extra)
      && Matching(lost, extra, ShapeKey(reflow, true), ShapeKey(reflow, false), wraps, l, g);
    BijectionIff(base, head, reflow, exact, lost, extra, wraps, l, g);
    WrapsProper(base, head, reflow, exact, lost, extra, wraps, l, g);
    NothingLost(base, head, reflow, exact, lost, extra, wraps, l, g, e, w);
  }

  lemma WrapsProper<R(!new)>(base: seq<Unit>, head: seq<Unit>, reflow: Reflow<R>, exact: seq<Pair>, lost: seq<Unit>,
                             extra: seq<Unit>, wraps: seq<Pair>, l: seq<Unit>, g: seq<Unit>)
    requires Matching(base, head, TextKey(), TextKey(), exact, lost, extra)
    requires Matching(lost, extra, ShapeKey(reflow, true), ShapeKey(reflow, false), wraps, l, g)
    ensures Proper(wraps)
  {
    hide SameFileFirst, Olds, News;
    forall p | p in wraps ensures !SameText(p) {
      var i :| 0 <= i < |wraps| && wraps[i] == p;
      OldsAt(wraps, i);
      assert Olds(wraps)[i] in multiset(Olds(wraps) + l) && News(wraps)[i] in multiset(News(wraps) + g);
      assert p.0 in lost && p.1 in extra;
      assert TextKey()(p.0) != TextKey()(p.1);
    }
  }

  /** What each unmatched unit cannot be. */
  lemma LeftoversDiffer<R(!new)>(base: seq<Unit>, head: seq<Unit>, reflow: Reflow<R>, exact: seq<Pair>, lost: seq<Unit>,
                                 extra: seq<Unit>, wraps: seq<Pair>, l: seq<Unit>, g: seq<Unit>, u: Unit, v: Unit)
    requires Matching(base, head, TextKey(), TextKey(), exact, lost, extra)
    requires Matching(lost, extra, ShapeKey(reflow, true), ShapeKey(reflow, false), wraps, l, g)
    requires u in l && v in g
    ensures !Similar(reflow, u, v)
  {
    hide SameFileFirst, Olds, News;
    assert u in multiset(Olds(wraps) + l) && v in multiset(News(wraps) + g);
    assert u in lost && v in extra;
    assert TextKey()(u) != TextKey()(v);
    assert ShapeKey(reflow, true)(u) != ShapeKey(reflow, false)(v);
  }

  /** The pairs the two passes found, with what they left over. */
  lemma GreedyParts<R(!new)>(base: seq<Unit>, head: seq<Unit>, reflow: Reflow<R>, exact: seq<Pair>, lost: seq<Unit>,
                             extra: seq<Unit>, wraps: seq<Pair>, l: seq<Unit>, g: seq<Unit>)
    requires Matching(base, head, TextKey(), TextKey(), exact, lost, extra)
    requires Matching(lost, extra, ShapeKey(reflow, true), ShapeKey(reflow, false), wraps, l, g)
    ensures multiset(base) == multiset(Olds(exact + wraps) + l) && multiset(head) == multiset(News(exact + wraps) + g)
    ensures forall p :: p in exact + wraps ==> Similar(reflow, p.0, p.1)
  {
    hide SameFileFirst, Olds, News;
    OldsConcat(exact, wraps);
    assert multiset(Olds(exact) + Olds(wraps) + l) == multiset(Olds(exact)) + multiset(Olds(wraps) + l);
    assert multiset(News(exact) + News(wraps) + g) == multiset(News(exact)) + multiset(News(wraps) + g);
    forall p | p in exact ensures Similar(reflow, p.0, p.1) { assert TextKey()(p.0) == TextKey()(p.1); }
    forall p | p in wraps ensures Similar(reflow, p.0, p.1) {
      assert ShapeKey(reflow, true)(p.0) == ShapeKey(reflow, false)(p.1);
    }
  }

  lemma NothingLost<R(!new)>(base: seq<Unit>, head: seq<Unit>, reflow: Reflow<R>, exact: seq<Pair>, lost: seq<Unit>,
                             extra: seq<Unit>, wraps: seq<Pair>, l: seq<Unit>, g: seq<Unit>, e: seq<Pair>, w: seq<Pair>)
    requires Unambiguous(base, head, reflow) && Bijection(base, head, reflow, e, w)
    requires Matching(base, head, TextKey(), TextKey(), exact, lost, extra)
    requires Matching(lost, extra, ShapeKey(reflow, true), ShapeKey(reflow, false), wraps, l, g)
    ensures l == [] && g == []
  {
    hide Matching, Bijection, Unambiguous;
    var ps, qs := exact + wraps, e + w;
    GreedyParts(base, head, reflow, exact, lost, extra, wraps, l, g);
    AllPairs(base, head, reflow, e, w);
    OldsLength(ps);
    OldsLength(qs);
    assert |multiset(base)| == |ps| + |l| && |multiset(head)| == |ps| + |g|;
    assert |multiset(Olds(qs))| == |qs| && |multiset(News(qs))| == |qs|;
    if l != [] {
      var v := PartnerLeft(base, head, reflow, ps, l, g, qs, l[0]);
      LeftoversDiffer(base, head, reflow, exact, lost, extra, wraps, l, g, l[0], v);
    }
  }

  /** The head item of a lost base item is left over too. */
  lemma PartnerLeft<R(!new)>(base: seq<Unit>, head: seq<Unit>, reflow: Reflow<R>, ps: seq<Pair>, l: seq<Unit>,
                             g: seq<Unit>, qs: seq<Pair>, u: Unit) returns (v: Unit)
    requires Unambiguous(base, head, reflow) && u in l
    requires multiset(base) == multiset(Olds(ps) + l) && multiset(head) == multiset(News(ps) + g)
    requires multiset(Olds(qs)) == multiset(base) && multiset(News(qs)) == multiset(head)
    requires forall p :: p in ps + qs ==> Similar(reflow, p.0, p.1)
    ensures v in g && Similar(reflow, u, v)
  {
    hide Similar;
    assert u in multiset(base);
    var i := PairOf(qs, base, u);
    PairEnds(qs, base, head, i);
    v := qs[i].1;
    assert qs[i] in ps + qs;
    assert v in multiset(News(ps) + g);
    OldsLength(ps);
    forall k | 0 <= k < |ps| ensures News(ps)[k] != v {
      OldsAt(ps, k);
      NotTaken(base, head, reflow, ps, l, g, qs, u, i, k);
    }
  }

  /** A greedy pair for the partner of a lost item would need that head item twice. */
  lemma NotTaken<R(!new)>(base: seq<Unit>, head: seq<Unit>, reflow: Reflow<R>, ps: seq<Pair>, l: seq<Unit>,
                          g: seq<Unit>,
                          qs: seq<Pair>, u: Unit, i: nat, k: nat)
    requires Unambiguous(base, head, reflow) && u in l && i < |qs| && k < |ps| && qs[i].0 == u
    requires multiset(base) == multiset(Olds(ps) + l) && multiset(head) == multiset(News(ps) + g)
    requires multiset(Olds(qs)) == multiset(base) && multiset(News(qs)) == multiset(head)
    requires forall p :: p in ps + qs ==> Similar(reflow, p.0, p.1)
    ensures ps[k].1 != qs[i].1
  {
    hide Similar;
    var x := ps[k].0;
    OldsAt(ps, k);
    assert Olds(ps)[k] in multiset(Olds(ps) + l);
    assert x in base && ps[k] in ps + qs && qs[i] in ps + qs;
    PairEnds(qs, base, head, i);
    if x == u { TwiceInBase(ps, l, base, u, k); }
    if ps[k].1 == qs[i].1 {
      var j;
      if x != u { j := PairOf(qs, base, x); } else { j := OtherPlace(qs, base, u, i); }
      PairEnds(qs, base, head, j);
      assert qs[j] in ps + qs;
      OneEach(qs, head, i, j);
    }
  }

  lemma TwiceInBase(ps: seq<Pair>, l: seq<Unit>, base: seq<Unit>, u: Unit, k: nat)
    requires multiset(base) == multiset(Olds(ps) + l) && u in l && k < |ps| && ps[k].0 == u
    ensures multiset(base)[u] >= 2
  {
    OldsAt(ps, k);
    assert Olds(ps)[k] in multiset(Olds(ps)) && u in multiset(l);
    assert multiset(Olds(ps) + l)[u] == multiset(Olds(ps))[u] + multiset(l)[u];
  }

  lemma OtherPlace(qs: seq<Pair>, base: seq<Unit>, u: Unit, i: nat) returns (j: nat)
    requires multiset(Olds(qs)) == multiset(base) && multiset(base)[u] >= 2 && i < |qs| && qs[i].0 == u
    ensures j < |qs| && j != i && qs[j].0 == u
  {
    OldsAt(qs, i);
    var us := Olds(qs);
    RemoveFirst(us, i);
    var rest := us[..i] + us[i + 1..];
    assert u in multiset(rest);
    var m :| 0 <= m < |rest| && rest[m] == u;
    j := if m < i then m else m + 1;
    OldsAt(qs, j);
  }

  // ---- the ledger decides

  lemma RewrapMembers<R(!new)>(reflow: Reflow<R>, xs: seq<Pair>, ys: seq<Pair>)
    requires forall p :: p in xs ==> p in ys
    ensures forall p :: p in RewrapAll(reflow, xs) ==> p in RewrapAll(reflow, ys)
  {
    hide Rewrap;
    forall p | p in RewrapAll(reflow, xs) ensures p in RewrapAll(reflow, ys) {
      var i :| 0 <= i < |xs| && RewrapAll(reflow, xs)[i] == p;
      assert xs[i] in ys;
      var j :| 0 <= j < |ys| && ys[j] == xs[i];
      assert RewrapAll(reflow, ys)[j] == p;
    }
  }

  lemma MovesUnique(a: Moves, b: Moves, pairs: seq<Pair>, headModules: set<ModulePath>)
    requires MovesOk(a, pairs, headModules) && MovesOk(b, pairs, headModules)
    ensures a == b
  {
    forall m ensures m in a <==> m in b {
      assert m in a ==> MovedTo(pairs, headModules, m, a[m]);
      assert m in b ==> MovedTo(pairs, headModules, m, b[m]);
    }
    forall m | m in a && m in b ensures a[m] == b[m] {
      assert MovedTo(pairs, headModules, m, a[m]) && MovedTo(pairs, headModules, m, b[m]);
      var p :| p in pairs && Under(p, m);
      SameFront(a[m], b[m], p.0.home.value[|m|..]);
    }
  }

  /** For an unambiguous change the ledger has no failure if and only if some matching shows that the change only moves
      items: the greedy choice loses nothing. */
  lemma LedgerDecides<R(!new)>(base: seq<Unit>, head: seq<Unit>, headModules: set<ModulePath>, names: set<string>,
                               reflow: Reflow<R>, exact: seq<Pair>, wraps: seq<Pair>, moves: Moves)
    requires Unambiguous(base, head, reflow) && GreedyMatch(base, head, reflow, exact, wraps)
    requires MovesOk(moves, exact + RewrapAll(reflow, wraps), headModules)
    ensures MoveOnly(base, head, headModules, names, reflow, exact, wraps, moves) <==>
      exists e, w, m :: Proper(w) && MoveOnly(base, head, headModules, names, reflow, e, w, m)
  {
    hide Unambiguous, GreedyMatch, Bijection, MovesOk, PairKept, OrderKept, Proper;
    if MoveOnly(base, head, headModules, names, reflow, exact, wraps, moves) {
      GreedyFindsIt(base, head, reflow, exact, wraps, exact, wraps);
    }
    if e, w, m :| Proper(w) && MoveOnly(base, head, headModules, names, reflow, e, w, m) {
      GreedyFindsIt(base, head, reflow, exact, wraps, e, w);
      SamePairs(base, head, reflow, exact, wraps, e, w);
      SamePairs(base, head, reflow, e, w, exact, wraps);
      RewrapMembers(reflow, wraps, w);
      RewrapMembers(reflow, w, wraps);
      var all, other := exact + RewrapAll(reflow, wraps), e + RewrapAll(reflow, w);
      assert forall p :: p in all <==> p in other;
      SamePairsSameVerdict(all, other, m, headModules);
      MovesUnique(moves, m, all, headModules);
    }
  }

  // ---- inputs on which the greedy choice loses

  /** Two equal items around a third in one file. At head the third and one of the equal ones are in a second file, in
      their old order, and the other equal one is in a third file. Nothing else differs. */
  ghost predicate Split3(f0: Unit, f1: Unit, f2: Unit, g0: Unit, g1: Unit, h0: Unit) {
    && TextKey()(f0) == TextKey()(f2) == TextKey()(g1) == TextKey()(h0)
    && TextKey()(f1) == TextKey()(g0) && TextKey()(f0) != TextKey()(f1)
    && f0.file == f1.file == f2.file && g0.file == g1.file
    && f0.file != g0.file && f0.file != h0.file && g0.file != h0.file
    && f0.place < f1.place < f2.place && g0.place < g1.place
    && Plain(f0) && Plain(f1) && Plain(f2) && Plain(g0) && Plain(g1) && Plain(h0)
  }

  /** Outside the module tree, at top level, without visibility tokens or path literals. */
  predicate Plain(u: Unit) {
    u.home.None? && u.chain == {} && u.depth == 0 && u.vis == [] && u.paths == []
  }

  function NeverReflows(): Reflow<bool> {
    (u: Unit) => None
  }

  lemma {:induction false} NoneFirst(xs: seq<Unit>, ok: Unit -> bool)
    requires forall x :: x in xs ==> !ok(x)
    ensures FirstIndex(xs, ok) == None
  {
    if xs != [] {
      assert xs[0] in xs;
      NoneFirst(xs[1..], ok);
    }
  }

  lemma {:induction false} NoSameFile(base: seq<Unit>, rest: seq<Unit>)
    requires forall u, v :: u in base && v in rest ==> u.file != v.file
    ensures SamePass(base, rest, TextKey(), TextKey()) == Split([], base, rest)
    decreases base
  {
    hide FirstIndex;
    if base != [] {
      var u := base[0];
      assert u in base;
      NoneFirst(rest, HasKeyInFile(TextKey(), TextKey()(u), u.file));
      NoSameFile(base[1..], rest);
      assert base == [u] + base[1..];
    }
  }

  /** One step of the second pass: the first head item with the key is at place `i`. */
  lemma Takes(base: seq<Unit>, rest: seq<Unit>, i: nat)
    requires base != [] && i < |rest| && TextKey()(rest[i]) == TextKey()(base[0])
    requires forall j :: 0 <= j < i ==> TextKey()(rest[j]) != TextKey()(base[0])
    ensures AnyPass(base, rest, TextKey(), TextKey()).pairs ==
      [(base[0], rest[i])] + AnyPass(base[1..], Without(rest, i), TextKey(), TextKey()).pairs
  {
    hide Without;
    FirstAt(rest, HasKey(TextKey(), TextKey()(base[0])), i);
  }

  lemma {:induction false} FirstAt(xs: seq<Unit>, ok: Unit -> bool, i: nat)
    requires i < |xs| && ok(xs[i]) && forall j :: 0 <= j < i ==> !ok(xs[j])
    ensures FirstIndex(xs, ok) == Some(i)
  {
    if i > 0 { FirstAt(xs[1..], ok, i - 1); }
  }

  lemma LastChoice(f2: Unit, h0: Unit)
    requires TextKey()(f2) == TextKey()(h0)
    ensures AnyPass([f2], [h0], TextKey(), TextKey()).pairs == [(f2, h0)]
  {
    hide AnyPass, TextKey;
    Takes([f2], [h0], 0);
    NothingToTake();
    assert Without([h0], 0) == [] && [f2][1..] == [];
  }

  lemma NextChoice(f1: Unit, f2: Unit, g0: Unit, h0: Unit)
    requires TextKey()(f1) == TextKey()(g0) && TextKey()(f2) == TextKey()(h0)
    ensures AnyPass([f1, f2], [g0, h0], TextKey(), TextKey()).pairs == [(f1, g0), (f2, h0)]
  {
    hide AnyPass, TextKey;
    Takes([f1, f2], [g0, h0], 0);
    LastChoice(f2, h0);
    assert Without([g0, h0], 0) == [h0] && [f1, f2][1..] == [f2];
  }

  lemma FirstChoice(f0: Unit, f1: Unit, f2: Unit, g0: Unit, g1: Unit, h0: Unit)
    requires TextKey()(f0) == TextKey()(g1) && TextKey()(f0) != TextKey()(g0)
    requires TextKey()(f1) == TextKey()(g0) && TextKey()(f2) == TextKey()(h0)
    ensures AnyPass([f0, f1, f2], [g0, g1, h0], TextKey(), TextKey()).pairs == [(f0, g1), (f1, g0), (f2, h0)]
  {
    hide AnyPass, TextKey, Without;
    Takes([f0, f1, f2], [g0, g1, h0], 1);
    Drops(g0, g1, h0);
    NextChoice(f1, f2, g0, h0);
    assert [f0, f1, f2][1..] == [f1, f2];
  }

  lemma GreedyChoice(f0: Unit, f1: Unit, f2: Unit, g0: Unit, g1: Unit, h0: Unit)
    requires Split3(f0, f1, f2, g0, g1, h0)
    ensures Greedy([f0, f1, f2], [g0, g1, h0], TextKey(), TextKey()) == [(f0, g1), (f1, g0), (f2, h0)]
  {
    hide SamePass, AnyPass, TextKey, Plain;
    NoSameFile([f0, f1, f2], [g0, g1, h0]);
    FirstChoice(f0, f1, f2, g0, g1, h0);
  }

  lemma Drops(g0: Unit, g1: Unit, h0: Unit)
    ensures Without([g0, g1, h0], 1) == [g0, h0]
  {
  }

  lemma NothingToTake()
    ensures AnyPass([], [], TextKey(), TextKey()).pairs == []
  {
  }

  lemma KeptPairs(f0: Unit, f1: Unit, f2: Unit, g0: Unit, g1: Unit, h0: Unit)
    ensures var kept := [(f0, h0), (f1, g0), (f2, g1)];
      Olds(kept) == [f0, f1, f2] && News(kept) == [h0, g0, g1] && multiset([h0, g0, g1]) == multiset([g0, g1, h0])
  {
    var kept := [(f0, h0), (f1, g0), (f2, g1)];
    assert kept[1..] == [(f1, g0), (f2, g1)] && kept[1..][1..] == [(f2, g1)] && kept[1..][1..][1..] == [];
    assert Olds(kept[1..][1..]) == [f2] && News(kept[1..][1..]) == [g1];
    assert Olds(kept[1..]) == [f1] + [f2] && News(kept[1..]) == [g0] + [g1];
  }

  lemma PlainKept(p: Pair)
    requires Plain(p.0) && Plain(p.1)
    ensures PairKept(p, map[], {})
  {
  }

  lemma NoMoves(pairs: seq<Pair>)
    requires forall p :: p in pairs ==> Plain(p.0)
    ensures MovesOk(map[], pairs, {})
  {
  }

  lemma KeptBijection(f0: Unit, f1: Unit, f2: Unit, g0: Unit, g1: Unit, h0: Unit)
    requires Split3(f0, f1, f2, g0, g1, h0)
    ensures Bijection([f0, f1, f2], [g0, g1, h0], NeverReflows(), [(f0, h0), (f1, g0), (f2, g1)], [])
  {
    hide Plain, Olds, News;
    var kept, none: seq<Pair> := [(f0, h0), (f1, g0), (f2, g1)], [];
    KeptPairs(f0, f1, f2, g0, g1, h0);
    OldsLength(none);
    assert Olds(none) == [] && News(none) == [];
    assert Olds(kept) + [] == Olds(kept) && News(kept) + [] == News(kept);
  }

  /** The greedy pairs change the order, so the ledger fails, while another matching only moves items. */
  lemma GreedyCanLose(f0: Unit, f1: Unit, f2: Unit, g0: Unit, g1: Unit, h0: Unit)
    requires Split3(f0, f1, f2, g0, g1, h0)
    ensures !OrderKept(Greedy([f0, f1, f2], [g0, g1, h0], TextKey(), TextKey()))
    ensures Proper([]) &&
      MoveOnly([f0, f1, f2], [g0, g1, h0], {}, {}, NeverReflows(), [(f0, h0), (f1, g0), (f2, g1)], [], map[])
  {
    hide Bijection, MovesOk, PairKept, Plain, Greedy, TextKey;
    GreedyChoice(f0, f1, f2, g0, g1, h0);
    KeptBijection(f0, f1, f2, g0, g1, h0);
    var greedy, kept := [(f0, g1), (f1, g0), (f2, h0)], [(f0, h0), (f1, g0), (f2, g1)];
    assert greedy[0] in greedy && greedy[1] in greedy && !InStep(greedy[1], greedy[0]);
    var all := kept + RewrapAll(NeverReflows(), []);
    assert all == kept;
    assert forall p :: p in all ==> p == kept[0] || p == kept[1] || p == kept[2];
    forall p | p in all ensures Plain(p.0) && PairKept(p, map[], {}) { PlainKept(p); }
    NoMoves(all);
    assert OrderKept(all);
  }

  function Item(file: string, place: nat, text: string): Unit {
    Unit(file, place, text, text, None, {}, 0, "", text, [], [])
  }

  /** Such inputs exist. */
  lemma GreedyLosesHere()
    ensures Split3(Item("f", 0, "a"), Item("f", 1, "b"), Item("f", 2, "a"), Item("g", 0, "b"), Item("g", 1, "a"),
                   Item("h", 0, "a"))
  {
    assert "a"[0] != "b"[0] && "f"[0] != "g"[0] && "f"[0] != "h"[0] && "g"[0] != "h"[0];
  }
}
