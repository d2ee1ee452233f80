/** Lists read as multisets: projections, filters and sorting. */
module Bags {
  import opened Prelude

  function Firsts<A, B>(ps: seq<(A, B)>): multiset<A> {
    if ps == [] then multiset{} else multiset{ps[0].0} + Firsts(ps[1..])
  }

  function Seconds<A, B>(ps: seq<(A, B)>): multiset<B> {
    if ps == [] then multiset{} else multiset{ps[0].1} + Seconds(ps[1..])
  }

  lemma {:induction false} OnlyFirstsConcat<A, B>(xs: seq<(A, B)>, ys: seq<(A, B)>)
    ensures Firsts(xs + ys) == Firsts(xs) + Firsts(ys)
  {
    if xs == [] {
      assert xs + ys == ys;
    } else {
      assert (xs + ys)[1..] == xs[1..] + ys;
      OnlyFirstsConcat(xs[1..], ys);
    }
  }

  lemma {:induction false} OnlySecondsConcat<A, B>(xs: seq<(A, B)>, ys: seq<(A, B)>)
    ensures Seconds(xs + ys) == Seconds(xs) + Seconds(ys)
  {
    if xs == [] {
      assert xs + ys == ys;
    } else {
      assert (xs + ys)[1..] == xs[1..] + ys;
      OnlySecondsConcat(xs[1..], ys);
    }
  }

  lemma FirstsConcat<A, B>(xs: seq<(A, B)>, ys: seq<(A, B)>)
    ensures Firsts(xs + ys) == Firsts(xs) + Firsts(ys)
    ensures Seconds(xs + ys) == Seconds(xs) + Seconds(ys)
  {
    OnlyFirstsConcat(xs, ys);
    OnlySecondsConcat(xs, ys);
  }

  lemma FirstsSnoc<A, B>(xs: seq<(A, B)>, p: (A, B))
    ensures Firsts(xs + [p]) == Firsts(xs) + multiset{p.0}
    ensures Seconds(xs + [p]) == Seconds(xs) + multiset{p.1}
  {
    FirstsConcat(xs, [p]);
    assert [p][1..] == [];
    assert Firsts([p]) == multiset{p.0} + Firsts<A, B>([]);
    assert Seconds([p]) == multiset{p.1} + Seconds<A, B>([]);
  }

  lemma {:induction false} FirstsSize<A, B>(ps: seq<(A, B)>)
    ensures |Firsts(ps)| == |ps| && |Seconds(ps)| == |ps|
  {
    if ps != [] { FirstsSize(ps[1..]); }
  }

  function Filter<T(!new)>(xs: seq<T>, keep: T -> bool): (r: seq<T>)
    ensures forall x :: x in r <==> x in xs && keep(x)
  {
    if xs == [] then []
    else if keep(xs[0]) then [xs[0]] + Filter(xs[1..], keep) else Filter(xs[1..], keep)
  }

  lemma {:induction false} FilterSnoc<T(!new)>(xs: seq<T>, x: T, keep: T -> bool)
    ensures Filter(xs + [x], keep) == Filter(xs, keep) + (if keep(x) then [x] else [])
  {
    if xs == [] {
      assert [] + [x] == [x] && [x][1..] == [];
    } else {
      assert (xs + [x])[1..] == xs[1..] + [x];
      FilterSnoc(xs[1..], x, keep);
    }
  }

  lemma {:induction false} FilterCount<T(!new)>(xs: seq<T>, keep: T -> bool, x: T)
    ensures multiset(Filter(xs, keep))[x] == if keep(x) then multiset(xs)[x] else 0
  {
    if xs != [] {
      FilterCount(xs[1..], keep, x);
      assert xs == [xs[0]] + xs[1..];
      var rest := Filter(xs[1..], keep);
      assert multiset([xs[0]] + rest)[x] == multiset([xs[0]])[x] + multiset(rest)[x];
      assert multiset(xs)[x] == multiset([xs[0]])[x] + multiset(xs[1..])[x];
    }
  }

  lemma RemoveFirst<T>(xs: seq<T>, i: nat)
    requires i < |xs|
    ensures multiset(xs) == multiset(xs[..i] + xs[i + 1..]) + multiset{xs[i]}
  {
    assert xs == xs[..i] + [xs[i]] + xs[i + 1..];
  }

  // ---- sorting

  predicate Sorted<T(!new)>(xs: seq<T>, le: (T, T) -> bool) {
    forall i, j :: 0 <= i < j < |xs| ==> le(xs[i], xs[j])
  }

  ghost predicate Ordering<T(!new)>(le: (T, T) -> bool) {
    && (forall x, y :: le(x, y) || le(y, x))
    && (forall x, y, z :: le(x, y) && le(y, z) ==> le(x, z))
  }

  /** Elements the order does not tell apart are related by `tie` from left to right. */
  predicate TiesKept<T(!new)>(xs: seq<T>, le: (T, T) -> bool, tie: (T, T) -> bool) {
    forall i, j :: 0 <= i < j < |xs| && le(xs[j], xs[i]) ==> tie(xs[i], xs[j])
  }

  /** Stability: whatever relates all elements from left to right before still relates tied ones after. */
  ghost predicate Stable<T(!new)>(xs: seq<T>, r: seq<T>, le: (T, T) -> bool) {
    forall tie: (T, T) -> bool :: Sorted(xs, tie) ==> TiesKept(r, le, tie)
  }

  method InsertSorted<T(!new)>(xs: seq<T>, x: T, le: (T, T) -> bool) returns (r: seq<T>)
    requires Ordering(le) && Sorted(xs, le)
    ensures Sorted(r, le) && multiset(r) == multiset(xs) + multiset{x}
    ensures forall tie: (T, T) -> bool :: TiesKept(xs, le, tie) && Before(xs, x, tie) ==> TiesKept(r, le, tie)
  {
    var i := |xs|;
    while i > 0 && !le(xs[i - 1], x)
      invariant 0 <= i <= |xs|
      invariant forall j :: i <= j < |xs| ==> le(x, xs[j]) && !le(xs[j], x)
    {
      i := i - 1;
      assert forall j :: i < j < |xs| ==> le(xs[i], xs[j]);
    }
    r := xs[..i] + [x] + xs[i..];
    assert xs == xs[..i] + xs[i..];
    forall j | 0 <= j < i ensures le(xs[j], x) { assert j < i - 1 ==> le(xs[j], xs[i - 1]); }
    InsertedSorted(xs, i, x, le);
    forall tie: (T, T) -> bool | TiesKept(xs, le, tie) && Before(xs, x, tie) ensures TiesKept(r, le, tie) {
      InsertedTies(xs, i, x, le, tie);
    }
  }

  ghost predicate Before<T(!new)>(xs: seq<T>, x: T, tie: (T, T) -> bool) {
    forall y :: y in xs ==> tie(y, x)
  }

  lemma InsertedSorted<T(!new)>(xs: seq<T>, i: nat, x: T, le: (T, T) -> bool)
    requires i <= |xs| && Sorted(xs, le)
    requires (forall j :: 0 <= j < i ==> le(xs[j], x)) && (forall j :: i <= j < |xs| ==> le(x, xs[j]))
    ensures Sorted(xs[..i] + [x] + xs[i..], le)
  {
    var r := xs[..i] + [x] + xs[i..];
    assert forall j :: 0 <= j < |r| ==> r[j] == if j < i then xs[j] else if j == i then x else xs[j - 1];
  }

  lemma InsertedTies<T(!new)>(xs: seq<T>, i: nat, x: T, le: (T, T) -> bool, tie: (T, T) -> bool)
    requires i <= |xs| && TiesKept(xs, le, tie) && Before(xs, x, tie)
    requires forall j :: i <= j < |xs| ==> !le(xs[j], x)
    ensures TiesKept(xs[..i] + [x] + xs[i..], le, tie)
  {
    var r := xs[..i] + [x] + xs[i..];
    assert forall j :: 0 <= j < |r| ==> r[j] == if j < i then xs[j] else if j == i then x else xs[j - 1];
  }

  /** A stable sort: sorted, a permutation, and ties stay in their order. */
  method SortBy<T(!new)>(xs: seq<T>, le: (T, T) -> bool) returns (r: seq<T>)
    requires Ordering(le)
    ensures Sorted(r, le) && multiset(r) == multiset(xs) && Stable(xs, r, le)
  {
    hide Ordering, TiesKept, Before;
    r := [];
    EmptyStable(xs[..0], le);
    for i := 0 to |xs|
      invariant Sorted(r, le) && multiset(r) == multiset(xs[..i])
      invariant Stable(xs[..i], r, le)
    {
      assert xs[..i + 1] == xs[..i] + [xs[i]];
      ghost var prior := r;
      r := InsertSorted(r, xs[i], le);
      forall tie: (T, T) -> bool | Sorted(xs[..i + 1], tie) ensures TiesKept(r, le, tie) {
        SortedSnoc(xs, i, prior, tie);
      }
    }
    assert xs[..|xs|] == xs;
  }

  lemma EmptyStable<T(!new)>(xs: seq<T>, le: (T, T) -> bool)
    requires xs == []
    ensures Sorted(xs, le) && Stable(xs, [], le)
  {
  }

  lemma SortedSnoc<T(!new)>(xs: seq<T>, i: nat, bag: seq<T>, tie: (T, T) -> bool)
    requires i < |xs| && Sorted(xs[..i + 1], tie) && multiset(bag) == multiset(xs[..i])
    ensures Sorted(xs[..i], tie) && Before(bag, xs[i], tie)
  {
    assert forall j :: 0 <= j < i ==> xs[..i + 1][j] == xs[j];
    assert xs[..i + 1][i] == xs[i];
    forall y | y in bag ensures tie(y, xs[i]) {
      assert y in multiset(xs[..i]);
    }
  }

  /** A filtered list keeps the order of the list. */
  lemma {:induction false} FilterSorted<T(!new)>(xs: seq<T>, keep: T -> bool, le: (T, T) -> bool)
    requires Sorted(xs, le)
    ensures Sorted(Filter(xs, keep), le)
  {
    if xs != [] {
      var rest := Filter(xs[1..], keep);
      assert Sorted(xs[1..], le);
      FilterSorted(xs[1..], keep, le);
      forall j | 0 <= j < |rest| ensures le(xs[0], rest[j]) {
        assert rest[j] in xs[1..];
      }
    }
  }
}
