/** Comparing the static test lists of two commits through the rename table. */
module TestIdMap {
  import opened Prelude
  import opened Bags

  datatype Row = Row(target: string, before: string, after: string)

  datatype Problem =
    | RowGone(row: Row)
    | CountsDiffer(target: string)
    | NamesDiffer(target: string)
    | MapsToItself(target: string, id: string)
    | RenamesFunction(target: string, from: string, to: string)
    | NotRemoved(target: string, id: string)
    | NotAdded(target: string, id: string)
    | NoNewId(target: string, id: string)
    | NoOldId(target: string, id: string)

  type Tests = multiset<string>
  type Pair = (string, string)

  // ---- test names

  predicate SeparatorAt(s: string, i: int) {
    0 <= i && i + 2 <= |s| && s[i] == ':' && s[i + 1] == ':'
  }

  /** Searching for the last separator from the right. */
  function LeafBefore(s: string, end: nat): (r: string)
    requires end <= |s| && forall j :: SeparatorAt(s, j) ==> j + 2 <= end
    ensures if r == s then true else exists i :: SeparatorAt(s, i) && r == s[i + 2..]
    ensures forall j :: !SeparatorAt(r, j)
    decreases end
  {
    if end < 2 then s
    else if SeparatorAt(s, end - 2) then
      assert forall j :: SeparatorAt(s[end..], j) ==> SeparatorAt(s, j + end);
      s[end..]
    else LeafBefore(s, end - 1)
  }

  /** `leaf`: the function name of a test, which follows the last separator of its path. */
  function Leaf(s: string): (r: string)
    ensures forall j :: !SeparatorAt(r, j)
    ensures r == s || exists i :: SeparatorAt(s, i) && r == s[i + 2..]
  {
    LeafBefore(s, |s|)
  }

  /** The multiset of function names of a list of tests. */
  function Leaves(tests: seq<string>): multiset<string> {
    if tests == [] then multiset{} else multiset{Leaf(tests[0])} + Leaves(tests[1..])
  }

  lemma {:induction false} LeavesConcat(xs: seq<string>, ys: seq<string>)
    ensures Leaves(xs + ys) == Leaves(xs) + Leaves(ys)
  {
    if xs == [] {
      assert xs + ys == ys;
    } else {
      assert (xs + ys)[1..] == xs[1..] + ys;
      LeavesConcat(xs[1..], ys);
    }
  }

  lemma {:induction false} LeavesOfBag(xs: seq<string>, ys: seq<string>)
    requires multiset(xs) == multiset(ys)
    ensures Leaves(xs) == Leaves(ys)
    decreases |xs|
  {
    hide Leaf;
    if xs == [] {
      assert |multiset(ys)| == |ys|;
    } else {
      var x := xs[0];
      assert x in multiset(xs);
      assert x in multiset(ys);
      var i :| 0 <= i < |ys| && ys[i] == x;
      var rest := ys[..i] + ys[i + 1..];
      DropBoth(xs, ys, i);
      LeavesOfBag(xs[1..], rest);
      LeavesWithout(ys, i);
    }
  }

  lemma DropBoth(xs: seq<string>, ys: seq<string>, i: nat)
    requires xs != [] && i < |ys| && ys[i] == xs[0] && multiset(xs) == multiset(ys)
    ensures multiset(xs[1..]) == multiset(ys[..i] + ys[i + 1..])
  {
    RemoveFirst(ys, i);
    RemoveFirst(xs, 0);
    assert xs[..0] + xs[1..] == xs[1..];
    SameRest(multiset(xs[1..]), multiset(ys[..i] + ys[i + 1..]), xs[0]);
  }

  lemma SameRest(a: Tests, b: Tests, x: string)
    requires a + multiset{x} == b + multiset{x}
    ensures a == b
  {
    forall k ensures a[k] == b[k] { assert (a + multiset{x})[k] == (b + multiset{x})[k]; }
  }

  lemma LeavesWithout(ys: seq<string>, i: nat)
    requires i < |ys|
    ensures Leaves(ys) == multiset{Leaf(ys[i])} + Leaves(ys[..i] + ys[i + 1..])
  {
    hide Leaf, Leaves;
    assert ys == ys[..i] + ([ys[i]] + ys[i + 1..]);
    LeavesConcat(ys[..i], [ys[i]] + ys[i + 1..]);
    LeavesCons(ys[i], ys[i + 1..]);
    LeavesConcat(ys[..i], ys[i + 1..]);
  }

  method Elements(m: Tests) returns (r: seq<string>)
    ensures multiset(r) == m
  {
    r := [];
    var rest := m;
    while rest != multiset{}
      invariant multiset(r) + rest == m
      decreases rest
    {
      var x :| x in rest;
      r := r + [x];
      rest := rest - multiset{x};
    }
  }

  // ---- the rename table

  /** The rows of `rows` a budget allows, taken from the left. */
  function Taken(rows: seq<Row>, budget: multiset<Row>): seq<Row> {
    if rows == [] then []
    else if rows[0] in budget then [rows[0]] + Taken(rows[1..], budget - multiset{rows[0]})
    else Taken(rows[1..], budget)
  }

  lemma {:induction false} TakenAll(rows: seq<Row>, budget: multiset<Row>)
    requires budget <= multiset(rows)
    ensures multiset(Taken(rows, budget)) == budget
    decreases rows
  {
    if rows != [] {
      assert rows == [rows[0]] + rows[1..];
      if rows[0] in budget {
        TakenAll(rows[1..], budget - multiset{rows[0]});
      } else {
        TakenAll(rows[1..], budget);
      }
    }
  }

  /** The rows a change adds. */
  function Added(baseRows: seq<Row>, headRows: seq<Row>): seq<Row> {
    Taken(headRows, multiset(headRows) - multiset(baseRows))
  }

  /** Rows at base that the head table lacks, and what the head table has beyond the base. */
  method RowsGone(baseRows: seq<Row>, headRows: seq<Row>) returns (gone: seq<Row>, remaining: multiset<Row>)
    ensures gone == [] <==> multiset(baseRows) <= multiset(headRows)
    ensures multiset(gone) == multiset(baseRows) - multiset(headRows)
    ensures remaining == multiset(headRows) - multiset(baseRows)
  {
    remaining := multiset(headRows);
    gone := [];
    for i := 0 to |baseRows|
      invariant remaining == multiset(headRows) - multiset(baseRows[..i])
      invariant multiset(gone) == multiset(baseRows[..i]) - multiset(headRows)
    {
      var row := baseRows[i];
      assert baseRows[..i + 1] == baseRows[..i] + [row];
      RowStep(multiset(headRows), multiset(baseRows[..i]), row);
      if row in remaining {
        remaining := remaining - multiset{row};
      } else {
        gone := gone + [row];
      }
    }
    assert baseRows[..|baseRows|] == baseRows;
    assert |multiset(gone)| == |gone|;
    NoExcess(multiset(baseRows), multiset(headRows));
  }

  lemma RowStep(head: multiset<Row>, seen: multiset<Row>, row: Row)
    ensures var next := seen + multiset{row};
      && (row in head - seen ==> head - next == head - seen - multiset{row} && next - head == seen - head)
      && (row !in head - seen ==> head - next == head - seen && next - head == seen - head + multiset{row})
  {
  }

  lemma NoExcess(x: multiset<Row>, y: multiset<Row>)
    ensures x - y == multiset{} <==> x <= y
  {
    if x - y == multiset{} {
      forall r ensures x[r] <= y[r] { assert (x - y)[r] == 0; }
    }
  }

  method RowsAdded(baseRows: seq<Row>, headRows: seq<Row>, budget: multiset<Row>) returns (added: seq<Row>)
    requires budget == multiset(headRows) - multiset(baseRows)
    ensures added == Added(baseRows, headRows)
  {
    var remaining := budget;
    added := [];
    assert headRows[0..] == headRows;
    for i := 0 to |headRows|
      invariant added + Taken(headRows[i..], remaining) == Added(baseRows, headRows)
    {
      assert headRows[i..][1..] == headRows[i + 1..];
      if headRows[i] in remaining {
        remaining := remaining - multiset{headRows[i]};
        added := added + [headRows[i]];
      }
    }
    assert headRows[|headRows|..] == [];
  }

  /** The renames of one target, in table order. */
  function RowsOf(rows: seq<Row>, target: string): seq<Pair> {
    if rows == [] then []
    else if rows[0].target == target then [(rows[0].before, rows[0].after)] + RowsOf(rows[1..], target)
    else RowsOf(rows[1..], target)
  }

  lemma {:induction false} RowsOfSnoc(rows: seq<Row>, row: Row, target: string)
    ensures RowsOf(rows + [row], target) ==
      RowsOf(rows, target) + (if row.target == target then [(row.before, row.after)] else [])
  {
    if rows == [] {
      assert [] + [row] == [row] && [row][1..] == [];
    } else {
      assert (rows + [row])[1..] == rows[1..] + [row];
      RowsOfSnoc(rows[1..], row, target);
    }
  }

  function Lookup<V>(m: map<string, V>, k: string, default: V): V {
    if k in m then m[k] else default
  }

  method GroupRows(rows: seq<Row>) returns (groups: map<string, seq<Pair>>)
    ensures forall t :: Lookup(groups, t, []) == RowsOf(rows, t)
    ensures forall row :: row in rows ==> row.target in groups
  {
    groups := map[];
    for i := 0 to |rows|
      invariant forall t :: Lookup(groups, t, []) == RowsOf(rows[..i], t)
      invariant forall j :: 0 <= j < i ==> rows[j].target in groups
    {
      var row := rows[i];
      assert rows[..i + 1] == rows[..i] + [row];
      ghost var prior := groups;
      groups := groups[row.target := Lookup(groups, row.target, []) + [(row.before, row.after)]];
      forall t ensures Lookup(groups, t, []) == RowsOf(rows[..i + 1], t) {
        RowsOfSnoc(rows[..i], row, t);
        assert Lookup(prior, t, []) == RowsOf(rows[..i], t);
      }
    }
    assert rows[..|rows|] == rows;
  }

  // ---- one target

  predicate Renames(p: Pair) {
    p.0 != p.1 && Leaf(p.0) == Leaf(p.1)
  }

  /** Renames that move removed tests to added ones, none used twice. */
  ghost predicate Fits(renames: seq<Pair>, removed: Tests, added: Tests) {
    (forall p :: p in renames ==> Renames(p)) && Firsts(renames) <= removed && Seconds(renames) <= added
  }

  /** The renames are exactly a matching of the tests that disappeared with those that appeared. */
  ghost predicate Exact(renames: seq<Pair>, before: Tests, after: Tests) {
    && (forall p :: p in renames ==> Renames(p))
    && Firsts(renames) == before - after && Seconds(renames) == after - before
  }

  method ApplyRows(target: string, renames: seq<Pair>, before: Tests, after: Tests, same: seq<Pair>)
    returns (problems: seq<Problem>, pairs: seq<Pair>, removed: Tests, added: Tests)
    ensures problems == [] <==> Fits(renames, before - after, after - before)
    ensures problems == [] ==> pairs == same + renames
    ensures problems == [] ==> Left(renames, before - after, after - before, removed, added)
  {
    hide Renames, Fits, Left, Firsts, Seconds;
    FitNone(before - after, after - before);
    problems, pairs, removed, added := [], same, before - after, after - before;
    assert renames[..0] == [];
    for i := 0 to |renames|
      invariant problems == [] <==> Fits(renames[..i], before - after, after - before)
      invariant problems == [] ==> pairs == same + renames[..i]
      invariant problems == [] ==> Left(renames[..i], before - after, after - before, removed, added)
    {
      var (x, y) := renames[i];
      FitStep(renames, i, before - after, after - before, removed, added);
      assert renames[..i + 1] == renames[..i] + [renames[i]];
      RenamesIs(x, y);
      if x == y {
        problems := problems + [MapsToItself(target, x)];
      } else if Leaf(x) != Leaf(y) {
        problems := problems + [RenamesFunction(target, x, y)];
      } else if removed[x] == 0 {
        problems := problems + [NotRemoved(target, x)];
      } else if added[y] == 0 {
        problems := problems + [NotAdded(target, y)];
      } else {
        if problems == [] { LeftStep(renames, i, before - after, after - before, removed, added); }
        removed, added, pairs := removed - multiset{x}, added - multiset{y}, pairs + [(x, y)];
      }
    }
    assert renames[..|renames|] == renames;
  }

  lemma RenamesIs(x: string, y: string)
    ensures Renames((x, y)) <==> x != y && Leaf(x) == Leaf(y)
  {
  }

  lemma FitNone(removed: Tests, added: Tests)
    ensures Fits([], removed, added) && Left([], removed, added, removed, added)
  {
  }

  /** What is left after some rows. */
  ghost predicate Left(rows: seq<Pair>, removed: Tests, added: Tests, leftOld: Tests, leftNew: Tests) {
    leftOld + Firsts(rows) == removed && leftNew + Seconds(rows) == added
  }

  /** One more row fits exactly when it is a rename and its tests are still free. */
  lemma FitStep(renames: seq<Pair>, i: nat, removed: Tests, added: Tests, leftOld: Tests, leftNew: Tests)
    requires i < |renames|
    ensures Fits(renames[..i + 1], removed, added) ==> Fits(renames[..i], removed, added)
    ensures Fits(renames[..i], removed, added) && Left(renames[..i], removed, added, leftOld, leftNew) ==>
      (Fits(renames[..i + 1], removed, added) <==>
        Renames(renames[i]) && renames[i].0 in leftOld && renames[i].1 in leftNew)
  {
    hide Renames, Firsts, Seconds;
    assert renames[..i + 1] == renames[..i] + [renames[i]];
    FirstsSnoc(renames[..i], renames[i]);
    var xs, ys, p := renames[..i], renames[..i + 1], renames[i];
    assert forall q :: q in ys <==> q in xs || q == p;
    BagRoom(Firsts(xs), leftOld, p.0);
    BagRoom(Seconds(xs), leftNew, p.1);
  }

  lemma LeftStep(renames: seq<Pair>, i: nat, removed: Tests, added: Tests, leftOld: Tests, leftNew: Tests)
    requires i < |renames| && Left(renames[..i], removed, added, leftOld, leftNew)
    requires renames[i].0 in leftOld && renames[i].1 in leftNew
    ensures Left(renames[..i + 1], removed, added, leftOld - multiset{renames[i].0}, leftNew - multiset{renames[i].1})
  {
    hide Firsts, Seconds;
    assert renames[..i + 1] == renames[..i] + [renames[i]];
    FirstsSnoc(renames[..i], renames[i]);
  }

  lemma BagRoom(used: Tests, free: Tests, x: string)
    ensures used + multiset{x} <= free + used <==> x in free
  {
    if used + multiset{x} <= free + used {
      assert (used + multiset{x})[x] <= (free + used)[x];
    }
  }

  function OldsOf(ps: seq<Pair>): seq<string> {
    if ps == [] then [] else [ps[0].0] + OldsOf(ps[1..])
  }

  function NewsOf(ps: seq<Pair>): seq<string> {
    if ps == [] then [] else [ps[0].1] + NewsOf(ps[1..])
  }

  lemma {:induction false} OldsNews(ps: seq<Pair>)
    ensures multiset(OldsOf(ps)) == Firsts(ps) && multiset(NewsOf(ps)) == Seconds(ps)
    ensures (forall p :: p in ps ==> Renames(p)) ==> Leaves(OldsOf(ps)) == Leaves(NewsOf(ps))
    decreases |ps|
  {
    hide Leaf, Renames;
    if ps != [] {
      OldsNews(ps[1..]);
      LeavesCons(ps[0].0, OldsOf(ps[1..]));
      LeavesCons(ps[0].1, NewsOf(ps[1..]));
      if Renames(ps[0]) { RenamesIs(ps[0].0, ps[0].1); }
    }
  }

  lemma LeavesCons(x: string, xs: seq<string>)
    ensures Leaves([x] + xs) == multiset{Leaf(x)} + Leaves(xs)
  {
    assert ([x] + xs)[1..] == xs;
  }

  /** Exact renames imply that the two totals and the two lists of function names agree. */
  lemma ExactTotals(renames: seq<Pair>, before: Tests, after: Tests, xs: seq<string>, ys: seq<string>)
    requires Exact(renames, before, after) && multiset(xs) == before && multiset(ys) == after
    ensures |before| == |after| && Leaves(xs) == Leaves(ys)
  {
    hide Leaf, Leaves, Renames, Firsts, Seconds;
    OldsNews(renames);
    FirstsSize(renames);
    var both := Common(before, after);
    var us, vs := OldsOf(renames), NewsOf(renames);
    assert before == (before * after) + (before - after) && after == (before * after) + (after - before);
    LeavesConcat(both, us);
    LeavesConcat(both, vs);
    assert multiset(both + us) == before && multiset(both + vs) == after;
    LeavesOfBag(xs, both + us);
    LeavesOfBag(ys, both + vs);
    assert |before| == |both + us| && |after| == |both + vs|;
  }

  lemma Common(x: Tests, y: Tests) returns (r: seq<string>)
    ensures multiset(r) == x * y
  {
    r := SeqOf(x * y);
  }

  lemma {:induction false} SeqOf(m: Tests) returns (r: seq<string>)
    ensures multiset(r) == m
    decreases m
  {
    if m == multiset{} {
      r := [];
    } else {
      var x :| x in m;
      var rest := SeqOf(m - multiset{x});
      r := [x] + rest;
    }
  }

  /** The pairs of one target: each test of the base once, each test of the head once, names kept. */
  ghost predicate Bijection(pairs: seq<Pair>, before: Tests, after: Tests) {
    && Firsts(pairs) == before && Seconds(pairs) == after
    && forall p :: p in pairs ==> Leaf(p.0) == Leaf(p.1)
  }

  function Changed(pairs: seq<Pair>): seq<Pair> {
    Filter(pairs, (p: Pair) => p.0 != p.1)
  }

  method SamePairs(both: Tests) returns (r: seq<Pair>)
    ensures Firsts(r) == both && Seconds(r) == both && (forall p :: p in r ==> p.0 == p.1)
  {
    var tests := Elements(both);
    r := [];
    for i := 0 to |tests|
      invariant Firsts(r) == multiset(tests[..i]) && Seconds(r) == multiset(tests[..i])
      invariant forall p :: p in r ==> p.0 == p.1
    {
      assert tests[..i + 1] == tests[..i] + [tests[i]];
      FirstsSnoc(r, (tests[i], tests[i]));
      r := r + [(tests[i], tests[i])];
    }
    assert tests[..|tests|] == tests;
  }

  lemma {:induction false} ChangedOf(same: seq<Pair>, renames: seq<Pair>)
    requires (forall p :: p in same ==> p.0 == p.1) && (forall p :: p in renames ==> p.0 != p.1)
    ensures Changed(same + renames) == renames
  {
    if same != [] {
      assert (same + renames)[1..] == same[1..] + renames;
      ChangedOf(same[1..], renames);
    } else {
      assert same + renames == renames;
      if renames != [] {
        ChangedOf([], renames[1..]);
        assert [] + renames[1..] == renames[1..];
      }
    }
  }

  method ReportLeft(target: string, removed: Tests, added: Tests) returns (problems: seq<Problem>)
    ensures problems == [] <==> removed == multiset{} && added == multiset{}
  {
    problems := [];
    var olds := Elements(removed);
    for i := 0 to |olds|
      invariant |problems| == i
    {
      problems := problems + [NoNewId(target, olds[i])];
    }
    var news := Elements(added);
    for i := 0 to |news|
      invariant |problems| == |olds| + i
    {
      problems := problems + [NoOldId(target, news[i])];
    }
    assert |removed| == |olds| && |added| == |news|;
  }

  method CompareTarget(target: string, before: Tests, after: Tests, renames: seq<Pair>)
    returns (problems: seq<Problem>, pairs: seq<Pair>)
    ensures problems == [] <==> Exact(renames, before, after)
    ensures problems == [] ==> Bijection(pairs, before, after) && Changed(pairs) == renames
  {
    hide Leaf, Leaves, Renames, Firsts, Seconds, Exact, Fits, Left, Bijection, Changed;
    problems := [];
    var xs := Elements(before);
    var ys := Elements(after);
    if |before| != |after| { problems := problems + [CountsDiffer(target)]; }
    var leavesBefore, leavesAfter := Leaves(xs), Leaves(ys);
    if leavesBefore != leavesAfter { problems := problems + [NamesDiffer(target)]; }
    var same := SamePairs(before * after);
    var rowProblems, all, removed, added := ApplyRows(target, renames, before, after, same);
    var left := ReportLeft(target, removed, added);
    problems := problems + rowProblems + left;
    pairs := all;
    if rowProblems == [] {
      ExactIsFit(renames, before, after, removed, added);
    } else {
      ExactFits(renames, before, after);
    }
    if Exact(renames, before, after) { ExactTotals(renames, before, after, xs, ys); }
    if problems == [] { PairsAreBijection(same, renames, before, after); }
  }

  lemma ExactFits(renames: seq<Pair>, before: Tests, after: Tests)
    ensures Exact(renames, before, after) ==> Fits(renames, before - after, after - before)
  {
  }

  lemma ExactIsFit(renames: seq<Pair>, before: Tests, after: Tests, removed: Tests, added: Tests)
    requires Fits(renames, before - after, after - before)
    requires Left(renames, before - after, after - before, removed, added)
    ensures removed == multiset{} && added == multiset{} <==> Exact(renames, before, after)
  {
    hide Renames, Firsts, Seconds;
    NothingLeft(removed, Firsts(renames));
    NothingLeft(added, Seconds(renames));
  }

  lemma NothingLeft(x: Tests, y: Tests)
    ensures x + y == y <==> x == multiset{}
  {
    if x + y == y {
      forall k ensures x[k] == 0 { assert (x + y)[k] == y[k]; }
    }
  }

  lemma PairsAreBijection(same: seq<Pair>, renames: seq<Pair>, before: Tests, after: Tests)
    requires Exact(renames, before, after) && Firsts(same) == before * after && Seconds(same) == before * after
    requires forall p :: p in same ==> p.0 == p.1
    ensures Bijection(same + renames, before, after) && Changed(same + renames) == renames
  {
    hide Firsts, Seconds, Changed, Leaf;
    FirstsConcat(same, renames);
    assert before == (before * after) + (before - after) && after == (before * after) + (after - before);
    ChangedOf(same, renames);
  }

  // ---- the whole comparison

  ghost predicate ExactAt(base: map<string, Tests>, head: map<string, Tests>, added: seq<Row>, t: string) {
    Exact(RowsOf(added, t), Lookup(base, t, multiset{}), Lookup(head, t, multiset{}))
  }

  ghost predicate MappedAt(base: map<string, Tests>, head: map<string, Tests>, added: seq<Row>,
                           mapping: map<string, seq<Pair>>, t: string) {
    && t in mapping && Bijection(mapping[t], Lookup(base, t, multiset{}), Lookup(head, t, multiset{}))
    && Changed(mapping[t]) == RowsOf(added, t)
  }

  ghost predicate AllExact(base: map<string, Tests>, head: map<string, Tests>, baseRows: seq<Row>, headRows: seq<Row>) {
    && multiset(baseRows) <= multiset(headRows)
    && forall t :: ExactAt(base, head, Added(baseRows, headRows), t)
  }

  method CompareTargets(base: map<string, Tests>, head: map<string, Tests>, added: seq<Row>)
    returns (problems: seq<Problem>, mapping: map<string, seq<Pair>>)
    ensures problems == [] <==> forall t :: ExactAt(base, head, added, t)
    ensures problems == [] ==> forall t :: t in base || t in head ==> MappedAt(base, head, added, mapping, t)
  {
    hide Exact, Bijection, Changed, RowsOf, ExactAt, MappedAt, Lookup;
    problems, mapping := [], map[];
    var groups := GroupRows(added);
    var targets := base.Keys + head.Keys + groups.Keys;
    var todo := targets;
    ghost var done: set<string> := {};
    while todo != {}
      invariant todo + done == targets
      invariant problems == [] <==> forall t :: t in done ==> ExactAt(base, head, added, t)
      invariant problems == [] ==> forall t :: t in done ==> MappedAt(base, head, added, mapping, t)
      decreases todo
    {
      var t :| t in todo;
      var more, pairs := CompareTarget(t, Lookup(base, t, multiset{}), Lookup(head, t, multiset{}), Lookup(groups, t,
                                       []));
      ExactAtIs(base, head, added, t);
      assert more == [] <==> ExactAt(base, head, added, t);
      if more == [] { Extend(base, head, added, mapping, t, pairs); }
      assert problems + more == [] <==> problems == [] && more == [];
      problems, mapping := problems + more, mapping[t := pairs];
      todo, done := todo - {t}, done + {t};
    }
    forall t | t !in targets ensures ExactAt(base, head, added, t) { NoTarget(base, head, added, groups, t); }
  }

  lemma NoTarget(base: map<string, Tests>, head: map<string, Tests>, added: seq<Row>, groups: map<string, seq<Pair>>,
                 t: string)
    requires t !in base && t !in head && t !in groups && Lookup(groups, t, []) == RowsOf(added, t)
    ensures ExactAt(base, head, added, t)
  {
    hide RowsOf;
    ExactNothing(base, head, added, t);
  }

  lemma ExactAtIs(base: map<string, Tests>, head: map<string, Tests>, added: seq<Row>, t: string)
    ensures ExactAt(base, head, added, t) <==>
      Exact(RowsOf(added, t), Lookup(base, t, multiset{}), Lookup(head, t, multiset{}))
  {
  }

  lemma Extend(base: map<string, Tests>, head: map<string, Tests>, added: seq<Row>, mapping: map<string, seq<Pair>>,
               t: string, pairs: seq<Pair>)
    requires Bijection(pairs, Lookup(base, t, multiset{}), Lookup(head, t, multiset{}))
    requires Changed(pairs) == RowsOf(added, t)
    ensures MappedAt(base, head, added, mapping[t := pairs], t)
    ensures forall u :: MappedAt(base, head, added, mapping, u) ==> MappedAt(base, head, added, mapping[t := pairs], u)
  {
    hide Bijection, Changed, RowsOf, Lookup;
    var next := mapping[t := pairs];
    assert next[t] == pairs;
    forall u | MappedAt(base, head, added, mapping, u) ensures MappedAt(base, head, added, next, u) {
      assert u != t ==> next[u] == mapping[u];
    }
  }

  lemma ExactNothing(base: map<string, Tests>, head: map<string, Tests>, added: seq<Row>, t: string)
    requires t !in base && t !in head && RowsOf(added, t) == []
    ensures ExactAt(base, head, added, t)
  {
    assert Firsts<string, string>([]) == multiset{} && Seconds<string, string>([]) == multiset{};
    var none: Tests := multiset{};
    assert none - none == none;
  }

  /** `compare`: no problem is reported exactly when the table kept its rows and, for every target, the added rows
      match the tests that disappeared with those that appeared, keeping function names. Then the returned pairs
      are a bijection of the two test lists and their proper renames are exactly the added rows. */
  method Compare(base: map<string, Tests>, head: map<string, Tests>, baseRows: seq<Row>, headRows: seq<Row>)
    returns (problems: seq<Problem>, mapping: map<string, seq<Pair>>)
    ensures problems == [] <==> AllExact(base, head, baseRows, headRows)
    ensures problems == [] ==>
      forall t :: t in base || t in head ==> MappedAt(base, head, Added(baseRows, headRows), mapping, t)
  {
    hide ExactAt, MappedAt, Added;
    problems := [];
    var gone, budget := RowsGone(baseRows, headRows);
    for i := 0 to |gone|
      invariant |problems| == i
    {
      problems := problems + [RowGone(gone[i])];
    }
    var added := RowsAdded(baseRows, headRows, budget);
    var more, pairs := CompareTargets(base, head, added);
    problems, mapping := problems + more, pairs;
  }

  /** The added rows are the head table without the base table, as multisets. */
  lemma AddedIsDifference(baseRows: seq<Row>, headRows: seq<Row>)
    ensures multiset(Added(baseRows, headRows)) == multiset(headRows) - multiset(baseRows)
  {
    TakenAll(headRows, multiset(headRows) - multiset(baseRows));
  }
}
