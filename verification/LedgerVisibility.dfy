/** Where a visibility token lets an item be seen, and how that reach follows modules that moved. */
module LedgerVisibility {
  import opened Prelude
  import opened Bags
  import opened LedgerMatch

  // ---- the reach of a token

  function Parent(m: ModulePath): ModulePath {
    if m == [] then [] else m[..|m| - 1]
  }

  function Root(m: ModulePath): ModulePath {
    if m == [] then [] else m[..1]
  }

  function Follow(here: ModulePath, part: string): ModulePath {
    if part == "super" then Parent(here) else if part == "self" then here else here + [part]
  }

  function FollowAll(here: ModulePath, parts: seq<string>): ModulePath
    decreases parts
  {
    if parts == [] then here else FollowAll(Follow(here, parts[0]), parts[1..])
  }

  /** The module subtree a token opens an item of module `m` to; the empty path is everywhere. */
  function Scope(v: Vis, m: ModulePath): ModulePath {
    match v
    case Private => m
    case PubSelf => m
    case Pub => []
    case PubSuper => Parent(m)
    case PubCrate => Root(m)
    case PubIn(parts) =>
      if parts != [] && parts[0] == "crate" then FollowAll(Root(m), parts[1..]) else FollowAll(m, parts)
    case OtherVis(_) => []
  }

  // ---- what a token opens, module by module

  /** `crate` names the first module of the path. */
  predicate CrateOf(m: ModulePath, root: ModulePath) {
    if m == [] then root == [] else |root| == 1 && root <= m
  }

  /** One part of a path leads from one module to another. */
  predicate Leads(here: ModulePath, part: string, there: ModulePath) {
    if part == "super" then there <= here && |there| == (if here == [] then 0 else |here| - 1)
    else if part == "self" then there == here
    else here <= there && |there| == |here| + 1 && there[|here|] == part
  }

  /** The parts, one after the other, lead from one module to another. */
  ghost predicate Trail(start: ModulePath, parts: seq<string>, end: ModulePath) {
    exists at: seq<ModulePath> ::
      && |at| == |parts| + 1 && at[0] == start && at[|parts|] == end
      && forall i :: 0 <= i < |parts| ==> Leads(at[i], parts[i], at[i + 1])
  }

  /** The module that the parts of `pub(in ..)` name for an item of module `m`. */
  ghost predicate Names(parts: seq<string>, m: ModulePath, end: ModulePath) {
    if parts != [] && parts[0] == "crate"
    then exists root :: CrateOf(m, root) && Trail(root, parts[1..], end)
    else Trail(m, parts, end)
  }

  /** Module `x` sees an item of module `m` with this token. */
  ghost predicate Opens(v: Vis, m: ModulePath, x: ModulePath) {
    && (v.Private? || v.PubSelf? ==> m <= x)
    && (v.PubSuper? ==> exists parent :: Leads(m, "super", parent) && parent <= x)
    && (v.PubCrate? ==> exists root :: CrateOf(m, root) && root <= x)
    && (v.PubIn? ==> exists end :: Names(v.parts, m, end) && end <= x)
  }

  lemma FollowLeads(here: ModulePath, part: string, there: ModulePath)
    ensures Leads(here, part, there) <==> there == Follow(here, part)
  {
    if part != "super" && part != "self" && Leads(here, part, there) {
      assert there == there[..|here|] + [there[|here|]];
    }
  }

  lemma {:induction false} FollowTrail(start: ModulePath, parts: seq<string>, at: seq<ModulePath>)
    requires |at| == |parts| + 1 && at[0] == start
    requires forall i :: 0 <= i < |parts| ==> Leads(at[i], parts[i], at[i + 1])
    ensures at[|parts|] == FollowAll(start, parts)
    decreases parts
  {
    if parts != [] {
      FollowLeads(start, parts[0], at[1]);
      FollowTrail(at[1], parts[1..], at[1..]);
    }
  }

  lemma {:induction false} TrailExists(start: ModulePath, parts: seq<string>) returns (at: seq<ModulePath>)
    ensures |at| == |parts| + 1 && at[0] == start
    ensures forall i :: 0 <= i < |parts| ==> Leads(at[i], parts[i], at[i + 1])
    decreases parts
  {
    if parts == [] {
      at := [start];
    } else {
      var next := Follow(start, parts[0]);
      FollowLeads(start, parts[0], next);
      var rest := TrailExists(next, parts[1..]);
      at := [start] + rest;
      forall i | 0 <= i < |parts| ensures Leads(at[i], parts[i], at[i + 1]) {
        if i > 0 { assert parts[i] == parts[1..][i - 1]; }
      }
    }
  }

  lemma TrailIs(start: ModulePath, parts: seq<string>, end: ModulePath)
    ensures Trail(start, parts, end) <==> end == FollowAll(start, parts)
  {
    var at := TrailExists(start, parts);
    FollowTrail(start, parts, at);
    if Trail(start, parts, end) {
      var other :| |other| == |parts| + 1 && other[0] == start && other[|parts|] == end
        && forall i :: 0 <= i < |parts| ==> Leads(other[i], parts[i], other[i + 1]);
      FollowTrail(start, parts, other);
    }
  }

  lemma RootIs(m: ModulePath, root: ModulePath)
    ensures CrateOf(m, root) <==> root == Root(m)
  {
  }

  lemma NamesIs(parts: seq<string>, m: ModulePath, end: ModulePath)
    ensures Names(parts, m, end) <==> end == Scope(PubIn(parts), m)
  {
    RootIs(m, Root(m));
    if parts != [] && parts[0] == "crate" {
      forall root | CrateOf(m, root) ensures root == Root(m) { RootIs(m, root); }
      TrailIs(Root(m), parts[1..], end);
    } else {
      TrailIs(m, parts, end);
    }
  }

  /** A token opens an item to exactly the modules below its reach. */
  lemma ScopeOpens(v: Vis, m: ModulePath, x: ModulePath)
    ensures Opens(v, m, x) <==> Scope(v, m) <= x
  {
    hide Names, CrateOf, Leads;
    FollowLeads(m, "super", Parent(m));
    RootIs(m, Root(m));
    if Opens(v, m, x) {
      if v.PubSuper? {
        var parent :| Leads(m, "super", parent) && parent <= x;
        FollowLeads(m, "super", parent);
      } else if v.PubCrate? {
        var root :| CrateOf(m, root) && root <= x;
        RootIs(m, root);
      } else if v.PubIn? {
        var end :| Names(v.parts, m, end) && end <= x;
        NamesIs(v.parts, m, end);
      }
    }
    if v.PubIn? { NamesIs(v.parts, m, Scope(v, m)); }
  }

  /** Leading `super` parts drop as many modules, and the plain parts that follow go down again. */
  lemma SupersThenDown(m: ModulePath, ups: nat, parts: seq<string>)
    requires ups <= |m| && PlainParts(parts)
    ensures FollowAll(m, seq(ups, _ => "super") + parts) == m[..|m| - ups] + parts
    decreases ups
  {
    var supers := seq(ups, _ => "super");
    if ups == 0 {
      assert supers + parts == parts && m[..|m|] == m;
      FollowPlain(m, parts);
    } else {
      assert (supers + parts)[1..] == seq(ups - 1, _ => "super") + parts;
      SupersThenDown(Parent(m), ups - 1, parts);
      assert Parent(m)[..|m| - ups] == m[..|m| - ups];
    }
  }

  method ScopeOf(v: Vis, m: ModulePath) returns (reach: ModulePath)
    ensures reach == Scope(v, m)
    ensures forall x :: reach <= x <==> Opens(v, m, x)
  {
    hide Opens;
    forall x ensures Scope(v, m) <= x <==> Opens(v, m, x) { ScopeOpens(v, m, x); }
    if !v.PubIn? { return Scope(v, m); }
    var here, parts := m, v.parts;
    if parts != [] && parts[0] == "crate" { here, parts := Root(m), parts[1..]; }
    for i := 0 to |parts|
      invariant FollowAll(here, parts[i..]) == Scope(v, m)
    {
      assert parts[i..][1..] == parts[i + 1..];
      here := Follow(here, parts[i]);
    }
    reach := here;
  }

  /** An item private in M keeps its reach as `pub(super)` in a direct child of M. */
  lemma ChildKeepsReach(m: ModulePath, child: string)
    ensures Scope(PubSuper, m + [child]) == Scope(Private, m)
  {
    assert (m + [child])[..|m|] == m;
  }

  predicate PlainParts(parts: seq<string>) {
    forall i :: 0 <= i < |parts| ==> parts[i] != "super" && parts[i] != "self"
  }

  lemma {:induction false} FollowPlain(here: ModulePath, parts: seq<string>)
    requires PlainParts(parts)
    ensures FollowAll(here, parts) == here + parts
    decreases parts
  {
    if parts != [] {
      assert Follow(here, parts[0]) == here + [parts[0]];
      FollowPlain(here + [parts[0]], parts[1..]);
      assert here + [parts[0]] + parts[1..] == here + parts;
    } else {
      assert here + parts == here;
    }
  }

  /** An item private in M keeps its reach as `pub(in M)` anywhere in the same crate. */
  lemma PathKeepsReach(m: ModulePath, n: ModulePath)
    requires m != [] && n != [] && m[0] == n[0] && PlainParts(m[1..])
    ensures Scope(PubIn(["crate"] + m[1..]), n) == Scope(Private, m)
  {
    assert (["crate"] + m[1..])[1..] == m[1..];
    FollowPlain(Root(n), m[1..]);
    assert Root(n) + m[1..] == m;
  }

  // ---- modules that moved

  predicate InTree(p: Pair) {
    p.0.home.Some? && p.1.home.Some?
  }

  /** A pair whose base item lies in or below a module. */
  predicate Under(p: Pair, prefix: ModulePath) {
    InTree(p) && prefix != [] && prefix <= p.0.home.value
  }

  /** Where the module must have gone for this pair, if the rest of the path is unchanged. */
  function TargetOf(p: Pair, prefix: ModulePath): Option<ModulePath>
    requires Under(p, prefix)
  {
    var rest, now := p.0.home.value[|prefix|..], p.1.home.value;
    if |rest| <= |now| && now[|now| - |rest|..] == rest then Some(now[..|now| - |rest|]) else None
  }

  lemma TargetIs(p: Pair, prefix: ModulePath, target: ModulePath)
    requires Under(p, prefix)
    ensures TargetOf(p, prefix) == Some(target) <==> p.1.home.value == target + p.0.home.value[|prefix|..]
  {
    var rest, now := p.0.home.value[|prefix|..], p.1.home.value;
    if |rest| <= |now| { assert now == now[..|now| - |rest|] + now[|now| - |rest|..]; }
    if now == target + rest {
      assert now[|now| - |rest|..] == rest && now[..|now| - |rest|] == target;
    }
  }

  type Moves = map<ModulePath, ModulePath>

  /** The whole subtree of the module went to one place. */
  ghost predicate MovedTo(pairs: seq<Pair>, headModules: set<ModulePath>, prefix: ModulePath, target: ModulePath) {
    && prefix !in headModules
    && (exists p :: p in pairs && Under(p, prefix))
    && (forall p :: p in pairs && Under(p, prefix) ==> p.1.home.value == target + p.0.home.value[|prefix|..])
  }

  ghost predicate MovesOk(moves: Moves, pairs: seq<Pair>, headModules: set<ModulePath>) {
    && (forall m :: m in moves ==> MovedTo(pairs, headModules, m, moves[m]))
    && (forall m, t :: MovedTo(pairs, headModules, m, t) ==> m in moves)
  }

  type Targets = map<ModulePath, set<Option<ModulePath>>>

  ghost predicate Collected(found: Targets, pairs: seq<Pair>, headModules: set<ModulePath>) {
    && (forall m :: m in found ==> m !in headModules && found[m] != {})
    && (forall m, t :: m in found && t in found[m] ==> exists p :: p in pairs && Under(p, m) && TargetOf(p, m) == t)
    && (forall m, p :: p in pairs && Under(p, m) && m !in headModules ==> m in found && TargetOf(p, m) in found[m])
  }

  function Insert(found: Targets, m: ModulePath, t: Option<ModulePath>): Targets {
    found[m := Old(found, m) + {t}]
  }

  function Old(found: Targets, m: ModulePath): set<Option<ModulePath>> {
    if m in found then found[m] else {}
  }

  /** The targets one pair adds: one for each module around its base item that is gone at head. */
  method AddTargets(found: Targets, p: Pair, headModules: set<ModulePath>) returns (r: Targets)
    ensures forall m :: m in r <==> m in found || (m !in headModules && Under(p, m))
    ensures forall m :: m in r ==>
      r[m] == Old(found, m) + (if m !in headModules && Under(p, m) then {TargetOf(p, m)} else {})
  {
    hide TargetOf;
    r := found;
    if InTree(p) {
      var path := p.0.home.value;
      for cut := 1 to |path| + 1
        invariant forall m :: m in r <==> m in found || (m !in headModules && Under(p, m) && |m| < cut)
        invariant forall m :: m in r ==>
          r[m] == Old(found, m) + (if m !in headModules && Under(p, m) && |m| < cut then {TargetOf(p, m)} else {})
      {
        var prefix := path[..cut];
        assert Under(p, prefix) && forall m :: Under(p, m) && |m| == cut ==> m == prefix;
        if prefix !in headModules { r := Insert(r, prefix, TargetOf(p, prefix)); }
      }
    }
  }

  lemma CollectStep(found: Targets, r: Targets, pairs: seq<Pair>, p: Pair, headModules: set<ModulePath>)
    requires Collected(found, pairs, headModules)
    requires forall m :: m in r <==> m in found || (m !in headModules && Under(p, m))
    requires forall m :: m in r ==>
      r[m] == Old(found, m) + (if m !in headModules && Under(p, m) then {TargetOf(p, m)} else {})
    ensures Collected(r, pairs + [p], headModules)
  {
    hide Under, TargetOf, Collected;
    var all := pairs + [p];
    assert forall q :: q in all <==> q in pairs || q == p;
    CollectedIs(found, pairs, headModules);
    forall m, t | m in r && t in r[m] ensures Witnessed(all, m, t) {
      if m in found && t in found[m] {
        assert Witnessed(pairs, m, t);
        var q :| q in pairs && Under(q, m) && TargetOf(q, m) == t;
        assert q in all;
      } else {
        assert p in all;
      }
    }
    forall m, q | q in all && Under(q, m) && m !in headModules ensures m in r && TargetOf(q, m) in r[m] {
      if q in pairs { assert m in found && TargetOf(q, m) in found[m]; }
    }
    CollectedMake(r, all, headModules);
  }

  ghost predicate Witnessed(pairs: seq<Pair>, m: ModulePath, t: Option<ModulePath>) {
    exists p :: p in pairs && Under(p, m) && TargetOf(p, m) == t
  }

  lemma CollectedIs(found: Targets, pairs: seq<Pair>, headModules: set<ModulePath>)
    requires Collected(found, pairs, headModules)
    ensures forall m :: m in found ==> m !in headModules && found[m] != {}
    ensures forall m, t :: m in found && t in found[m] ==> Witnessed(pairs, m, t)
    ensures forall m, p :: p in pairs && Under(p, m) && m !in headModules ==> m in found && TargetOf(p, m) in found[m]
  {
    hide Under, TargetOf;
  }

  lemma CollectedMake(found: Targets, pairs: seq<Pair>, headModules: set<ModulePath>)
    requires forall m :: m in found ==> m !in headModules && found[m] != {}
    requires forall m, t :: m in found && t in found[m] ==> Witnessed(pairs, m, t)
    requires forall m, p :: p in pairs && Under(p, m) && m !in headModules ==> m in found && TargetOf(p, m) in found[m]
    ensures Collected(found, pairs, headModules)
  {
    hide Under, TargetOf;
  }

  /** `module_moves`: exactly the modules that are gone at head and whose whole subtree went to one place. */
  method ModuleMoves(pairs: seq<Pair>, headModules: set<ModulePath>) returns (moves: Moves)
    ensures MovesOk(moves, pairs, headModules)
  {
    hide Collected, MovesOk, Under, TargetOf;
    var found: Targets := map[];
    CollectNothing(headModules);
    for i := 0 to |pairs|
      invariant Collected(found, pairs[..i], headModules)
    {
      assert pairs[..i + 1] == pairs[..i] + [pairs[i]];
      var next := AddTargets(found, pairs[i], headModules);
      CollectStep(found, next, pairs[..i], pairs[i], headModules);
      found := next;
    }
    assert pairs[..|pairs|] == pairs;
    moves := map m | m in found && Single(found[m]) :: Only(found[m]);
    forall m | m in moves ensures MovedTo(pairs, headModules, m, moves[m]) {
      SingleMoves(found, pairs, headModules, m);
    }
    forall m, t | MovedTo(pairs, headModules, m, t) ensures m in moves { MovesSingle(found, pairs, headModules, m, t); }
    MovesAre(moves, pairs, headModules);
  }

  predicate Single(ts: set<Option<ModulePath>>) {
    |ts| == 1 && None !in ts
  }

  lemma SingleIs(ts: set<Option<ModulePath>>, t: Option<ModulePath>)
    requires |ts| == 1 && t in ts
    ensures ts == {t}
  {
    assert |ts - {t}| == 0;
    assert forall x :: x in ts ==> x == t || x in ts - {t};
  }

  function Only(ts: set<Option<ModulePath>>): (t: ModulePath)
    requires Single(ts)
    ensures ts == {Some(t)}
  {
    assert ts != {};
    assert forall x, y | x in ts && y in ts :: x == y by {
      forall x, y | x in ts && y in ts ensures x == y { SingleIs(ts, x); }
    }
    var t :| t in ts;
    SingleIs(ts, t);
    t.value
  }

  lemma CollectNothing(headModules: set<ModulePath>)
    ensures Collected(map[], [], headModules)
  {
  }

  lemma MovesAre(moves: Moves, pairs: seq<Pair>, headModules: set<ModulePath>)
    requires forall m :: m in moves ==> MovedTo(pairs, headModules, m, moves[m])
    requires forall m, t :: MovedTo(pairs, headModules, m, t) ==> m in moves
    ensures MovesOk(moves, pairs, headModules)
  {
  }

  lemma SingleMoves(found: Targets, pairs: seq<Pair>, headModules: set<ModulePath>, m: ModulePath)
    requires Collected(found, pairs, headModules) && m in found && Single(found[m])
    ensures MovedTo(pairs, headModules, m, Only(found[m]))
  {
    hide TargetOf, Single, Only;
    var t := Only(found[m]);
    assert found[m] == {Some(t)};
    assert Some(t) in found[m];
    forall p | p in pairs && Under(p, m) ensures p.1.home.value == t + p.0.home.value[|m|..] {
      assert TargetOf(p, m) in found[m];
      TargetIs(p, m, t);
    }
  }

  lemma MovesSingle(found: Targets, pairs: seq<Pair>, headModules: set<ModulePath>, m: ModulePath, t: ModulePath)
    requires Collected(found, pairs, headModules) && MovedTo(pairs, headModules, m, t)
    ensures m in found && Single(found[m])
  {
    hide Under, TargetOf;
    var q :| q in pairs && Under(q, m);
    assert TargetOf(q, m) in found[m];
    forall x | x in found[m] ensures x == Some(t) {
      var p :| p in pairs && Under(p, m) && TargetOf(p, m) == x;
      TargetIs(p, m, t);
    }
    assert found[m] == {Some(t)};
  }

  /** Modules that moved agree: an inner one went to the same place inside the outer one's new place. */
  lemma MovesCoherent(moves: Moves, pairs: seq<Pair>, headModules: set<ModulePath>, outer: ModulePath,
                      inner: ModulePath)
    requires MovesOk(moves, pairs, headModules) && outer in moves && inner in moves && outer <= inner
    ensures moves[inner] == moves[outer] + inner[|outer|..]
  {
    assert MovedTo(pairs, headModules, outer, moves[outer]) && MovedTo(pairs, headModules, inner, moves[inner]);
    var p :| p in pairs && Under(p, inner);
    OuterUnder(p, outer, inner);
    var home, now := p.0.home.value, p.1.home.value;
    var rest := home[|inner|..];
    assert home[|outer|..] == inner[|outer|..] + rest by { assert home == inner + rest; }
    assert now == moves[inner] + rest;
    assert now == (moves[outer] + inner[|outer|..]) + rest;
    SameFront(moves[inner], moves[outer] + inner[|outer|..], rest);
  }

  lemma SameFront(a: ModulePath, b: ModulePath, rest: ModulePath)
    requires a + rest == b + rest
    ensures a == b
  {
    assert a == (a + rest)[..|a|] && b == (b + rest)[..|b|];
  }

  lemma OuterUnder(p: Pair, outer: ModulePath, inner: ModulePath)
    requires Under(p, inner) && outer <= inner && outer != []
    ensures Under(p, outer)
  {
  }

  /** The reach at base, carried along by the longest enclosing module that moved. */
  function MovedBy(reach: ModulePath, moves: Moves, cut: nat): ModulePath
    requires cut <= |reach|
  {
    if cut == 0 then reach
    else if reach[..cut] in moves then moves[reach[..cut]] + reach[cut..]
    else MovedBy(reach, moves, cut - 1)
  }

  function Moved(reach: ModulePath, moves: Moves): ModulePath {
    MovedBy(reach, moves, |reach|)
  }

  method MoveReach(reach: ModulePath, moves: Moves) returns (r: ModulePath)
    ensures r == Moved(reach, moves)
  {
    var cut := |reach|;
    while cut > 0
      invariant 0 <= cut <= |reach| && MovedBy(reach, moves, cut) == Moved(reach, moves)
    {
      if reach[..cut] in moves { return moves[reach[..cut]] + reach[cut..]; }
      cut := cut - 1;
    }
    r := reach;
  }

  /** The choice of the longest module does not matter: every enclosing module that moved gives the same reach. */
  lemma {:induction false} MovedAnyBy(moves: Moves, pairs: seq<Pair>, headModules: set<ModulePath>, m: ModulePath,
                                      reach: ModulePath, cut: nat)
    requires MovesOk(moves, pairs, headModules) && m in moves && m <= reach && |m| <= cut <= |reach|
    ensures MovedBy(reach, moves, cut) == moves[m] + reach[|m|..]
    decreases cut
  {
    hide MovesOk;
    MovesNonempty(moves, pairs, headModules, m);
    assert reach[..|m|] == m;
    if reach[..cut] in moves {
      MovesCoherent(moves, pairs, headModules, m, reach[..cut]);
      assert reach[|m|..] == reach[..cut][|m|..] + reach[cut..];
    } else {
      MovedAnyBy(moves, pairs, headModules, m, reach, cut - 1);
    }
  }

  lemma MovesNonempty(moves: Moves, pairs: seq<Pair>, headModules: set<ModulePath>, m: ModulePath)
    requires MovesOk(moves, pairs, headModules) && m in moves
    ensures m != []
  {
    assert MovedTo(pairs, headModules, m, moves[m]);
  }

  lemma MovedAny(moves: Moves, pairs: seq<Pair>, headModules: set<ModulePath>, m: ModulePath, reach: ModulePath)
    requires MovesOk(moves, pairs, headModules) && m in moves && m <= reach
    ensures Moved(reach, moves) == moves[m] + reach[|m|..]
  {
    MovedAnyBy(moves, pairs, headModules, m, reach, |reach|);
  }

  /** An item goes where its module went. */
  lemma HomeFollows(moves: Moves, pairs: seq<Pair>, headModules: set<ModulePath>, p: Pair, m: ModulePath)
    requires MovesOk(moves, pairs, headModules) && p in pairs && Under(p, m) && m in moves
    ensures p.1.home.value == moves[m] + p.0.home.value[|m|..] == Moved(p.0.home.value, moves)
  {
    MovedAny(moves, pairs, headModules, m, p.0.home.value);
    assert MovedTo(pairs, headModules, m, moves[m]);
  }

  /** In a subtree that moved intact an unchanged private, `pub(self)` or `pub(super)` token keeps its reach. */
  lemma IntactSubtree(moves: Moves, pairs: seq<Pair>, headModules: set<ModulePath>, p: Pair, m: ModulePath, v: Vis)
    requires MovesOk(moves, pairs, headModules) && p in pairs && Under(p, m) && m in moves
    requires v.Private? || v.PubSelf? || (v.PubSuper? && |m| < |p.0.home.value|)
    ensures Moved(Scope(v, p.0.home.value), moves) == Scope(v, p.1.home.value)
  {
    var home, now := p.0.home.value, p.1.home.value;
    HomeFollows(moves, pairs, headModules, p, m);
    if v.PubSuper? {
      MovedAny(moves, pairs, headModules, m, Parent(home));
      assert Parent(now) == moves[m] + Parent(home)[|m|..];
    }
  }

  /** An item that stays in its module with its token, reaching no further than its own ancestors, is never widened. */
  lemma UnmovedKeepsReach(moves: Moves, pairs: seq<Pair>, headModules: set<ModulePath>, p: Pair, v: Vis)
    requires MovesOk(moves, pairs, headModules) && p in pairs && InTree(p) && p.0.home == p.1.home
    requires Scope(v, p.0.home.value) <= p.0.home.value
    ensures Moved(Scope(v, p.0.home.value), moves) == Scope(v, p.1.home.value)
  {
    hide Scope;
    UnmovedBy(moves, pairs, headModules, p, Scope(v, p.0.home.value), |Scope(v, p.0.home.value)|);
  }

  lemma {:induction false} UnmovedBy(moves: Moves, pairs: seq<Pair>, headModules: set<ModulePath>, p: Pair,
                                     reach: ModulePath, cut: nat)
    requires MovesOk(moves, pairs, headModules) && p in pairs && InTree(p) && p.0.home == p.1.home
    requires reach <= p.0.home.value && cut <= |reach|
    ensures MovedBy(reach, moves, cut) == reach
    decreases cut
  {
    if cut > 0 {
      var m, home := reach[..cut], p.0.home.value;
      if m in moves {
        assert m == home[..cut] && Under(p, m);
        assert MovedTo(pairs, headModules, m, moves[m]);
        assert home == m + home[cut..];
        SameFront(moves[m], m, home[cut..]);
        assert reach == m + reach[cut..];
      } else {
        UnmovedBy(moves, pairs, headModules, p, reach, cut - 1);
      }
    }
  }

  // ---- the check

  function AsMap(vis: seq<(int, Vis)>): map<int, Vis> {
    if vis == [] then map[]
    else
      var last := vis[|vis| - 1];
      AsMap(vis[..|vis| - 1])[last.0 := last.1]
  }

  /** The last entry for a place counts. */
  lemma {:induction false} AsMapLast(vis: seq<(int, Vis)>, at: int)
    ensures at in AsMap(vis) <==> exists i :: 0 <= i < |vis| && vis[i].0 == at
    ensures forall i :: 0 <= i < |vis| && vis[i].0 == at && (forall j :: i < j < |vis| ==> vis[j].0 != at) ==>
      at in AsMap(vis) && AsMap(vis)[at] == vis[i].1
    decreases |vis|
  {
    if vis != [] {
      var front := vis[..|vis| - 1];
      AsMapLast(front, at);
      assert forall i :: 0 <= i < |front| ==> front[i] == vis[i];
    }
  }

  function TokenAt(vis: map<int, Vis>, at: int): Vis {
    if at in vis then vis[at] else Private
  }

  function JoinPath(parts: seq<string>): string {
    if parts == [] then "" else if |parts| == 1 then parts[0] else parts[0] + "::" + JoinPath(parts[1..])
  }

  function Show(m: ModulePath): string {
    if m == [] then "everywhere" else JoinPath(m)
  }

  /** Named on the command line by its name, its label or either of its paths. */
  predicate Allowed(u: Unit, names: set<string>)
    requires u.home.Some?
  {
    var home := u.home.value;
    var path := if home == [] then u.name else JoinPath(home[1..] + [u.name]);
    u.name in names || u.item in names || path in names || Show(home) + "::" + u.name in names
  }

  /** At one place the head token reaches no further than the base token did, module moves considered. */
  predicate Inside(base: Unit, head: Unit, moves: Moves, at: int)
    requires base.home.Some? && head.home.Some?
  {
    var before, after := TokenAt(AsMap(base.vis), at), TokenAt(AsMap(head.vis), at);
    Moved(Scope(before, base.home.value), moves) <= Scope(after, head.home.value)
  }

  /** Not widened: whoever sees the item at head lies in its reach at base, carried along by the moves. */
  lemma InsideMeans(base: Unit, head: Unit, moves: Moves, at: int)
    requires base.home.Some? && head.home.Some?
    ensures var moved := Moved(Scope(TokenAt(AsMap(base.vis), at), base.home.value), moves);
      Inside(base, head, moves, at) <==> AllSee(TokenAt(AsMap(head.vis), at), head.home.value, moved)
  {
    hide Scope, Moved, AllSee, AsMap, TokenAt;
    var moved := Moved(Scope(TokenAt(AsMap(base.vis), at), base.home.value), moves);
    ReachMeans(TokenAt(AsMap(head.vis), at), head.home.value, moved);
  }

  /** Every module that sees the item is in this reach. */
  ghost predicate AllSee(v: Vis, m: ModulePath, reach: ModulePath) {
    forall x :: Opens(v, m, x) ==> reach <= x
  }

  lemma ReachMeans(v: Vis, m: ModulePath, reach: ModulePath)
    ensures reach <= Scope(v, m) <==> AllSee(v, m, reach)
  {
    hide Scope, Opens;
    forall x ensures Opens(v, m, x) ==> reach <= Scope(v, m) ==> reach <= x {
      ScopeOpens(v, m, x);
      PrefixChain(reach, Scope(v, m), x);
    }
    ScopeOpens(v, m, Scope(v, m));
    if AllSee(v, m, reach) { assert Opens(v, m, Scope(v, m)); }
  }

  lemma PrefixChain(a: ModulePath, b: ModulePath, c: ModulePath)
    ensures a <= b && b <= c ==> a <= c
  {
  }

  /** An item that stays in its module, and was seen from its own ancestors only, is widened at a place if and only if a
      module sees it at head that did not at base. */
  lemma UnmovedWidens(moves: Moves, pairs: seq<Pair>, headModules: set<ModulePath>, p: Pair, at: int)
    requires MovesOk(moves, pairs, headModules) && p in pairs && InTree(p) && p.0.home == p.1.home
    requires Scope(TokenAt(AsMap(p.0.vis), at), p.0.home.value) <= p.0.home.value
    ensures !Inside(p.0, p.1, moves, at) <==> exists x ::
      && Opens(TokenAt(AsMap(p.1.vis), at), p.1.home.value, x)
      && !Opens(TokenAt(AsMap(p.0.vis), at), p.0.home.value, x)
  {
    hide Scope, Moved, Opens, AsMap, TokenAt, MovesOk;
    var before, after, m := TokenAt(AsMap(p.0.vis), at), TokenAt(AsMap(p.1.vis), at), p.0.home.value;
    UnmovedKeepsReach(moves, pairs, headModules, p, before);
    assert Moved(Scope(before, m), moves) == Scope(before, m);
    forall x ensures Opens(before, m, x) <==> Scope(before, m) <= x { ScopeOpens(before, m, x); }
    InsideMeans(p.0, p.1, moves, at);
  }

  /** Making such an item `pub` where it was not seen from everywhere is always reported, unless it is allowed. */
  lemma PubIsReported(moves: Moves, pairs: seq<Pair>, headModules: set<ModulePath>, p: Pair, at: int,
                      names: set<string>)
    requires MovesOk(moves, pairs, headModules) && p in pairs && InTree(p) && p.0.home == p.1.home
    requires Scope(TokenAt(AsMap(p.0.vis), at), p.0.home.value) <= p.0.home.value
    requires !Opens(TokenAt(AsMap(p.0.vis), at), p.0.home.value, [])
    requires at in AsMap(p.1.vis) && AsMap(p.1.vis)[at] == Pub && !Allowed(p.1, names)
    ensures !VisibilityKept(p.0, p.1, moves, names)
  {
    hide Scope, Moved, AsMap, MovesOk, Inside, Allowed, Names, CrateOf, Leads;
    assert Opens(Pub, p.1.home.value, []);
    UnmovedWidens(moves, pairs, headModules, p, at);
  }

  predicate VisibilityKept(base: Unit, head: Unit, moves: Moves, names: set<string>) {
    if base.home.None? || head.home.None? then base.vis == head.vis
    else
      Allowed(head, names)
      || forall at :: at in AsMap(base.vis).Keys + AsMap(head.vis).Keys ==> Inside(base, head, moves, at)
  }

  lemma SomePlace(places: set<int>)
    requires places != {}
    ensures exists at: int :: at in places
  {
    NoPlace(places);
  }

  lemma NoPlace(places: set<int>)
    ensures (forall at: int :: at !in places) ==> places == {}
  {
    if forall at: int :: at !in places { assert places == {}; }
  }

  /** `check_visibility`: how many failures it reports, and how many widened rows. */
  method CheckVisibility(base: Unit, head: Unit, moves: Moves, names: set<string>) returns (failures: nat, widened: nat)
    ensures failures == 0 <==> VisibilityKept(base, head, moves, names)
    ensures InTree((base, head)) ==> (widened == 0 <==>
      forall at :: at in AsMap(base.vis).Keys + AsMap(head.vis).Keys ==> Inside(base, head, moves, at))
  {
    failures, widened := 0, 0;
    if base.home.None? || head.home.None? {
      if base.vis != head.vis { failures := 1; }
      return;
    }
    hide AsMap, Scope, Moved, TokenAt, Allowed;
    var oldVis, newVis := AsMap(base.vis), AsMap(head.vis);
    var todo: set<int> := oldVis.Keys + newVis.Keys;
    ghost var done: set<int> := {};
    while todo != {}
      invariant todo + done == oldVis.Keys + newVis.Keys
      invariant widened == 0 <==> forall at :: at in done ==> Inside(base, head, moves, at)
      invariant failures == 0 <==> widened == 0 || Allowed(head, names)
      decreases todo
    {
      SomePlace(todo);
      var at :| at in todo;
      var before := ScopeOf(TokenAt(oldVis, at), base.home.value);
      var reach := MoveReach(before, moves);
      var now := ScopeOf(TokenAt(newVis, at), head.home.value);
      assert Inside(base, head, moves, at) <==> reach <= now;
      if !(reach <= now) {
        widened := widened + 1;
        if !Allowed(head, names) { failures := failures + 1; }
      }
      todo, done := todo - {at}, done + {at};
    }
  }
}
