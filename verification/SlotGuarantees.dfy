/** The registry's promises over every run. */
module SlotGuarantees {
  import opened Prelude
  import opened SlotModel
  import opened SlotFilter
  import opened SlotCalls
  import opened SlotEvolution
  import opened SlotRuns

  // ---- reconnect ids are never rebound

  /** The id names this identity or nothing, is not a managed setup, and is live or retired. */
  predicate Held(env: Env, s: Settings, id: string, identity: Identity) {
    && FilterShape(s.filter)
    && !HasOp(s.setups, id)
    && (forall i :: 0 <= i < |s.reconnects| && s.reconnects[i].id == id ==> IdentityOf(s.reconnects[i]) == identity)
    && (HasOp(s.reconnects, id) || IsRetired(env, s.filter, id))
  }

  lemma HeldKept(env: Env, s: Settings, t: Settings, id: string, identity: Identity)
    requires Evolves(env, s, t) && Held(env, s, id, identity)
    ensures Held(env, t, id, identity)
  {
    hide SlotsOk, SetupsOk, ReconnectsOk, RowsOk, IsRetired;
    if IsRetired(env, s.filter, id) { CoversKeepsRetired(env, s.filter, t.filter, id); }
    assert !Unused(env, s, id);
    forall i | 0 <= i < |t.setups| ensures t.setups[i].id != id {
      assert HasBound(s.setups, t.setups[i].id, IdentityOf(t.setups[i])) || Unused(env, s, t.setups[i].id);
    }
    forall i | 0 <= i < |t.reconnects| && t.reconnects[i].id == id ensures IdentityOf(t.reconnects[i]) == identity {
      assert HasBound(s.reconnects, t.reconnects[i].id, IdentityOf(t.reconnects[i]));
    }
    if HasOp(s.reconnects, id) {
      var i :| 0 <= i < |s.reconnects| && s.reconnects[i].id == id;
      assert HasOp(t.reconnects, s.reconnects[i].id) || IsRetired(env, t.filter, s.reconnects[i].id);
    }
  }

  lemma IssuedIsHeld(env: Env, s: Settings, k: nat)
    requires Valid(env, s) && k < |s.reconnects|
    ensures Held(env, s, s.reconnects[k].id, IdentityOf(s.reconnects[k]))
  {
    hide SlotsOk, SetupsOk, ReconnectsOk;
    var n := |s.setups|;
    assert Rows(s)[n + k] == s.reconnects[k];
    forall i | 0 <= i < |s.setups| ensures s.setups[i].id != s.reconnects[k].id {
      assert Rows(s)[i] == s.setups[i];
    }
    forall i | 0 <= i < |s.reconnects| && i != k ensures s.reconnects[i].id != s.reconnects[k].id {
      assert Rows(s)[n + i] == s.reconnects[i];
    }
  }

  /** Once issued, a reconnect id is a live row of the same slot, directory, target and requested pair, or
      tests as retired; and it is never a managed setup. Crashes included; downgrades excluded. */
  lemma ReconnectIdNeverRebound(env: Env, ls: seq<Label>, i: nat, j: nat, k: nat)
    requires i <= j <= |ls| && k < |At(env, ls, i).reconnects|
    requires forall m :: i <= m < j ==> !ls[m].Downgraded?
    ensures Held(env, At(env, ls, j), At(env, ls, i).reconnects[k].id, IdentityOf(At(env, ls, i).reconnects[k]))
  {
    hide Evolves, Held, Valid, Forgotten;
    var row := At(env, ls, i).reconnects[k];
    var id, identity := row.id, IdentityOf(row);
    IssuedIsHeld(env, At(env, ls, i), k);
    forall s, t | Evolves(env, s, t) && Held(env, s, id, identity) ensures Held(env, t, id, identity) {
      HeldKept(env, s, t, id, identity);
    }
    RunKeeps(env, s => Held(env, s, id, identity), ls, i, j);
  }

  // ---- retirement is permanent

  /** The id is retired, and every row it has is one it already had in `was`. */
  predicate Frozen(env: Env, was: Settings, s: Settings, id: string) {
    && FilterShape(s.filter)
    && IsRetired(env, s.filter, id)
    && (forall i :: 0 <= i < |s.setups| && s.setups[i].id == id ==> HasBound(was.setups, id, IdentityOf(s.setups[i])))
    && (forall i :: 0 <= i < |s.reconnects| && s.reconnects[i].id == id ==>
          HasBound(was.reconnects, id, IdentityOf(s.reconnects[i])))
  }

  lemma FrozenKept(env: Env, was: Settings, s: Settings, t: Settings, id: string)
    requires Evolves(env, s, t) && Frozen(env, was, s, id)
    ensures Frozen(env, was, t, id)
  {
    hide SlotsOk, SetupsOk, ReconnectsOk, RowsOk, IsRetired;
    CoversKeepsRetired(env, s.filter, t.filter, id);
    assert !Unused(env, s, id);
    forall i | 0 <= i < |t.setups| && t.setups[i].id == id ensures HasBound(was.setups, id, IdentityOf(t.setups[i])) {
      assert HasBound(s.setups, t.setups[i].id, IdentityOf(t.setups[i]));
    }
    forall i | 0 <= i < |t.reconnects| && t.reconnects[i].id == id
      ensures HasBound(was.reconnects, id, IdentityOf(t.reconnects[i]))
    {
      assert HasBound(s.reconnects, t.reconnects[i].id, IdentityOf(t.reconnects[i]));
    }
  }

  /** Over any run, with crashes between the two files and downgrade rewrites, the loaded bits only grow. */
  lemma FilterOnlyGrows(env: Env, ls: seq<Label>, i: nat, j: nat)
    requires i <= j <= |ls|
    ensures Covers(At(env, ls, i).filter, At(env, ls, j).filter)
  {
    hide Evolves, Valid, Covers;
    var f := At(env, ls, i).filter;
    ValidFilter(env, At(env, ls, i));
    var P := (s: Settings) => FilterShape(s.filter) && Covers(f, s.filter);
    CoversReflexive(f);
    forall s, t | Evolves(env, s, t) && P(s) ensures P(t) {
      EvolvesParts(env, s, t);
      ValidFilter(env, t);
      CoversTransitive(f, s.filter, t.filter);
    }
    RunKeeps(env, P, ls, i, j);
  }

  /** A retired id stays retired and is never given a row it did not have, in any run whatsoever. */
  lemma RetirementIsPermanent(env: Env, ls: seq<Label>, i: nat, j: nat, id: string)
    requires i <= j <= |ls| && IsRetired(env, At(env, ls, i).filter, id)
    ensures Frozen(env, At(env, ls, i), At(env, ls, j), id)
  {
    hide Evolves, Valid, IsRetired;
    var was := At(env, ls, i);
    forall s, t | Evolves(env, s, t) && Frozen(env, was, s, id) ensures Frozen(env, was, t, id) {
      FrozenKept(env, was, s, t, id);
    }
    ValidFilter(env, was);
    assert Frozen(env, was, was, id);
    RunKeeps(env, s => Frozen(env, was, s, id), ls, i, j);
  }

  // ---- validity, one active operation, capacity

  /** Every reachable disk loads, and what it loads is valid: at most one operation is active, and registered
      plus reserved slots, and so the reported remaining capacity, stay within bounds. */
  lemma ReachableWithinBounds(env: Env, ls: seq<Label>)
    ensures var r := Load(env, Reach(env, ls));
      && r.Ok?
      && Valid(env, r.settings)
      && AtMostOneActive(Rows(r.settings))
      && |r.settings.slots| + Unregistered(r.settings.slots, r.settings.setups) <= MAX_REGISTERED
      && 0 <= MAX_ACCOUNT_SLOTS - (1 + |r.settings.slots|)
  {
    ReachGood(env, ls);
    assert Valid(env, View(env, Reach(env, ls)));
  }

  lemma {:induction false} ChainHealthy(env: Env, s: Settings, es: seq<Effect>)
    requires Chain(env, s, es)
    ensures forall i :: 0 <= i < |es| && es[i].Save? ==> Healthy(env, es[i].settings)
    decreases es
  {
    hide Valid, RowsAgree;
    if es != [] {
      var rest := es[1..];
      ChainHealthy(env, if es[0].Save? then es[0].settings else s, rest);
      forall i | 0 <= i < |es| && es[i].Save? ensures Healthy(env, es[i].settings) {
        if i > 0 { assert rest[i - 1] == es[i]; }
      }
    }
  }

  /** Every save of every call on a reachable disk would pass `validate_persisted`, the resume saves that
      skip it included. */
  lemma EverySaveIsValid(env: Env, ls: seq<Label>, c: Call, i: nat)
    requires i < |PlanOf(env, Reach(env, ls), c).effects| && PlanOf(env, Reach(env, ls), c).effects[i].Save?
    ensures Healthy(env, PlanOf(env, Reach(env, ls), c).effects[i].settings)
  {
    hide Valid, Chain, PlanOf, Healthy;
    ReachGood(env, ls);
    PlanChain(env, Reach(env, ls), c);
    ChainHealthy(env, View(env, Reach(env, ls)), PlanOf(env, Reach(env, ls), c).effects);
  }

  /** Stopping is refused only for an unknown id. */
  lemma StopNeverRefused(env: Env, ls: seq<Label>, c: Call)
    requires c.Stop? && ValidOpId(c.id) && c.schema == SETTINGS_SCHEMA
    ensures var s := At(env, ls, |ls|);
      PlanOf(env, Reach(env, ls), c).reply.Done? <==> HasOp(s.setups, c.id) || HasOp(s.reconnects, c.id)
  {
    hide SlotsOk, SetupsOk, ReconnectsOk, RowsOk, PlanOf;
    assert ls[..|ls|] == ls;
    ReachGood(env, ls);
    var s := View(env, Reach(env, ls));
    var i := Find(Rows(s), c.id);
    PlanIsLocked(env, Reach(env, ls), c);
    EvolvesReflexive(env, s);
    RowIds(s, c.id);
    if i < |Rows(s)| {
      StopHealthy(env, s, i);
    }
  }

  lemma RowIds(s: Settings, id: string)
    ensures Find(Rows(s), id) < |Rows(s)| <==> HasOp(s.setups, id) || HasOp(s.reconnects, id)
  {
    var i := Find(Rows(s), id);
    if i < |Rows(s)| {
      if i < |s.setups| { assert s.setups[i].id == id; } else { assert s.reconnects[i - |s.setups|].id == id; }
    }
    if HasOp(s.setups, id) {
      var j :| 0 <= j < |s.setups| && s.setups[j].id == id;
      assert Rows(s)[j].id == id;
    }
    if HasOp(s.reconnects, id) {
      var j :| 0 <= j < |s.reconnects| && s.reconnects[j].id == id;
      assert Rows(s)[|s.setups| + j].id == id;
    }
  }

  // ---- identity agreement

  /** In every reachable state observed hashes equal expected ones; a target-bound operation observes, and a
      completed one proves, exactly the pair it was requested for. */
  lemma IdentityAgreement(env: Env, ls: seq<Label>, i: nat, k: nat)
    requires i <= |ls| && k < |Rows(At(env, ls, i))|
    ensures var op := Rows(At(env, ls, i))[k];
      && Agreed(op)
      && (op.target.Some? ==>
            && (op.account.Some? ==> op.account == op.requestedAccount)
            && (op.organization.Some? ==> op.organization == op.requestedOrganization)
            && (CompletedBinding(op).Some? ==>
                  CompletedBinding(op) == Some(Binding(op.requestedAccount.value, op.requestedOrganization.value))))
  {
    hide SlotsOk, RowsOk;
    ReachGood(env, ls[..i]);
    var s := At(env, ls, i);
    var op := Rows(s)[k];
    if k < |s.setups| { assert op == s.setups[k]; } else { assert op == s.reconnects[k - |s.setups|]; }
  }

  /** A browser reconnect that proved another pair than a target-bound operation requested writes nothing. */
  lemma AdoptKeepsTarget(env: Env, ls: seq<Label>, c: Call, k: nat)
    requires c.Adopt? && k < |At(env, ls, |ls|).reconnects|
    requires OtherPair(At(env, ls, |ls|).reconnects[k], c)
    ensures PlanOf(env, Reach(env, ls), c).effects == []
  {
    hide Valid, AdoptPlan, PlanOf;
    assert ls[..|ls|] == ls;
    ReachGood(env, ls);
    PlanIsLocked(env, Reach(env, ls), c);
    AdoptRefused(env, View(env, Reach(env, ls)), c, k);
  }

  predicate OtherPair(op: Operation, c: Call)
    requires c.Adopt?
  {
    && op.id == c.id && op.target.Some?
    && (op.requestedAccount != Some(c.proven.account) || op.requestedOrganization != Some(c.proven.organization))
  }

  lemma AdoptRefused(env: Env, s: Settings, c: Call, k: nat)
    requires Valid(env, s) && c.Adopt? && k < |s.reconnects| && OtherPair(s.reconnects[k], c)
    ensures AdoptPlan(env, s, c).effects == []
  {
    hide SlotsOk, SetupsOk, RowsOk, ReconnectMatches;
    IssuedIsUnique(env, s, k);
    var op := s.reconnects[k];
    var t := s.(reconnects := s.reconnects[k := op.(
      expectedAccount := Some(c.proven.account), expectedOrganization := Some(c.proven.organization),
      account := Some(c.proven.account), organization := Some(c.proven.organization))]);
    assert !OpShape(t.reconnects[k]);
    assert !ReconnectsOk(t.slots, t.reconnects);
  }

  lemma IssuedIsUnique(env: Env, s: Settings, k: nat)
    requires Valid(env, s) && k < |s.reconnects|
    ensures Find(s.reconnects, s.reconnects[k].id) == k
  {
    hide SlotsOk, SetupsOk, ReconnectsOk;
    forall j | 0 <= j < k ensures s.reconnects[j].id != s.reconnects[k].id {
      assert Rows(s)[|s.setups| + j] == s.reconnects[j] && Rows(s)[|s.setups| + k] == s.reconnects[k];
    }
  }

  // ---- removal

  lemma {:induction false} FilteredAt(ops: seq<Operation>, p: Operation -> bool, i: nat) returns (a: nat)
    requires i < |Filter(ops, p)|
    ensures a < |ops| && ops[a] == Filter(ops, p)[i] && p(ops[a])
  {
    var rest := Filter(ops[1..], p);
    if !p(ops[0]) {
      assert Filter(ops, p) == rest;
      a := FilteredAt(ops[1..], p, i);
      a := a + 1;
    } else if i == 0 {
      a := 0;
    } else {
      assert Filter(ops, p)[i] == rest[i - 1];
      a := FilteredAt(ops[1..], p, i - 1);
      a := a + 1;
    }
  }

  /** Filtering keeps order: positions in the result come from increasing positions in the source. */
  lemma {:induction false} FilteredPair(ops: seq<Operation>, p: Operation -> bool, i: nat, j: nat)
    returns (a: nat, b: nat)
    requires i < j < |Filter(ops, p)|
    ensures a < b < |ops| && ops[a] == Filter(ops, p)[i] && ops[b] == Filter(ops, p)[j]
  {
    var rest := Filter(ops[1..], p);
    if !p(ops[0]) {
      assert Filter(ops, p) == rest;
      a, b := FilteredPair(ops[1..], p, i, j);
      a, b := a + 1, b + 1;
    } else {
      assert Filter(ops, p)[j] == rest[j - 1];
      if i == 0 {
        b := FilteredAt(ops[1..], p, j - 1);
        a, b := 0, b + 1;
      } else {
        assert Filter(ops, p)[i] == rest[i - 1];
        a, b := FilteredPair(ops[1..], p, i - 1, j - 1);
        a, b := a + 1, b + 1;
      }
    }
  }

  lemma FilteredRowsOk(ops: seq<Operation>, p: Operation -> bool, more: seq<Operation>, q: Operation -> bool)
    requires RowsOk(ops + more)
    ensures RowsOk(Filter(ops, p) + Filter(more, q))
  {
    hide Active, Filter;
    var r := Filter(ops, p) + Filter(more, q);
    var n := |Filter(ops, p)|;
    forall i, j | 0 <= i < j < |r| ensures r[i].id != r[j].id && !(Active(r[i]) && Active(r[j])) {
      var a, b;
      if j < n {
        a, b := FilteredPair(ops, p, i, j);
      } else if i >= n {
        a, b := FilteredPair(more, q, i - n, j - n);
        a, b := a + |ops|, b + |ops|;
      } else {
        a := FilteredAt(ops, p, i);
        b := FilteredAt(more, q, j - n);
        b := b + |ops|;
      }
      assert (ops + more)[a] == r[i] && (ops + more)[b] == r[j];
    }
  }

  function Without(slots: seq<Slot>, k: nat): seq<Slot>
    requires k < |slots|
  {
    slots[..k] + slots[k + 1..]
  }

  lemma WithoutSlotsOk(env: Env, slots: seq<Slot>, k: nat)
    requires SlotsOk(env, slots) && k < |slots|
    ensures SlotsOk(env, Without(slots, k))
  {
    var r := Without(slots, k);
    forall i, j | 0 <= i < j < |r|
      ensures r[i].id != r[j].id && r[i].dir != r[j].dir && env.serviceName(r[i].dir) != env.serviceName(r[j].dir)
    {
      var a, b := if i < k then i else i + 1, if j < k then j else j + 1;
      assert r[i] == slots[a] && r[j] == slots[b];
    }
  }

  predicate SlotNamesDistinct(slots: seq<Slot>) {
    forall i, j :: 0 <= i < j < |slots| ==> slots[i].id != slots[j].id
  }

  lemma WithoutFind(slots: seq<Slot>, k: nat, id: string)
    requires k < |slots| && slots[k].id != id && SlotNamesDistinct(slots)
    ensures var a, b := FindSlot(slots, id), FindSlot(Without(slots, k), id);
      && (a == |slots| <==> b == |slots| - 1)
      && (a < |slots| ==> slots[a] == Without(slots, k)[b])
  {
    var r := Without(slots, k);
    var a, b := FindSlot(slots, id), FindSlot(r, id);
    if a < |slots| {
      assert r[if a < k then a else a - 1] == slots[a];
    }
    if b < |r| {
      var c := if b < k then b else b + 1;
      assert r[b] == slots[c] && slots[c].id == id;
    }
  }

  lemma HasSlotFound(slots: seq<Slot>, id: string)
    ensures HasSlot(slots, id) <==> FindSlot(slots, id) < |slots|
  {
  }

  lemma {:induction false} WithoutUnregistered(slots: seq<Slot>, k: nat, ops: seq<Operation>)
    requires k < |slots| && SlotNamesDistinct(slots)
    ensures var kept := Filter(ops, (op: Operation) => op.slot != slots[k].id);
      Unregistered(Without(slots, k), kept) <= Unregistered(slots, ops)
  {
    var p := (op: Operation) => op.slot != slots[k].id;
    if ops != [] {
      WithoutUnregistered(slots, k, ops[1..]);
      if p(ops[0]) {
        assert Filter(ops, p) == [ops[0]] + Filter(ops[1..], p);
        assert Filter(ops, p)[1..] == Filter(ops[1..], p);
        WithoutFind(slots, k, ops[0].slot);
        HasSlotFound(slots, ops[0].slot);
        HasSlotFound(Without(slots, k), ops[0].slot);
      } else {
        assert Filter(ops, p) == Filter(ops[1..], p);
      }
    }
  }

  lemma NamesDistinct(env: Env, slots: seq<Slot>)
    requires SlotsOk(env, slots)
    ensures SlotNamesDistinct(slots)
  {
  }

  lemma RemovedValid(env: Env, s: Settings, slot: string)
    requires Valid(env, s) && FindSlot(s.slots, slot) < |s.slots|
    ensures Valid(env, Removed(env, s, slot))
  {
    hide SlotsOk, RowsOk, SetupsOk, ReconnectsOk, Filter, RetireAll;
    var k := FindSlot(s.slots, slot);
    var keep := (op: Operation) => op.slot != slot;
    WithoutSlotsOk(env, s.slots, k);
    NamesDistinct(env, s.slots);
    FilteredRowsOk(s.setups, keep, s.reconnects, keep);
    RemovedSetups(s.slots, k, s.setups);
    RemovedReconnects(s.slots, k, s.reconnects);
  }

  lemma RemovedSetups(slots: seq<Slot>, k: nat, ops: seq<Operation>)
    requires k < |slots| && SetupsOk(slots, ops) && SlotNamesDistinct(slots)
    ensures SetupsOk(Without(slots, k), Filter(ops, (op: Operation) => op.slot != slots[k].id))
  {
    hide OpShape;
    var keep := (op: Operation) => op.slot != slots[k].id;
    WithoutUnregistered(slots, k, ops);
    forall i | 0 <= i < |Filter(ops, keep)|
      ensures OpShape(Filter(ops, keep)[i]) && SetupMatches(Without(slots, k), Filter(ops, keep)[i])
    {
      var a := FilteredAt(ops, keep, i);
      WithoutFind(slots, k, Filter(ops, keep)[i].slot);
    }
  }

  lemma RemovedReconnects(slots: seq<Slot>, k: nat, ops: seq<Operation>)
    requires k < |slots| && ReconnectsOk(slots, ops) && SlotNamesDistinct(slots)
    ensures ReconnectsOk(Without(slots, k), Filter(ops, (op: Operation) => op.slot != slots[k].id))
  {
    hide OpShape;
    var keep := (op: Operation) => op.slot != slots[k].id;
    var r := Filter(ops, keep);
    forall i | 0 <= i < |r| ensures OpShape(r[i]) && ReconnectMatches(Without(slots, k), r[i]) {
      var a := FilteredAt(ops, keep, i);
      WithoutFind(slots, k, r[i].slot);
    }
    forall i, j | 0 <= i < j < |r| ensures r[i].slot != r[j].slot {
      var a, b := FilteredPair(ops, keep, i, j);
    }
  }

  /** Removing is refused only for an unknown slot. */
  lemma RemoveNeverRefused(env: Env, ls: seq<Label>, c: Call)
    requires c.Remove? && c.slot != "default" && c.schema == SETTINGS_SCHEMA
    ensures PlanOf(env, Reach(env, ls), c).reply.Done? <==> HasSlot(At(env, ls, |ls|).slots, c.slot)
  {
    hide Valid, Removed, PlanOf;
    assert ls[..|ls|] == ls;
    ReachGood(env, ls);
    PlanIsLocked(env, Reach(env, ls), c);
    var s := View(env, Reach(env, ls));
    HasSlotFound(s.slots, c.slot);
    if FindSlot(s.slots, c.slot) < |s.slots| {
      RemovedValid(env, s, c.slot);
    }
  }
}
