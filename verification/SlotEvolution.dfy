/** What every save of every call keeps: validity, identity agreement, the filter's bits, the binding of
    each row, and that a reconnect row only disappears by being retired. */
module SlotEvolution {
  import opened Prelude
  import opened SlotModel
  import opened SlotFilter
  import opened SlotCalls

  /** What an operation id is bound to when its row is created. */
  datatype Identity = Identity(slot: string, dir: string, target: Option<string>,
                               account: Option<string>, organization: Option<string>)

  function IdentityOf(op: Operation): Identity {
    Identity(op.slot, op.dir, op.target, op.requestedAccount, op.requestedOrganization)
  }

  /** An observed hash, when present, is the expected one. */
  predicate Agreed(op: Operation) {
    && (op.account.Some? ==> op.expectedAccount == op.account)
    && (op.organization.Some? ==> op.expectedOrganization == op.organization)
  }

  predicate RowsAgree(s: Settings) {
    && (forall i :: 0 <= i < |s.setups| ==> Agreed(s.setups[i]))
    && (forall i :: 0 <= i < |s.reconnects| ==> Agreed(s.reconnects[i]))
  }

  predicate HasBound(ops: seq<Operation>, id: string, identity: Identity) {
    exists i :: 0 <= i < |ops| && ops[i].id == id && IdentityOf(ops[i]) == identity
  }

  predicate Unused(env: Env, s: Settings, id: string)
    requires FilterShape(s.filter)
  {
    !HasOp(s.setups, id) && !HasOp(s.reconnects, id) && !IsRetired(env, s.filter, id)
  }

  predicate RowsTraceable(env: Env, s: Settings, was: seq<Operation>, now: seq<Operation>)
    requires FilterShape(s.filter)
  {
    forall i :: 0 <= i < |now| ==>
      HasBound(was, now[i].id, IdentityOf(now[i])) || Unused(env, s, now[i].id)
  }

  predicate ReconnectsKept(env: Env, s: Settings, t: Settings)
    requires FilterShape(t.filter)
  {
    forall i :: 0 <= i < |s.reconnects| ==>
      HasOp(t.reconnects, s.reconnects[i].id) || IsRetired(env, t.filter, s.reconnects[i].id)
  }

  predicate Healthy(env: Env, s: Settings) {
    Valid(env, s) && RowsAgree(s)
  }

  /** The relation between the settings before and after any single save. */
  predicate Evolves(env: Env, s: Settings, t: Settings) {
    && Healthy(env, s)
    && Healthy(env, t)
    && Covers(s.filter, t.filter)
    && RowsTraceable(env, s, s.setups, t.setups)
    && RowsTraceable(env, s, s.reconnects, t.reconnects)
    && ReconnectsKept(env, s, t)
  }

  /** Each save of the list evolves from the one before it. */
  predicate Chain(env: Env, s: Settings, es: seq<Effect>)
    decreases es
  {
    es == [] ||
    (if es[0].Save? then Evolves(env, s, es[0].settings) && Chain(env, es[0].settings, es[1..])
     else Chain(env, s, es[1..]))
  }

  // ---- rows that keep their identity

  predicate SameIdentities(a: seq<Operation>, b: seq<Operation>) {
    |a| == |b| && forall i :: 0 <= i < |a| ==> a[i].id == b[i].id && IdentityOf(a[i]) == IdentityOf(b[i])
  }

  /** Rows may change state and observed hashes; settings may change slots and gain filter bits. */
  lemma SameRowsEvolve(env: Env, s: Settings, t: Settings)
    requires Healthy(env, s) && Healthy(env, t)
    requires SameIdentities(s.setups, t.setups) && SameIdentities(s.reconnects, t.reconnects)
    requires Covers(s.filter, t.filter)
    ensures Evolves(env, s, t)
  {
    forall i | 0 <= i < |t.setups| ensures HasBound(s.setups, t.setups[i].id, IdentityOf(t.setups[i])) {
      assert s.setups[i].id == t.setups[i].id;
    }
    forall i | 0 <= i < |t.reconnects| ensures HasBound(s.reconnects, t.reconnects[i].id, IdentityOf(t.reconnects[i])) {
      assert s.reconnects[i].id == t.reconnects[i].id;
    }
    forall i | 0 <= i < |s.reconnects| ensures HasOp(t.reconnects, s.reconnects[i].id) {
      assert t.reconnects[i].id == s.reconnects[i].id;
    }
  }

  /** One row may change its state and its expected and observed hashes, as long as they agree. */
  lemma RowUpdateEvolves(env: Env, s: Settings, t: Settings, i: nat, op: Operation)
    requires Healthy(env, s) && Valid(env, t) && Covers(s.filter, t.filter)
    requires i < |Rows(s)| && op.id == Rows(s)[i].id && IdentityOf(op) == IdentityOf(Rows(s)[i]) && Agreed(op)
    requires t.setups == WithRow(s, i, op).setups && t.reconnects == WithRow(s, i, op).reconnects
    ensures Evolves(env, s, t)
  {
    hide SlotsOk, SetupsOk, ReconnectsOk, RowsOk;
    if i < |s.setups| {
      assert Rows(s)[i] == s.setups[i];
    } else {
      assert Rows(s)[i] == s.reconnects[i - |s.setups|];
    }
    SameRowsEvolve(env, s, t);
  }

  lemma EvolvesReflexive(env: Env, s: Settings)
    requires Healthy(env, s)
    ensures Evolves(env, s, s)
  {
    CoversReflexive(s.filter);
    SameRowsEvolve(env, s, s);
  }

  lemma {:induction false} UnregisteredSame(slots: seq<Slot>, a: seq<Operation>, b: seq<Operation>)
    requires |a| == |b| && forall i :: 0 <= i < |a| ==> a[i].slot == b[i].slot
    ensures Unregistered(slots, a) == Unregistered(slots, b)
  {
    if a != [] {
      UnregisteredSame(slots, a[1..], b[1..]);
    }
  }

  /** A row keeps every field but its state. */
  predicate Restated(a: Operation, b: Operation) {
    b == a.(state := b.state)
  }

  lemma RestateSetups(slots: seq<Slot>, ops: seq<Operation>, i: nat, op: Operation)
    requires SetupsOk(slots, ops) && i < |ops| && Restated(ops[i], op) && SetupMatches(slots, op)
    ensures SetupsOk(slots, ops[i := op])
  {
    UnregisteredSame(slots, ops, ops[i := op]);
  }

  lemma RestateReconnects(slots: seq<Slot>, ops: seq<Operation>, i: nat, op: Operation)
    requires ReconnectsOk(slots, ops) && i < |ops| && Restated(ops[i], op) && ReconnectMatches(slots, op)
    ensures ReconnectsOk(slots, ops[i := op])
  {
    var updated := ops[i := op];
    forall a, b | 0 <= a < b < |updated| ensures updated[a].slot != updated[b].slot {
      assert ops[a].slot != ops[b].slot;
    }
  }

  lemma RestateRows(ops: seq<Operation>, i: nat, op: Operation)
    requires RowsOk(ops) && i < |ops| && Restated(ops[i], op)
    requires Active(op) ==> forall j :: 0 <= j < |ops| && j != i ==> !Active(ops[j])
    ensures RowsOk(ops[i := op])
  {
    var updated := ops[i := op];
    forall a, b | 0 <= a < b < |updated|
      ensures updated[a].id != updated[b].id && !(Active(updated[a]) && Active(updated[b]))
    {
      assert ops[a].id != ops[b].id && !(Active(ops[a]) && Active(ops[b]));
    }
  }

  /** Changing only the state of one row of valid settings keeps them valid when the new state is one the
      registration allows and no second operation becomes active. */
  lemma RestateValid(env: Env, s: Settings, i: nat, op: Operation)
    requires Healthy(env, s) && i < |Rows(s)| && Restated(Rows(s)[i], op)
    requires i < |s.setups| ==> SetupMatches(s.slots, op)
    requires i >= |s.setups| ==> ReconnectMatches(s.slots, op)
    requires Active(op) ==> forall j :: 0 <= j < |Rows(s)| && j != i ==> !Active(Rows(s)[j])
    ensures Evolves(env, s, WithRow(s, i, op))
  {
    hide SlotsOk, SetupsOk, ReconnectsOk, RowsOk, OpShape;
    var t := WithRow(s, i, op);
    assert Rows(t) == Rows(s)[i := op];
    RestateRows(Rows(s), i, op);
    if i < |s.setups| {
      RestateSetups(s.slots, s.setups, i, op);
    } else {
      RestateReconnects(s.slots, s.reconnects, i - |s.setups|, op);
    }
    CoversReflexive(s.filter);
    SameRowsEvolve(env, s, t);
  }

  lemma OthersInactive(s: Settings, i: nat)
    requires i < |Rows(s)| && IdsDistinct(Rows(s)) && !OtherActive(s, Rows(s)[i].id)
    ensures forall j :: 0 <= j < |Rows(s)| && j != i ==> !Active(Rows(s)[j])
  {
    forall j | 0 <= j < |Rows(s)| && j != i ensures !Active(Rows(s)[j]) {
      assert Rows(s)[j].id != Rows(s)[i].id;
    }
  }

  /** A healthy successor whose rows are those of `s` plus one unused id evolves from `s`. */
  lemma AppendEvolves(env: Env, s: Settings, t: Settings, op: Operation)
    requires Healthy(env, s) && Valid(env, t) && Agreed(op) && Unused(env, s, op.id)
    requires t.filter == s.filter
    requires || (t.setups == s.setups + [op] && t.reconnects == s.reconnects)
             || (t.setups == s.setups && t.reconnects == s.reconnects + [op])
    ensures Evolves(env, s, t)
  {
    hide SlotsOk, SetupsOk, ReconnectsOk, RowsOk, IsRetired;
    CoversReflexive(s.filter);
    forall i | 0 <= i < |t.setups|
      ensures HasBound(s.setups, t.setups[i].id, IdentityOf(t.setups[i])) || Unused(env, s, t.setups[i].id)
    {
      if i < |s.setups| { assert t.setups[i] == s.setups[i]; }
    }
    forall i | 0 <= i < |t.reconnects|
      ensures HasBound(s.reconnects, t.reconnects[i].id, IdentityOf(t.reconnects[i]))
        || Unused(env, s, t.reconnects[i].id)
    {
      if i < |s.reconnects| { assert t.reconnects[i] == s.reconnects[i]; }
    }
    forall i | 0 <= i < |s.reconnects| ensures HasOp(t.reconnects, s.reconnects[i].id) {
      assert t.reconnects[i] == s.reconnects[i];
    }
  }

  // ---- one lemma per call

  lemma SlotsOnlyChain(env: Env, s: Settings, t: Settings, reply: Reply)
    requires Healthy(env, s)
    requires t.setups == s.setups && t.reconnects == s.reconnects && t.filter == s.filter
    ensures Chain(env, s, SaveChecked(env, t, reply).effects)
  {
    if Valid(env, t) {
      CoversReflexive(s.filter);
      SameRowsEvolve(env, s, t);
    }
  }

  lemma FinalizeChain(env: Env, s: Settings, i: nat)
    requires Healthy(env, s) && i < |s.setups|
    ensures Chain(env, s, FinalizePlan(env, s, i).effects)
  {
    hide SlotsOk, SetupsOk, ReconnectsOk, RowsOk, Evolves;
    var t := Finalized(s, i);
    if s.setups[i].state.Preparing? && Valid(env, t) {
      CoversReflexive(s.filter);
      SameRowsEvolve(env, s, t);
      assert Chain(env, s, [Save(t)]);
      assert [MakeDir(s.setups[i].dir), Save(t)][1..] == [Save(t)];
    }
  }

  lemma {:induction false} ChainDirs(env: Env, s: Settings, dirs: seq<Effect>, es: seq<Effect>)
    requires forall i :: 0 <= i < |dirs| ==> !dirs[i].Save?
    requires Chain(env, s, es)
    ensures Chain(env, s, dirs + es)
  {
    if dirs == [] {
      assert dirs + es == es;
    } else {
      assert (dirs + es)[1..] == dirs[1..] + es;
      ChainDirs(env, s, dirs[1..], es);
    }
  }

  lemma ChainSave(env: Env, s: Settings, t: Settings, es: seq<Effect>)
    requires Evolves(env, s, t) && Chain(env, t, es)
    ensures Chain(env, s, [Save(t)] + es)
  {
    assert ([Save(t)] + es)[1..] == es;
  }

  /** The two resume saves skip `validate_persisted`; they are valid all the same. */
  lemma ReplayChain(env: Env, s: Settings, i: nat)
    requires Healthy(env, s) && i < |s.setups|
    ensures Chain(env, s, ReplayPlan(env, s, i).effects)
  {
    var op := s.setups[i];
    assert Rows(s)[i] == op;
    var k := FindSlot(s.slots, op.slot);
    if op.state.SetupStopped? && !OtherActive(s, op.id) {
      OthersInactive(s, i);
      if k < |s.slots| {
        var t := WithRow(s, i, op.(state := WaitingForUserLogin));
        RestateValid(env, s, i, op.(state := WaitingForUserLogin));
        ChainSave(env, s, t, []);
        ChainDirs(env, s, [MakeDir(op.dir)], [Save(t)]);
        assert [MakeDir(op.dir)] + [Save(t)] == [MakeDir(op.dir), Save(t)];
      } else {
        var t := WithRow(s, i, op.(state := Preparing));
        RestateValid(env, s, i, op.(state := Preparing));
        FinalizeChain(env, t, i);
        ChainSave(env, s, t, FinalizePlan(env, t, i).effects);
      }
    } else if op.state.Preparing? && k == |s.slots| {
      FinalizeChain(env, s, i);
    }
  }

  lemma FirstPrepareChain(env: Env, s: Settings, c: Call)
    requires Healthy(env, s) && c.Prepare? && Unused(env, s, c.id)
    ensures Chain(env, s, FirstPreparePlan(env, s, c).effects)
  {
    hide SlotsOk, SetupsOk, ReconnectsOk, RowsOk, Evolves, FinalizePlan, Chain, Unused, RowsAgree;
    var dir := if c.reusable.Some? then c.reusable.value else ManagedPath(env, c.token);
    var made := [MakeDir(env.root)] + (if c.reusable.Some? then [MakeDir(dir)] else []);
    var t := s.(setups := s.setups + [IntentRow(s, c, dir)]);
    MadeOnly(env, s, [MakeDir(env.root)]);
    MadeOnly(env, s, made);
    if Valid(env, t) {
      AppendEvolves(env, s, t, IntentRow(s, c, dir));
      IntentChain(env, s, t, made);
    }
  }

  lemma MadeOnly(env: Env, s: Settings, dirs: seq<Effect>)
    requires forall i :: 0 <= i < |dirs| ==> !dirs[i].Save?
    ensures Chain(env, s, dirs)
  {
    ChainDirs(env, s, dirs, []);
    assert dirs + [] == dirs;
  }

  lemma IntentChain(env: Env, s: Settings, t: Settings, dirs: seq<Effect>)
    requires Evolves(env, s, t) && |t.setups| > 0
    requires forall i :: 0 <= i < |dirs| ==> !dirs[i].Save?
    ensures Chain(env, s, dirs + [Save(t)] + FinalizePlan(env, t, |t.setups| - 1).effects)
  {
    hide SlotsOk, SetupsOk, ReconnectsOk, RowsOk, FinalizePlan, Chain;
    var rest := FinalizePlan(env, t, |t.setups| - 1).effects;
    FinalizeChain(env, t, |t.setups| - 1);
    ChainSave(env, s, t, rest);
    ChainDirs(env, s, dirs, [Save(t)] + rest);
    assert dirs + ([Save(t)] + rest) == dirs + [Save(t)] + rest;
  }

  lemma PrepareChain(env: Env, s: Settings, c: Call)
    requires Healthy(env, s) && c.Prepare?
    ensures Chain(env, s, PreparePlan(env, s, c).effects)
  {
    var i := Find(s.setups, c.id);
    if i < |s.setups| {
      ReplayChain(env, s, i);
    } else if !HasOp(s.reconnects, c.id) && !IsRetired(env, s.filter, c.id) {
      assert Unused(env, s, c.id);
      FirstPrepareChain(env, s, c);
    }
  }

  lemma ReconnectChain(env: Env, s: Settings, c: Call)
    requires Healthy(env, s) && c.Reconnect?
    ensures Chain(env, s, ReconnectPlan(env, s, c).effects)
  {
    hide SlotsOk, SetupsOk, FirstReconnectPlan, Evolves;
    var i := Find(s.reconnects, c.id);
    if HasOp(s.setups, c.id) {
    } else if i < |s.reconnects| {
      var op := s.reconnects[i];
      var n := |s.setups| + i;
      assert Rows(s)[n] == op;
      if op.state.SetupStopped? && !OtherActive(s, c.id) && FindSlot(s.slots, op.slot) < |s.slots| {
        OthersInactive(s, n);
        RestateValid(env, s, n, op.(state := WaitingForUserLogin));
      }
    } else if !IsRetired(env, s.filter, c.id) {
      assert Unused(env, s, c.id);
      FirstReconnectChain(env, s, c);
    }
  }

  lemma SuccessorEvolves(env: Env, s: Settings, u: Settings, t: Settings, op: Operation)
    requires Healthy(env, s) && Valid(env, t) && Unused(env, s, op.id) && Agreed(op) && FilterShape(u.filter)
    requires Covers(s.filter, u.filter) && ReconnectsKept(env, s, u)
    requires forall row :: row in u.reconnects ==> row in s.reconnects
    requires t.setups == s.setups && t.reconnects == u.reconnects + [op] && t.filter == u.filter
    ensures Evolves(env, s, t)
  {
    hide SlotsOk, SetupsOk, ReconnectsOk, RowsOk, IsRetired;
    forall i | 0 <= i < |t.reconnects|
      ensures Agreed(t.reconnects[i])
      ensures HasBound(s.reconnects, t.reconnects[i].id, IdentityOf(t.reconnects[i]))
        || Unused(env, s, t.reconnects[i].id)
    {
      if i < |u.reconnects| { assert t.reconnects[i] == u.reconnects[i] && u.reconnects[i] in s.reconnects; }
    }
    forall i | 0 <= i < |s.reconnects|
      ensures HasOp(t.reconnects, s.reconnects[i].id) || IsRetired(env, t.filter, s.reconnects[i].id)
    {
      if HasOp(u.reconnects, s.reconnects[i].id) {
        var j :| 0 <= j < |u.reconnects| && u.reconnects[j].id == s.reconnects[i].id;
        assert t.reconnects[j] == u.reconnects[j];
      }
    }
    forall i | 0 <= i < |t.setups| ensures HasBound(s.setups, t.setups[i].id, IdentityOf(t.setups[i])) {
      assert t.setups[i] == s.setups[i];
    }
  }

  lemma FirstReconnectChain(env: Env, s: Settings, c: Call)
    requires Healthy(env, s) && c.Reconnect? && Unused(env, s, c.id)
    ensures Chain(env, s, FirstReconnectPlan(env, s, c).effects)
  {
    hide SlotsOk, SetupsOk, ReconnectsOk, RowsOk, Superseded, IsRetired, Evolves, Unused, ReconnectsKept;
    var p := FirstReconnectPlan(env, s, c);
    if p.effects != [] {
      var u := Superseded(env, s, c.slot);
      var op := ReconnectRow(u, c, s.slots[FindSlot(s.slots, c.slot)].dir);
      SupersededKeeps(env, s, c.slot);
      SuccessorEvolves(env, s, u, p.effects[0].settings, op);
    }
  }

  lemma SupersededKeeps(env: Env, s: Settings, slot: string)
    requires Healthy(env, s)
    ensures var u := Superseded(env, s, slot);
      && u.setups == s.setups && u.slots == s.slots
      && Covers(s.filter, u.filter) && ReconnectsKept(env, s, u)
      && forall op :: op in u.reconnects ==> op in s.reconnects
  {
    hide SlotsOk, SetupsOk, ReconnectsOk, RowsOk, IsRetired, Retire;
    var u := Superseded(env, s, slot);
    var j := FindBySlot(s.reconnects, slot);
    CoversReflexive(s.filter);
    if j < |s.reconnects| {
      var gone := s.reconnects[j].id;
      RetireCorrect(env, s.filter, gone);
      forall i | 0 <= i < |s.reconnects| && s.reconnects[i].id != gone ensures HasOp(u.reconnects, s.reconnects[i].id) {
        assert s.reconnects[i] in u.reconnects;
      }
    }
  }

  lemma MutatedKeeps(op: Operation, c: Call)
    requires c.Transition? && Mutated(op, c).Some?
    ensures var updated := Mutated(op, c).value;
      updated.id == op.id && IdentityOf(updated) == IdentityOf(op) && updated.kind == op.kind
  {
  }

  lemma MutatedAgrees(op: Operation, c: Call)
    requires c.Transition? && Agreed(op) && Mutated(op, c).Some?
    ensures var updated := Mutated(op, c).value;
      updated.id == op.id && IdentityOf(updated) == IdentityOf(op) && updated.kind == op.kind && Agreed(updated)
  {
  }

  lemma TransitionChain(env: Env, s: Settings, c: Call)
    requires Healthy(env, s) && c.Transition?
    ensures Chain(env, s, TransitionPlan(env, s, c).effects)
  {
    hide SlotsOk, SetupsOk, ReconnectsOk, RowsOk, Retire, IsRetired, Evolves, Mutated, Finishes, CompletedBinding;
    var i := Find(Rows(s), c.id);
    if i < |Rows(s)| && Mutated(Rows(s)[i], c).Some? {
      var op := Rows(s)[i];
      assert i >= |s.setups| ==> op == s.reconnects[i - |s.setups|];
      MutatedAgrees(op, c);
      var updated := Mutated(op, c).value;
      CoversReflexive(s.filter);
      RetireCorrect(env, s.filter, c.id);
      var p := TransitionPlan(env, s, c);
      if p.effects != [] {
        RowUpdateEvolves(env, s, p.effects[0].settings, i, updated);
      }
    }
  }

  lemma StopHealthy(env: Env, s: Settings, i: nat)
    requires Healthy(env, s) && i < |Rows(s)|
    ensures Evolves(env, s, WithRow(s, i, Rows(s)[i].(state := SetupStopped)))
  {
    var op := Rows(s)[i].(state := SetupStopped);
    assert i < |s.setups| ==> Rows(s)[i] == s.setups[i];
    assert i >= |s.setups| ==> Rows(s)[i] == s.reconnects[i - |s.setups|];
    RestateValid(env, s, i, op);
  }

  lemma StopChain(env: Env, s: Settings, c: Call)
    requires Healthy(env, s) && c.Stop?
    ensures Chain(env, s, StopPlan(env, s, c).effects)
  {
    var i := Find(Rows(s), c.id);
    if i < |Rows(s)| {
      EvolvesReflexive(env, s);
      StopHealthy(env, s, i);
      var t := WithRow(s, i, Rows(s)[i].(state := SetupStopped));
      ChainSave(env, s, s, []);
      ChainSave(env, s, t, []);
      ChainDirs(env, s, [], [Save(t)]);
      ChainDirs(env, s, [DropDir(Rows(s)[i].dir)], [Save(t)]);
    }
  }

  lemma AdoptChain(env: Env, s: Settings, c: Call)
    requires Healthy(env, s) && c.Adopt?
    ensures Chain(env, s, AdoptPlan(env, s, c).effects)
  {
    hide SlotsOk, SetupsOk, ReconnectsOk, RowsOk, Evolves;
    var p := AdoptPlan(env, s, c);
    if p.effects != [] {
      var t := p.effects[0].settings;
      var i := Find(s.reconnects, c.id);
      var n := |s.setups| + i;
      assert Rows(s)[n] == s.reconnects[i];
      CoversReflexive(s.filter);
      RowUpdateEvolves(env, s, t, n, t.reconnects[i]);
    }
  }

  lemma {:induction false} RetireAllCorrect(env: Env, filter: seq<bv64>, ops: seq<Operation>)
    requires FilterShape(filter)
    ensures Covers(filter, RetireAll(env, filter, ops))
    ensures forall i :: 0 <= i < |ops| ==> IsRetired(env, RetireAll(env, filter, ops), ops[i].id)
    decreases ops
  {
    if ops == [] {
      CoversReflexive(filter);
    } else {
      var next := Retire(env, filter, ops[0].id);
      var r := RetireAll(env, next, ops[1..]);
      RetireCorrect(env, filter, ops[0].id);
      RetireAllCorrect(env, next, ops[1..]);
      CoversTransitive(filter, next, r);
      CoversKeepsRetired(env, next, r, ops[0].id);
      forall i | 0 <= i < |ops| ensures IsRetired(env, r, ops[i].id) {
        if i > 0 { assert ops[i] == ops[1..][i - 1]; }
      }
    }
  }

  lemma RemoveEvolves(env: Env, s: Settings, slot: string)
    requires Healthy(env, s) && FindSlot(s.slots, slot) < |s.slots|
    requires Valid(env, Removed(env, s, slot))
    ensures Evolves(env, s, Removed(env, s, slot))
  {
    hide SlotsOk, SetupsOk, ReconnectsOk, RowsOk, RetireAll, IsRetired;
    var t := Removed(env, s, slot);
    var gone := Filter(s.reconnects, (op: Operation) => op.slot == slot);
    RetireAllCorrect(env, s.filter, gone);
    forall i | 0 <= i < |t.setups|
      ensures Agreed(t.setups[i]) && HasBound(s.setups, t.setups[i].id, IdentityOf(t.setups[i]))
    {
      assert t.setups[i] in s.setups;
    }
    forall i | 0 <= i < |t.reconnects|
      ensures Agreed(t.reconnects[i]) && HasBound(s.reconnects, t.reconnects[i].id, IdentityOf(t.reconnects[i]))
    {
      assert t.reconnects[i] in s.reconnects;
    }
    forall i | 0 <= i < |s.reconnects|
      ensures HasOp(t.reconnects, s.reconnects[i].id) || IsRetired(env, t.filter, s.reconnects[i].id)
    {
      var op := s.reconnects[i];
      if op.slot == slot {
        assert op in gone;
      } else {
        assert op in t.reconnects;
      }
    }
  }

  lemma RemoveChain(env: Env, s: Settings, slot: string)
    requires Healthy(env, s)
    ensures Chain(env, s, RemovePlan(env, s, slot).effects)
  {
    hide SlotsOk, SetupsOk, ReconnectsOk, RowsOk, Removed, Evolves;
    if FindSlot(s.slots, slot) < |s.slots| && Valid(env, Removed(env, s, slot)) {
      RemoveEvolves(env, s, slot);
    }
  }

  /** Every save any call makes on healthy settings evolves from the save before it. */
  lemma CallChain(env: Env, s: Settings, c: Call)
    requires Healthy(env, s)
    ensures Chain(env, s, LockedPlan(env, s, c).effects)
  {
    hide SlotsOk, SetupsOk, ReconnectsOk, RowsOk, RowsAgree, Chain, AdmitPlan, PreparePlan, ReconnectPlan,
      TransitionPlan, StopPlan, EnsurePlan, AdoptPlan, RemovePlan, SaveChecked;
    match c
    case SetConsent(_, consent) => SlotsOnlyChain(env, s, s.(consent := consent, consentChosen := true), Done);
    case RegisterPath(_, dir, ownership, token) =>
      SlotsOnlyChain(env, s, s.(slots := s.slots + [NewSlot(token, ownership, dir)]), Done);
    case Admit(_, slot, dir, binding) => AdmitChain(env, s, slot, dir, binding);
    case Prepare(_, _, _, _, _, _, _) => PrepareChain(env, s, c);
    case Reconnect(_, _, _, _, _, _) => ReconnectChain(env, s, c);
    case Transition(_, _, _, _, _, _, _) => TransitionChain(env, s, c);
    case Stop(_, _, _) => StopChain(env, s, c);
    case EnsureApproved(_, _, _, _) => EnsureChain(env, s, c);
    case Adopt(_, _, _) => AdoptChain(env, s, c);
    case Remove(_, slot) => RemoveChain(env, s, slot);
  }

  lemma AdmitChain(env: Env, s: Settings, slot: string, dir: string, binding: Option<Binding>)
    requires Healthy(env, s)
    ensures Chain(env, s, AdmitPlan(env, s, slot, dir, binding).effects)
  {
    hide SlotsOk, SetupsOk, ReconnectsOk, RowsOk, RowsAgree, Evolves;
    var p := AdmitPlan(env, s, slot, dir, binding);
    if p.effects != [] {
      SlotsOnlyChain(env, s, p.effects[0].settings, Done);
    }
  }

  lemma EnsureChain(env: Env, s: Settings, c: Call)
    requires Healthy(env, s) && c.EnsureApproved?
    ensures Chain(env, s, EnsurePlan(env, s, c).effects)
  {
    hide SlotsOk, SetupsOk, ReconnectsOk, RowsOk, RowsAgree, Evolves, ToApprove, CurrentBinding;
    var p := EnsurePlan(env, s, c);
    if p.effects != [] {
      SlotsOnlyChain(env, s, p.effects[0].settings, p.reply);
    }
  }
}
