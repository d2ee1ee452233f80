/** Where the registry's promises end: what an older daemon's rewrite and the removal of a slot give away, exactly, with
    runs that show it. */
module SlotLimits {
  import opened Prelude
  import opened SlotModel
  import opened SlotFilter
  import opened SlotCalls
  import opened SlotEvolution
  import opened SlotRuns
  import opened SlotGuarantees
  import opened SlotApprovals
  import opened SlotPrepare
  import opened SlotPromises
  import opened SlotRowPromises

  // ---- reconnect ids after a rewrite

  /** Nothing but its retirement can stop a reconnect: the slot is registered, no setup is active and every setup of the
      slot has ended. */
  predicate Unobstructed(s: Settings, slot: string) {
    && HasSlot(s.slots, slot)
    && (forall i :: 0 <= i < |s.setups| ==> !Active(s.setups[i]))
    && (forall i :: 0 <= i < |s.setups| && s.setups[i].slot == slot ==> AllowsSuccessor(s.setups[i]))
  }

  lemma FirstRowValid(env: Env, s: Settings, c: Call)
    requires c.Reconnect? && Valid(env, s) && s.reconnects == [] && ArgumentsOk(env, c) && !HasOp(s.setups, c.id)
    requires Unobstructed(s, c.slot) && FindSlot(s.slots, c.slot) < |s.slots|
    ensures Valid(env, s.(reconnects := [ReconnectRow(s, c, s.slots[FindSlot(s.slots, c.slot)].dir)]))
  {
    hide SetupsOk, NextSequence, ValidHash, ValidDir;
    var k := FindSlot(s.slots, c.slot);
    var row := ReconnectRow(s, c, s.slots[k].dir);
    assert SlotShape(s.slots[k]);
    assert OpShape(row) && ReconnectMatches(s.slots, row);
    var t := s.(reconnects := [row]);
    assert ReconnectsOk(s.slots, [row]);
    assert Rows(s) == s.setups && Rows(t) == s.setups + [row];
    forall i | 0 <= i < |s.setups| ensures s.setups[i].id != row.id { assert HasOp(s.setups, s.setups[i].id); }
  }

  /** On settings without reconnect rows an unobstructed request is accepted if and only if its id is not retired. */
  lemma FreeIdAccepted(env: Env, s: Settings, c: Call)
    requires c.Reconnect? && Valid(env, s) && FilterShape(s.filter) && s.reconnects == [] && ArgumentsOk(env, c)
    requires !HasOp(s.setups, c.id) && Unobstructed(s, c.slot)
    ensures ReconnectPlan(env, s, c).reply.Done? <==> !IsRetired(env, s.filter, c.id)
    ensures FindSlot(s.slots, c.slot) < |s.slots|
    ensures var row := ReconnectRow(s, c, s.slots[FindSlot(s.slots, c.slot)].dir);
      ReconnectPlan(env, s, c).reply.Done? ==>
        LastSaved(s, ReconnectPlan(env, s, c).effects) == s.(reconnects := [row])
  {
    hide Valid, IsRetired, ArgumentsOk, ReconnectPlan, ReconnectRow, Unobstructed;
    FreeIdPlan(env, s, c);
    FirstRowValid(env, s, c);
    LastOfChecked(env, s, s.(reconnects := [ReconnectRow(s, c, s.slots[FindSlot(s.slots, c.slot)].dir)]), Done);
  }

  lemma FreeIdPlan(env: Env, s: Settings, c: Call)
    requires c.Reconnect? && FilterShape(s.filter) && s.reconnects == []
    requires !HasOp(s.setups, c.id) && Unobstructed(s, c.slot)
    ensures FindSlot(s.slots, c.slot) < |s.slots|
    ensures var t := s.(reconnects := [ReconnectRow(s, c, s.slots[FindSlot(s.slots, c.slot)].dir)]);
      ReconnectPlan(env, s, c) == if IsRetired(env, s.filter, c.id) then Refuse(Invalid) else SaveChecked(env, t, Done)
  {
    hide IsRetired, ReconnectRow, FirstReconnectPlan, SaveChecked;
    HasSlotFound(s.slots, c.slot);
    assert Rows(s) == s.setups;
    FirstOnEmpty(env, s, c);
  }

  lemma FirstOnEmpty(env: Env, s: Settings, c: Call)
    requires c.Reconnect? && FilterShape(s.filter) && s.reconnects == []
    requires Unobstructed(s, c.slot) && FindSlot(s.slots, c.slot) < |s.slots|
    ensures FirstReconnectPlan(env, s, c) ==
      SaveChecked(env, s.(reconnects := [ReconnectRow(s, c, s.slots[FindSlot(s.slots, c.slot)].dir)]), Done)
  {
    hide ReconnectRow, SaveChecked;
    assert Superseded(env, s, c.slot) == s;
    var row := ReconnectRow(s, c, s.slots[FindSlot(s.slots, c.slot)].dir);
    assert s.reconnects + [row] == [row];
  }

  /** What an older daemon's rewrite forgets is exactly the reconnect ids that were live but not retired: on any
      registered slot that nothing else obstructs, a request with such an id is accepted if and only if the id was not
      retired, and then the id names the new request. */
  lemma DowngradeForgetsTheUnretired(env: Env, ls: seq<Label>, schema: nat, k: nat, c: Call)
    requires k < |At(env, ls, |ls|).reconnects| && c.Reconnect? && c.id == At(env, ls, |ls|).reconnects[k].id
    requires ArgumentsOk(env, c) && c.schema == SETTINGS_SCHEMA && Unobstructed(At(env, ls, |ls|), c.slot)
    ensures var s, d := At(env, ls, |ls|), Reach(env, ls + [Downgraded(schema)]);
      var slot := FindSlot(s.slots, c.slot);
      && Good(env, d) && (Unused(env, View(env, d), c.id) <==> !IsRetired(env, s.filter, c.id))
      && (PlanOf(env, d, c).reply.Done? <==> !IsRetired(env, s.filter, c.id))
      && (PlanOf(env, d, c).reply.Done? ==>
            && Good(env, Next(env, d, Ran(c))) && slot < |s.slots|
            && HasBound(View(env, Next(env, d, Ran(c))).reconnects, c.id, ReconnectIdentity(c, s.slots[slot].dir)))
  {
    hide SlotsOk, SetupsOk, ReconnectsOk, RowsOk, Load, View, Sound, PlanOf, ArgumentsOk, IsRetired, ReconnectPlan,
      HasBound,
      Keeps;
    var d0 := Reach(env, ls);
    assert ls[..|ls|] == ls;
    ReachGood(env, ls);
    var s, d := View(env, d0), Reach(env, ls + [Downgraded(schema)]);
    ReachStep(env, ls, Downgraded(schema));
    DowngradeView(env, d0, schema);
    var v := View(env, d);
    GoodIsValid(env, d0);
    GoodIsValid(env, d);
    IssuedIsHeld(env, s, k);
    ClearedFind(s.slots, c.slot);
    HasSlotFound(s.slots, c.slot);
    HasSlotFound(v.slots, c.slot);
    FreeIdAccepted(env, v, c);
    ReconnectPlanOf(env, d, c);
    ReconnectPromise(env, d, c);
    StaysGood(env, d, c);
    var n := FindSlot(s.slots, c.slot);
    assert v.slots[n] == ClearedSlot(s.slots[n]);
  }

  lemma ReachStep(env: Env, ls: seq<Label>, l: Label)
    ensures Reach(env, ls + [l]) == Next(env, Reach(env, ls), l)
  {
    hide Next;
    assert (ls + [l])[..|ls|] == ls;
  }

  // ---- setup ids after a removal

  /** One step ends what a setup id means if and only if it completes a removal of its slot. */
  lemma IntentEndsExactly(env: Env, d: Disk, l: Label, id: string, identity: Identity)
    requires Good(env, d) && HasBound(View(env, d).setups, id, identity)
    ensures Good(env, Next(env, d, l))
    ensures HasBound(View(env, Next(env, d, l)).setups, id, identity) <==> !CompletesRemove(env, d, l, identity.slot)
  {
    hide Valid, RowsAgree, Load, View, Sound, PlanOf, Keeps, HasBound;
    if CompletesRemove(env, d, l, identity.slot) {
      var c := CallOf(l).value;
      RemovePromise(env, d, c.schema, c.slot);
      RemoveEffects(env, d, c);
      SavedWhole(env, d, l);
      StaysGood(env, d, c);
      NoRowLeft(View(env, Next(env, d, l)).setups, id, identity);
    } else {
      StepKeepsIntent(env, d, l, id, identity);
    }
  }

  lemma NoRowLeft(ops: seq<Operation>, id: string, identity: Identity)
    requires forall op :: op in ops ==> op.slot != identity.slot
    ensures !HasBound(ops, id, identity)
  {
    forall i | 0 <= i < |ops| ensures IdentityOf(ops[i]) != identity { assert ops[i] in ops; }
  }

  /** A call with one save that gets past it has done all of it. */
  lemma SavedWhole(env: Env, d: Disk, l: Label)
    requires CallOf(l).Some? && (l.Crashed? ==> l.after > 0)
    requires |PlanOf(env, d, CallOf(l).value).effects| == 1
    ensures Next(env, d, l) == ApplyAll(d, PlanOf(env, d, CallOf(l).value).effects)
  {
    hide PlanOf, Apply;
    var es := PlanOf(env, d, CallOf(l).value).effects;
    assert es == [es[0]] && es[1..] == [];
    assert ApplyAll(d, es) == Apply(d, es[0]);
    if l.Crashed? {
      assert CrashDisk(d, es, l.after, l.half) == CrashDisk(Apply(d, es[0]), es[1..], l.after - 1, l.half);
    }
  }

  // ---- a run in which each promise is lost

  /** Service names are the directories themselves, and any path may be a managed root. */
  const ENV: Env := Env(id => Digest(0, 0, 0, 0, 0, 0, 0, 0), dir => dir, "/accounts", dir => true)

  function Repeat(n: nat, c: char): (r: string)
    ensures |r| == n && forall i :: 0 <= i < n ==> r[i] == c
  {
    seq(n, _ => c)
  }

  const SLOT_A: string := "claude_slot_" + Repeat(32, 'a')
  const SLOT_B: string := "claude_slot_" + Repeat(32, 'b')
  const ID: string := "claude_setup_" + Repeat(32, '0')
  const HASH: string := Repeat(64, '1')

  lemma NamesValid()
    ensures ValidSlotId(SLOT_A) && ValidSlotId(SLOT_B) && SLOT_A != SLOT_B && ValidOpId(ID) && ValidHash(HASH)
  {
    assert SLOT_A[12] == 'a' && SLOT_B[12] == 'b';
  }

  function RegisterCall(dir: string, slot: string): Call {
    RegisterPath(SETTINGS_SCHEMA, dir, External, slot)
  }

  function ReconnectCall(slot: string): Call {
    Reconnect(SETTINGS_SCHEMA, ID, slot, None, HASH, None)
  }

  const TWO_SLOTS: seq<Slot> := [NewSlot(SLOT_A, External, "/a"), NewSlot(SLOT_B, External, "/b")]

  lemma TwoRegistered()
    ensures var ls := [Ran(RegisterCall("/a", SLOT_A)), Ran(RegisterCall("/b", SLOT_B))];
      Good(ENV, Reach(ENV, ls)) && View(ENV, Reach(ENV, ls)) == DEFAULT_SETTINGS.(slots := TWO_SLOTS)
  {
    hide SlotsOk, SetupsOk, ReconnectsOk, RowsOk, Load, View, Sound, PlanOf, Keeps, ValidSlotId;
    var a, b := RegisterCall("/a", SLOT_A), RegisterCall("/b", SLOT_B);
    NamesValid();
    var none: seq<Label> := [];
    ReachGood(ENV, none);
    StartsEmpty(ENV, none);
    assert none[..0] == none;
    var d0 := Reach(ENV, none);
    DirectoryPromise(ENV, d0, SETTINGS_SCHEMA, "/a", External, SLOT_A);
    StaysGood(ENV, d0, a);
    ReachStep(ENV, [], Ran(a));
    var d1 := Reach(ENV, [Ran(a)]);
    assert [] + [Ran(a)] == [Ran(a)];
    assert View(ENV, d1) == DEFAULT_SETTINGS.(slots := [NewSlot(SLOT_A, External, "/a")]);
    assert Rows(View(ENV, d1)) == [];
    DirectoryPromise(ENV, d1, SETTINGS_SCHEMA, "/b", External, SLOT_B);
    StaysGood(ENV, d1, b);
    ReachStep(ENV, [Ran(a)], Ran(b));
    assert [Ran(a)] + [Ran(b)] == [Ran(a), Ran(b)];
  }

  const BEFORE_REWRITE: seq<Label> :=
    [Ran(RegisterCall("/a", SLOT_A)), Ran(RegisterCall("/b", SLOT_B))] + [Ran(ReconnectCall(SLOT_A))]

  lemma FirstReconnected()
    ensures var s := At(ENV, BEFORE_REWRITE, |BEFORE_REWRITE|);
      && s.slots == TWO_SLOTS && s.setups == [] && s.filter == [] && |s.reconnects| == 1 && s.reconnects[0].id == ID
      && IdentityOf(s.reconnects[0]) == ReconnectIdentity(ReconnectCall(SLOT_A), "/a")
  {
    hide SlotsOk, SetupsOk, ReconnectsOk, RowsOk, Load, View, Sound, PlanOf, Keeps, ValidSlotId, ValidOpId, ValidHash,
      ReconnectPlan, NextSequence;
    var two, c := [Ran(RegisterCall("/a", SLOT_A)), Ran(RegisterCall("/b", SLOT_B))], ReconnectCall(SLOT_A);
    NamesValid();
    TwoRegistered();
    var d := Reach(ENV, two);
    var s := View(ENV, d);
    assert s.slots[0].id == SLOT_A;
    GoodIsValid(ENV, d);
    FreeIdAccepted(ENV, s, c);
    ReconnectPlanOf(ENV, d, c);
    LoadedAfter(ENV, d, c);
    ReachStep(ENV, two, Ran(c));
    assert BEFORE_REWRITE[..|BEFORE_REWRITE|] == BEFORE_REWRITE;
  }

  /** A live reconnect id, never retired, is given to another slot after a rewrite. */
  lemma ReconnectIdRebound()
    ensures var before := At(ENV, BEFORE_REWRITE, |BEFORE_REWRITE|);
      var d := Reach(ENV, BEFORE_REWRITE + [Downgraded(PERSISTED_SCHEMA)]);
      var e := Next(ENV, d, Ran(ReconnectCall(SLOT_B)));
      var identity := ReconnectIdentity(ReconnectCall(SLOT_A), "/a");
      && Held(ENV, before, ID, identity)
      && Good(ENV, e) && !Held(ENV, View(ENV, e), ID, identity)
      && HasBound(View(ENV, e).reconnects, ID, ReconnectIdentity(ReconnectCall(SLOT_B), "/b"))
  {
    hide Valid, Load, View, Sound, PlanOf, ValidSlotId, ValidOpId, ValidHash, Next, Reach;
    var c, ls := ReconnectCall(SLOT_B), BEFORE_REWRITE;
    NamesValid();
    FirstReconnected();
    var s := At(ENV, ls, |ls|);
    IssuedIsHeld(ENV, s, 0);
    assert s.slots[0].id == SLOT_A && s.slots[1].id == SLOT_B && s.slots[1].dir == "/b";
    assert FindSlot(s.slots, SLOT_B) == 1;
    DowngradeForgetsTheUnretired(ENV, ls, PERSISTED_SCHEMA, 0, c);
  }

  // ---- a setup id that changes its meaning

  function PrepareCall(slot: string, account: Option<string>): Call {
    Prepare(SETTINGS_SCHEMA, ID, None, account, None, None, slot)
  }

  predicate Nobody(s: Settings) {
    s.slots == [] && s.setups == [] && s.reconnects == []
  }

  lemma OneIntentValid(env: Env, s: Settings, row: Operation)
    requires Valid(env, s) && Nobody(s) && OpShape(row) && row.kind.ConnectManaged? && row.state.Preparing?
    ensures Valid(env, s.(setups := [row]))
    ensures Valid(env, Finalized(s.(setups := [row]), 0))
  {
    hide OpShape;
    var u := s.(setups := [row]);
    assert Rows(u) == [row];
    assert [row][1..] == [] && Unregistered([], [row]) == 1;
    var t, x := Finalized(u, 0), NewSlot(row.slot, Managed, row.dir);
    var waiting := row.(state := WaitingForUserLogin);
    assert t.slots == [x] && t.setups == [waiting] && Rows(t) == [waiting];
    assert OpShape(waiting) && SlotShape(x) by { ShapeOfRow(row); }
    assert [waiting][1..] == [] && HasSlot([x], waiting.slot) by { assert [x][0].id == waiting.slot; }
    assert Unregistered([x], [waiting]) == 0;
  }

  lemma ShapeOfRow(row: Operation)
    requires OpShape(row)
    ensures OpShape(row.(state := WaitingForUserLogin)) && SlotShape(NewSlot(row.slot, Managed, row.dir))
  {
  }

  /** An empty registry accepts any well-formed prepare whose id is not retired. */
  lemma EmptyPrepareAccepted(env: Env, d: Disk, c: Call)
    requires Good(env, d) && Nobody(View(env, d)) && c.Prepare? && ArgumentsOk(env, c) && c.schema == SETTINGS_SCHEMA
    requires c.reusable.None? && ValidSlotId(c.token) && ValidDir(ManagedPath(env, c.token))
    requires FilterShape(View(env, d).filter) && !IsRetired(env, View(env, d).filter, c.id)
    ensures PlanOf(env, d, c).reply.Done?
    ensures var e := Next(env, d, Ran(c));
      && Good(env, e)
      && View(env, e) == Finalized(View(env, d).(setups := [IntentRow(View(env, d), c, ManagedPath(env, c.token))]), 0)
  {
    hide Valid, RowsAgree, Load, View, Sound, PlanOf, ValidSlotId, ValidDir, ValidOpId, ValidHash, IsRetired,
      NextSequence;
    var s, dir := View(env, d), ManagedPath(env, c.token);
    GoodIsValid(env, d);
    PlanOfPrepare(env, d, c);
    var row := IntentRow(s, c, dir);
    assert s.setups + [row] == [row] && Rows(s) == [];
    assert OpShape(row);
    OneIntentValid(env, s, row);
    FirstPrepareSettles(env, s, c);
    LoadedAfter(env, d, c);
  }

  const FIRST_PREPARE: Label := Ran(PrepareCall(SLOT_A, None))
  const THEN_REMOVE: Label := Ran(Remove(SETTINGS_SCHEMA, SLOT_A))

  lemma ManagedNames()
    ensures ValidDir(ManagedPath(ENV, SLOT_A)) && ValidDir(ManagedPath(ENV, SLOT_B))
  {
    var p, q := ManagedPath(ENV, SLOT_A), ManagedPath(ENV, SLOT_B);
    assert p[0] == '/' && q[0] == '/' && |p| == 54 && |q| == 54;
    assert forall i :: 0 <= i < |SLOT_A| ==> SLOT_A[i] != '\0';
    assert forall i :: 0 <= i < |SLOT_B| ==> SLOT_B[i] != '\0';
    assert forall i :: 0 <= i < |p| ==> p[i] != '\0';
    assert forall i :: 0 <= i < |q| ==> q[i] != '\0';
  }

  /** One intent of this id, registered, and nothing else. */
  predicate Only(s: Settings, slot: string, account: Option<string>) {
    && s.slots == [NewSlot(slot, Managed, ManagedPath(ENV, slot))] && s.reconnects == [] && s.filter == []
    && |s.setups| == 1 && s.setups[0].id == ID
    && IdentityOf(s.setups[0]) == Identity(slot, ManagedPath(ENV, slot), None, account, None)
  }

  lemma PreparedOnEmpty(d: Disk, slot: string, account: Option<string>)
    requires Good(ENV, d) && Nobody(View(ENV, d)) && View(ENV, d).filter == []
    requires ValidSlotId(slot) && ValidDir(ManagedPath(ENV, slot)) && ValidOptHash(account) && ValidOpId(ID)
    ensures var e := Next(ENV, d, Ran(PrepareCall(slot, account))); Good(ENV, e) && Only(View(ENV, e), slot, account)
  {
    hide Valid, RowsAgree, Load, View, Sound, PlanOf, ValidSlotId, ValidDir, ValidOpId, ValidHash, ManagedPath,
      NextSequence,
      Next;
    EmptyPrepareAccepted(ENV, d, PrepareCall(slot, account));
    assert [] + [NewSlot(slot, Managed, ManagedPath(ENV, slot))] == [NewSlot(slot, Managed, ManagedPath(ENV, slot))];
  }

  lemma RemovedToEmpty(d: Disk, slot: string, account: Option<string>)
    requires Good(ENV, d) && Only(View(ENV, d), slot, account) && slot != "default"
    ensures var e := Next(ENV, d, Ran(Remove(SETTINGS_SCHEMA, slot)));
      Good(ENV, e) && Nobody(View(ENV, e)) && View(ENV, e).filter == []
  {
    hide SlotsOk, SetupsOk, ReconnectsOk, RowsOk, RowsAgree, Load, View, Sound, PlanOf, ManagedPath;
    var c, s := Remove(SETTINGS_SCHEMA, slot), View(ENV, d);
    GoodIsValid(ENV, d);
    RemovePlanOf(ENV, d, c);
    LoadedAfter(ENV, d, c);
    assert FindSlot(s.slots, slot) == 0;
    RemovedValid(ENV, s, slot);
    LastOfChecked(ENV, s, Removed(ENV, s, slot), Done);
    assert s.slots[..0] + s.slots[1..] == [];
    assert s.setups[1..] == [];
  }

  lemma BoundTo(s: Settings, slot: string, account: Option<string>)
    requires Only(s, slot, account)
    ensures HasBound(s.setups, ID, Identity(slot, ManagedPath(ENV, slot), None, account, None))
  {
  }

  /** The id is prepared, its slot is removed, and the same id is prepared again with another account and slot. */
  lemma SetupIdRebound()
    ensures var d1 := Next(ENV, EMPTY_DISK, FIRST_PREPARE);
      var d3 := Next(ENV, Next(ENV, d1, THEN_REMOVE), Ran(PrepareCall(SLOT_B, Some(HASH))));
      && Good(ENV, d1) && Good(ENV, d3)
      && HasBound(View(ENV, d1).setups, ID, Identity(SLOT_A, ManagedPath(ENV, SLOT_A), None, None, None))
      && HasBound(View(ENV, d3).setups, ID, Identity(SLOT_B, ManagedPath(ENV, SLOT_B), None, Some(HASH), None))
  {
    hide Valid, RowsAgree, Load, View, Sound, PlanOf, ValidSlotId, ValidDir, ValidOpId, ValidHash, Keeps,
      OneRegistration,
      ManagedPath, HasBound;
    NamesValid();
    ManagedNames();
    var none: seq<Label> := [];
    ReachGood(ENV, none);
    StartsEmpty(ENV, none);
    assert none[..0] == none;
    var d0 := EMPTY_DISK;
    PreparedOnEmpty(d0, SLOT_A, None);
    var d1 := Next(ENV, d0, FIRST_PREPARE);
    RemovedToEmpty(d1, SLOT_A, None);
    var d2 := Next(ENV, d1, THEN_REMOVE);
    PreparedOnEmpty(d2, SLOT_B, Some(HASH));
    BoundTo(View(ENV, d1), SLOT_A, None);
    BoundTo(View(ENV, Next(ENV, d2, Ran(PrepareCall(SLOT_B, Some(HASH))))), SLOT_B, Some(HASH));
  }
}
