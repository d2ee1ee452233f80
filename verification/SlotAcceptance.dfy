/** Exactly when each operation is accepted on an intact store. */
module SlotAcceptance {
  import opened Prelude
  import opened SlotModel
  import opened SlotFilter
  import opened SlotCalls
  import opened SlotEvolution
  import opened SlotRuns
  import opened SlotGuarantees
  import opened SlotApprovals
  import opened SlotPrepare
  import opened SlotPromises
  import opened SlotRowPromises

  // ---- shared conditions

  /** No operation but, possibly, the one of this id is under way. */
  predicate Alone(s: Settings, id: string) {
    forall op :: op in Rows(s) && op.id != id ==> !UnderWay(op)
  }

  lemma AloneIs(s: Settings, id: string)
    ensures OtherActive(s, id) <==> !Alone(s, id)
  {
    forall i | 0 <= i < |Rows(s)| ensures Active(Rows(s)[i]) <==> UnderWay(Rows(s)[i]) {
      ActiveIs(Rows(s)[i]);
      assert Rows(s)[i] in Rows(s);
    }
  }

  /** The setups whose slot is not registered are counted once each. */
  lemma {:induction false} ReservedIs(slots: seq<Slot>, ops: seq<Operation>)
    ensures Unregistered(slots, ops) == |Filter(ops, (op: Operation) => !HasSlot(slots, op.slot))|
  {
    if ops != [] { ReservedIs(slots, ops[1..]); }
  }

  // ---- registering an intent

  /** All rows on this slot have this directory. */
  predicate SameDirRows(s: Settings, slot: string, dir: string) {
    forall x :: x in Rows(s) && x.slot == slot ==> x.dir == dir
  }

  lemma {:induction false} UnregisteredDrops(slots: seq<Slot>, x: Slot, ops: seq<Operation>, i: nat)
    requires FindSlot(slots, x.id) == |slots| && i < |ops| && ops[i].slot == x.id
    ensures Unregistered(slots + [x], ops) < Unregistered(slots, ops)
  {
    UnregisteredFewer(slots, x, ops[1..]);
    OneMore(slots, x, ops[0]);
    if i > 0 { UnregisteredDrops(slots, x, ops[1..], i - 1); }
  }

  lemma OneMore(slots: seq<Slot>, x: Slot, op: Operation)
    requires FindSlot(slots, x.id) == |slots|
    ensures HasSlot(slots + [x], op.slot) <==> HasSlot(slots, op.slot) || op.slot == x.id
    ensures op.slot == x.id ==> !HasSlot(slots, op.slot)
  {
    HasSlotFound(slots, op.slot);
    HasSlotFound(slots + [x], op.slot);
    if op.slot == x.id { AppendFind(slots, x); } else { AppendFindOther(slots, x, op.slot); }
  }

  lemma {:induction false} UnregisteredFewer(slots: seq<Slot>, x: Slot, ops: seq<Operation>)
    requires FindSlot(slots, x.id) == |slots|
    ensures Unregistered(slots + [x], ops) <= Unregistered(slots, ops)
  {
    if ops != [] {
      OneMore(slots, x, ops[0]);
      UnregisteredFewer(slots, x, ops[1..]);
    }
  }

  lemma FinalizedSetups(u: Settings, i: nat, x: Slot)
    requires i < |u.setups| && SetupsOk(u.slots, u.setups) && FindSlot(u.slots, x.id) == |u.slots|
    requires x == NewSlot(u.setups[i].slot, Managed, u.setups[i].dir)
    ensures SetupsOk(u.slots + [x], Finalized(u, i).setups) <==>
      forall op :: op in u.setups && op.slot == x.id ==> op.dir == x.dir
  {
    hide OpShape;
    var setups, slots := Finalized(u, i).setups, u.slots + [x];
    assert forall j :: 0 <= j < |setups| ==> setups[j].slot == u.setups[j].slot && setups[j].dir == u.setups[j].dir;
    UnregisteredSame(slots, u.setups, setups);
    UnregisteredDrops(u.slots, x, u.setups, i);
    AppendFind(u.slots, x);
    forall j | 0 <= j < |setups|
      ensures OpShape(setups[j])
      ensures SetupMatches(slots, setups[j]) <==> (setups[j].slot == x.id ==> setups[j].dir == x.dir)
    {
      assert OpShape(u.setups[j]) && SetupMatches(u.slots, u.setups[j]);
      ShapeKeeps(u.setups[j], setups[j]);
      if setups[j].slot != x.id { AppendFindOther(u.slots, x, setups[j].slot); }
    }
    if forall op :: op in u.setups && op.slot == x.id ==> op.dir == x.dir {
      forall j | 0 <= j < |setups| ensures SetupMatches(slots, setups[j]) { assert u.setups[j] in u.setups; }
    }
    if SetupsOk(slots, setups) {
      forall op | op in u.setups && op.slot == x.id ensures op.dir == x.dir {
        var j :| 0 <= j < |u.setups| && u.setups[j] == op;
        assert SetupMatches(slots, setups[j]);
      }
    }
  }

  lemma ShapeKeeps(a: Operation, b: Operation)
    requires OpShape(a) && b == a.(state := b.state)
    ensures OpShape(b)
  {
  }

  lemma FinalizedReconnects(u: Settings, x: Slot)
    requires ReconnectsOk(u.slots, u.reconnects) && FindSlot(u.slots, x.id) == |u.slots|
    ensures ReconnectsOk(u.slots + [x], u.reconnects) <==>
      forall op :: op in u.reconnects && op.slot == x.id ==> op.dir == x.dir
  {
    hide OpShape;
    var slots := u.slots + [x];
    AppendFind(u.slots, x);
    forall j | 0 <= j < |u.reconnects|
      ensures ReconnectMatches(slots, u.reconnects[j]) <==>
        (u.reconnects[j].slot == x.id ==> u.reconnects[j].dir == x.dir)
    {
      assert ReconnectMatches(u.slots, u.reconnects[j]);
      if u.reconnects[j].slot != x.id { AppendFindOther(u.slots, x, u.reconnects[j].slot); }
    }
    if forall op :: op in u.reconnects && op.slot == x.id ==> op.dir == x.dir {
      forall j | 0 <= j < |u.reconnects| ensures ReconnectMatches(slots, u.reconnects[j]) {
        assert u.reconnects[j] in u.reconnects;
      }
    }
    if ReconnectsOk(slots, u.reconnects) {
      forall op | op in u.reconnects && op.slot == x.id ensures op.dir == x.dir {
        var j :| 0 <= j < |u.reconnects| && u.reconnects[j] == op;
        assert ReconnectMatches(slots, u.reconnects[j]);
      }
    }
  }

  lemma FinalizedRows(u: Settings, i: nat)
    requires i < |u.setups| && RowsOk(Rows(u)) && u.setups[i].state.Preparing?
    ensures RowsOk(Rows(Finalized(u, i)))
  {
    var a, b := Rows(u), Rows(Finalized(u, i));
    assert forall j :: 0 <= j < |a| ==> b[j].id == a[j].id && (Active(b[j]) <==> Active(a[j]));
  }

  lemma FinalizedSlots(env: Env, u: Settings, i: nat, x: Slot)
    requires i < |u.setups| && SlotsOk(env, u.slots) && SetupsOk(u.slots, u.setups)
    requires FindSlot(u.slots, x.id) == |u.slots| && x == NewSlot(u.setups[i].slot, Managed, u.setups[i].dir)
    ensures SlotsOk(env, u.slots + [x]) <==> DirFree(env, u, x.dir)
  {
    hide ValidSlotId, ValidDir;
    AppendSlotsOk(env, u.slots, x);
    UnregisteredDrops(u.slots, x, u.setups, i);
    assert OpShape(u.setups[i]);
  }

  /** An intent whose slot is not registered yet can be registered if and only if its directory is free and no row on
      its slot names another one. */
  lemma FinalizedValid(env: Env, u: Settings, i: nat)
    requires Valid(env, u) && i < |u.setups| && u.setups[i].state.Preparing?
    requires FindSlot(u.slots, u.setups[i].slot) == |u.slots|
    ensures Valid(env, Finalized(u, i)) <==>
      DirFree(env, u, u.setups[i].dir) && SameDirRows(u, u.setups[i].slot, u.setups[i].dir)
  {
    hide SlotsOk, SetupsOk, ReconnectsOk, RowsOk, DirFree;
    var x := NewSlot(u.setups[i].slot, Managed, u.setups[i].dir);
    FinalizedSlots(env, u, i, x);
    FinalizedSetups(u, i, x);
    FinalizedReconnects(u, x);
    FinalizedRows(u, i);
    SplitRows(u, u.setups[i].slot, u.setups[i].dir);
  }

  lemma SplitRows(s: Settings, slot: string, dir: string)
    ensures SameDirRows(s, slot, dir) <==>
      && (forall x :: x in s.setups && x.slot == slot ==> x.dir == dir)
      && (forall x :: x in s.reconnects && x.slot == slot ==> x.dir == dir)
  {
  }

  // ---- a first prepare

  /** What a prepare of an unknown id needs, besides good arguments. */
  predicate PrepareFits(env: Env, s: Settings, c: Call)
    requires c.Prepare?
  {
    && !HasSlot(s.slots, c.token) && SameDirRows(s, c.token, IntentDir(env, c))
    && Alone(s, c.id) && RoomLeft(s) && |s.setups| < MAX_REGISTERED
    && ValidSlotId(c.token) && ValidDir(IntentDir(env, c)) && DirFree(env, s, IntentDir(env, c))
    && (c.reusable.Some? ==> ReusableFits(env, s, c.reusable.value))
  }

  /** A reusable root is a direct child of the accounts root that no slot and no row uses. */
  predicate ReusableFits(env: Env, s: Settings, dir: string) {
    && env.directChild(dir)
    && (forall x :: x in s.slots ==> x.dir != dir) && (forall op :: op in Rows(s) ==> op.dir != dir)
  }

  lemma IntentSetups(slots: seq<Slot>, ops: seq<Operation>, row: Operation)
    requires SetupsOk(slots, ops) && row.kind.ConnectManaged? && row.state.Preparing? && !HasSlot(slots, row.slot)
    ensures SetupsOk(slots, ops + [row]) <==>
      |ops| < MAX_REGISTERED && OpShape(row) && |slots| + Unregistered(slots, ops) < MAX_REGISTERED
  {
    hide OpShape;
    UnregisteredSnoc(slots, ops, row);
    HasSlotFound(slots, row.slot);
    var r := ops + [row];
    assert r[|ops|] == row && forall i :: 0 <= i < |ops| ==> r[i] == ops[i];
    assert SetupMatches(slots, row);
  }

  lemma {:induction false} UnregisteredSnoc(slots: seq<Slot>, ops: seq<Operation>, row: Operation)
    ensures Unregistered(slots, ops + [row]) == Unregistered(slots, ops) + (if HasSlot(slots, row.slot) then 0 else 1)
  {
    if ops == [] {
      assert ops + [row] == [row] && [row][1..] == [];
    } else {
      assert (ops + [row])[1..] == ops[1..] + [row];
      UnregisteredSnoc(slots, ops[1..], row);
    }
  }

  lemma IntentRows(s: Settings, row: Operation)
    requires RowsOk(Rows(s)) && UnderWay(row) && !HasOp(s.setups, row.id) && !HasOp(s.reconnects, row.id)
    ensures RowsOk(Rows(s.(setups := s.setups + [row]))) <==> Alone(s, row.id)
  {
    var n, a, b := |s.setups|, Rows(s), Rows(s.(setups := s.setups + [row]));
    assert forall j :: 0 <= j < n ==> b[j] == a[j];
    assert b[n] == row;
    assert forall j :: n <= j < |a| ==> b[j + 1] == a[j];
    UnknownRow(s, row.id);
    ActiveIs(row);
    forall j | 0 <= j < |a| ensures Active(a[j]) <==> UnderWay(a[j]) { ActiveIs(a[j]); }
    if RowsOk(b) {
      forall op | op in a && op.id != row.id ensures !UnderWay(op) {
        var j :| 0 <= j < |a| && a[j] == op;
        var k := if j < n then j else j + 1;
        assert b[k] == op;
      }
    }
    if Alone(s, row.id) {
      forall j | 0 <= j < |a| ensures !Active(a[j]) { assert a[j] in a; }
      forall j, k | 0 <= j < k < |b| ensures b[j].id != b[k].id && !(Active(b[j]) && Active(b[k])) {
        var x, y := if j <= n then j else j - 1, if k <= n then k else k - 1;
        assert j != n ==> b[j] == a[x];
        assert k != n ==> b[k] == a[y];
      }
    }
  }

  lemma UnknownRow(s: Settings, id: string)
    requires !HasOp(s.setups, id) && !HasOp(s.reconnects, id)
    ensures forall op :: op in Rows(s) ==> op.id != id
  {
  }

  lemma IntentShape(env: Env, s: Settings, c: Call)
    requires c.Prepare? && ArgumentsOk(env, c)
    ensures OpShape(IntentRow(s, c, IntentDir(env, c))) <==> ValidSlotId(c.token) && ValidDir(IntentDir(env, c))
  {
    hide NextSequence, ValidSlotId, ValidDir, ValidHash, ValidOpId;
  }

  lemma IntentValid(env: Env, s: Settings, c: Call)
    requires c.Prepare? && Valid(env, s) && ArgumentsOk(env, c) && !HasSlot(s.slots, c.token)
    requires !HasOp(s.setups, c.id) && !HasOp(s.reconnects, c.id)
    ensures Valid(env, WithIntent(env, s, c)) <==>
      && Alone(s, c.id) && RoomLeft(s) && |s.setups| < MAX_REGISTERED
      && ValidSlotId(c.token) && ValidDir(IntentDir(env, c))
  {
    hide SlotsOk, SetupsOk, ReconnectsOk, RowsOk, OpShape, NextSequence, ValidSlotId, ValidDir, ArgumentsOk;
    var row := IntentRow(s, c, IntentDir(env, c));
    IntentSetups(s.slots, s.setups, row);
    IntentRows(s, row);
    IntentShape(env, s, c);
  }

  /** An unknown, unretired id is prepared if and only if the request fits. */
  lemma FirstPrepareAccepted(env: Env, s: Settings, c: Call)
    requires c.Prepare? && Valid(env, s) && FilterShape(s.filter) && ArgumentsOk(env, c)
    requires !HasOp(s.setups, c.id) && !HasOp(s.reconnects, c.id) && !IsRetired(env, s.filter, c.id)
    ensures PreparePlan(env, s, c).reply.Done? <==> PrepareFits(env, s, c)
  {
    hide Valid, IsRetired, FirstPreparePlan, FinalizePlan, IntentRow, ValidSlotId, ValidDir, DirFree, ReusableFits,
      ArgumentsOk, Finalized, HasSlot, SameDirRows;
    AloneIs(s, c.id);
    UnknownFound(s, c.id);
    if HasSlot(s.slots, c.token) {
      RegisteredToken(env, s, c);
    } else if Alone(s, c.id) && RoomLeft(s) {
      FirstPlanSteps(env, s, c);
      IntentValid(env, s, c);
      var u, i := WithIntent(env, s, c), |s.setups|;
      if Valid(env, u) { FreshFinalized(env, s, c); }
    }
  }

  lemma UnknownFound(s: Settings, id: string)
    requires !HasOp(s.setups, id)
    ensures Find(s.setups, id) == |s.setups|
  {
  }

  lemma FirstPlanSteps(env: Env, s: Settings, c: Call)
    requires c.Prepare?
    ensures var dir, u := IntentDir(env, c), WithIntent(env, s, c);
      FirstPreparePlan(env, s, c).reply.Done? <==>
        && (c.reusable.Some? ==> ReusableFits(env, s, dir))
        && ValidDir(dir) && Valid(env, u) && FinalizePlan(env, u, |s.setups|).reply.Done?
  {
    hide Valid, FinalizePlan, IntentRow, ValidDir;
    if c.reusable.Some? { ReusableIs(env, s, c.reusable.value); }
  }

  lemma ReusableIs(env: Env, s: Settings, dir: string)
    ensures ReusableFits(env, s, dir) <==>
      && env.directChild(dir)
      && !(exists i :: 0 <= i < |s.slots| && s.slots[i].dir == dir)
      && !(exists i :: 0 <= i < |Rows(s)| && Rows(s)[i].dir == dir)
  {
    hide Rows;
    var rows := Rows(s);
    if ReusableFits(env, s, dir) {
      forall i | 0 <= i < |s.slots| ensures s.slots[i].dir != dir { assert s.slots[i] in s.slots; }
      forall i | 0 <= i < |rows| ensures rows[i].dir != dir { assert rows[i] in rows; }
    }
  }

  lemma FreshFinalized(env: Env, s: Settings, c: Call)
    requires c.Prepare? && !HasSlot(s.slots, c.token) && Valid(env, WithIntent(env, s, c))
    ensures FinalizePlan(env, WithIntent(env, s, c), |s.setups|).reply.Done? <==>
      DirFree(env, s, IntentDir(env, c)) && SameDirRows(s, c.token, IntentDir(env, c))
  {
    hide Valid, NextSequence, Finalized, DirFree;
    var u, i := WithIntent(env, s, c), |s.setups|;
    var row := u.setups[i];
    HasSlotFound(s.slots, c.token);
    FinalizedValid(env, u, i);
    assert forall x :: x in Rows(u) ==> x == row || x in Rows(s);
    assert row in Rows(u) && forall x :: x in Rows(s) ==> x in Rows(u);
    SameFree(env, s, u, row.dir);
  }

  lemma SameFree(env: Env, s: Settings, u: Settings, dir: string)
    requires s.slots == u.slots
    ensures DirFree(env, s, dir) <==> DirFree(env, u, dir)
  {
  }

  // ---- a replay

  /** What a replay of the setup row at `i` needs. */
  predicate ReplayFits(env: Env, s: Settings, i: nat)
    requires i < |s.setups|
  {
    var op := s.setups[i];
    && (op.state.SetupStopped? ==> Alone(s, op.id))
    && (HasSlot(s.slots, op.slot) || (DirFree(env, s, op.dir) && SameDirRows(s, op.slot, op.dir)))
  }

  lemma ReplayAccepted(env: Env, s: Settings, i: nat)
    requires Healthy(env, s) && i < |s.setups|
    ensures ReplayPlan(env, s, i).reply.Done? <==> ReplayFits(env, s, i)
  {
    hide SlotsOk, ReconnectsOk, RowsOk, OpShape, DirFree, SameDirRows, FinalizePlan, Alone;
    var op := s.setups[i];
    var k := FindSlot(s.slots, op.slot);
    HasSlotFound(s.slots, op.slot);
    AloneIs(s, op.id);
    assert SetupMatches(s.slots, op);
    if k == |s.slots| {
      var u := s.(setups := s.setups[i := op.(state := Preparing)]);
      if op.state.SetupStopped? && Alone(s, op.id) {
        ResumedIntent(env, s, i, u);
        FinalizeIs(env, u, i);
        SameFree(env, s, u, op.dir);
        ResumedRows(s, u, i);
      } else if op.state.Preparing? {
        FinalizeIs(env, s, i);
      }
    }
  }

  lemma FinalizeIs(env: Env, u: Settings, i: nat)
    requires Valid(env, u) && i < |u.setups| && u.setups[i].state.Preparing?
    requires FindSlot(u.slots, u.setups[i].slot) == |u.slots|
    ensures FinalizePlan(env, u, i).reply.Done? <==>
      DirFree(env, u, u.setups[i].dir) && SameDirRows(u, u.setups[i].slot, u.setups[i].dir)
  {
    hide Valid, Finalized, DirFree, SameDirRows;
    FinalizedValid(env, u, i);
  }

  /** Resuming a stopped intent keeps the settings valid when no other operation is under way. */
  lemma ResumedIntent(env: Env, s: Settings, i: nat, u: Settings)
    requires Healthy(env, s) && i < |s.setups| && s.setups[i].state.SetupStopped? && Alone(s, s.setups[i].id)
    requires u == s.(setups := s.setups[i := s.setups[i].(state := Preparing)])
    ensures Valid(env, u)
  {
    hide SlotsOk, ReconnectsOk, OpShape;
    var op, row := s.setups[i], s.setups[i].(state := Preparing);
    assert Rows(s)[i] == op && SetupMatches(s.slots, op);
    AloneIs(s, op.id);
    OthersInactive(s, i);
    RestateValid(env, s, i, row);
    assert WithRow(s, i, row) == u;
  }

  lemma ResumedRows(s: Settings, u: Settings, i: nat)
    requires i < |s.setups| && u == s.(setups := s.setups[i := s.setups[i].(state := Preparing)])
    ensures SameDirRows(s, s.setups[i].slot, s.setups[i].dir) <==> SameDirRows(u, u.setups[i].slot, u.setups[i].dir)
  {
    var a, b := Rows(s), Rows(u);
    assert forall j :: 0 <= j < |a| ==> a[j].slot == b[j].slot && a[j].dir == b[j].dir;
    if SameDirRows(s, s.setups[i].slot, s.setups[i].dir) {
      forall x | x in b && x.slot == u.setups[i].slot ensures x.dir == u.setups[i].dir {
        var j :| 0 <= j < |b| && b[j] == x;
        assert a[j] in a;
      }
    }
    if SameDirRows(u, u.setups[i].slot, u.setups[i].dir) {
      forall x | x in a && x.slot == s.setups[i].slot ensures x.dir == s.setups[i].dir {
        var j :| 0 <= j < |a| && a[j] == x;
        assert b[j] in b;
      }
    }
  }

  /** On an intact store an unknown id is accepted if and only if it is not retired and the request fits, and a known id
      if and only if it asks for the same and its replay fits. */
  ghost predicate PrepareAnswered(env: Env, d: Disk, c: Call, reply: Reply)
    requires c.Prepare?
  {
    Good(env, d) ==>
      var s, ok := View(env, d), ArgumentsOk(env, c) && c.schema == SETTINGS_SCHEMA;
      && FilterShape(s.filter)
      && (!HasOp(s.setups, c.id) ==> (reply.Done? <==>
            ok && !HasOp(s.reconnects, c.id) && !IsRetired(env, s.filter, c.id) && PrepareFits(env, s, c)))
      && (forall i :: 0 <= i < |s.setups| && s.setups[i].id == c.id ==>
            (reply.Done? <==> ok && Asked(IdentityOf(s.setups[i]), c) && ReplayFits(env, s, i)))
  }

  lemma KnownRow(env: Env, s: Settings, i: nat)
    requires Valid(env, s) && i < |s.setups|
    ensures Find(s.setups, s.setups[i].id) == i && !HasOp(s.reconnects, s.setups[i].id)
  {
    hide SlotsOk, SetupsOk, ReconnectsOk;
    assert Rows(s)[i] == s.setups[i];
    forall j | 0 <= j < i ensures s.setups[j].id != s.setups[i].id { assert Rows(s)[j] == s.setups[j]; }
    forall j | 0 <= j < |s.reconnects| ensures s.reconnects[j].id != s.setups[i].id {
      assert Rows(s)[|s.setups| + j] == s.reconnects[j];
    }
  }

  lemma RegisteredToken(env: Env, s: Settings, c: Call)
    requires c.Prepare? && FilterShape(s.filter) && !HasOp(s.setups, c.id) && HasSlot(s.slots, c.token)
    ensures !PreparePlan(env, s, c).reply.Done?
  {
    hide Valid, IsRetired, FirstPreparePlan, FinalizePlan, OtherActive, ReplayPlan, IntentRow;
    UnknownFound(s, c.id);
    if FirstPreparePlan(env, s, c).reply.Done? {
      FirstPrepareIs(env, s, c);
      FreshIntent(env, WithIntent(env, s, c), |s.setups|);
      IntentIs(env, s, c);
      HasSlotFound(s.slots, c.token);
    }
  }

  lemma PrepareOfKnown(env: Env, s: Settings, c: Call, i: nat)
    requires c.Prepare? && Healthy(env, s) && FilterShape(s.filter) && i < |s.setups| && s.setups[i].id == c.id
    ensures PreparePlan(env, s, c).reply.Done? <==> Asked(IdentityOf(s.setups[i]), c) && ReplayFits(env, s, i)
  {
    hide Valid, ReplayPlan, FirstPreparePlan, ReplayFits, IsRetired;
    KnownRow(env, s, i);
    ReplayAccepted(env, s, i);
  }

  lemma PrepareAnswers(env: Env, d: Disk, c: Call)
    requires c.Prepare?
    ensures PrepareAnswered(env, d, c, PlanOf(env, d, c).reply)
  {
    hide Valid, Load, View, Sound, ArgumentsOk, PreparePlan, PrepareFits, ReplayFits, IsRetired, PlanOf;
    if Good(env, d) {
      var s := View(env, d);
      GoodIsValid(env, d);
      if PlanOf(env, d, c).reply.Done? { AcceptedPrepare(env, d, c); }
      if ArgumentsOk(env, c) && c.schema == SETTINGS_SCHEMA {
        PlanOfPrepare(env, d, c);
        PrepareRefuses(env, d, c);
        if !HasOp(s.setups, c.id) && !HasOp(s.reconnects, c.id) && !IsRetired(env, s.filter, c.id) {
          FirstPrepareAccepted(env, s, c);
        }
        forall i | 0 <= i < |s.setups| && s.setups[i].id == c.id
          ensures PreparePlan(env, s, c).reply.Done? <==> Asked(IdentityOf(s.setups[i]), c) && ReplayFits(env, s, i)
        {
          PrepareOfKnown(env, s, c, i);
        }
      }
    }
  }

  // ---- reconnect

  /** What a reconnect of an unknown id needs, besides good arguments: its slot registered, nothing else under way,
      every operation of the slot ended, and a place for the row. */
  ghost predicate SuccessorFits(env: Env, s: Settings, c: Call)
    requires c.Reconnect? && FilterShape(s.filter)
  {
    && !HasOp(s.setups, c.id) && !IsRetired(env, s.filter, c.id) && Alone(s, c.id) && HasSlot(s.slots, c.slot)
    && (forall op :: op in Rows(s) && op.slot == c.slot ==> op.state != Idle)
    && (|s.reconnects| < MAX_REGISTERED || exists op :: op in s.reconnects && op.slot == c.slot)
  }

  lemma {:induction false} FilterAll(ops: seq<Operation>, p: Operation -> bool)
    requires forall op :: op in ops ==> p(op)
    ensures Filter(ops, p) == ops
  {
    if ops != [] {
      assert ops[0] in ops;
      FilterAll(ops[1..], p);
    }
  }

  lemma {:induction false} FilterFewer(ops: seq<Operation>, p: Operation -> bool, i: nat)
    requires i < |ops| && !p(ops[i])
    ensures |Filter(ops, p)| < |ops|
  {
    if i > 0 { FilterFewer(ops[1..], p, i - 1); }
  }

  lemma SupersededRows(env: Env, s: Settings, slot: string)
    requires Valid(env, s) && FilterShape(s.filter)
    ensures var t := Superseded(env, s, slot);
      && RowsOk(Rows(t)) && SlotIdsDistinct(t.reconnects) && t.slots == s.slots && t.setups == s.setups
      && (forall op :: op in t.reconnects ==> op in s.reconnects && op.slot != slot)
      && |t.reconnects| <= |s.reconnects|
      && ((exists op :: op in s.reconnects && op.slot == slot) ==> |t.reconnects| < |s.reconnects|)
  {
    hide SlotsOk, SetupsOk, RowsOk, Filter, Retire, OpShape, ReconnectMatches;
    var j := FindBySlot(s.reconnects, slot);
    if j < |s.reconnects| {
      var prior := s.reconnects[j].id;
      var keep := (op: Operation) => op.id != prior;
      var all := (op: Operation) => true;
      FilteredRowsOk(s.setups, all, s.reconnects, keep);
      FilterAll(s.setups, all);
      FilterFewer(s.reconnects, keep, j);
      var r := Filter(s.reconnects, keep);
      forall a, b | 0 <= a < b < |r| ensures r[a].slot != r[b].slot {
        var x, y := FilteredPair(s.reconnects, keep, a, b);
      }
      forall op | op in r ensures op.slot != slot {
        var n :| 0 <= n < |s.reconnects| && s.reconnects[n] == op;
        assert n != j;
      }
    } else {
      forall op | op in s.reconnects ensures op.slot != slot {
        var n :| 0 <= n < |s.reconnects| && s.reconnects[n] == op;
      }
    }
  }

  lemma SuccessorRows(t: Settings, row: Operation)
    requires RowsOk(Rows(t)) && forall op :: op in Rows(t) ==> op.id != row.id && !Active(op)
    ensures RowsOk(Rows(t.(reconnects := t.reconnects + [row])))
  {
    var a, b := Rows(t), Rows(t.(reconnects := t.reconnects + [row]));
    assert b == a + [row];
    forall i, j | 0 <= i < j < |b| ensures b[i].id != b[j].id && !(Active(b[i]) && Active(b[j])) {
      assert b[i] == a[i] && a[i] in a;
      if j < |a| { assert b[j] == a[j]; }
    }
  }

  lemma SuccessorReconnects(slots: seq<Slot>, ops: seq<Operation>, all: seq<Operation>, row: Operation)
    requires ReconnectsOk(slots, all) && SlotIdsDistinct(ops)
    requires forall op :: op in ops ==> op in all && op.slot != row.slot
    requires |ops| <= |all| && OpShape(row) && ReconnectMatches(slots, row)
    ensures ReconnectsOk(slots, ops + [row]) <==> |ops| < MAX_REGISTERED
  {
    hide OpShape, ReconnectMatches;
    var r := ops + [row];
    forall i | 0 <= i < |ops| ensures OpShape(r[i]) && ReconnectMatches(slots, r[i]) {
      assert ops[i] in ops;
    }
    forall i, j | 0 <= i < j < |r| ensures r[i].slot != r[j].slot { assert r[i] in ops; }
  }

  lemma NewRowShape(env: Env, s: Settings, t: Settings, c: Call, k: nat)
    requires c.Reconnect? && ArgumentsOk(env, c) && SlotsOk(env, s.slots) && k == FindSlot(s.slots, c.slot) < |s.slots|
    ensures var row := ReconnectRow(t, c, s.slots[k].dir); OpShape(row) && ReconnectMatches(s.slots, row)
  {
    hide NextSequence, ValidHash, ValidDir, ValidSlotId;
    assert SlotShape(s.slots[k]);
  }

  lemma SuccessorValid(env: Env, s: Settings, c: Call)
    requires c.Reconnect? && Valid(env, s) && FilterShape(s.filter) && ArgumentsOk(env, c)
    requires !HasOp(s.setups, c.id) && !HasOp(s.reconnects, c.id) && Alone(s, c.id)
    requires FindSlot(s.slots, c.slot) < |s.slots|
    ensures Valid(env, Successor(env, s, c)) <==>
      |s.reconnects| < MAX_REGISTERED || exists op :: op in s.reconnects && op.slot == c.slot
  {
    hide SlotsOk, SetupsOk, RowsOk, Superseded, ReconnectRow, ArgumentsOk, OpShape, ReconnectMatches;
    var k, t := FindSlot(s.slots, c.slot), Superseded(env, s, c.slot);
    var row := ReconnectRow(t, c, s.slots[k].dir);
    SupersededRows(env, s, c.slot);
    SupersededShape(env, s, c.slot);
    NewRowShape(env, s, t, c, k);
    NewRowIs(t, c, s.slots[k].dir);
    UnknownRow(s, c.id);
    forall op | op in Rows(t) ensures op.id != row.id && !Active(op) {
      assert op in Rows(s);
      ActiveIs(op);
    }
    SuccessorRows(t, row);
    SuccessorReconnects(s.slots, t.reconnects, s.reconnects, row);
    SupersededSize(env, s, c.slot);
  }

  lemma NewRowIs(t: Settings, c: Call, dir: string)
    requires c.Reconnect?
    ensures var row := ReconnectRow(t, c, dir); row.id == c.id && row.slot == c.slot
  {
  }

  lemma SupersededShape(env: Env, s: Settings, slot: string)
    requires FilterShape(s.filter)
    ensures var t := Superseded(env, s, slot); FilterShape(t.filter) && t.schema == s.schema
  {
    hide Retire;
  }

  lemma SupersededSize(env: Env, s: Settings, slot: string)
    requires Valid(env, s) && FilterShape(s.filter)
    ensures |Superseded(env, s, slot).reconnects| < MAX_REGISTERED <==>
      |s.reconnects| < MAX_REGISTERED || exists op :: op in s.reconnects && op.slot == slot
  {
    hide SlotsOk, SetupsOk, RowsOk, Filter, Retire;
    SupersededRows(env, s, slot);
    var j := FindBySlot(s.reconnects, slot);
    assert j < |s.reconnects| ==> s.reconnects[j] in s.reconnects;
  }

  lemma SuccessorAccepted(env: Env, s: Settings, c: Call)
    requires c.Reconnect? && Valid(env, s) && FilterShape(s.filter) && ArgumentsOk(env, c) && !HasOp(s.reconnects, c.id)
    ensures ReconnectPlan(env, s, c).reply.Done? <==> SuccessorFits(env, s, c)
  {
    hide Valid, IsRetired, Superseded, ReconnectRow, ArgumentsOk;
    AloneIs(s, c.id);
    HasSlotFound(s.slots, c.slot);
    SuccessorPlan(env, s, c);
    if !HasOp(s.setups, c.id) && Alone(s, c.id) && FindSlot(s.slots, c.slot) < |s.slots| {
      SuccessorValid(env, s, c);
      UnknownRow(s, c.id);
    }
  }

  lemma SlotRowsEnded(s: Settings, slot: string)
    requires SlotIdsDistinct(s.reconnects)
    ensures var j := FindBySlot(s.reconnects, slot);
      (forall op :: op in Rows(s) && op.slot == slot ==> AllowsSuccessor(op)) <==>
        && !(exists i :: 0 <= i < |s.setups| && s.setups[i].slot == slot && !AllowsSuccessor(s.setups[i]))
        && (j < |s.reconnects| ==> AllowsSuccessor(s.reconnects[j]))
  {
    hide AllowsSuccessor;
    var j := FindBySlot(s.reconnects, slot);
    if forall op :: op in Rows(s) && op.slot == slot ==> AllowsSuccessor(op) {
      forall i | 0 <= i < |s.setups| && s.setups[i].slot == slot ensures AllowsSuccessor(s.setups[i]) {
        assert s.setups[i] in Rows(s);
      }
      if j < |s.reconnects| { assert s.reconnects[j] in Rows(s); }
    }
    if !(exists i :: 0 <= i < |s.setups| && s.setups[i].slot == slot && !AllowsSuccessor(s.setups[i]))
       && (j < |s.reconnects| ==> AllowsSuccessor(s.reconnects[j])) {
      forall op | op in Rows(s) && op.slot == slot ensures AllowsSuccessor(op) {
        if op in s.setups {
          var i :| 0 <= i < |s.setups| && s.setups[i] == op;
        } else {
          var i :| 0 <= i < |s.reconnects| && s.reconnects[i] == op;
          assert i == j;
        }
      }
    }
  }

  lemma SuccessorPlan(env: Env, s: Settings, c: Call)
    requires c.Reconnect? && Valid(env, s) && FilterShape(s.filter) && !HasOp(s.reconnects, c.id)
    ensures ReconnectPlan(env, s, c).reply.Done? <==>
      && !HasOp(s.setups, c.id) && !IsRetired(env, s.filter, c.id) && !OtherActive(s, c.id)
      && FindSlot(s.slots, c.slot) < |s.slots|
      && (forall op :: op in Rows(s) && op.slot == c.slot ==> AllowsSuccessor(op))
      && Valid(env, Successor(env, s, c))
  {
    hide SlotsOk, SetupsOk, RowsOk, IsRetired, Superseded, ReconnectRow, OtherActive, OpShape, ReconnectMatches;
    SlotRowsEnded(s, c.slot);
  }

  /** A known reconnect is accepted if and only if it asks for the same and, when it was stopped, nothing else is under
      way. */
  lemma KnownReconnectAccepted(env: Env, s: Settings, c: Call, i: nat)
    requires c.Reconnect? && Valid(env, s) && FilterShape(s.filter) && i < |s.reconnects| && s.reconnects[i].id == c.id
    ensures ReconnectPlan(env, s, c).reply.Done? <==>
      RequestMatches(s, c, i) && (s.reconnects[i].state.SetupStopped? ==> Alone(s, c.id))
  {
    hide SlotsOk, SetupsOk, IsRetired, FirstReconnectPlan, OpShape;
    AloneIs(s, c.id);
    IssuedIsUnique(env, s, i);
    KnownReconnectRow(env, s, i);
    assert ReconnectMatches(s.slots, s.reconnects[i]);
  }

  lemma KnownReconnectRow(env: Env, s: Settings, i: nat)
    requires Valid(env, s) && i < |s.reconnects|
    ensures !HasOp(s.setups, s.reconnects[i].id)
  {
    hide SlotsOk, SetupsOk, ReconnectsOk;
    forall j | 0 <= j < |s.setups| ensures s.setups[j].id != s.reconnects[i].id {
      assert Rows(s)[j] == s.setups[j] && Rows(s)[|s.setups| + i] == s.reconnects[i];
    }
  }

  /** On an intact store an unknown id is accepted if and only if the request fits, and a known one if and only if it
      asks for the same on its registered slot and can be resumed. */
  ghost predicate ReconnectAnswered(env: Env, d: Disk, c: Call, reply: Reply)
    requires c.Reconnect?
  {
    Good(env, d) ==>
      var s, ok := View(env, d), ArgumentsOk(env, c) && c.schema == SETTINGS_SCHEMA;
      && FilterShape(s.filter)
      && (!HasOp(s.reconnects, c.id) ==> (reply.Done? <==> ok && SuccessorFits(env, s, c)))
      && (forall i :: 0 <= i < |s.reconnects| && s.reconnects[i].id == c.id ==>
            (reply.Done? <==>
              ok && RequestMatches(s, c, i) && (s.reconnects[i].state.SetupStopped? ==> Alone(s, c.id))))
  }

  lemma ReconnectAnswers(env: Env, d: Disk, c: Call)
    requires c.Reconnect?
    ensures ReconnectAnswered(env, d, c, PlanOf(env, d, c).reply)
  {
    hide Valid, Load, View, Sound, ArgumentsOk, ReconnectPlan, SuccessorFits, RequestMatches, IsRetired, PlanOf, Alone;
    if Good(env, d) {
      var s := View(env, d);
      GoodIsValid(env, d);
      ReconnectPlanOf(env, d, c);
      if ArgumentsOk(env, c) && c.schema == SETTINGS_SCHEMA {
        if !HasOp(s.reconnects, c.id) { SuccessorAccepted(env, s, c); }
        forall i | 0 <= i < |s.reconnects| && s.reconnects[i].id == c.id
          ensures ReconnectPlan(env, s, c).reply.Done? <==>
            RequestMatches(s, c, i) && (s.reconnects[i].state.SetupStopped? ==> Alone(s, c.id))
        {
          KnownReconnectAccepted(env, s, c, i);
        }
      }
    }
  }

  // ---- transition

  /** No two of the values that are present differ. */
  predicate Compatible(a: Option<string>, b: Option<string>, c: Option<string>) {
    && (a.Some? && b.Some? ==> a == b) && (a.Some? && c.Some? ==> a == c) && (b.Some? && c.Some? ==> b == c)
  }

  /** What a transition of the row at `i` needs: a stopped row takes nothing; any other row takes values that agree, and
      a state that leaves one operation under way and an unregistered setup unregistered. */
  predicate TransitionFits(s: Settings, c: Call, i: nat)
    requires c.Transition? && i < |Rows(s)|
  {
    var op := Rows(s)[i];
    op.state.SetupStopped? ||
      (&& Compatible(op.expectedAccount, c.expectedAccount, c.account)
       && Compatible(op.expectedOrganization, c.expectedOrganization, c.organization)
       && (c.state !in {Idle, Complete, SetupStopped, SetupFailed, IdentityMismatch} ==> Alone(s, c.id))
       && (HasSlot(s.slots, op.slot) || c.state == Preparing || c.state == SetupStopped))
  }

  lemma CompatibleIs(op: Operation, c: Call)
    requires c.Transition? && !op.state.SetupStopped?
    ensures Mutated(op, c).Some? <==>
      && Compatible(op.expectedAccount, c.expectedAccount, c.account)
      && Compatible(op.expectedOrganization, c.expectedOrganization, c.organization)
  {
  }

  lemma MutatedShape(env: Env, op: Operation, c: Call)
    requires c.Transition? && OpShape(op) && ArgumentsOk(env, c) && Mutated(op, c).Some?
    ensures OpShape(Mutated(op, c).value)
    ensures var row := Mutated(op, c).value;
      && row.slot == op.slot && row.dir == op.dir && row.id == op.id && row.kind == op.kind
      && row.requestedAccount == op.requestedAccount && (op.expectedAccount.Some? ==> row.expectedAccount.Some?)
      && row.state == (if op.state.SetupStopped? then op.state else c.state)
  {
    hide ValidHash, ValidDir, ValidSlotId, ValidOpId;
  }

  lemma ReplacedSetups(slots: seq<Slot>, ops: seq<Operation>, i: nat, row: Operation)
    requires SetupsOk(slots, ops) && i < |ops| && OpShape(row)
    requires row.slot == ops[i].slot && row.dir == ops[i].dir && row.kind == ops[i].kind
    ensures SetupsOk(slots, ops[i := row]) <==>
      HasSlot(slots, row.slot) || row.state == Preparing || row.state == SetupStopped
  {
    hide OpShape;
    var r := ops[i := row];
    HasSlotFound(slots, row.slot);
    UnregisteredSame(slots, ops, r);
    assert SetupMatches(slots, ops[i]);
    assert r[i] == row && forall j :: 0 <= j < |r| && j != i ==> r[j] == ops[j];
    assert SetupMatches(slots, row) <==>
      HasSlot(slots, row.slot) || row.state == Preparing || row.state == SetupStopped;
  }

  lemma ReplacedReconnects(slots: seq<Slot>, ops: seq<Operation>, i: nat, row: Operation)
    requires ReconnectsOk(slots, ops) && i < |ops| && OpShape(row)
    requires row.slot == ops[i].slot && row.dir == ops[i].dir && row.kind == ops[i].kind
    requires row.requestedAccount == ops[i].requestedAccount && row.expectedAccount.Some?
    ensures ReconnectsOk(slots, ops[i := row]) <==> HasSlot(slots, row.slot) || row.state == SetupStopped
  {
    hide OpShape;
    var r := ops[i := row];
    HasSlotFound(slots, row.slot);
    assert ReconnectMatches(slots, ops[i]);
    assert r[i] == row && forall j :: 0 <= j < |r| && j != i ==> r[j] == ops[j];
    assert ReconnectMatches(slots, row) <==> HasSlot(slots, row.slot) || row.state == SetupStopped;
    forall a, b | 0 <= a < b < |r| ensures r[a].slot != r[b].slot { assert ops[a].slot != ops[b].slot; }
  }

  lemma ReplacedRows(s: Settings, i: nat, row: Operation)
    requires RowsOk(Rows(s)) && i < |Rows(s)| && row.id == Rows(s)[i].id
    ensures RowsOk(Rows(s)[i := row]) <==> (UnderWay(row) ==> Alone(s, row.id))
  {
    var a, b := Rows(s), Rows(s)[i := row];
    assert b[i] == row && forall j :: 0 <= j < |b| && j != i ==> b[j] == a[j];
    ActiveIs(row);
    forall j | 0 <= j < |a| ensures Active(a[j]) <==> UnderWay(a[j]) { ActiveIs(a[j]); }
    if RowsOk(b) && UnderWay(row) {
      forall op | op in a && op.id != row.id ensures !UnderWay(op) {
        var j :| 0 <= j < |a| && a[j] == op;
        assert b[j] == op;
      }
    }
    if UnderWay(row) ==> Alone(s, row.id) {
      forall j, k | 0 <= j < k < |b| ensures b[j].id != b[k].id && !(Active(b[j]) && Active(b[k])) {
        assert a[j].id != a[k].id && a[j] in a && a[k] in a;
      }
    }
  }

  /** A proof the row makes keeps the slots in shape. */
  lemma ProofSlots(env: Env, s: Settings, op: Operation)
    requires SlotsOk(env, s.slots)
    ensures var t := WithProof(s, op);
      && SlotsOk(env, t.slots) && |t.slots| == |s.slots|
      && (forall k :: 0 <= k < |s.slots| ==> t.slots[k].id == s.slots[k].id)
      && (forall k :: 0 <= k < |s.slots| ==> t.slots[k].dir == s.slots[k].dir)
      && (forall k :: 0 <= k < |s.slots| ==> t.slots[k].ownership == s.slots[k].ownership)
  {
    hide ValidHash, ValidDir, ValidSlotId;
    var k := FindExact(s.slots, op.slot, op.dir);
    if CompletedBinding(op).Some? && k < |s.slots| {
      ApprovedSlotsOk(env, s.slots, k, Approve(s.slots[k], CompletedBinding(op).value, SourceOf(op.kind)));
    }
  }

  lemma TransitionedValid(env: Env, s: Settings, i: nat, row: Operation, filter: seq<bv64>)
    requires Valid(env, s) && i < |Rows(s)| && FilterShape(filter) && OpShape(row)
    requires var op := Rows(s)[i];
      && row.slot == op.slot && row.dir == op.dir && row.id == op.id && row.kind == op.kind
      && row.requestedAccount == op.requestedAccount && (op.expectedAccount.Some? ==> row.expectedAccount.Some?)
    ensures Valid(env, WithProof(WithRow(s, i, row), row).(filter := filter)) <==>
      && (UnderWay(row) ==> Alone(s, row.id))
      && (HasSlot(s.slots, row.slot) || row.state == SetupStopped || (i < |s.setups| && row.state == Preparing))
  {
    hide SlotsOk, SetupsOk, ReconnectsOk, RowsOk, OpShape, WithProof, UnderWay, Alone, WithRow;
    var u := WithRow(s, i, row);
    var t := WithProof(u, row);
    RowReplaced(s, i, row);
    RowInPlace(s, i, row);
    ProofSlots(env, u, row);
    ProofRows(u, row);
    ProofRest(u, row);
    ReplacedRows(s, i, row);
    ReplacedMatch(s, i, row);
    RowsEither(s.slots, t.slots, u.setups, u.reconnects);
    assert Rows(t.(filter := filter)) == Rows(u);
  }

  lemma RowInPlace(s: Settings, i: nat, row: Operation)
    requires i < |Rows(s)|
    ensures Rows(WithRow(s, i, row)) == Rows(s)[i := row] && WithRow(s, i, row).schema == s.schema
  {
  }

  lemma ReplacedMatch(s: Settings, i: nat, row: Operation)
    requires SetupsOk(s.slots, s.setups) && ReconnectsOk(s.slots, s.reconnects) && i < |Rows(s)| && OpShape(row)
    requires var op := Rows(s)[i];
      && row.slot == op.slot && row.dir == op.dir && row.id == op.id && row.kind == op.kind
      && row.requestedAccount == op.requestedAccount && (op.expectedAccount.Some? ==> row.expectedAccount.Some?)
    ensures var u := WithRow(s, i, row);
      SetupsOk(s.slots, u.setups) && ReconnectsOk(s.slots, u.reconnects) <==>
        HasSlot(s.slots, row.slot) || row.state == SetupStopped || (i < |s.setups| && row.state == Preparing)
  {
    hide OpShape;
    if i < |s.setups| {
      hide SetupsOk, ReconnectsOk;
      ReplacedSetups(s.slots, s.setups, i, row);
    } else {
      assert ReconnectMatches(s.slots, s.reconnects[i - |s.setups|]);
      hide SetupsOk, ReconnectsOk;
      ReplacedReconnects(s.slots, s.reconnects, i - |s.setups|, row);
    }
  }

  lemma RowsEither(a: seq<Slot>, b: seq<Slot>, setups: seq<Operation>, reconnects: seq<Operation>)
    requires |a| == |b|
    requires forall i :: 0 <= i < |a| ==> a[i].id == b[i].id && a[i].dir == b[i].dir && a[i].ownership == b[i].ownership
    ensures SetupsOk(a, setups) && ReconnectsOk(a, reconnects) <==> SetupsOk(b, setups) && ReconnectsOk(b, reconnects)
  {
    hide SetupsOk, ReconnectsOk;
    if SetupsOk(a, setups) && ReconnectsOk(a, reconnects) { ApprovalKeepsRows(a, b, setups, reconnects); }
    if SetupsOk(b, setups) && ReconnectsOk(b, reconnects) { ApprovalKeepsRows(b, a, setups, reconnects); }
  }

  lemma TransitionAccepted(env: Env, s: Settings, c: Call, i: nat)
    requires c.Transition? && Valid(env, s) && FilterShape(s.filter) && ArgumentsOk(env, c)
    requires i == Find(Rows(s), c.id) < |Rows(s)|
    ensures TransitionPlan(env, s, c).reply.Done? <==> TransitionFits(s, c, i)
  {
    hide Valid, Mutated, WithProof, WithRow, Retire, Finishes, ArgumentsOk, OpShape, Alone, HasSlot, Compatible;
    var op := Rows(s)[i];
    if !op.state.SetupStopped? { CompatibleIs(op, c); } else { StoppedMutates(op, c); }
    if Mutated(op, c).Some? {
      var row := Mutated(op, c).value;
      RowShape(env, s, i);
      MutatedShape(env, op, c);
      var filter := if Finishes(op, row) then Retire(env, s.filter, c.id) else s.filter;
      RetireShape(env, s.filter, c.id);
      TransitionedValid(env, s, i, row, filter);
    }
  }

  lemma StoppedMutates(op: Operation, c: Call)
    requires c.Transition? && op.state.SetupStopped?
    ensures Mutated(op, c) == Some(op)
  {
  }

  /** A row on an unregistered slot is a stopped one or a setup still preparing. */
  lemma RowShape(env: Env, s: Settings, i: nat)
    requires Valid(env, s) && i < |Rows(s)|
    ensures OpShape(Rows(s)[i])
    ensures !HasSlot(s.slots, Rows(s)[i].slot) && i >= |s.setups| ==> Rows(s)[i].state.SetupStopped?
  {
    hide SlotsOk, RowsOk, OpShape;
    HasSlotFound(s.slots, Rows(s)[i].slot);
    if i < |s.setups| {
      assert OpShape(s.setups[i]);
    } else {
      assert OpShape(s.reconnects[i - |s.setups|]) && ReconnectMatches(s.slots, s.reconnects[i - |s.setups|]);
    }
  }

  /** On an intact store a transition is accepted if and only if its arguments are good, its id is known and it fits. */
  ghost predicate TransitionAnswered(env: Env, d: Disk, c: Call, reply: Reply)
    requires c.Transition?
  {
    Good(env, d) ==>
      var s, ok := View(env, d), ArgumentsOk(env, c) && c.schema == SETTINGS_SCHEMA;
      && (reply.Done? ==> ok && HasOp(Rows(s), c.id))
      && (forall i :: 0 <= i < |Rows(s)| && Rows(s)[i].id == c.id ==> (reply.Done? <==> ok && TransitionFits(s, c, i)))
  }

  lemma TransitionAnswers(env: Env, d: Disk, c: Call)
    requires c.Transition?
    ensures TransitionAnswered(env, d, c, PlanOf(env, d, c).reply)
  {
    hide Load, View, Sound, ArgumentsOk, TransitionPlan, TransitionFits, PlanOf, SlotsOk, SetupsOk, ReconnectsOk;
    if Good(env, d) {
      var s := View(env, d);
      GoodIsValid(env, d);
      TransitionPlanOf(env, d, c);
      UnknownTransition(env, s, c);
      var n := Find(Rows(s), c.id);
      forall i | 0 <= i < |Rows(s)| && Rows(s)[i].id == c.id ensures i == n {
        assert Rows(s)[n].id == c.id;
      }
      if n < |Rows(s)| && ArgumentsOk(env, c) { TransitionAccepted(env, s, c, n); }
    }
  }

  lemma UnknownTransition(env: Env, s: Settings, c: Call)
    requires c.Transition? && FilterShape(s.filter)
    ensures TransitionPlan(env, s, c).reply.Done? ==> HasOp(Rows(s), c.id)
  {
    hide Valid, Mutated, WithProof, WithRow, Retire, Finishes;
  }

  // ---- adoption

  /** On an intact store an identity is adopted if and only if its id is an active reconnect whose slot holds an
      observed approval and which was not requested for another pair. */
  ghost predicate AdoptAnswered(env: Env, d: Disk, c: Call, reply: Reply)
    requires c.Adopt?
  {
    Good(env, d) ==>
      var s, ok := View(env, d), ArgumentsOk(env, c) && c.schema == SETTINGS_SCHEMA;
      && (reply == Adopted(true) ==> HasOp(s.reconnects, c.id))
      && (forall i :: 0 <= i < |s.reconnects| && s.reconnects[i].id == c.id ==>
            (reply == Adopted(true) <==>
              && ok && UnderWay(s.reconnects[i]) && ObservedSlot(s, s.reconnects[i].slot, s.reconnects[i].dir)
              && !OtherPair(s.reconnects[i], c)))
  }

  function AdoptedRow(op: Operation, c: Call): Operation
    requires c.Adopt?
  {
    op.(expectedAccount := Some(c.proven.account), expectedOrganization := Some(c.proven.organization),
        account := Some(c.proven.account), organization := Some(c.proven.organization))
  }

  lemma AdoptedShape(env: Env, op: Operation, c: Call)
    requires c.Adopt? && OpShape(op) && ArgumentsOk(env, c) && op.id == c.id && !OtherPair(op, c)
    ensures OpShape(AdoptedRow(op, c))
  {
    hide ValidHash, ValidDir, ValidSlotId, ValidOpId;
  }

  lemma AdoptedValid(env: Env, s: Settings, c: Call, i: nat)
    requires c.Adopt? && Valid(env, s) && ArgumentsOk(env, c) && i < |s.reconnects| && s.reconnects[i].id == c.id
    requires !OtherPair(s.reconnects[i], c)
    ensures Valid(env, s.(reconnects := s.reconnects[i := AdoptedRow(s.reconnects[i], c)]))
  {
    hide SlotsOk, SetupsOk, RowsOk, OpShape, ArgumentsOk, OtherPair;
    var op, row := s.reconnects[i], AdoptedRow(s.reconnects[i], c);
    var n := |s.setups| + i;
    assert OpShape(op) && ReconnectMatches(s.slots, op) && Rows(s)[n] == op;
    AdoptedShape(env, op, c);
    HasSlotFound(s.slots, op.slot);
    ReplacedReconnects(s.slots, s.reconnects, i, row);
    var t := s.(reconnects := s.reconnects[i := row]);
    assert Rows(t) == Rows(s)[n := row];
    SameActivity(Rows(s), n, row);
  }

  lemma SameActivity(ops: seq<Operation>, n: nat, row: Operation)
    requires RowsOk(ops) && n < |ops| && row.id == ops[n].id && row.state == ops[n].state
    ensures RowsOk(ops[n := row])
  {
    var r := ops[n := row];
    forall i, j | 0 <= i < j < |r| ensures r[i].id != r[j].id && !(Active(r[i]) && Active(r[j])) {
      assert ops[i].id != ops[j].id && !(Active(ops[i]) && Active(ops[j]));
    }
  }

  lemma ObservedIs(env: Env, s: Settings, id: string, dir: string)
    requires SlotsOk(env, s.slots)
    ensures var k := FindExact(s.slots, id, dir);
      ObservedSlot(s, id, dir) <==>
        k < |s.slots| && ApprovedBinding(s.slots[k]).Some? && ApprovalSourceOf(s.slots[k]).Observation?
  {
    hide SlotsOk;
    forall n | 0 <= n < |s.slots| && s.slots[n].id == id && s.slots[n].dir == dir
      ensures FindExact(s.slots, id, dir) == n { ExactOnly(env, s.slots, id, dir, n); }
  }

  lemma AdoptAccepted(env: Env, s: Settings, c: Call, i: nat)
    requires c.Adopt? && Valid(env, s) && ArgumentsOk(env, c) && i < |s.reconnects| && s.reconnects[i].id == c.id
    ensures AdoptPlan(env, s, c).reply == Adopted(true) <==>
      && UnderWay(s.reconnects[i]) && ObservedSlot(s, s.reconnects[i].slot, s.reconnects[i].dir)
      && !OtherPair(s.reconnects[i], c)
  {
    hide SetupsOk, SlotsOk, ReconnectsOk, RowsOk, ArgumentsOk, OtherPair, ObservedSlot, UnderWay, ApprovedBinding,
      ApprovalSourceOf, Active;
    var op := s.reconnects[i];
    IssuedIsUnique(env, s, i);
    ActiveIs(op);
    ObservedIs(env, s, op.slot, op.dir);
    if OtherPair(op, c) {
      AdoptRefused(env, s, c, i);
      AdoptSettles(env, s, c);
    } else {
      AdoptedValid(env, s, c, i);
    }
  }

  lemma AdoptKnown(env: Env, s: Settings, c: Call)
    requires c.Adopt?
    ensures AdoptPlan(env, s, c).reply == Adopted(true) ==> HasOp(s.reconnects, c.id)
  {
    hide Valid;
  }

  lemma AdoptPlanIs(env: Env, d: Disk, c: Call)
    requires c.Adopt? && Good(env, d)
    ensures var ok := ArgumentsOk(env, c) && c.schema == SETTINGS_SCHEMA;
      PlanOf(env, d, c) == if ok then AdoptPlan(env, View(env, d), c) else Refuse(Invalid)
  {
    hide Valid, AdoptPlan, ArgumentsOk;
  }

  lemma AdoptAnswers(env: Env, d: Disk, c: Call)
    requires c.Adopt?
    ensures AdoptAnswered(env, d, c, PlanOf(env, d, c).reply)
  {
    hide Valid, Load, View, Sound, ArgumentsOk, AdoptPlan, OtherPair, ObservedSlot, UnderWay, PlanOf;
    if Good(env, d) {
      var s := View(env, d);
      GoodIsValid(env, d);
      AdoptPlanIs(env, d, c);
      AdoptKnown(env, s, c);
      forall i | 0 <= i < |s.reconnects| && s.reconnects[i].id == c.id && ArgumentsOk(env, c)
        ensures AdoptPlan(env, s, c).reply == Adopted(true) <==>
          && UnderWay(s.reconnects[i]) && ObservedSlot(s, s.reconnects[i].slot, s.reconnects[i].dir)
          && !OtherPair(s.reconnects[i], c)
      {
        AdoptAccepted(env, s, c, i);
      }
    }
  }

  // ---- admission

  /** What an admission of a slot that is not registered needs, besides good arguments: its directory free, no row on it
      with another one, and room unless a setup reserves it already. */
  predicate AdmissionFits(env: Env, s: Settings, slot: string, dir: string) {
    && DirFree(env, s, dir) && SameDirRows(s, slot, dir)
    && (RoomLeft(s) || exists op :: op in s.setups && op.slot == slot)
  }

  /** On an intact store, with good arguments and an existing directory, a registered slot is admitted if and only if it
      is managed there, and any other if and only if the request fits. */
  ghost predicate AdmissionAnswered(env: Env, d: Disk, c: Call, reply: Reply)
    requires c.Admit?
  {
    Good(env, d) ==>
      var s, ok := View(env, d), ArgumentsOk(env, c) && c.schema == SETTINGS_SCHEMA && c.dir in d.dirs;
      if HasSlot(s.slots, c.slot)
      then reply.Done? <==> ok && ManagedSlot(s.slots, c.slot, c.dir)
      else reply.Done? <==> ok && AdmissionFits(env, s, c.slot, c.dir)
  }

  /** A slot joins the registered ones: its rows must have its directory, and the places they reserve are its own. */
  lemma JoinedSetups(slots: seq<Slot>, x: Slot, setups: seq<Operation>)
    requires SetupsOk(slots, setups) && FindSlot(slots, x.id) == |slots| && x.ownership.Managed?
    ensures SetupsOk(slots + [x], setups) <==>
      && (forall op :: op in setups && op.slot == x.id ==> op.dir == x.dir)
      && (|slots| + Unregistered(slots, setups) < MAX_REGISTERED || exists op :: op in setups && op.slot == x.id)
  {
    hide OpShape;
    var joined := slots + [x];
    AppendFind(slots, x);
    forall j | 0 <= j < |setups|
      ensures SetupMatches(joined, setups[j]) <==> (setups[j].slot == x.id ==> setups[j].dir == x.dir)
    {
      assert SetupMatches(slots, setups[j]);
      if setups[j].slot != x.id { AppendFindOther(slots, x, setups[j].slot); }
    }
    JoinedCount(slots, x, setups);
    AllMatch(joined, x, setups);
  }

  lemma AllMatch(joined: seq<Slot>, x: Slot, setups: seq<Operation>)
    requires forall j :: 0 <= j < |setups| ==>
      (SetupMatches(joined, setups[j]) <==> (setups[j].slot == x.id ==> setups[j].dir == x.dir))
    ensures (forall j :: 0 <= j < |setups| ==> SetupMatches(joined, setups[j])) <==>
      forall op :: op in setups && op.slot == x.id ==> op.dir == x.dir
  {
    hide SetupMatches;
    if forall j :: 0 <= j < |setups| ==> SetupMatches(joined, setups[j]) {
      forall op | op in setups && op.slot == x.id ensures op.dir == x.dir {
        var j :| 0 <= j < |setups| && setups[j] == op;
      }
    }
    if forall op :: op in setups && op.slot == x.id ==> op.dir == x.dir {
      forall j | 0 <= j < |setups| ensures SetupMatches(joined, setups[j]) { assert setups[j] in setups; }
    }
  }

  lemma JoinedCount(slots: seq<Slot>, x: Slot, setups: seq<Operation>)
    requires FindSlot(slots, x.id) == |slots|
    ensures if exists op :: op in setups && op.slot == x.id
            then Unregistered(slots + [x], setups) < Unregistered(slots, setups)
            else Unregistered(slots + [x], setups) == Unregistered(slots, setups)
  {
    if op :| op in setups && op.slot == x.id {
      var i :| 0 <= i < |setups| && setups[i] == op;
      UnregisteredDrops(slots, x, setups, i);
    } else {
      AppendUnregistered(slots, x, setups);
    }
  }

  lemma NewAdmission(env: Env, s: Settings, c: Call)
    requires c.Admit? && Valid(env, s) && ArgumentsOk(env, c) && !HasSlot(s.slots, c.slot)
    ensures AdmitPlan(env, s, c.slot, c.dir, c.binding).reply.Done? <==> AdmissionFits(env, s, c.slot, c.dir)
  {
    hide Valid, ValidDir, ValidSlotId, RoomLeft, SameDirRows;
    var k := FindEither(s.slots, c.slot, c.dir);
    AdmitIs(env, s, c);
    if k == |s.slots| {
      NewSlotValid(env, s, c);
    } else {
      assert s.slots[k].dir == c.dir;
    }
  }

  lemma NewSlotValid(env: Env, s: Settings, c: Call)
    requires c.Admit? && Valid(env, s) && ArgumentsOk(env, c) && !HasSlot(s.slots, c.slot)
    requires FindEither(s.slots, c.slot, c.dir) == |s.slots|
    ensures Valid(env, AdmittedAs(s, c)) <==> AdmissionFits(env, s, c.slot, c.dir)
  {
    hide SlotsOk, SetupsOk, ReconnectsOk, RowsOk, SameDirRows, ArgumentsOk, SlotShape;
    var t := AdmittedAs(s, c);
    var x := t.slots[|s.slots|];
    assert t.slots == s.slots + [x] && x.id == c.slot && x.dir == c.dir && x.ownership.Managed?;
    HasSlotFound(s.slots, c.slot);
    AdmittedShape(env, s, c);
    AppendSlotsOk(env, s.slots, x);
    JoinedSetups(s.slots, x, s.setups);
    FinalizedReconnects(s, x);
    SplitRows(s, c.slot, c.dir);
    assert Rows(t) == Rows(s);
    RoomForSlot(env, s, x);
    forall i | 0 <= i < |s.slots| ensures s.slots[i].id != c.slot { assert HasSlot(s.slots, s.slots[i].id); }
  }

  lemma AdmittedShape(env: Env, s: Settings, c: Call)
    requires c.Admit? && ArgumentsOk(env, c) && FindEither(s.slots, c.slot, c.dir) == |s.slots|
    ensures SlotShape(AdmittedAs(s, c).slots[|s.slots|])
  {
    hide ValidHash, ValidDir, ValidSlotId;
  }

  /** A reserved place is a free one. */
  lemma RoomForSlot(env: Env, s: Settings, x: Slot)
    requires SetupsOk(s.slots, s.setups) && FindSlot(s.slots, x.id) == |s.slots|
    ensures RoomLeft(s) || (exists op :: op in s.setups && op.slot == x.id) ==> |s.slots| < MAX_REGISTERED
  {
    JoinedCount(s.slots, x, s.setups);
  }

  lemma TakenAdmission(env: Env, s: Settings, c: Call)
    requires c.Admit? && Valid(env, s) && HasSlot(s.slots, c.slot) && !ManagedSlot(s.slots, c.slot, c.dir)
    ensures !AdmitPlan(env, s, c.slot, c.dir, c.binding).reply.Done?
  {
    hide Valid, AdmittedAs;
    AdmitIs(env, s, c);
    var k := FindEither(s.slots, c.slot, c.dir);
    var n :| 0 <= n < |s.slots| && s.slots[n].id == c.slot;
    assert k < |s.slots|;
  }

  lemma AdmissionAnswers(env: Env, d: Disk, c: Call)
    requires c.Admit?
    ensures AdmissionAnswered(env, d, c, PlanOf(env, d, c).reply)
  {
    hide Valid, Load, View, Sound, ArgumentsOk, AdmitPlan, ManagedSlot, HasSlot, AdmissionFits, PlanOf, AdmittedAs;
    if Good(env, d) {
      var s := View(env, d);
      GoodIsValid(env, d);
      AdmitPlanOf(env, d, c);
      if ArgumentsOk(env, c) {
        if !HasSlot(s.slots, c.slot) {
          NewAdmission(env, s, c);
        } else if ManagedSlot(s.slots, c.slot, c.dir) {
          AdmitArguments(env, c);
          ManagedFound(env, s, c);
          AdmitIs(env, s, c);
        } else {
          TakenAdmission(env, s, c);
        }
      }
    }
  }
}
