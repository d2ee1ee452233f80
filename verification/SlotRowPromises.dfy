/** What a caller of each operation on setup and reconnect rows may rely on. */
module SlotRowPromises {
  import opened Prelude
  import opened SlotModel
  import opened SlotFilter
  import opened SlotCalls
  import opened SlotEvolution
  import opened SlotRuns
  import opened SlotGuarantees
  import opened SlotApprovals
  import opened SlotPrepare
  import opened SlotPromises

  // ---- managed prepare

  /** The row asks for what the call asks for. */
  predicate Asked(identity: Identity, c: Call)
    requires c.Prepare?
  {
    identity.target == c.target && identity.account == c.account && identity.organization == c.organization
  }

  /** The id names one setup with one managed registration: the one it had before if it was known, otherwise a new one
      under the new slot id. */
  ghost predicate PreparedAs(env: Env, s: Settings, t: Settings, c: Call, identity: Identity, dirs: set<string>)
    requires c.Prepare?
  {
    && HasBound(t.setups, c.id, identity) && Asked(identity, c)
    && (!HasOp(s.setups, c.id) ==> identity.slot == c.token && identity.dir == IntentDir(env, c))
    && (forall was :: HasBound(s.setups, c.id, was) ==> was == identity)
    && OneRegistration(t, identity.slot, identity.dir) && identity.dir in dirs
  }

  /** The first prepare of an id appends one unapproved managed slot and the newest setup row, which waits for login,
      expects what was asked for and has observed nothing. */
  predicate RegisteredTo(env: Env, s: Settings, t: Settings, c: Call)
    requires c.Prepare?
  {
    && t.slots == s.slots + [Slot(c.token, Managed, IntentDir(env, c), None, None, None)]
    && |t.setups| == |s.setups| + 1 && t.setups[..|s.setups|] == s.setups
    && t == s.(slots := t.slots, setups := t.setups)
    && var row := t.setups[|s.setups|];
       && row == Operation(ConnectManaged, row.sequence, c.id, c.token, IntentDir(env, c), WaitingForUserLogin,
                           c.target, c.account, c.organization, c.account, c.organization, None, None)
       && Newest(s, row.sequence)
  }

  predicate PreparedTo(env: Env, s: Settings, t: Settings, c: Call)
    requires c.Prepare?
  {
    if HasOp(s.setups, c.id)
    then exists i: nat :: i < |s.setups| && s.setups[i].id == c.id && ReplayedTo(s, t, i)
    else RegisteredTo(env, s, t, c)
  }

  /** An accepted prepare leaves exactly one managed registration for its id, with the slot and directory the id had if
      it was known, and an existing directory, and changes nothing else; asking again changes nothing. A reconnect id
      and a retired unknown id are refused without a trace. */
  ghost predicate PrepareKept(env: Env, d: Disk, c: Call, reply: Reply, e: Disk)
    requires c.Prepare?
  {
    Good(env, d) ==>
      && Keeps(env, d, e)
      && var s, t := View(env, d), View(env, e);
      && (reply.Done? ==> PreparedTo(env, s, t, c))
      && (reply.Done? ==> exists identity :: PreparedAs(env, s, t, c, identity, e.dirs))
      && (reply.Done? ==> forall again :: SameRequest(c, again) ==>
            PlanOf(env, e, again).reply.Done? && Next(env, e, Ran(again)) == e)
      && (HasOp(s.reconnects, c.id) || (!HasOp(s.setups, c.id) && IsRetired(env, s.filter, c.id)) ==>
            reply.Refused? && e == d)
  }

  lemma {:induction false} LastOfSplit(s: Settings, a: seq<Effect>, b: seq<Effect>)
    ensures LastSaved(s, a + b) == LastSaved(LastSaved(s, a), b)
    decreases a
  {
    if a == [] {
      assert a + b == b;
    } else {
      assert (a + b)[1..] == a[1..] + b;
      LastOfSplit(if a[0].Save? then a[0].settings else s, a[1..], b);
    }
  }

  function IntentDir(env: Env, c: Call): string
    requires c.Prepare?
  {
    if c.reusable.Some? then c.reusable.value else env.root + "/" + c.token
  }

  /** A first prepare that succeeds settles the intent it journaled. */
  lemma FirstPrepareSettles(env: Env, s: Settings, c: Call)
    requires c.Prepare? && FirstPreparePlan(env, s, c).reply.Done?
    ensures var es := FirstPreparePlan(env, s, c).effects;
      var t := LastSaved(s, es);
      && Settled(t, |s.setups|) && Valid(env, t) && t.setups[|s.setups|].id == c.id
      && IdentityOf(t.setups[|s.setups|]) == Identity(c.token, IntentDir(env, c), c.target, c.account, c.organization)
      && t == Finalized(s.(setups := s.setups + [IntentRow(s, c, IntentDir(env, c))]), |s.setups|)
      && MakeDir(IntentDir(env, c)) in es && forall e :: e in es ==> !e.DropDir?
  {
    hide Valid, FinalizePlan, FirstPreparePlan, IntentRow, Finalized, Settled, IdentityOf;
    var made, u, i := Made(env, c), WithIntent(env, s, c), |s.setups|;
    var rest := FinalizePlan(env, u, i);
    FirstPrepareIs(env, s, c);
    FreshIntent(env, u, i);
    FinalizeSettles(env, u, i);
    FinalizeMakes(env, u, i);
    IntentIs(env, s, c);
    FinalizedRow(u, i);
    LastOfSplit(s, made + [Save(u)], rest.effects);
    LastOfSplit(s, made, [Save(u)]);
    LastOfChecked(env, LastSaved(s, made), u, Done);
  }

  function Made(env: Env, c: Call): seq<Effect>
    requires c.Prepare?
  {
    [MakeDir(env.root)] + (if c.reusable.Some? then [MakeDir(IntentDir(env, c))] else [])
  }

  function WithIntent(env: Env, s: Settings, c: Call): Settings
    requires c.Prepare?
  {
    s.(setups := s.setups + [IntentRow(s, c, IntentDir(env, c))])
  }

  lemma FirstPrepareIs(env: Env, s: Settings, c: Call)
    requires c.Prepare? && FirstPreparePlan(env, s, c).reply.Done?
    ensures var rest := FinalizePlan(env, WithIntent(env, s, c), |s.setups|);
      && rest.reply.Done?
      && FirstPreparePlan(env, s, c).effects == Made(env, c) + [Save(WithIntent(env, s, c))] + rest.effects
  {
    hide Valid, FinalizePlan, ValidDir, IntentRow;
  }

  lemma IntentIs(env: Env, s: Settings, c: Call)
    requires c.Prepare?
    ensures var row := WithIntent(env, s, c).setups[|s.setups|];
      && row.id == c.id && row.dir == IntentDir(env, c)
      && IdentityOf(row) == Identity(c.token, IntentDir(env, c), c.target, c.account, c.organization)
  {
  }

  lemma FinalizedRow(u: Settings, i: nat)
    requires i < |u.setups|
    ensures i < |Finalized(u, i).setups| && Finalized(u, i).setups[i].id == u.setups[i].id
  {
  }

  lemma FinalizeMakes(env: Env, s: Settings, i: nat)
    requires i < |s.setups|
    ensures forall e :: e in FinalizePlan(env, s, i).effects ==> !e.DropDir?
  {
    hide Valid;
  }

  /** Finalizing succeeds only for a slot that is not registered yet. */
  lemma FreshIntent(env: Env, u: Settings, i: nat)
    requires i < |u.setups| && FinalizePlan(env, u, i).reply.Done?
    ensures FindSlot(u.slots, u.setups[i].slot) == |u.slots|
  {
    hide SetupsOk, ReconnectsOk, RowsOk, SlotShape;
    var k, r := FindSlot(u.slots, u.setups[i].slot), Finalized(u, i).slots;
    assert SlotsDistinct(env, r);
    assert r[|u.slots|].id == u.setups[i].slot;
    assert forall j :: 0 <= j < |u.slots| ==> r[j] == u.slots[j] && r[j].id != r[|u.slots|].id;
  }

  lemma SettledOnDisk(env: Env, e: Disk, c: Call, i: nat, again: Call)
    requires Good(env, e) && c.Prepare? && ArgumentsOk(env, c) && c.schema == SETTINGS_SCHEMA && SameRequest(c, again)
    requires Settled(View(env, e), i) && View(env, e).setups[i].id == c.id
    requires Asked(IdentityOf(View(env, e).setups[i]), c) && View(env, e).setups[i].dir in e.dirs
    ensures PlanOf(env, e, again).reply.Done? && Next(env, e, Ran(again)) == e
  {
    hide Valid, RowsAgree, PreparePlan, ReplayPlan, Load, PlanOf, Settled;
    var t := View(env, e);
    SameArguments(env, c, again);
    PlanOfPrepare(env, e, again);
    SettledRow(t, i);
    SettledPrepare(env, t, again, i);
    SettledReplay(env, t, i);
    OneMakeDir(e, t.setups[i].dir);
  }

  lemma SettledRow(t: Settings, i: nat)
    requires Settled(t, i)
    ensures i < |t.setups|
  {
  }

  lemma SameArguments(env: Env, c: Call, again: Call)
    requires ArgumentsOk(env, c) && SameRequest(c, again)
    ensures ArgumentsOk(env, again)
  {
  }

  lemma SetupUnique(env: Env, s: Settings, i: nat, was: Identity)
    requires Valid(env, s) && i < |s.setups| && HasBound(s.setups, s.setups[i].id, was)
    ensures was == IdentityOf(s.setups[i])
  {
    hide SlotsOk, SetupsOk, ReconnectsOk;
    var n :| 0 <= n < |s.setups| && s.setups[n].id == s.setups[i].id && IdentityOf(s.setups[n]) == was;
    assert Rows(s)[n] == s.setups[n] && Rows(s)[i] == s.setups[i];
  }

  lemma FirstPrepareKept(env: Env, d: Disk, c: Call)
    requires Good(env, d) && c.Prepare? && PlanOf(env, d, c).reply.Done? && !HasOp(View(env, d).setups, c.id)
    ensures var s, e := View(env, d), ApplyAll(d, PlanOf(env, d, c).effects);
      && Good(env, e) && PreparedTo(env, s, View(env, e), c)
      && (exists identity :: PreparedAs(env, s, View(env, e), c, identity, e.dirs))
      && forall again :: SameRequest(c, again) ==> PlanOf(env, e, again).reply.Done? && Next(env, e, Ran(again)) == e
  {
    hide Valid, RowsAgree, PlanOf, Load, Settled, OneRegistration, FirstPreparePlan, Next, RegisteredTo, Finalized;
    var s, e := View(env, d), ApplyAll(d, PlanOf(env, d, c).effects);
    var es, i := PlanOf(env, d, c).effects, |s.setups|;
    GoodIsValid(env, d);
    AcceptedPrepare(env, d, c);
    PlanOfPrepare(env, d, c);
    UnknownIsFirst(env, s, c);
    FirstPrepareSettles(env, s, c);
    LoadedAfter(env, d, c);
    var t := View(env, e);
    FinalizedIntent(env, s, c);
    AppliedDir(d, es, IntentDir(env, c));
    SettledIsOne(env, t, i);
    SettledRow(t, i);
    var identity := IdentityOf(t.setups[i]);
    assert HasBound(t.setups, c.id, identity);
    assert PreparedAs(env, s, t, c, identity, e.dirs);
    forall again | SameRequest(c, again) ensures PlanOf(env, e, again).reply.Done? && Next(env, e, Ran(again)) == e {
      SettledOnDisk(env, e, c, i, again);
    }
  }

  lemma FinalizedIntent(env: Env, s: Settings, c: Call)
    requires c.Prepare?
    ensures RegisteredTo(env, s, Finalized(WithIntent(env, s, c), |s.setups|), c)
  {
    hide NextSequence;
    NextIsNewest(s);
    var t := Finalized(WithIntent(env, s, c), |s.setups|);
    assert t.setups[..|s.setups|] == s.setups;
  }

  lemma UnknownIsFirst(env: Env, s: Settings, c: Call)
    requires c.Prepare? && FilterShape(s.filter) && !HasOp(s.setups, c.id) && PreparePlan(env, s, c).reply.Done?
    ensures PreparePlan(env, s, c) == FirstPreparePlan(env, s, c)
  {
    hide FirstPreparePlan, ReplayPlan, IsRetired, OtherActive;
  }

  lemma KnownPrepareKept(env: Env, d: Disk, c: Call)
    requires Good(env, d) && c.Prepare? && PlanOf(env, d, c).reply.Done? && HasOp(View(env, d).setups, c.id)
    ensures var s, e := View(env, d), ApplyAll(d, PlanOf(env, d, c).effects);
      && Good(env, e) && PreparedTo(env, s, View(env, e), c)
      && (exists identity :: PreparedAs(env, s, View(env, e), c, identity, e.dirs))
      && forall again :: SameRequest(c, again) ==> PlanOf(env, e, again).reply.Done? && Next(env, e, Ran(again)) == e
  {
    hide SlotsOk, SetupsOk, ReconnectsOk, RowsOk, RowsAgree, PlanOf, Load, OneRegistration, PreparePlan, ReplayPlan,
      ReplayedTo;
    var s, e := View(env, d), ApplyAll(d, PlanOf(env, d, c).effects);
    var i := Find(s.setups, c.id);
    var identity := IdentityOf(s.setups[i]);
    assert HasBound(s.setups, c.id, identity);
    AcceptedPrepare(env, d, c);
    PlanOfPrepare(env, d, c);
    KnownAsked(env, s, c);
    KnownReplayed(env, s, c);
    LoadedAfter(env, d, c);
    assert SameRequest(c, c);
    ReplayOnDisk(env, d, c, c, identity);
    assert e == Next(env, d, Ran(c));
    StepKeepsIntent(env, d, Ran(c), c.id, identity);
    forall was | HasBound(s.setups, c.id, was) ensures was == identity { SetupUnique(env, s, i, was); }
    assert PreparedAs(env, s, View(env, e), c, identity, e.dirs);
    forall again | SameRequest(c, again) ensures PlanOf(env, e, again).reply.Done? && Next(env, e, Ran(again)) == e {
      ReplayOnDisk(env, d, c, again, identity);
    }
  }

  lemma KnownReplayed(env: Env, s: Settings, c: Call)
    requires c.Prepare? && FilterShape(s.filter) && Find(s.setups, c.id) < |s.setups|
    requires PreparePlan(env, s, c).reply.Done?
    ensures ReplayedTo(s, LastSaved(s, PreparePlan(env, s, c).effects), Find(s.setups, c.id))
  {
    hide FirstPreparePlan, ReplayPlan, IsRetired, OtherActive, ReplayedTo;
    ReplaySaves(env, s, Find(s.setups, c.id));
  }

  lemma KnownAsked(env: Env, s: Settings, c: Call)
    requires c.Prepare? && FilterShape(s.filter) && Find(s.setups, c.id) < |s.setups|
    requires PreparePlan(env, s, c).reply.Done?
    ensures Asked(IdentityOf(s.setups[Find(s.setups, c.id)]), c)
  {
    hide FirstPreparePlan, ReplayPlan, IsRetired, OtherActive;
  }

  lemma PreparePromise(env: Env, d: Disk, c: Call)
    requires c.Prepare?
    ensures var p := PlanOf(env, d, c); PrepareKept(env, d, c, p.reply, ApplyAll(d, p.effects))
  {
    hide SlotsOk, SetupsOk, ReconnectsOk, RowsOk, Keeps, Load, View, Sound, PreparedAs, PreparedTo, PreparePlan, PlanOf,
      Next;
    if Good(env, d) {
      CallKeeps(env, d, c);
      GoodIsValid(env, d);
      if PlanOf(env, d, c).reply.Done? {
        if HasOp(View(env, d).setups, c.id) { KnownPrepareKept(env, d, c); } else { FirstPrepareKept(env, d, c); }
      }
      PrepareRefuses(env, d, c);
    }
  }

  lemma PrepareRefuses(env: Env, d: Disk, c: Call)
    requires c.Prepare? && Good(env, d)
    ensures var s := View(env, d);
      HasOp(s.reconnects, c.id) || (!HasOp(s.setups, c.id) && IsRetired(env, s.filter, c.id)) ==>
        PlanOf(env, d, c).reply.Refused? && PlanOf(env, d, c).effects == []
  {
    hide Valid, RowsAgree, FirstPreparePlan, ReplayPlan, IsRetired, OtherActive;
  }

  // ---- reconnect

  function ReconnectIdentity(c: Call, dir: string): Identity
    requires c.Reconnect?
  {
    Identity(c.slot, dir, c.target, Some(c.hash), c.organization)
  }

  /** The id names this request on this slot; an earlier reconnect of the slot is gone and retired; nothing else
      changed. */
  ghost predicate ReconnectedAs(env: Env, s: Settings, t: Settings, c: Call)
    requires c.Reconnect? && FilterShape(t.filter)
  {
    var k := FindSlot(s.slots, c.slot);
    && k < |s.slots| && HasBound(t.reconnects, c.id, ReconnectIdentity(c, s.slots[k].dir))
    && t.slots == s.slots && t.setups == s.setups
    && (forall op :: op in s.reconnects && op.id != c.id && op.slot == c.slot ==>
          !HasOp(t.reconnects, op.id) && IsRetired(env, t.filter, op.id))
    && (forall op :: op in s.reconnects && op.slot != c.slot ==> op in t.reconnects)
    && (if HasOp(s.reconnects, c.id) then exists i: nat :: ResumedTo(s, t, c, i) else StartedAs(s, t, c))
    && t == s.(reconnects := t.reconnects, filter := t.filter)
    && GrowsBy(env, s.filter, t.filter,
               set op | op in s.reconnects && op.id != c.id && op.slot == c.slot :: op.id)
  }

  /** A known request only makes its stopped row wait for login again. */
  predicate ResumedTo(s: Settings, t: Settings, c: Call, i: nat)
    requires c.Reconnect?
  {
    && i < |s.reconnects| == |t.reconnects| && s.reconnects[i].id == c.id
    && (forall j :: 0 <= j < |s.reconnects| && j != i ==> t.reconnects[j] == s.reconnects[j])
    && t.reconnects[i] == (if s.reconnects[i].state == SetupStopped
                           then s.reconnects[i].(state := WaitingForUserLogin) else s.reconnects[i])
    && t.filter == s.filter
  }

  /** A new request adds the newest row, which waits for login with the requested pair as expected and observed; the
      filter changes only for an earlier reconnect of the slot. */
  predicate StartedAs(s: Settings, t: Settings, c: Call)
    requires c.Reconnect?
  {
    && t.reconnects != []
    && ((forall op :: op in s.reconnects ==> op.slot != c.slot) ==> t.filter == s.filter)
    && var n := |t.reconnects| - 1;
       var row := t.reconnects[n];
       && row == Operation(ReconnectRegistered, row.sequence, c.id, c.slot, row.dir, WaitingForUserLogin, c.target,
                           Some(c.hash), c.organization, Some(c.hash), c.organization, Some(c.hash), c.organization)
       && (forall op :: op in t.reconnects[..n] ==> op in s.reconnects)
       && Newest(t.(reconnects := t.reconnects[..n]), row.sequence)
  }

  /** An accepted reconnect binds its id to the request and retires the slot's earlier one; asking again changes
      nothing. A setup id and a retired unknown id are refused; a refusal leaves no trace. */
  ghost predicate ReconnectKept(env: Env, d: Disk, c: Call, reply: Reply, e: Disk)
    requires c.Reconnect?
  {
    Good(env, d) ==>
      && Keeps(env, d, e)
      && FilterShape(View(env, d).filter) && FilterShape(View(env, e).filter)
      && var s, t := View(env, d), View(env, e);
      && (HasOp(s.setups, c.id) || (!HasOp(s.reconnects, c.id) && IsRetired(env, s.filter, c.id)) ==> reply.Refused?)
      && (if reply.Done?
          then ReconnectedAs(env, s, t, c) && PlanOf(env, e, c) == Plan([], Done)
          else e == d)
  }

  lemma KnownReconnect(env: Env, s: Settings, c: Call)
    requires c.Reconnect? && Valid(env, s) && FilterShape(s.filter)
    requires HasOp(s.reconnects, c.id) && ReconnectPlan(env, s, c).reply.Done?
    ensures var t := LastSaved(s, ReconnectPlan(env, s, c).effects);
      && FilterShape(t.filter) && ReconnectedAs(env, s, t, c) && ReconnectPlan(env, t, c) == Plan([], Done)
  {
    hide Valid, ReconnectPlan, ReconnectedAs, IdentityOf;
    var i := Find(s.reconnects, c.id);
    var row := KnownReconnectIs(env, s, c);
    var t := s.(reconnects := s.reconnects[i := row]);
    ReconnectsDistinct(env, s);
    assert ResumedTo(s, t, c, i);
    ResumedAs(env, s, c, i, row);
    ResumedMatches(s, c, i, row);
    ResumedAgain(env, t, c, i);
  }

  /** An accepted known request matches its row, and only resumes it. */
  lemma KnownReconnectIs(env: Env, s: Settings, c: Call) returns (row: Operation)
    requires c.Reconnect? && FilterShape(s.filter) && HasOp(s.reconnects, c.id) && ReconnectPlan(env, s, c).reply.Done?
    ensures var i := Find(s.reconnects, c.id);
      && RequestMatches(s, c, i) && row == s.reconnects[i].(state := row.state) && !row.state.SetupStopped?
      && row.state == (if s.reconnects[i].state == SetupStopped then WaitingForUserLogin else s.reconnects[i].state)
      && !HasOp(s.setups, c.id)
      && LastSaved(s, ReconnectPlan(env, s, c).effects) == s.(reconnects := s.reconnects[i := row])
  {
    hide FirstReconnectPlan, IsRetired, OtherActive;
    var i := Find(s.reconnects, c.id);
    var op := s.reconnects[i];
    row := if op.state.SetupStopped? then op.(state := WaitingForUserLogin) else op;
    var t := s.(reconnects := s.reconnects[i := row]);
    assert op == row ==> s.reconnects[i := row] == s.reconnects;
    assert [Save(t)][1..] == [] && LastSaved(t, []) == t;
  }

  lemma ResumedMatches(s: Settings, c: Call, i: nat, row: Operation)
    requires c.Reconnect? && RequestMatches(s, c, i) && row == s.reconnects[i].(state := row.state)
    requires i == Find(s.reconnects, c.id)
    ensures var t := s.(reconnects := s.reconnects[i := row]); RequestMatches(t, c, i) && Find(t.reconnects, c.id) == i
  {
    var t := s.(reconnects := s.reconnects[i := row]);
    forall j | 0 <= j < i ensures t.reconnects[j].id != c.id { assert t.reconnects[j] == s.reconnects[j]; }
    assert t.reconnects[i].id == c.id;
  }

  /** The request matches the row at `i`, and its slot is registered with the row's directory. */
  predicate RequestMatches(s: Settings, c: Call, i: nat)
    requires c.Reconnect?
  {
    && i < |s.reconnects| && s.reconnects[i].id == c.id && s.reconnects[i].kind.ReconnectRegistered?
    && IdentityOf(s.reconnects[i]) == ReconnectIdentity(c, s.reconnects[i].dir)
    && var k := FindSlot(s.slots, c.slot); k < |s.slots| && s.slots[k].dir == s.reconnects[i].dir
  }

  lemma ResumedAs(env: Env, s: Settings, c: Call, i: nat, row: Operation)
    requires c.Reconnect? && FilterShape(s.filter) && RequestMatches(s, c, i) && SlotIdsDistinct(s.reconnects)
    requires row == s.reconnects[i].(state := row.state)
    requires ResumedTo(s, s.(reconnects := s.reconnects[i := row]), c, i)
    ensures ReconnectedAs(env, s, s.(reconnects := s.reconnects[i := row]), c)
  {
    hide IsRetired, GrowsBy;
    var t := s.(reconnects := s.reconnects[i := row]);
    assert t.reconnects[i] == row;
    assert HasBound(t.reconnects, c.id, IdentityOf(row));
    forall op | op in s.reconnects && op.slot == c.slot ensures op.id == c.id {
      var j :| 0 <= j < |s.reconnects| && s.reconnects[j] == op;
      assert j == i;
    }
    GrowsByNone(env, s.filter, set op | op in s.reconnects && op.id != c.id && op.slot == c.slot :: op.id);
    forall op | op in s.reconnects && op.slot != c.slot ensures op in t.reconnects {
      var j :| 0 <= j < |s.reconnects| && s.reconnects[j] == op;
      assert t.reconnects[j] == op;
    }
  }

  lemma ResumedAgain(env: Env, t: Settings, c: Call, i: nat)
    requires c.Reconnect? && FilterShape(t.filter) && RequestMatches(t, c, i) && Find(t.reconnects, c.id) == i
    requires !HasOp(t.setups, c.id) && !t.reconnects[i].state.SetupStopped?
    ensures ReconnectPlan(env, t, c) == Plan([], Done)
  {
    hide FirstReconnectPlan, IsRetired, OtherActive;
  }

  lemma SupersededFacts(env: Env, s: Settings, slot: string)
    requires FilterShape(s.filter) && SlotIdsDistinct(s.reconnects)
    ensures var t := Superseded(env, s, slot);
      && FilterShape(t.filter) && t.slots == s.slots && t.setups == s.setups
      && (forall op :: op in t.reconnects ==> op in s.reconnects)
      && (forall op :: op in s.reconnects && op.slot == slot ==>
            !HasOp(t.reconnects, op.id) && IsRetired(env, t.filter, op.id))
  {
    hide Filter, Retire, IsRetired;
    var j := FindBySlot(s.reconnects, slot);
    if j < |s.reconnects| {
      RetireCorrect(env, s.filter, s.reconnects[j].id);
      RetireShape(env, s.filter, s.reconnects[j].id);
      forall op | op in s.reconnects && op.slot == slot ensures op == s.reconnects[j] {
        var i :| 0 <= i < |s.reconnects| && s.reconnects[i] == op;
        assert i == j;
      }
      var r := Superseded(env, s, slot).reconnects;
      forall i | 0 <= i < |r| ensures r[i].id != s.reconnects[j].id { assert r[i] in r; }
    } else {
      forall op | op in s.reconnects ensures op.slot != slot {
        var i :| 0 <= i < |s.reconnects| && s.reconnects[i] == op;
      }
    }
  }

  lemma RetireShape(env: Env, filter: seq<bv64>, id: string)
    requires FilterShape(filter)
    ensures FilterShape(Retire(env, filter, id))
  {
  }

  lemma SupersededOthers(env: Env, s: Settings, slot: string)
    requires FilterShape(s.filter) && IdsDistinct(s.reconnects)
    ensures forall op :: op in s.reconnects && op.slot != slot ==> op in Superseded(env, s, slot).reconnects
  {
    hide Filter, Retire;
    var j := FindBySlot(s.reconnects, slot);
    if j < |s.reconnects| {
      forall op | op in s.reconnects && op.slot != slot ensures op.id != s.reconnects[j].id {
        var i :| 0 <= i < |s.reconnects| && s.reconnects[i] == op;
        assert i != j;
      }
    }
  }

  lemma ReconnectsDistinct(env: Env, s: Settings)
    requires Valid(env, s)
    ensures IdsDistinct(s.reconnects) && SlotIdsDistinct(s.reconnects)
  {
    hide SlotsOk, SetupsOk;
    forall i, j | 0 <= i < j < |s.reconnects| ensures s.reconnects[i].id != s.reconnects[j].id {
      assert Rows(s)[|s.setups| + i] == s.reconnects[i] && Rows(s)[|s.setups| + j] == s.reconnects[j];
    }
  }

  /** The new row after the rows that stay. */
  function Successor(env: Env, s: Settings, c: Call): Settings
    requires c.Reconnect? && FilterShape(s.filter) && FindSlot(s.slots, c.slot) < |s.slots|
  {
    var t := Superseded(env, s, c.slot);
    t.(reconnects := t.reconnects + [ReconnectRow(t, c, s.slots[FindSlot(s.slots, c.slot)].dir)])
  }

  lemma FirstReconnectIs(env: Env, s: Settings, c: Call)
    requires c.Reconnect? && FilterShape(s.filter) && !HasOp(s.reconnects, c.id) && ReconnectPlan(env, s, c).reply.Done?
    ensures !HasOp(s.setups, c.id) && FindSlot(s.slots, c.slot) < |s.slots|
    ensures ReconnectPlan(env, s, c) == SaveChecked(env, Successor(env, s, c), Done)
  {
    hide Valid, IsRetired, OtherActive, Superseded, ReconnectRow;
  }

  lemma SuccessorStarts(env: Env, s: Settings, c: Call)
    requires c.Reconnect? && Valid(env, s) && FilterShape(s.filter) && FindSlot(s.slots, c.slot) < |s.slots|
    ensures StartedAs(s, Successor(env, s, c), c)
    ensures var t := Successor(env, s, c); t == s.(reconnects := t.reconnects, filter := t.filter)
  {
    hide Valid, NextSequence, Filter, Retire;
    var u, t := Superseded(env, s, c.slot), Successor(env, s, c);
    var n := |u.reconnects|;
    assert t.reconnects[..n] == u.reconnects && t.(reconnects := u.reconnects) == u;
    NextIsNewest(u);
    var j := FindBySlot(s.reconnects, c.slot);
    assert j < |s.reconnects| ==> s.reconnects[j] in s.reconnects;
  }

  lemma SuccessorGrows(env: Env, s: Settings, c: Call)
    requires c.Reconnect? && FilterShape(s.filter) && FindSlot(s.slots, c.slot) < |s.slots|
    requires SlotIdsDistinct(s.reconnects) && !HasOp(s.reconnects, c.id)
    ensures GrowsBy(env, s.filter, Successor(env, s, c).filter,
                    set op | op in s.reconnects && op.id != c.id && op.slot == c.slot :: op.id)
  {
    hide Retire, GrowsBy, Filter, NextSequence;
    var ids := set op | op in s.reconnects && op.id != c.id && op.slot == c.slot :: op.id;
    var j := FindBySlot(s.reconnects, c.slot);
    if j < |s.reconnects| {
      var prior := s.reconnects[j];
      assert prior in s.reconnects;
      forall op | op in s.reconnects && op.slot == c.slot ensures op == prior {
        var i :| 0 <= i < |s.reconnects| && s.reconnects[i] == op;
      }
      assert ids == {prior.id};
      RetireGrows(env, s.filter, prior.id, ids);
    } else {
      forall op | op in s.reconnects ensures op.slot != c.slot {
        var i :| 0 <= i < |s.reconnects| && s.reconnects[i] == op;
      }
      assert ids == {};
      GrowsByNone(env, s.filter, ids);
    }
  }

  lemma SuccessorAs(env: Env, s: Settings, c: Call)
    requires c.Reconnect? && Valid(env, s) && FilterShape(s.filter) && FindSlot(s.slots, c.slot) < |s.slots|
    requires !HasOp(s.reconnects, c.id) && !HasOp(s.setups, c.id)
    ensures var t := Successor(env, s, c);
      && FilterShape(t.filter) && ReconnectedAs(env, s, t, c) && ReconnectPlan(env, t, c) == Plan([], Done)
  {
    hide SlotsOk, SetupsOk, ReconnectsOk, RowsOk, Superseded, IsRetired, OtherActive, NextSequence, StartedAs, GrowsBy;
    ReconnectsDistinct(env, s);
    SuccessorStarts(env, s, c);
    SuccessorGrows(env, s, c);
    SupersededFacts(env, s, c.slot);
    SupersededOthers(env, s, c.slot);
    var u, t := Superseded(env, s, c.slot), Successor(env, s, c);
    var n := |u.reconnects|;
    var row := t.reconnects[n];
    assert t.reconnects == u.reconnects + [row] && row.id == c.id;
    assert IdentityOf(row) == ReconnectIdentity(c, s.slots[FindSlot(s.slots, c.slot)].dir);
    assert HasBound(t.reconnects, c.id, IdentityOf(row));
    forall j | 0 <= j < n ensures t.reconnects[j].id != c.id {
      assert t.reconnects[j] in u.reconnects;
    }
    assert Find(t.reconnects, c.id) == n;
    forall op | op in s.reconnects && op.id != c.id && op.slot == c.slot ensures !HasOp(t.reconnects, op.id) {
      assert !HasOp(u.reconnects, op.id);
      assert forall j :: 0 <= j < n ==> t.reconnects[j] == u.reconnects[j];
    }
  }

  lemma ReconnectSettles(env: Env, s: Settings, c: Call)
    requires c.Reconnect? && Valid(env, s) && FilterShape(s.filter) && ReconnectPlan(env, s, c).reply.Done?
    ensures var t := LastSaved(s, ReconnectPlan(env, s, c).effects);
      && FilterShape(t.filter) && ReconnectedAs(env, s, t, c) && ReconnectPlan(env, t, c) == Plan([], Done)
  {
    hide Valid, ReconnectPlan, ReconnectedAs, Successor;
    if HasOp(s.reconnects, c.id) {
      KnownReconnect(env, s, c);
    } else {
      FirstReconnectIs(env, s, c);
      SuccessorAs(env, s, c);
      LastOfChecked(env, s, Successor(env, s, c), Done);
    }
  }

  lemma ReconnectRefuses(env: Env, s: Settings, c: Call)
    requires c.Reconnect? && FilterShape(s.filter)
    ensures HasOp(s.setups, c.id) || (!HasOp(s.reconnects, c.id) && IsRetired(env, s.filter, c.id)) ==>
      ReconnectPlan(env, s, c).reply.Refused?
    ensures ReconnectPlan(env, s, c).reply.Done? || ReconnectPlan(env, s, c).reply.Refused?
    ensures !ReconnectPlan(env, s, c).reply.Done? ==> ReconnectPlan(env, s, c).effects == []
  {
    hide Valid, IsRetired, OtherActive, Superseded, ReconnectRow;
  }

  lemma ReconnectPlanOf(env: Env, d: Disk, c: Call)
    requires c.Reconnect? && Good(env, d) && FilterShape(View(env, d).filter)
    ensures var ok := ArgumentsOk(env, c) && c.schema == SETTINGS_SCHEMA;
      PlanOf(env, d, c) == if ok then ReconnectPlan(env, View(env, d), c) else Refuse(Invalid)
  {
    hide Valid, ArgumentsOk, ReconnectPlan;
  }

  lemma ReconnectPromise(env: Env, d: Disk, c: Call)
    requires c.Reconnect?
    ensures var p := PlanOf(env, d, c); ReconnectKept(env, d, c, p.reply, ApplyAll(d, p.effects))
  {
    hide SlotsOk, SetupsOk, ReconnectsOk, RowsOk, Keeps, Load, View, Sound, ReconnectedAs, ReconnectPlan, PlanOf,
      ArgumentsOk;
    if Good(env, d) {
      CallKeeps(env, d, c);
      LoadedAfter(env, d, c);
      var s, e := View(env, d), ApplyAll(d, PlanOf(env, d, c).effects);
      GoodIsValid(env, d);
      GoodIsValid(env, e);
      ReconnectPlanOf(env, d, c);
      ReconnectPlanOf(env, e, c);
      ReconnectRefuses(env, s, c);
      if PlanOf(env, d, c).reply.Done? { ReconnectSettles(env, s, c); }
    }
  }

  // ---- transition

  /** Every row but the one at `i` is the same. */
  predicate OtherRowsSame(s: Settings, t: Settings, i: nat) {
    && |s.setups| == |t.setups| && |s.reconnects| == |t.reconnects|
    && forall j :: 0 <= j < |Rows(s)| && j != i ==> Rows(t)[j] == Rows(s)[j]
  }

  /** The operation is complete and observed a well-formed pair. */
  predicate Proven(op: Operation) {
    && op.state == Complete && op.account.Some? && op.organization.Some?
    && ValidHash(op.account.value) && ValidHash(op.organization.value)
  }

  /** The slot takes the observed pair as its approval, by setup or by reconnect, and nothing else of it changes. */
  predicate Approved(before: Slot, after: Slot, op: Operation) {
    && after.approvedAccount == op.account && after.approvedOrganization == op.organization
    && after.approvedFrom == Some(if op.kind == ReconnectRegistered then ReconnectProof else SetupProof)
    && after.id == before.id && after.dir == before.dir && after.ownership == before.ownership
  }

  /** A proof is the approval of every slot it was made on; no other slot changes. */
  predicate ProofStored(s: Settings, t: Settings, op: Operation) {
    && |s.slots| == |t.slots|
    && forall k :: 0 <= k < |s.slots| ==>
         if Proven(op) && s.slots[k].id == op.slot && s.slots[k].dir == op.dir
         then Approved(s.slots[k], t.slots[k], op)
         else t.slots[k] == s.slots[k]
  }

  lemma ProvenIs(op: Operation)
    ensures Proven(op) <==> CompletedBinding(op).Some?
  {
  }

  lemma ProvenApproves(op: Operation, slot: Slot)
    ensures Proven(op) ==> CompletedBinding(op).Some?
    ensures Proven(op) ==> Approved(slot, Approve(slot, CompletedBinding(op).value, SourceOf(op.kind)), op)
  {
  }

  /** `v` is the first of the three values that is present. */
  predicate FirstPresent(v: Option<string>, first: Option<string>, second: Option<string>, third: Option<string>) {
    && (first.Some? ==> v == first)
    && (first.None? && second.Some? ==> v == second)
    && (first.None? && second.None? ==> v == third)
  }

  predicate ExpectsFirst(before: Operation, after: Operation, c: Call)
    requires c.Transition?
  {
    && FirstPresent(after.expectedAccount, before.expectedAccount, c.expectedAccount, c.account)
    && FirstPresent(after.expectedOrganization, before.expectedOrganization, c.expectedOrganization, c.organization)
  }

  /** The row takes what was observed and keeps its identity and age. It expects, half by half, what it expected
      before, else what the call expects, else what was observed, and the observation agrees with that. A stopped row
      keeps everything. */
  predicate ObservedRow(before: Operation, after: Operation, c: Call)
    requires c.Transition?
  {
    && after.id == before.id && after.kind == before.kind && IdentityOf(after) == IdentityOf(before)
    && after.sequence == before.sequence
    && (before.state == SetupStopped ==> after == before)
    && (before.state != SetupStopped ==>
          after.state == c.state && after.account == c.account && after.organization == c.organization && Agreed(after))
    && (before.state != SetupStopped ==> ExpectsFirst(before, after, c))
  }

  /** A reconnect that had not ended has. */
  predicate Ended(before: Operation, after: Operation) {
    && before.kind == ReconnectRegistered && (UnderWay(before) || before.state == Idle)
    && after.state in {Complete, SetupStopped, SetupFailed, IdentityMismatch}
  }

  lemma EndedIs(before: Operation, after: Operation)
    requires after.kind == before.kind
    ensures Finishes(before, after) <==> Ended(before, after)
  {
  }

  ghost predicate TransitionedAt(env: Env, s: Settings, t: Settings, c: Call, i: nat)
    requires c.Transition? && FilterShape(t.filter)
  {
    && i < |Rows(s)| && Rows(s)[i].id == c.id && OtherRowsSame(s, t, i)
    && ObservedRow(Rows(s)[i], Rows(t)[i], c) && ProofStored(s, t, Rows(t)[i])
    && (if Ended(Rows(s)[i], Rows(t)[i])
        then IsRetired(env, t.filter, c.id) && GrowsBy(env, s.filter, t.filter, {c.id})
        else t.filter == s.filter)
    && t == s.(slots := t.slots, setups := t.setups, reconnects := t.reconnects, filter := t.filter)
  }

  /** A transition stores exactly the observation, never one that contradicts the row; a completed proof becomes the
      approval of its slot, and a reconnect that finishes is retired. Refused, it leaves no trace. */
  ghost predicate TransitionKept(env: Env, d: Disk, c: Call, reply: Reply, e: Disk)
    requires c.Transition?
  {
    Good(env, d) ==>
      && Keeps(env, d, e) && FilterShape(View(env, e).filter)
      && (if reply.Done? then exists i: nat :: TransitionedAt(env, View(env, d), View(env, e), c, i) else e == d)
  }

  lemma RowReplaced(s: Settings, i: nat, op: Operation)
    requires i < |Rows(s)|
    ensures var t := WithRow(s, i, op); OtherRowsSame(s, t, i) && Rows(t)[i] == op && t.slots == s.slots
  {
  }

  lemma ExactOnly(env: Env, slots: seq<Slot>, id: string, dir: string, k: nat)
    requires SlotsOk(env, slots) && k < |slots| && slots[k].id == id && slots[k].dir == dir
    ensures FindExact(slots, id, dir) == k
  {
    hide SlotShape;
    var n := FindExact(slots, id, dir);
    assert n <= k;
    assert forall i :: 0 <= i < k ==> slots[i].id != slots[k].id;
  }

  lemma ProofIsStored(env: Env, s: Settings, op: Operation)
    requires SlotsOk(env, s.slots)
    ensures ProofStored(s, WithProof(s, op), op)
  {
    hide SlotsOk, CompletedBinding, Proven, SourceOf, Approve, Approved;
    ProvenIs(op);
    forall k | 0 <= k < |s.slots| && s.slots[k].id == op.slot && s.slots[k].dir == op.dir
      ensures FindExact(s.slots, op.slot, op.dir) == k
      ensures Proven(op) ==> Approved(s.slots[k], WithProof(s, op).slots[k], op)
    {
      ExactOnly(env, s.slots, op.slot, op.dir, k);
      ProvenApproves(op, s.slots[k]);
    }
  }

  /** The settings a transition of the row at `i` saves. */
  function Transitioned(env: Env, s: Settings, i: nat, row: Operation): Settings
    requires i < |Rows(s)| && FilterShape(s.filter)
  {
    WithProof(WithRow(s, i, row), row).(
      filter := if Finishes(Rows(s)[i], row) then Retire(env, s.filter, row.id) else s.filter)
  }

  lemma TransitionIs(env: Env, s: Settings, c: Call)
    requires c.Transition? && FilterShape(s.filter)
    ensures var i := Find(Rows(s), c.id);
      TransitionPlan(env, s, c) ==
        if i < |Rows(s)| && Mutated(Rows(s)[i], c).Some?
        then SaveChecked(env, Transitioned(env, s, i, Mutated(Rows(s)[i], c).value), Done)
        else Refuse(Invalid)
  {
    hide Valid, Retire, WithProof, Finishes, WithRow, Mutated, Rows, SaveChecked;
    var i := Find(Rows(s), c.id);
    if i < |Rows(s)| && Mutated(Rows(s)[i], c).Some? { MutatedIs(Rows(s)[i], c); }
  }

  lemma TransitionedIs(env: Env, s: Settings, c: Call, i: nat)
    requires c.Transition? && FilterShape(s.filter) && SlotsOk(env, s.slots)
    requires i < |Rows(s)| && Rows(s)[i].id == c.id && Mutated(Rows(s)[i], c).Some?
    ensures var t := Transitioned(env, s, i, Mutated(Rows(s)[i], c).value);
      FilterShape(t.filter) && TransitionedAt(env, s, t, c, i)
  {
    hide SlotsOk, Retire, IsRetired, Mutated, WithProof, Finishes, Ended, ObservedRow, Proven, Approved, GrowsBy,
      WithRow;
    var op, row := Rows(s)[i], Mutated(Rows(s)[i], c).value;
    var u := WithRow(s, i, row);
    MutatedIs(op, c);
    RowReplaced(s, i, row);
    ProofIsStored(env, u, row);
    ProofRows(u, row);
    EndedIs(op, row);
    ProofRest(u, row);
    StopRow(s, i, row);
    RetireShape(env, s.filter, c.id);
    RetireCorrect(env, s.filter, c.id);
    RetireGrows(env, s.filter, c.id, {c.id});
    assert Rows(Transitioned(env, s, i, row)) == Rows(u);
  }

  lemma TransitionSettles(env: Env, s: Settings, c: Call)
    requires c.Transition? && Healthy(env, s) && FilterShape(s.filter)
    ensures var p := TransitionPlan(env, s, c);
      var t := LastSaved(s, p.effects);
      && FilterShape(t.filter)
      && (if p.reply.Done? then TransitionedAt(env, s, t, c, Find(Rows(s), c.id)) else p.effects == [])
  {
    hide SlotsOk, SetupsOk, ReconnectsOk, RowsOk, Mutated, Transitioned, TransitionedAt, TransitionPlan;
    var i := Find(Rows(s), c.id);
    TransitionIs(env, s, c);
    LastOfChecked(env, s, s, Done);
    if i < |Rows(s)| && Mutated(Rows(s)[i], c).Some? {
      TransitionedIs(env, s, c, i);
      LastOfChecked(env, s, Transitioned(env, s, i, Mutated(Rows(s)[i], c).value), Done);
    }
  }

  lemma ProofRest(s: Settings, op: Operation)
    ensures WithProof(s, op) == s.(slots := WithProof(s, op).slots)
  {
  }

  lemma ProofRows(s: Settings, op: Operation)
    ensures Rows(WithProof(s, op)) == Rows(s) && WithProof(s, op).setups == s.setups
    ensures WithProof(s, op).reconnects == s.reconnects
  {
  }

  lemma MutatedIs(op: Operation, c: Call)
    requires c.Transition? && Mutated(op, c).Some?
    ensures var row := Mutated(op, c).value; ObservedRow(op, row, c) && row.kind == op.kind && row.id == op.id
  {
  }

  lemma TransitionPlanOf(env: Env, d: Disk, c: Call)
    requires c.Transition? && Good(env, d) && FilterShape(View(env, d).filter)
    ensures var ok := ArgumentsOk(env, c) && c.schema == SETTINGS_SCHEMA;
      PlanOf(env, d, c) == if ok then TransitionPlan(env, View(env, d), c) else Refuse(Invalid)
  {
    hide Valid, ArgumentsOk, TransitionPlan;
  }

  lemma TransitionPromise(env: Env, d: Disk, c: Call)
    requires c.Transition?
    ensures var p := PlanOf(env, d, c); TransitionKept(env, d, c, p.reply, ApplyAll(d, p.effects))
  {
    hide SlotsOk, SetupsOk, ReconnectsOk, RowsOk, Keeps, Load, View, Sound, TransitionedAt, TransitionPlan, PlanOf,
      ArgumentsOk;
    if Good(env, d) {
      CallKeeps(env, d, c);
      LoadedAfter(env, d, c);
      GoodIsValid(env, d);
      GoodIsValid(env, ApplyAll(d, PlanOf(env, d, c).effects));
      TransitionPlanOf(env, d, c);
      TransitionSettles(env, View(env, d), c);
    }
  }

  // ---- stop

  /** A stop is accepted if and only if the id is known. Afterwards its operation is complete or stopped, so not active,
      and nothing else of the settings has changed. */
  ghost predicate StopKept(env: Env, d: Disk, c: Call, reply: Reply, e: Disk)
    requires c.Stop?
  {
    Good(env, d) ==>
      && Keeps(env, d, e)
      && var s, t := View(env, d), View(env, e);
      && (ValidOpId(c.id) && c.schema == SETTINGS_SCHEMA ==> (reply.Done? <==> HasOp(Rows(s), c.id)))
      && (if reply.Done? then exists i: nat :: StoppedAt(s, t, c.id, i) else e == d)
  }

  predicate StoppedAt(s: Settings, t: Settings, id: string, i: nat) {
    && i < |Rows(s)| && Rows(s)[i].id == id && OtherRowsSame(s, t, i)
    && Rows(t)[i] == (if Rows(s)[i].state.Complete? then Rows(s)[i] else Rows(s)[i].(state := SetupStopped))
    && !Active(Rows(t)[i])
    && t == s.(setups := t.setups, reconnects := t.reconnects)
  }

  lemma StopSettles(env: Env, s: Settings, c: Call)
    requires c.Stop? && Healthy(env, s)
    ensures var p := StopPlan(env, s, c);
      && (p.reply.Done? <==> HasOp(Rows(s), c.id))
      && (if p.reply.Done? then StoppedAt(s, LastSaved(s, p.effects), c.id, Find(Rows(s), c.id)) else p.effects == [])
  {
    hide Valid, RowsAgree, StopPlan, WithRow, Evolves;
    var i := Find(Rows(s), c.id);
    if i < |Rows(s)| {
      var op := Rows(s)[i];
      var row := if op.state.Complete? then op else op.(state := SetupStopped);
      SameRow(s, i);
      if !op.state.Complete? && !op.state.SetupStopped? {
        StopHealthy(env, s, i);
        EvolvesParts(env, s, WithRow(s, i, op.(state := SetupStopped)));
      }
      assert op.state.SetupStopped? ==> op.(state := SetupStopped) == op;
      RowReplaced(s, i, row);
      StopEffects(env, s, c, WithRow(s, i, row));
      StopRow(s, i, row);
    } else {
      StopUnknown(env, s, c);
    }
  }

  lemma StopRow(s: Settings, i: nat, row: Operation)
    requires i < |Rows(s)|
    ensures var t := WithRow(s, i, row); t == s.(setups := t.setups, reconnects := t.reconnects)
  {
  }

  lemma StopUnknown(env: Env, s: Settings, c: Call)
    requires c.Stop? && Find(Rows(s), c.id) == |Rows(s)|
    ensures StopPlan(env, s, c) == Refuse(Invalid)
  {
  }

  lemma SameRow(s: Settings, i: nat)
    requires i < |Rows(s)|
    ensures WithRow(s, i, Rows(s)[i]) == s
  {
    if i < |s.setups| {
      assert s.setups[i := s.setups[i]] == s.setups;
    } else {
      assert s.reconnects[i - |s.setups| := s.reconnects[i - |s.setups|]] == s.reconnects;
    }
  }

  lemma StopEffects(env: Env, s: Settings, c: Call, t: Settings)
    requires c.Stop? && Find(Rows(s), c.id) < |Rows(s)| && Valid(env, t) && Valid(env, s)
    requires var op := Rows(s)[Find(Rows(s), c.id)];
      if op.state.Complete? || op.state.SetupStopped? then t == s
      else t == WithRow(s, Find(Rows(s), c.id), op.(state := SetupStopped))
    ensures StopPlan(env, s, c).reply.Done? && LastSaved(s, StopPlan(env, s, c).effects) == t
  {
    hide Valid, WithRow;
    var op := Rows(s)[Find(Rows(s), c.id)];
    var drop: seq<Effect> := [DropDir(op.dir)];
    LastOfChecked(env, s, t, Done);
    LastOfSplit(s, drop, [Save(t)]);
    assert drop[1..] == [] && LastSaved(s, drop) == s;
    assert [] + [Save(t)] == [Save(t)];
  }

  lemma StopPlanOf(env: Env, d: Disk, c: Call)
    requires c.Stop? && Good(env, d)
    ensures var ok := ValidOpId(c.id) && c.schema == SETTINGS_SCHEMA;
      PlanOf(env, d, c) == if ok then StopPlan(env, View(env, d), c) else Refuse(Invalid)
  {
    hide Valid, StopPlan;
  }

  lemma StopPromise(env: Env, d: Disk, c: Call)
    requires c.Stop?
    ensures var p := PlanOf(env, d, c); StopKept(env, d, c, p.reply, ApplyAll(d, p.effects))
  {
    hide SlotsOk, SetupsOk, ReconnectsOk, RowsOk, Keeps, Load, View, Sound, StoppedAt, StopPlan, PlanOf, ValidOpId;
    if Good(env, d) {
      CallKeeps(env, d, c);
      LoadedAfter(env, d, c);
      GoodIsValid(env, d);
      StopPlanOf(env, d, c);
      StopSettles(env, View(env, d), c);
    }
  }

  // ---- approval

  /** Slots that have an approval are untouched, and so is everything but the one slot; unless the unlocked first look
      answered, the reply is the pair the slot is bound to afterwards. */
  ghost predicate EnsureKept(env: Env, d: Disk, c: Call, reply: Reply, e: Disk)
    requires c.EnsureApproved?
  {
    Good(env, d) ==>
      && Keeps(env, d, e)
      && var s, t := View(env, d), View(env, e);
      && t == s.(slots := t.slots) && |t.slots| == |s.slots|
      && (forall i :: 0 <= i < |s.slots| && (ApprovedBinding(s.slots[i]).Some? || s.slots[i].id != c.slot) ==>
            t.slots[i] == s.slots[i])
      && (FirstLook(env, c).None? && reply.Bound? ==> reply == Bound(CurrentBinding(t, c.slot)))
      && (!reply.Bound? ==> e == d)
  }

  lemma EnsureSettles(env: Env, s: Settings, c: Call)
    requires c.EnsureApproved? && Valid(env, s)
    ensures var p := EnsurePlan(env, s, c);
      var t := LastSaved(s, p.effects);
      && t == s.(slots := t.slots) && |t.slots| == |s.slots|
      && (forall i :: 0 <= i < |s.slots| && (ApprovedBinding(s.slots[i]).Some? || s.slots[i].id != c.slot) ==>
            t.slots[i] == s.slots[i])
      && (p.reply.Bound? ==> p.reply == Bound(CurrentBinding(t, c.slot)))
      && (!p.reply.Bound? ==> p.effects == [])
  {
    hide Valid, EffectiveBinding, AllowsFirstUse;
    var choice, k := ToApprove(s, c.slot, c.observed), FindSlot(s.slots, c.slot);
    LastOfChecked(env, s, s, Done);
    if choice.Some? && k < |s.slots| {
      var slot := Approve(s.slots[k], choice.value.0, choice.value.1);
      var t := s.(slots := s.slots[k := slot]);
      LastOfChecked(env, s, t, Bound(Some(choice.value.0)));
      ChoiceUnapproved(s, c.slot, c.observed, k);
      ApprovedBinds(s, c.slot, k, slot, choice.value.0);
    } else if choice.Some? {
      NoSlotNoChoice(s, c.slot, c.observed);
    }
  }

  lemma NoSlotNoChoice(s: Settings, slot: string, observed: Option<Binding>)
    requires FindSlot(s.slots, slot) == |s.slots|
    ensures ToApprove(s, slot, observed).None?
  {
  }

  lemma ChoiceUnapproved(s: Settings, slot: string, observed: Option<Binding>, k: nat)
    requires k == FindSlot(s.slots, slot) < |s.slots| && ToApprove(s, slot, observed).Some?
    ensures ApprovedBinding(s.slots[k]).None?
    ensures Latest(Filter(SlotOps(s, s.slots[k]), (op: Operation) => Active(op))).None?
  {
    hide CompletedBinding;
    if EffectiveBinding(s, slot).None? {
      NoPendingUnderFirstUse(s, slot);
      FilterNone(SlotOps(s, s.slots[k]), (op: Operation) => Active(op));
    }
  }

  lemma ApprovedBinds(s: Settings, slot: string, k: nat, approved: Slot, b: Binding)
    requires k == FindSlot(s.slots, slot) < |s.slots|
    requires approved.id == s.slots[k].id && approved.dir == s.slots[k].dir && ApprovedBinding(approved) == Some(b)
    requires Latest(Filter(SlotOps(s, s.slots[k]), (op: Operation) => Active(op))).None?
    ensures CurrentBinding(s.(slots := s.slots[k := approved]), slot) == Some(b)
  {
    hide CompletedBinding;
    var t := s.(slots := s.slots[k := approved]);
    forall j | 0 <= j < k ensures t.slots[j].id != slot { assert t.slots[j] == s.slots[j]; }
    assert t.slots[k].id == slot;
    assert FindSlot(t.slots, slot) == k;
    SameOps(s, t, s.slots[k], approved);
  }

  lemma SameOps(s: Settings, t: Settings, a: Slot, b: Slot)
    requires Rows(s) == Rows(t) && a.id == b.id && a.dir == b.dir
    ensures SlotOps(s, a) == SlotOps(t, b)
  {
    SameFilter(Rows(s), (op: Operation) => op.slot == a.id && op.dir == a.dir,
               (op: Operation) => op.slot == b.id && op.dir == b.dir);
  }

  lemma {:induction false} SameFilter(ops: seq<Operation>, p: Operation -> bool, q: Operation -> bool)
    requires forall op :: p(op) <==> q(op)
    ensures Filter(ops, p) == Filter(ops, q)
  {
    if ops != [] { SameFilter(ops[1..], p, q); }
  }

  lemma EnsurePlanOf(env: Env, d: Disk, c: Call)
    requires c.EnsureApproved? && Good(env, d)
    ensures PlanOf(env, d, c) == EnsurePlan(env, View(env, d), c)
      || (PlanOf(env, d, c).effects == [] && (FirstLook(env, c).Some? || PlanOf(env, d, c).reply.Refused?))
  {
    hide Valid, EnsurePlan, FirstLook;
  }

  lemma EnsurePromise(env: Env, d: Disk, c: Call)
    requires c.EnsureApproved?
    ensures var p := PlanOf(env, d, c); EnsureKept(env, d, c, p.reply, ApplyAll(d, p.effects))
  {
    hide SlotsOk, SetupsOk, ReconnectsOk, RowsOk, Keeps, Load, View, Sound, EnsurePlan, PlanOf, FirstLook,
      CurrentBinding;
    if Good(env, d) {
      CallKeeps(env, d, c);
      LoadedAfter(env, d, c);
      GoodIsValid(env, d);
      EnsurePlanOf(env, d, c);
      EnsureSettles(env, View(env, d), c);
      LastOfChecked(env, View(env, d), View(env, d), Done);
    }
  }

  // ---- adoption

  /** The active reconnect at `i` now expects and observes exactly the proven pair; nothing else changed. */
  predicate AdoptedAt(s: Settings, t: Settings, c: Call, i: nat)
    requires c.Adopt?
  {
    && i < |s.reconnects| == |t.reconnects| && s.reconnects[i].id == c.id && Active(t.reconnects[i])
    && IdentityOf(t.reconnects[i]) == IdentityOf(s.reconnects[i])
    && t.reconnects[i].expectedAccount == t.reconnects[i].account == Some(c.proven.account)
    && t.reconnects[i].expectedOrganization == t.reconnects[i].organization == Some(c.proven.organization)
    && (forall j :: 0 <= j < |s.reconnects| && j != i ==> t.reconnects[j] == s.reconnects[j])
    && t == s.(reconnects := t.reconnects)
  }

  /** Adoption happens only on an active reconnect whose slot holds an observed approval, and never against the pair a
      target-bound one was requested for; otherwise nothing is written. */
  ghost predicate AdoptKept(env: Env, d: Disk, c: Call, reply: Reply, e: Disk)
    requires c.Adopt?
  {
    Good(env, d) ==>
      && Keeps(env, d, e)
      && var s, t := View(env, d), View(env, e);
      && (if reply == Adopted(true)
          then exists i: nat ::
                 && AdoptedAt(s, t, c, i) && !OtherPair(s.reconnects[i], c)
                 && ObservedSlot(s, s.reconnects[i].slot, s.reconnects[i].dir)
          else e == d)
  }

  predicate ObservedSlot(s: Settings, id: string, dir: string) {
    exists k :: 0 <= k < |s.slots| && s.slots[k].id == id && s.slots[k].dir == dir
      && s.slots[k].approvedAccount.Some? && s.slots[k].approvedOrganization.Some?
      && s.slots[k].approvedFrom in {None, Some(Observation)}
  }

  lemma AdoptSettles(env: Env, s: Settings, c: Call)
    requires c.Adopt? && Valid(env, s)
    ensures var p := AdoptPlan(env, s, c);
      var i := Find(s.reconnects, c.id);
      if p.reply == Adopted(true)
      then && AdoptedAt(s, LastSaved(s, p.effects), c, i) && !OtherPair(s.reconnects[i], c)
           && ObservedSlot(s, s.reconnects[i].slot, s.reconnects[i].dir)
      else p.effects == []
  {
    hide SlotsOk, SetupsOk, ReconnectsOk, RowsOk;
    var p, i := AdoptPlan(env, s, c), Find(s.reconnects, c.id);
    if p.reply == Adopted(true) {
      if OtherPair(s.reconnects[i], c) { AdoptRefused(env, s, c, i); }
      LastOfChecked(env, s, p.effects[0].settings, p.reply);
    }
  }

  lemma AdoptPlanOf(env: Env, d: Disk, c: Call)
    requires c.Adopt? && Good(env, d)
    ensures PlanOf(env, d, c) == AdoptPlan(env, View(env, d), c) || PlanOf(env, d, c) == Refuse(Invalid)
  {
    hide Valid, AdoptPlan;
  }

  lemma AdoptPromise(env: Env, d: Disk, c: Call)
    requires c.Adopt?
    ensures var p := PlanOf(env, d, c); AdoptKept(env, d, c, p.reply, ApplyAll(d, p.effects))
  {
    hide SlotsOk, SetupsOk, ReconnectsOk, RowsOk, Keeps, Load, View, Sound, AdoptPlan, PlanOf, AdoptedAt, ObservedSlot;
    if Good(env, d) {
      CallKeeps(env, d, c);
      LoadedAfter(env, d, c);
      GoodIsValid(env, d);
      AdoptPlanOf(env, d, c);
      AdoptSettles(env, View(env, d), c);
    }
  }
}
