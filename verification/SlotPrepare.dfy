/** Crash-replay of managed prepare: a journaled intent survives everything but the removal of its slot, and
    every successful replay of its id ends with one registration of the directory it first chose. */
module SlotPrepare {
  import opened Prelude
  import opened SlotModel
  import opened SlotFilter
  import opened SlotCalls
  import opened SlotEvolution
  import opened SlotRuns
  import opened SlotApprovals
  import opened SlotGuarantees

  /** Exactly one slot has this id or this directory; it has both and is managed. */
  predicate OneRegistration(s: Settings, slot: string, dir: string) {
    exists k :: 0 <= k < |s.slots| && s.slots[k].id == slot && s.slots[k].dir == dir && s.slots[k].ownership.Managed?
      && forall j :: 0 <= j < |s.slots| && j != k ==> s.slots[j].id != slot && s.slots[j].dir != dir
  }

  function LastSaved(s: Settings, es: seq<Effect>): Settings
    decreases es
  {
    if es == [] then s else LastSaved(if es[0].Save? then es[0].settings else s, es[1..])
  }

  lemma {:induction false} ApplyAllView(env: Env, d: Disk, es: seq<Effect>)
    requires Good(env, d) && Chain(env, View(env, d), es)
    ensures Good(env, ApplyAll(d, es)) && View(env, ApplyAll(d, es)) == LastSaved(View(env, d), es)
    decreases es
  {
    hide Sound, Evolves, Valid, RowsAgree;
    if es == [] {
    } else if es[0].Save? {
      EvolvesParts(env, View(env, d), es[0].settings);
      SaveReadsBack(env, d, es[0].settings);
      ApplyAllView(env, AfterSave(d, es[0].settings), es[1..]);
    } else {
      DirsKeepView(env, d, Apply(d, es[0]).dirs);
      ApplyAllView(env, Apply(d, es[0]), es[1..]);
    }
  }

  // ---- one replay

  /** The row at i is registered under its own slot and directory and is past preparing. */
  predicate Settled(s: Settings, i: nat) {
    && i < |s.setups|
    && var op := s.setups[i];
       var k := FindSlot(s.slots, op.slot);
       && k < |s.slots| && s.slots[k].ownership.Managed? && s.slots[k].dir == op.dir
       && !op.state.SetupStopped?
  }

  lemma SettledReplay(env: Env, s: Settings, i: nat)
    requires Settled(s, i)
    ensures ReplayPlan(env, s, i) == Plan([MakeDir(s.setups[i].dir)], Done)
  {
    hide FinalizePlan;
  }

  lemma {:induction false} AppendFind(slots: seq<Slot>, slot: Slot)
    requires FindSlot(slots, slot.id) == |slots|
    ensures FindSlot(slots + [slot], slot.id) == |slots|
  {
    if slots != [] {
      assert (slots + [slot])[1..] == slots[1..] + [slot];
      AppendFind(slots[1..], slot);
    }
  }

  lemma FinalizeSettles(env: Env, s: Settings, i: nat)
    requires i < |s.setups| && FindSlot(s.slots, s.setups[i].slot) == |s.slots|
    requires FinalizePlan(env, s, i).reply.Done?
    ensures var t := LastSaved(s, FinalizePlan(env, s, i).effects);
      && t == Finalized(s, i) && Settled(t, i) && IdentityOf(t.setups[i]) == IdentityOf(s.setups[i])
      && Valid(env, t)
    ensures MakeDir(s.setups[i].dir) in FinalizePlan(env, s, i).effects
  {
    hide SlotsOk, SetupsOk, ReconnectsOk, RowsOk;
    var op := s.setups[i];
    var t := Finalized(s, i);
    AppendFind(s.slots, NewSlot(op.slot, Managed, op.dir));
    var es := FinalizePlan(env, s, i).effects;
    assert es == [MakeDir(op.dir), Save(t)];
    assert es[1..] == [Save(t)] && es[1..][1..] == [];
    assert LastSaved(t, []) == t;
    assert LastSaved(s, es) == LastSaved(s, es[1..]) == t;
  }

  /** The settings after a replay: a stopped or unregistered intent waits for login, an unregistered one is registered,
      and nothing else changes. */
  predicate ReplayedTo(s: Settings, t: Settings, i: nat)
    requires i < |s.setups|
  {
    var op, registered := s.setups[i], HasSlot(s.slots, s.setups[i].slot);
    var state := if op.state == SetupStopped || !registered then WaitingForUserLogin else op.state;
    t == s.(setups := s.setups[i := op.(state := state)],
            slots := if registered then s.slots else s.slots + [Slot(op.slot, Managed, op.dir, None, None, None)])
  }

  /** The settings an accepted replay saves last. */
  lemma ReplaySaves(env: Env, s: Settings, i: nat)
    requires i < |s.setups| && ReplayPlan(env, s, i).reply.Done?
    ensures ReplayedTo(s, LastSaved(s, ReplayPlan(env, s, i).effects), i)
  {
    hide *;
    HasSlotFound(s.slots, s.setups[i].slot);
    if HasSlot(s.slots, s.setups[i].slot) { RegisteredSaves(env, s, i); } else { UnregisteredSaves(env, s, i); }
  }

  lemma RegisteredSaves(env: Env, s: Settings, i: nat)
    requires i < |s.setups| && ReplayPlan(env, s, i).reply.Done? && HasSlot(s.slots, s.setups[i].slot)
    ensures ReplayedTo(s, LastSaved(s, ReplayPlan(env, s, i).effects), i)
  {
    hide Valid, OtherActive, LastSaved, HasSlot, FinalizePlan;
    var op := s.setups[i];
    HasSlotFound(s.slots, op.slot);
    LastOfOne(s, op.dir, s.(setups := s.setups[i := op.(state := WaitingForUserLogin)]));
    assert s.setups[i := op] == s.setups;
  }

  lemma LastOfOne(s: Settings, dir: string, t: Settings)
    ensures LastSaved(s, [MakeDir(dir)]) == s
    ensures LastSaved(s, [MakeDir(dir), Save(t)]) == t
    ensures LastSaved(s, [Save(t), MakeDir(dir)]) == t
    ensures forall u :: LastSaved(s, [Save(u), MakeDir(dir), Save(t)]) == t
  {
    assert [MakeDir(dir)][1..] == [] && LastSaved(s, []) == s && LastSaved(t, []) == t;
    assert [Save(t)][1..] == [] && [MakeDir(dir), Save(t)][1..] == [Save(t)];
    assert [Save(t), MakeDir(dir)][1..] == [MakeDir(dir)];
    forall u ensures LastSaved(s, [Save(u), MakeDir(dir), Save(t)]) == t {
      assert [Save(u), MakeDir(dir), Save(t)][1..] == [MakeDir(dir), Save(t)];
      assert [MakeDir(dir), Save(t)][1..] == [Save(t)] && LastSaved(u, [Save(t)]) == t;
    }
  }

  lemma UnregisteredSaves(env: Env, s: Settings, i: nat)
    requires i < |s.setups| && ReplayPlan(env, s, i).reply.Done? && !HasSlot(s.slots, s.setups[i].slot)
    ensures ReplayedTo(s, LastSaved(s, ReplayPlan(env, s, i).effects), i)
  {
    hide Valid, OtherActive, LastSaved, HasSlot;
    var op := s.setups[i];
    var waiting := op.(state := WaitingForUserLogin);
    HasSlotFound(s.slots, op.slot);
    var t := s.(setups := s.setups[i := op.(state := Preparing)]);
    assert t.setups[i := waiting] == s.setups[i := waiting];
    LastOfOne(s, op.dir, Finalized(s, i));
    LastOfOne(s, op.dir, Finalized(t, i));
    if op.state.SetupStopped? {
      assert [Save(t)] + [MakeDir(op.dir), Save(Finalized(t, i))] == [Save(t), MakeDir(op.dir), Save(Finalized(t, i))];
    }
  }

  /** Whatever state the intent was left in, a replay that succeeds settles it. */
  lemma ReplaySettles(env: Env, s: Settings, i: nat)
    requires Healthy(env, s) && i < |s.setups| && ReplayPlan(env, s, i).reply.Done?
    ensures var t := LastSaved(s, ReplayPlan(env, s, i).effects);
      && Settled(t, i) && t.setups[i].id == s.setups[i].id && IdentityOf(t.setups[i]) == IdentityOf(s.setups[i])
    ensures MakeDir(s.setups[i].dir) in ReplayPlan(env, s, i).effects
  {
    hide SlotsOk, SetupsOk, ReconnectsOk, RowsOk, FinalizePlan, OtherActive;
    var op := s.setups[i];
    var k := FindSlot(s.slots, op.slot);
    var es := ReplayPlan(env, s, i).effects;
    if k < |s.slots| && op.state.SetupStopped? {
      var t := s.(setups := s.setups[i := op.(state := WaitingForUserLogin)]);
      assert es == [MakeDir(op.dir), Save(t)] && es[1..] == [Save(t)] && es[1..][1..] == [];
      assert LastSaved(t, []) == t;
      assert LastSaved(s, es) == LastSaved(s, es[1..]) == t;
    } else if k < |s.slots| {
      assert es == [MakeDir(op.dir)] && es[1..] == [];
      assert LastSaved(s, []) == s;
    } else if op.state.SetupStopped? {
      var t := s.(setups := s.setups[i := op.(state := Preparing)]);
      FinalizeSettles(env, t, i);
      assert es[0] == Save(t) && es[1..] == FinalizePlan(env, t, i).effects;
      assert forall e :: e in es[1..] ==> e in es;
    } else {
      FinalizeSettles(env, s, i);
    }
  }

  lemma SettledIsOne(env: Env, s: Settings, i: nat)
    requires Valid(env, s) && Settled(s, i)
    ensures OneRegistration(s, s.setups[i].slot, s.setups[i].dir)
  {
    hide SetupsOk, ReconnectsOk, RowsOk;
    var k := FindSlot(s.slots, s.setups[i].slot);
    forall j | 0 <= j < |s.slots| && j != k ensures s.slots[j].id != s.slots[k].id && s.slots[j].dir != s.slots[k].dir {
      assert SlotsDistinct(env, s.slots);
    }
  }

  // ---- the intent survives

  lemma SetupFind(env: Env, s: Settings, id: string, identity: Identity)
    requires Valid(env, s) && HasBound(s.setups, id, identity)
    ensures var i := Find(s.setups, id); i < |s.setups| && IdentityOf(s.setups[i]) == identity
  {
    hide SlotsOk, SetupsOk, ReconnectsOk;
    var n :| 0 <= n < |s.setups| && s.setups[n].id == id && IdentityOf(s.setups[n]) == identity;
    var i := Find(s.setups, id);
    assert Rows(s)[n] == s.setups[n] && Rows(s)[i] == s.setups[i];
  }

  lemma SameKeeps(a: seq<Operation>, b: seq<Operation>, id: string, identity: Identity)
    requires HasBound(a, id, identity) && |a| <= |b|
    requires forall i :: 0 <= i < |a| ==> b[i].id == a[i].id && IdentityOf(b[i]) == IdentityOf(a[i])
    ensures HasBound(b, id, identity)
  {
    var n :| 0 <= n < |a| && a[n].id == id && IdentityOf(a[n]) == identity;
    assert b[n].id == id;
  }

  /** Setup rows keep their place, id and identity. */
  predicate SetupsStay(s: Settings, t: Settings) {
    |s.setups| <= |t.setups|
    && forall i :: 0 <= i < |s.setups| ==>
         t.setups[i].id == s.setups[i].id && IdentityOf(t.setups[i]) == IdentityOf(s.setups[i])
  }

  lemma FinalizeStay(env: Env, s: Settings, i: nat, t: Settings)
    requires i < |s.setups| && Saved(FinalizePlan(env, s, i).effects, t)
    ensures SetupsStay(s, t)
  {
    hide Valid;
  }

  lemma ReplayStay(env: Env, s: Settings, i: nat, t: Settings)
    requires i < |s.setups| && Saved(ReplayPlan(env, s, i).effects, t)
    ensures SetupsStay(s, t)
  {
    hide Valid, OtherActive, FinalizePlan;
    var op := s.setups[i];
    var u := s.(setups := s.setups[i := op.(state := Preparing)]);
    if Saved(FinalizePlan(env, u, i).effects, t) {
      FinalizeStay(env, u, i, t);
    } else if Saved(FinalizePlan(env, s, i).effects, t) {
      FinalizeStay(env, s, i, t);
    }
  }

  lemma FirstPrepareStay(env: Env, s: Settings, c: Call, t: Settings)
    requires c.Prepare? && Saved(FirstPreparePlan(env, s, c).effects, t)
    ensures SetupsStay(s, t)
  {
    hide Valid, FinalizePlan, IntentRow;
    var dir := if c.reusable.Some? then c.reusable.value else ManagedPath(env, c.token);
    var u := s.(setups := s.setups + [IntentRow(s, c, dir)]);
    if Saved(FinalizePlan(env, u, |s.setups|).effects, t) {
      FinalizeStay(env, u, |s.setups|, t);
    }
  }

  lemma PrepareStay(env: Env, s: Settings, c: Call, t: Settings)
    requires c.Prepare? && FilterShape(s.filter) && Saved(PreparePlan(env, s, c).effects, t)
    ensures SetupsStay(s, t)
  {
    hide Valid, OtherActive, IsRetired, ReplayPlan, FirstPreparePlan;
    var i := Find(s.setups, c.id);
    if i < |s.setups| { ReplayStay(env, s, i, t); } else { FirstPrepareStay(env, s, c, t); }
  }

  lemma RowStay(s: Settings, i: nat, op: Operation)
    requires i < |Rows(s)| && op.id == Rows(s)[i].id && IdentityOf(op) == IdentityOf(Rows(s)[i])
    ensures SetupsStay(s, WithRow(s, i, op))
  {
  }

  lemma TransitionStay(env: Env, s: Settings, c: Call, t: Settings)
    requires c.Transition? && FilterShape(s.filter) && Saved(TransitionPlan(env, s, c).effects, t)
    ensures SetupsStay(s, t)
  {
    hide Valid, Retire, Finishes, CompletedBinding, Mutated, SetupsStay;
    var i := Find(Rows(s), c.id);
    MutatedKeeps(Rows(s)[i], c);
    RowStay(s, i, Mutated(Rows(s)[i], c).value);
    SameSetups(s, WithRow(s, i, Mutated(Rows(s)[i], c).value), t);
  }

  lemma SameSetups(s: Settings, u: Settings, t: Settings)
    requires SetupsStay(s, u) && t.setups == u.setups
    ensures SetupsStay(s, t)
  {
  }

  lemma StopStay(env: Env, s: Settings, c: Call, t: Settings)
    requires c.Stop? && Saved(StopPlan(env, s, c).effects, t)
    ensures SetupsStay(s, t)
  {
    hide Valid, SetupsStay, Active;
    var i := Find(Rows(s), c.id);
    var u := WithRow(s, i, Rows(s)[i].(state := SetupStopped));
    RowStay(s, i, Rows(s)[i].(state := SetupStopped));
    RowStay(s, i, Rows(s)[i]);
    if t == u {
      SameSetups(s, u, t);
    } else {
      assert t == s && WithRow(s, i, Rows(s)[i]).setups == s.setups;
      SameSetups(s, WithRow(s, i, Rows(s)[i]), t);
    }
  }

  lemma OtherStay(env: Env, s: Settings, c: Call, t: Settings)
    requires c.SetConsent? || c.RegisterPath? || c.Admit? || c.EnsureApproved? || c.Adopt?
    requires FilterShape(s.filter) && Saved(LockedPlan(env, s, c).effects, t)
    ensures SetupsStay(s, t)
  {
    hide Valid, PreparePlan, ReconnectPlan, TransitionPlan, StopPlan, RemovePlan, ToApprove, CurrentBinding;
  }

  predicate Removes(c: Option<Call>, slot: string) {
    c.Some? && c.value.Remove? && c.value.slot == slot
  }

  /** The step carries a removal of the slot through to its save. */
  predicate CompletesRemove(env: Env, d: Disk, l: Label, slot: string) {
    && Removes(CallOf(l), slot) && PlanOf(env, d, CallOf(l).value).reply.Done?
    && (l.Crashed? ==> l.after > 0)
  }

  /** A removal that is refused, or that crashes before its save, leaves the rows as they were. */
  lemma UnfinishedRemove(env: Env, d: Disk, l: Label, slot: string)
    requires Good(env, d) && Removes(CallOf(l), slot) && !CompletesRemove(env, d, l, slot)
    ensures Good(env, Next(env, d, l)) && View(env, Next(env, d, l)).setups == View(env, d).setups
  {
    hide Valid, RowsAgree, Removed, Load, Chain, Evolves;
    var c := CallOf(l).value;
    var es := PlanOf(env, d, c).effects;
    CallView(env, d, l);
    RemoveEffects(env, d, c);
    if PlanOf(env, d, c).reply.Done? {
      PlanChain(env, d, c);
      FirstSave(env, View(env, d), es);
      EvolvesParts(env, View(env, d), es[0].settings);
      HalfSaveReadsBack(env, d, es[0].settings);
    }
  }

  lemma FirstSave(env: Env, s: Settings, es: seq<Effect>)
    requires Chain(env, s, es) && es != [] && es[0].Save?
    ensures Evolves(env, s, es[0].settings)
  {
    hide Evolves;
  }

  lemma RemoveEffects(env: Env, d: Disk, c: Call)
    requires c.Remove?
    ensures var p := PlanOf(env, d, c);
      if p.reply.Done? then |p.effects| == 1 && p.effects[0].Save? else p.effects == []
  {
    hide Valid, Removed, Load;
  }

  lemma SavedKeepsIntent(env: Env, s: Settings, c: Call, t: Settings, id: string, identity: Identity)
    requires FilterShape(s.filter) && Saved(LockedPlan(env, s, c).effects, t)
    requires HasBound(s.setups, id, identity) && !Removes(Some(c), identity.slot)
    ensures HasBound(t.setups, id, identity)
  {
    hide Valid, PreparePlan, ReconnectPlan, TransitionPlan, StopPlan, EnsurePlan, AdoptPlan, AdmitPlan, RegisterPlan,
      SaveChecked, Retire;
    match c {
      case Prepare(_, _, _, _, _, _, _) => PrepareStay(env, s, c, t);
      case Reconnect(_, _, _, _, _, _) => ReconnectTouches(env, s, c, t);
      case Transition(_, _, _, _, _, _, _) => TransitionStay(env, s, c, t);
      case Stop(_, _, _) => StopStay(env, s, c, t);
      case Remove(_, slot) => RemoveKeepsIntent(env, s, slot, t, id, identity);
      case _ => OtherStay(env, s, c, t);
    }
    if SetupsStay(s, t) { SameKeeps(s.setups, t.setups, id, identity); }
  }

  lemma RemoveKeepsIntent(env: Env, s: Settings, slot: string, t: Settings, id: string, identity: Identity)
    requires FilterShape(s.filter) && Saved(RemovePlan(env, s, slot).effects, t)
    requires HasBound(s.setups, id, identity) && slot != identity.slot
    ensures HasBound(t.setups, id, identity)
  {
    hide Valid, RetireAll;
    var n :| 0 <= n < |s.setups| && s.setups[n].id == id && IdentityOf(s.setups[n]) == identity;
    assert t.setups == Filter(s.setups, (op: Operation) => op.slot != slot);
    assert s.setups[n] in t.setups;
  }

  lemma StepKeepsIntent(env: Env, d: Disk, l: Label, id: string, identity: Identity)
    requires Good(env, d) && HasBound(View(env, d).setups, id, identity)
    requires !CompletesRemove(env, d, l, identity.slot)
    ensures Good(env, Next(env, d, l)) && HasBound(View(env, Next(env, d, l)).setups, id, identity)
  {
    hide Valid, PlanOf, HasBound;
    var s := View(env, d);
    match l
    case Downgraded(schema) => DowngradeView(env, d, schema);
    case DirsChanged(dirs) => DirsKeepView(env, d, dirs);
    case _ =>
      var c := CallOf(l).value;
      CallView(env, d, l);
      var es := PlanOf(env, d, c).effects;
      var v := View(env, Next(env, d, l));
      if Removes(CallOf(l), identity.slot) {
        UnfinishedRemove(env, d, l, identity.slot);
      } else if v.(filter := []) != s.(filter := []) {
        var i :| 0 <= i < |es| && es[i].Save? && v.(filter := []) == es[i].settings.(filter := []);
        PlanSaves(env, d, c, i);
        SavedKeepsIntent(env, s, c, es[i].settings, id, identity);
        assert v.setups == es[i].settings.setups;
      } else {
        assert v.setups == s.setups;
      }
  }

  /** A journaled intent keeps its slot and directory through any run that completes no removal of its slot: stops,
      crashes at any write, refused removals, downgrades and every other call included. */
  lemma {:induction false} IntentSurvives(env: Env, ls: seq<Label>, i: nat, j: nat, id: string, identity: Identity)
    requires i <= j <= |ls| && HasBound(At(env, ls, i).setups, id, identity)
    requires forall m :: i <= m < j ==> !CompletesRemove(env, Reach(env, ls[..m]), ls[m], identity.slot)
    ensures HasBound(At(env, ls, j).setups, id, identity)
    decreases j
  {
    hide Valid, Next, HasBound, View, CompletesRemove;
    if i < j {
      IntentSurvives(env, ls, i, j - 1, id, identity);
      AtStep(env, ls, j);
      StepKeepsIntent(env, Reach(env, ls[..j - 1]), ls[j - 1], id, identity);
    }
  }

  predicate SameRequest(a: Call, b: Call) {
    && a.Prepare? && b.Prepare? && a.schema == b.schema && a.id == b.id && a.target == b.target
    && a.account == b.account && a.organization == b.organization
  }

  /** The settings-level heart of replay: a known id that is accepted ends settled, and asking again only
      re-creates the directory. */
  lemma KnownPrepare(env: Env, s: Settings, c: Call, again: Call, identity: Identity)
    requires Healthy(env, s) && c.Prepare? && HasBound(s.setups, c.id, identity) && SameRequest(c, again)
    requires PreparePlan(env, s, c).reply.Done?
    ensures var t := LastSaved(s, PreparePlan(env, s, c).effects);
      && MakeDir(identity.dir) in PreparePlan(env, s, c).effects
      && (Valid(env, t) ==>
            && OneRegistration(t, identity.slot, identity.dir)
            && PreparePlan(env, t, again) == Plan([MakeDir(identity.dir)], Done))
  {
    hide SlotsOk, SetupsOk, ReconnectsOk, RowsOk, ReplayPlan, IsRetired, Settled, OneRegistration, FirstPreparePlan;
    SetupFind(env, s, c.id, identity);
    var i := Find(s.setups, c.id);
    ReplaySettles(env, s, i);
    var t := LastSaved(s, ReplayPlan(env, s, i).effects);
    if Valid(env, t) {
      SettledIsOne(env, t, i);
      SettledReplay(env, t, i);
      SettledPrepare(env, t, again, i);
    }
  }

  lemma SettledPrepare(env: Env, t: Settings, c: Call, i: nat)
    requires Valid(env, t) && Settled(t, i) && c.Prepare? && t.setups[i].id == c.id
    requires t.setups[i].target == c.target && t.setups[i].requestedAccount == c.account
             && t.setups[i].requestedOrganization == c.organization
    ensures PreparePlan(env, t, c) == ReplayPlan(env, t, i)
  {
    hide SlotsOk, SetupsOk, ReconnectsOk, ReplayPlan, FirstPreparePlan, IsRetired;
    assert Rows(t)[i] == t.setups[i];
    forall j | 0 <= j < |t.setups| && j != i ensures t.setups[j].id != c.id {
      assert Rows(t)[j] == t.setups[j];
    }
    forall j | 0 <= j < |t.reconnects| ensures t.reconnects[j].id != c.id {
      assert Rows(t)[|t.setups| + j] == t.reconnects[j];
    }
  }

  lemma ReplayDropsNothing(env: Env, s: Settings, i: nat)
    requires i < |s.setups|
    ensures forall e :: e in ReplayPlan(env, s, i).effects ==> !e.DropDir?
  {
    hide Valid, OtherActive;
  }

  lemma KnownDropsNothing(env: Env, s: Settings, c: Call)
    requires FilterShape(s.filter) && c.Prepare? && Find(s.setups, c.id) < |s.setups|
    ensures forall e :: e in PreparePlan(env, s, c).effects ==> !e.DropDir?
  {
    hide Valid, ReplayPlan;
    ReplayDropsNothing(env, s, Find(s.setups, c.id));
  }

  lemma PlanOfPrepare(env: Env, d: Disk, c: Call)
    requires Sound(env, d) && c.Prepare? && c.schema == SETTINGS_SCHEMA && ArgumentsOk(env, c)
    ensures PlanOf(env, d, c) == PreparePlan(env, View(env, d), c)
  {
    hide Valid, PreparePlan, ArgumentsOk;
  }

  lemma AcceptedPrepare(env: Env, d: Disk, c: Call)
    requires c.Prepare? && PlanOf(env, d, c).reply.Done?
    ensures c.schema == SETTINGS_SCHEMA && ArgumentsOk(env, c)
  {
    hide Valid, PreparePlan;
  }

  /** One accepted replay on a good disk. */
  lemma ReplayOnDisk(env: Env, d: Disk, c: Call, again: Call, identity: Identity)
    requires Good(env, d) && c.Prepare? && HasBound(View(env, d).setups, c.id, identity)
    requires PlanOf(env, d, c).reply.Done? && SameRequest(c, again)
    ensures var after := Next(env, d, Ran(c));
      && Good(env, after)
      && OneRegistration(View(env, after), identity.slot, identity.dir)
      && identity.dir in after.dirs
      && PlanOf(env, after, again) == Plan([MakeDir(identity.dir)], Done)
      && Next(env, after, Ran(again)) == after
  {
    hide Valid, RowsAgree, PreparePlan, OneRegistration, Load, PlanOf, HasBound, Chain;
    var s := View(env, d);
    var es := PlanOf(env, d, c).effects;
    AcceptedPrepare(env, d, c);
    PlanOfPrepare(env, d, c);
    PlanChain(env, d, c);
    ApplyAllView(env, d, es);
    KnownPrepare(env, s, c, again, identity);
    SetupFind(env, s, c.id, identity);
    ValidFilter(env, s);
    KnownDropsNothing(env, s, c);
    AppliedDir(d, es, identity.dir);
    var after := ApplyAll(d, es);
    PlanOfPrepare(env, after, again);
    OneMakeDir(after, identity.dir);
  }

  /** After a crash or stop anywhere, every successful replay of the id ends with exactly one managed
      registration of the intent's original slot and directory, the directory exists, and repeating the
      request changes neither file. */
  lemma ReplayConverges(env: Env, ls: seq<Label>, i: nat, k: nat, c: Call, again: Call)
    requires i <= |ls| && k < |At(env, ls, i).setups| && c.Prepare? && c.id == At(env, ls, i).setups[k].id
    requires forall m :: i <= m < |ls| ==>
      !CompletesRemove(env, Reach(env, ls[..m]), ls[m], At(env, ls, i).setups[k].slot)
    requires PlanOf(env, Reach(env, ls), c).reply.Done? && SameRequest(c, again)
    ensures var row := At(env, ls, i).setups[k];
      var after := Next(env, Reach(env, ls), Ran(c));
      && Good(env, after)
      && OneRegistration(View(env, after), row.slot, row.dir)
      && row.dir in after.dirs
      && PlanOf(env, after, again) == Plan([MakeDir(row.dir)], Done)
      && Next(env, after, Ran(again)) == after
  {
    hide Valid, PlanOf, OneRegistration, Next, View, Good, CompletesRemove;
    var row := At(env, ls, i).setups[k];
    var identity := IdentityOf(row);
    assert HasBound(At(env, ls, i).setups, row.id, identity);
    IntentSurvives(env, ls, i, |ls|, row.id, identity);
    assert ls[..|ls|] == ls;
    ReachGood(env, ls);
    ReplayOnDisk(env, Reach(env, ls), c, again, identity);
  }

  lemma OneMakeDir(d: Disk, dir: string)
    requires dir in d.dirs
    ensures ApplyAll(d, [MakeDir(dir)]) == d
  {
    assert [MakeDir(dir)][1..] == [];
    assert d.dirs + {dir} == d.dirs;
  }

  lemma {:induction false} AppliedDir(d: Disk, es: seq<Effect>, dir: string)
    requires forall e :: e in es ==> !e.DropDir?
    requires MakeDir(dir) in es || dir in d.dirs
    ensures dir in ApplyAll(d, es).dirs
    decreases es
  {
    if es != [] {
      assert forall e :: e in es[1..] ==> e in es;
      AppliedDir(Apply(d, es[0]), es[1..], dir);
    }
  }
}
