/** Where approvals come from, over every run: proof, admission or a first observation, never replacement
    by an observation. */
module SlotApprovals {
  import opened Prelude
  import opened SlotModel
  import opened SlotFilter
  import opened SlotCalls
  import opened SlotEvolution
  import opened SlotRuns

  predicate SameApproval(a: Slot, b: Slot) {
    && a.id == b.id && a.dir == b.dir
    && a.approvedAccount == b.approvedAccount
    && a.approvedOrganization == b.approvedOrganization
    && a.approvedFrom == b.approvedFrom
  }

  predicate Inherited(s: Settings, slot: Slot) {
    exists i :: 0 <= i < |s.slots| && SameApproval(s.slots[i], slot)
  }

  /** A completed operation on this exact slot and directory observed this exact pair. */
  predicate Proves(op: Operation, slot: Slot) {
    && op.slot == slot.id && op.dir == slot.dir && op.state.Complete?
    && op.account.Some? && op.organization.Some?
    && slot.approvedAccount == op.account && slot.approvedOrganization == op.organization
    && slot.approvedFrom == Some(if op.kind.ReconnectRegistered? then ReconnectProof else SetupProof)
  }

  predicate ProvenIn(s: Settings, slot: Slot) {
    exists i :: 0 <= i < |Rows(s)| && Proves(Rows(s)[i], slot)
  }

  predicate AdmittedBy(c: Call, slot: Slot) {
    && c.Admit? && c.slot == slot.id && c.dir == slot.dir
    && c.binding.Some? && c.binding == ApprovedBinding(slot)
    && slot.approvedFrom == Some(SetupProof)
  }

  /** The slot had no approval and every operation on it was Complete when the observation was stored. */
  predicate ObservedBy(s: Settings, c: Call, slot: Slot) {
    && c.EnsureApproved? && c.slot == slot.id
    && c.observed.Some? && c.observed == ApprovedBinding(slot)
    && slot.approvedFrom == Some(Observation)
    && var k := FindSlot(s.slots, slot.id);
       && k < |s.slots| && s.slots[k].dir == slot.dir
       && ApprovedBinding(s.slots[k]).None?
       && forall op :: op in Rows(s) && op.slot == slot.id && op.dir == slot.dir ==> op.state.Complete?
  }

  /** The only ways an approval gets onto a slot in one call. */
  predicate Accounted(s: Settings, c: Call, t: Settings, slot: Slot) {
    ApprovedBinding(slot).Some? ==>
      Inherited(s, slot) || ProvenIn(t, slot) || AdmittedBy(c, slot) || ObservedBy(s, c, slot)
  }

  predicate AllAccounted(s: Settings, c: Call, t: Settings) {
    forall i :: 0 <= i < |t.slots| ==> Accounted(s, c, t, t.slots[i])
  }

  // ---- each call accounts for every approval it saves

  /** Slots are those of `s`, possibly with unapproved ones appended. */
  predicate NoNewApproval(s: Settings, t: Settings) {
    forall i :: 0 <= i < |t.slots| && ApprovedBinding(t.slots[i]).Some? ==> t.slots[i] in s.slots
  }

  lemma NoNewAccounted(s: Settings, c: Call, t: Settings)
    requires NoNewApproval(s, t)
    ensures AllAccounted(s, c, t)
  {
    forall i | 0 <= i < |t.slots| ensures Accounted(s, c, t, t.slots[i]) {
      if ApprovedBinding(t.slots[i]).Some? {
        var j :| 0 <= j < |s.slots| && s.slots[j] == t.slots[i];
        assert SameApproval(s.slots[j], t.slots[i]);
      }
    }
  }

  /** One slot changes; it accounts for its own approval. */
  lemma OneSlotAccounted(s: Settings, c: Call, t: Settings, k: nat, slot: Slot)
    requires k < |s.slots| && t.slots == s.slots[k := slot] && Accounted(s, c, t, slot)
    ensures AllAccounted(s, c, t)
  {
    forall i | 0 <= i < |t.slots| ensures Accounted(s, c, t, t.slots[i]) {
      if i != k { assert SameApproval(s.slots[i], t.slots[i]); }
    }
  }

  predicate Saved(es: seq<Effect>, t: Settings) {
    Save(t) in es
  }

  lemma FinalizeSlots(env: Env, s: Settings, i: nat, t: Settings)
    requires i < |s.setups| && Saved(FinalizePlan(env, s, i).effects, t)
    ensures NoNewApproval(s, t)
  {
    hide Valid;
    assert t.slots == s.slots + [NewSlot(s.setups[i].slot, Managed, s.setups[i].dir)];
  }

  lemma ReplaySlots(env: Env, s: Settings, i: nat, t: Settings)
    requires i < |s.setups| && Saved(ReplayPlan(env, s, i).effects, t)
    ensures NoNewApproval(s, t)
  {
    hide Valid, OtherActive, FinalizePlan;
    var op := s.setups[i];
    var u := s.(setups := s.setups[i := op.(state := Preparing)]);
    if Saved(FinalizePlan(env, u, i).effects, t) {
      FinalizeSlots(env, u, i, t);
    } else if Saved(FinalizePlan(env, s, i).effects, t) {
      FinalizeSlots(env, s, i, t);
    }
  }

  lemma FirstPrepareSlots(env: Env, s: Settings, c: Call, t: Settings)
    requires c.Prepare? && Saved(FirstPreparePlan(env, s, c).effects, t)
    ensures NoNewApproval(s, t)
  {
    hide Valid, FinalizePlan, IntentRow;
    var dir := if c.reusable.Some? then c.reusable.value else ManagedPath(env, c.token);
    var u := s.(setups := s.setups + [IntentRow(s, c, dir)]);
    if Saved(FinalizePlan(env, u, |s.setups|).effects, t) {
      FinalizeSlots(env, u, |s.setups|, t);
    }
  }

  lemma PrepareAccounted(env: Env, s: Settings, c: Call, t: Settings)
    requires c.Prepare? && FilterShape(s.filter) && Saved(PreparePlan(env, s, c).effects, t)
    ensures NoNewApproval(s, t)
  {
    hide Valid, OtherActive, IsRetired, IntentRow, ReplayPlan, FirstPreparePlan;
    var i := Find(s.setups, c.id);
    if i < |s.setups| {
      ReplaySlots(env, s, i, t);
    } else {
      FirstPrepareSlots(env, s, c, t);
    }
  }

  lemma TransitionAccounted(env: Env, s: Settings, c: Call, t: Settings)
    requires c.Transition? && FilterShape(s.filter) && Saved(TransitionPlan(env, s, c).effects, t)
    ensures AllAccounted(s, c, t)
  {
    hide Valid, Retire, Mutated, Finishes, CompletedBinding, Proves;
    var i := Find(Rows(s), c.id);
    var updated := Mutated(Rows(s)[i], c).value;
    var k := FindExact(s.slots, updated.slot, updated.dir);
    if CompletedBinding(updated).Some? && k < |s.slots| {
      var slot := t.slots[k];
      ProofApproves(updated, s.slots[k], slot);
      assert Rows(t)[i] == updated by {
        if i < |s.setups| { assert t.setups[i] == updated; } else { assert t.reconnects[i - |s.setups|] == updated; }
      }
      OneSlotAccounted(s, c, t, k, slot);
    } else {
      NoNewAccounted(s, c, t);
    }
  }

  lemma CompletedShape(op: Operation)
    requires CompletedBinding(op).Some?
    ensures op.state.Complete? && op.account.Some? && op.organization.Some?
    ensures CompletedBinding(op) == Some(Binding(op.account.value, op.organization.value))
  {
  }

  lemma ProofApproves(op: Operation, prior: Slot, slot: Slot)
    requires CompletedBinding(op).Some? && op.slot == prior.id && op.dir == prior.dir
    requires slot == Approve(prior, CompletedBinding(op).value, SourceOf(op.kind))
    ensures Proves(op, slot)
  {
    hide CompletedBinding;
    CompletedShape(op);
  }

  lemma EnsureAccounted(env: Env, s: Settings, c: Call, t: Settings)
    requires c.EnsureApproved? && Saved(EnsurePlan(env, s, c).effects, t)
    ensures AllAccounted(s, c, t)
    ensures forall i :: 0 <= i < |s.slots| && ApprovedBinding(s.slots[i]).Some? ==>
      i < |t.slots| && t.slots[i] == s.slots[i]
  {
    hide Valid, SlotOps, CompletedBinding, Proves;
    var k := FindSlot(s.slots, c.slot);
    var choice := ToApprove(s, c.slot, c.observed).value;
    var slot := Approve(s.slots[k], choice.0, choice.1);
    assert t == s.(slots := s.slots[k := slot]);
    var effective := EffectiveBinding(s, c.slot);
    var ops := SlotOps(s, s.slots[k]);
    SlotOpsAre(s, s.slots[k]);
    if effective.Some? {
      var p := (op: Operation) => CompletedBinding(op).Some?;
      var proven := Latest(Filter(ops, p)).value;
      assert proven in Filter(ops, p) && proven in ops;
      assert ApprovedBinding(s.slots[k]).None?;
      var n :| 0 <= n < |Rows(s)| && Rows(s)[n] == proven;
      CompletedShape(proven);
      ProofApproves(proven, s.slots[k], slot);
      assert Rows(t)[n] == proven;
    } else {
      NoPendingUnderFirstUse(s, c.slot);
      assert ObservedBy(s, c, slot);
    }
    OneSlotAccounted(s, c, t, k, slot);
  }

  lemma SlotOpsAre(s: Settings, slot: Slot)
    ensures forall op :: op in SlotOps(s, slot) <==> op in Rows(s) && op.slot == slot.id && op.dir == slot.dir
  {
  }

  /** When every operation on the slot is Complete none is pending, so no effective pair means no approval. */
  lemma NoPendingUnderFirstUse(s: Settings, slotId: string)
    requires AllowsFirstUse(s, slotId) && EffectiveBinding(s, slotId).None?
    ensures ApprovedBinding(s.slots[FindSlot(s.slots, slotId)]).None?
  {
    var k := FindSlot(s.slots, slotId);
    FilterNone(SlotOps(s, s.slots[k]), (op: Operation) => Active(op));
  }

  lemma {:induction false} FilterNone(ops: seq<Operation>, p: Operation -> bool)
    requires forall op :: op in ops ==> !p(op)
    ensures Filter(ops, p) == []
  {
    if ops != [] {
      assert ops[0] in ops;
      FilterNone(ops[1..], p);
    }
  }

  lemma StopSlots(env: Env, s: Settings, c: Call, t: Settings)
    requires c.Stop? && Saved(StopPlan(env, s, c).effects, t)
    ensures NoNewApproval(s, t)
  {
    hide Valid;
  }

  lemma AdoptSlots(env: Env, s: Settings, c: Call, t: Settings)
    requires c.Adopt? && Saved(AdoptPlan(env, s, c).effects, t)
    ensures NoNewApproval(s, t)
  {
    hide Valid;
  }

  lemma RemoveSlots(env: Env, s: Settings, slot: string, t: Settings)
    requires FilterShape(s.filter) && Saved(RemovePlan(env, s, slot).effects, t)
    ensures NoNewApproval(s, t)
  {
    hide Valid, RetireAll, Filter;
  }

  lemma RegisterSlots(env: Env, s: Settings, c: Call, t: Settings)
    requires c.RegisterPath? && Saved(RegisterPlan(env, s, c.dir, c.ownership, c.token).effects, t)
    ensures NoNewApproval(s, t)
  {
    hide Valid;
  }

  /** Every save of every call accounts for every approval in it. */
  lemma SavesAccounted(env: Env, s: Settings, c: Call, t: Settings)
    requires FilterShape(s.filter) && Saved(LockedPlan(env, s, c).effects, t)
    ensures AllAccounted(s, c, t)
  {
    hide Valid, AllAccounted, NoNewApproval, AdmitPlan, PreparePlan, ReconnectPlan, TransitionPlan, StopPlan,
      EnsurePlan, AdoptPlan, RemovePlan, RegisterPlan;
    match c {
      case SetConsent(_, _) => UnchangedSlots(s, t);
      case RegisterPath(_, _, _, _) => RegisterSlots(env, s, c, t);
      case Admit(_, _, _, _) => AdmitAccounted(env, s, c, t);
      case Prepare(_, _, _, _, _, _, _) => PrepareAccounted(env, s, c, t);
      case Reconnect(_, _, _, _, _, _) =>
        ReconnectTouches(env, s, c, t);
        UnchangedSlots(s, t);
      case Transition(_, _, _, _, _, _, _) => TransitionAccounted(env, s, c, t);
      case Stop(_, _, _) => StopSlots(env, s, c, t);
      case EnsureApproved(_, _, _, _) => EnsureAccounted(env, s, c, t);
      case Adopt(_, _, _) => AdoptSlots(env, s, c, t);
      case Remove(_, slot) => RemoveSlots(env, s, slot, t);
    }
    if NoNewApproval(s, t) { NoNewAccounted(s, c, t); }
  }

  lemma UnchangedSlots(s: Settings, t: Settings)
    requires t.slots == s.slots
    ensures NoNewApproval(s, t)
  {
  }

  lemma FirstReconnectTouches(env: Env, s: Settings, c: Call, t: Settings)
    requires c.Reconnect? && FilterShape(s.filter) && Saved(FirstReconnectPlan(env, s, c).effects, t)
    ensures t.slots == s.slots && t.setups == s.setups
  {
    hide Valid, Retire, ReconnectRow;
  }

  /** A reconnect changes neither registrations nor managed setups. */
  lemma ReconnectTouches(env: Env, s: Settings, c: Call, t: Settings)
    requires c.Reconnect? && FilterShape(s.filter) && Saved(ReconnectPlan(env, s, c).effects, t)
    ensures t.slots == s.slots && t.setups == s.setups
  {
    hide Valid, OtherActive, IsRetired, FirstReconnectPlan;
    if Saved(FirstReconnectPlan(env, s, c).effects, t) {
      FirstReconnectTouches(env, s, c, t);
    }
  }

  lemma AdmitAccounted(env: Env, s: Settings, c: Call, t: Settings)
    requires c.Admit? && Saved(AdmitPlan(env, s, c.slot, c.dir, c.binding).effects, t)
    ensures AllAccounted(s, c, t)
  {
    hide Valid;
    var k := FindEither(s.slots, c.slot, c.dir);
    if k < |s.slots| {
      assert SameApproval(s.slots[k], s.slots[k]);
      OneSlotAccounted(s, c, t, k, t.slots[k]);
    } else {
      forall i | 0 <= i < |t.slots| ensures Accounted(s, c, t, t.slots[i]) {
        if i < |s.slots| { assert SameApproval(s.slots[i], t.slots[i]); }
      }
    }
  }

  // ---- steps

  /** After any crash of a plan the loaded settings are the old ones or a saved one, up to the filter. */
  predicate FromPlan(s: Settings, es: seq<Effect>, v: Settings) {
    || v.(filter := []) == s.(filter := [])
    || exists i :: 0 <= i < |es| && es[i].Save? && v.(filter := []) == es[i].settings.(filter := [])
  }

  lemma {:induction false} CrashView(env: Env, d: Disk, es: seq<Effect>, k: nat, half: bool)
    requires Good(env, d) && Chain(env, View(env, d), es)
    ensures Good(env, CrashDisk(d, es, k, half))
    ensures FromPlan(View(env, d), es, View(env, CrashDisk(d, es, k, half)))
    decreases es
  {
    hide Sound, Evolves, Valid, RowsAgree;
    var s := View(env, d);
    if es == [] {
    } else if es[0].Save? {
      var t := es[0].settings;
      EvolvesParts(env, s, t);
      if k == 0 {
        HalfSaveReadsBack(env, d, t);
        HalfEvolves(env, s, t);
        EvolvesParts(env, s, s.(filter := t.filter));
      } else {
        SaveReadsBack(env, d, t);
        CrashView(env, AfterSave(d, t), es[1..], k - 1, half);
        FromTail(s, t, es, View(env, CrashDisk(d, es, k, half)));
      }
    } else if k > 0 {
      DirsKeepView(env, d, Apply(d, es[0]).dirs);
      CrashView(env, Apply(d, es[0]), es[1..], k - 1, half);
      FromTail(s, s, es, View(env, CrashDisk(d, es, k, half)));
    }
  }

  lemma FromTail(s: Settings, t: Settings, es: seq<Effect>, v: Settings)
    requires es != [] && FromPlan(t, es[1..], v)
    requires es[0] == Save(t) || t == s
    ensures FromPlan(s, es, v)
  {
    if v.(filter := []) == t.(filter := []) {
      if es[0] == Save(t) { assert es[0].settings == t; }
    } else {
      var i :| 0 <= i < |es[1..]| && es[1..][i].Save? && v.(filter := []) == es[1..][i].settings.(filter := []);
      assert es[i + 1] == es[1..][i];
    }
  }

  function CallOf(l: Label): Option<Call> {
    match l
    case Ran(c) => Some(c)
    case Crashed(c, _, _) => Some(c)
    case _ => None
  }

  lemma CallView(env: Env, d: Disk, l: Label)
    requires Good(env, d) && CallOf(l).Some?
    ensures Good(env, Next(env, d, l))
    ensures FromPlan(View(env, d), PlanOf(env, d, CallOf(l).value).effects, View(env, Next(env, d, l)))
  {
    hide PlanOf, View, Good, Chain, FromPlan;
    var c := CallOf(l).value;
    var es := PlanOf(env, d, c).effects;
    PlanChain(env, d, c);
    if l.Ran? {
      FullIsCrash(d, es);
      CrashView(env, d, es, |es|, false);
    } else {
      CrashView(env, d, es, l.after, l.half);
    }
  }

  lemma PlanSaves(env: Env, d: Disk, c: Call, i: nat)
    requires Good(env, d) && i < |PlanOf(env, d, c).effects| && PlanOf(env, d, c).effects[i].Save?
    ensures Saved(LockedPlan(env, View(env, d), c).effects, PlanOf(env, d, c).effects[i].settings)
  {
    hide Valid, LockedPlan, FirstLook, ArgumentsOk;
    assert PlanOf(env, d, c).effects[i] in PlanOf(env, d, c).effects;
  }

  lemma AccountedAnyFilter(s: Settings, c: Call, t: Settings, v: Settings)
    requires AllAccounted(s, c, t) && v.(filter := []) == t.(filter := [])
    ensures AllAccounted(s, c, v)
  {
    assert v.slots == t.slots && Rows(v) == Rows(t);
    forall i | 0 <= i < |v.slots| ensures Accounted(s, c, v, v.slots[i]) {
      assert Accounted(s, c, t, t.slots[i]);
    }
  }

  /** One step of any kind: each approval afterwards was there before or has one of the three origins. */
  lemma StepAccounted(env: Env, d: Disk, l: Label)
    requires Good(env, d)
    ensures Good(env, Next(env, d, l))
    ensures var s, t := View(env, d), View(env, Next(env, d, l));
      && (CallOf(l).Some? ==> AllAccounted(s, CallOf(l).value, t))
      && (CallOf(l).None? ==> NoNewApproval(s, t))
  {
    hide Valid, PlanOf, AllAccounted;
    var s := View(env, d);
    match l
    case Downgraded(schema) => DowngradeView(env, d, schema);
    case DirsChanged(dirs) => DirsKeepView(env, d, dirs);
    case _ =>
      var c := CallOf(l).value;
      CallView(env, d, l);
      var es := PlanOf(env, d, c).effects;
      var v := View(env, Next(env, d, l));
      if v.(filter := []) == s.(filter := []) {
        NoNewAccounted(s, c, s);
        AccountedAnyFilter(s, c, s, v);
      } else {
        var i :| 0 <= i < |es| && es[i].Save? && v.(filter := []) == es[i].settings.(filter := []);
        PlanSaves(env, d, c, i);
        SavesAccounted(env, s, c, es[i].settings);
        AccountedAnyFilter(s, c, es[i].settings, v);
      }
  }

  // ---- the promises

  /** At some earlier point of the run a completed operation had proved this approval, or the step to that
      point admitted it. */
  predicate Grounded(env: Env, ls: seq<Label>, i: nat, slot: Slot)
    requires i <= |ls|
  {
    || ProvenIn(At(env, ls, i), slot)
    || (i > 0 && CallOf(ls[i - 1]).Some? && AdmittedBy(CallOf(ls[i - 1]).value, slot))
  }

  lemma AtStep(env: Env, ls: seq<Label>, j: nat)
    requires 0 < j <= |ls|
    ensures Good(env, Reach(env, ls[..j - 1]))
    ensures At(env, ls, j - 1) == View(env, Reach(env, ls[..j - 1]))
    ensures Reach(env, ls[..j]) == Next(env, Reach(env, ls[..j - 1]), ls[j - 1])
  {
    hide Next, View, Valid;
    ReachGood(env, ls[..j - 1]);
    assert ls[..j][..j - 1] == ls[..j - 1];
  }

  lemma StartsEmpty(env: Env, ls: seq<Label>)
    ensures At(env, ls, 0) == DEFAULT_SETTINGS
  {
    assert ls[..0] == [];
    ReachGood(env, []);
  }

  /** Every setup- or reconnect-sourced approval goes back to a proof on the same slot and directory, or to
      an admission with that pair. */
  lemma {:induction false} ApprovalProvenance(env: Env, ls: seq<Label>, j: nat, k: nat)
    requires j <= |ls| && k < |At(env, ls, j).slots|
    requires ApprovedBinding(At(env, ls, j).slots[k]).Some?
    requires var from := At(env, ls, j).slots[k].approvedFrom; from == Some(SetupProof) || from == Some(ReconnectProof)
    ensures exists i :: 0 <= i <= j && Grounded(env, ls, i, At(env, ls, j).slots[k])
    decreases j
  {
    hide Valid, Next, PlanOf;
    var slot := At(env, ls, j).slots[k];
    if j == 0 {
      StartsEmpty(env, ls);
      assert false;
    }
    AtStep(env, ls, j);
    StepAccounted(env, Reach(env, ls[..j - 1]), ls[j - 1]);
    var s, t := At(env, ls, j - 1), At(env, ls, j);
    var c := CallOf(ls[j - 1]);
    if c.Some? && (ProvenIn(t, slot) || AdmittedBy(c.value, slot)) {
      assert Grounded(env, ls, j, slot);
    } else {
      assert c.Some? ==> Accounted(s, c.value, t, slot);
      var m := InheritedFrom(s, slot);
      ApprovalProvenance(env, ls, j - 1, m);
      var i :| 0 <= i <= j - 1 && Grounded(env, ls, i, s.slots[m]);
      GroundedSame(env, ls, i, s.slots[m], slot);
    }
  }

  lemma InheritedFrom(s: Settings, slot: Slot) returns (m: nat)
    requires Inherited(s, slot) || slot in s.slots
    ensures m < |s.slots| && SameApproval(s.slots[m], slot)
  {
    if slot in s.slots {
      m :| 0 <= m < |s.slots| && s.slots[m] == slot;
    } else {
      m :| 0 <= m < |s.slots| && SameApproval(s.slots[m], slot);
    }
  }

  lemma GroundedSame(env: Env, ls: seq<Label>, i: nat, a: Slot, b: Slot)
    requires i <= |ls| && SameApproval(a, b) && Grounded(env, ls, i, a)
    ensures Grounded(env, ls, i, b)
  {
    hide Valid, CompletedBinding;
    var s := At(env, ls, i);
    if ProvenIn(s, a) {
      var n :| 0 <= n < |Rows(s)| && Proves(Rows(s)[n], a);
      assert Proves(Rows(s)[n], b);
    }
  }

  /** An observed approval was there before the step, or was stored by it on a slot that had no approval and
      whose every operation was Complete, whatever the unlocked first look had seen. */
  lemma ObservationNeverReplaces(env: Env, ls: seq<Label>, j: nat, k: nat)
    requires 0 < j <= |ls| && k < |At(env, ls, j).slots|
    requires ApprovedBinding(At(env, ls, j).slots[k]).Some?
    requires At(env, ls, j).slots[k].approvedFrom == Some(Observation)
    ensures var s, slot, c := At(env, ls, j - 1), At(env, ls, j).slots[k], CallOf(ls[j - 1]);
      Inherited(s, slot) || (c.Some? && ObservedBy(s, c.value, slot))
  {
    hide Valid, Next, PlanOf;
    AtStep(env, ls, j);
    StepAccounted(env, Reach(env, ls[..j - 1]), ls[j - 1]);
    var s, t := At(env, ls, j - 1), At(env, ls, j);
    var slot, c := t.slots[k], CallOf(ls[j - 1]);
    if c.Some? {
      assert Accounted(s, c.value, t, slot);
    } else {
      var m := InheritedFrom(s, slot);
    }
  }
}
