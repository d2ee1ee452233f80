/** Every public mutation of the slot store, as the plan of directory changes and saves it performs
    on the settings it loaded, and the reply it gives. */
module SlotCalls {
  import opened Prelude
  import opened SlotModel
  import opened SlotFilter

  datatype Effect = MakeDir(path: string) | DropDir(path: string) | Save(settings: Settings)

  datatype Reply = Done | Bound(binding: Option<Binding>) | Adopted(adopted: bool) | Refused(error: Error)

  datatype Plan = Plan(effects: seq<Effect>, reply: Reply)

  datatype Call =
    | SetConsent(schema: nat, consent: bool)
    | RegisterPath(schema: nat, dir: string, ownership: Ownership, token: string)
    | Admit(schema: nat, slot: string, dir: string, binding: Option<Binding>)
    | Prepare(schema: nat, id: string, target: Option<string>, account: Option<string>,
              organization: Option<string>, reusable: Option<string>, token: string)
    | Reconnect(schema: nat, id: string, slot: string, target: Option<string>, hash: string,
                organization: Option<string>)
    | Transition(schema: nat, id: string, expectedAccount: Option<string>, expectedOrganization: Option<string>,
                 state: OpState, account: Option<string>, organization: Option<string>)
    | Stop(schema: nat, id: string, dirEmpty: bool)
    | EnsureApproved(schema: nat, slot: string, observed: Option<Binding>, before: Disk)
    | Adopt(schema: nat, id: string, proven: Binding)
    | Remove(schema: nat, slot: string)

  function Refuse(e: Error): Plan {
    Plan([], Refused(e))
  }

  /** Save after `validate_persisted`, or refuse. */
  function SaveChecked(env: Env, s: Settings, reply: Reply): Plan {
    if Valid(env, s) then Plan([Save(s)], reply) else Refuse(Invalid)
  }

  // ---- shared helpers

  function Filter(ops: seq<Operation>, p: Operation -> bool): (r: seq<Operation>)
    ensures |r| <= |ops|
    ensures forall x :: x in r <==> x in ops && p(x)
  {
    if ops == [] then []
    else (if p(ops[0]) then [ops[0]] else []) + Filter(ops[1..], p)
  }

  /** The last row of greatest creation sequence. */
  function Latest(ops: seq<Operation>): (r: Option<Operation>)
    ensures r.None? <==> ops == []
    ensures r.Some? ==> r.value in ops && forall x :: x in ops ==> x.sequence <= r.value.sequence
  {
    if ops == [] then None
    else
      var last := ops[|ops| - 1];
      var rest := Latest(ops[..|ops| - 1]);
      assert ops == ops[..|ops| - 1] + [last];
      if rest.Some? && rest.value.sequence > last.sequence then rest else Some(last)
  }

  function NextSequence(s: Settings): nat {
    var latest := Latest(Rows(s));
    var top := if latest.Some? then latest.value.sequence else 0;
    if top >= MAX_SEQUENCE then MAX_SEQUENCE else top + 1
  }

  predicate OtherActive(s: Settings, id: string) {
    exists i :: 0 <= i < |Rows(s)| && Rows(s)[i].id != id && Active(Rows(s)[i])
  }

  function WithRow(s: Settings, i: nat, op: Operation): Settings
    requires i < |Rows(s)|
  {
    if i < |s.setups| then s.(setups := s.setups[i := op])
    else s.(reconnects := s.reconnects[i - |s.setups| := op])
  }

  function FindExact(slots: seq<Slot>, id: string, dir: string): (i: nat)
    ensures i <= |slots|
    ensures i < |slots| ==> slots[i].id == id && slots[i].dir == dir
    ensures forall j :: 0 <= j < i ==> slots[j].id != id || slots[j].dir != dir
  {
    if slots == [] then 0
    else if slots[0].id == id && slots[0].dir == dir then 0
    else 1 + FindExact(slots[1..], id, dir)
  }

  // ---- consent, registration, removal

  function RegisterPlan(env: Env, s: Settings, dir: string, ownership: Ownership, token: string): Plan {
    SaveChecked(env, s.(slots := s.slots + [NewSlot(token, ownership, dir)]), Done)
  }

  function FindEither(slots: seq<Slot>, id: string, dir: string): (i: nat)
    ensures i <= |slots|
    ensures i < |slots| ==> slots[i].id == id || slots[i].dir == dir
    ensures forall j :: 0 <= j < i ==> slots[j].id != id && slots[j].dir != dir
  {
    if slots == [] then 0
    else if slots[0].id == id || slots[0].dir == dir then 0
    else 1 + FindEither(slots[1..], id, dir)
  }

  /** Admission of a provisional root, with the pair it was verified for. */
  function AdmitPlan(env: Env, s: Settings, slot: string, dir: string, binding: Option<Binding>): Plan {
    var k := FindEither(s.slots, slot, dir);
    if k < |s.slots| then
      var prior := s.slots[k];
      if prior.id == slot && prior.dir == dir && prior.ownership.Managed? then
        var updated := if binding.Some? then Approve(prior, binding.value, SetupProof) else prior;
        SaveChecked(env, s.(slots := s.slots[k := updated]), Done)
      else Refuse(Invalid)
    else
      var token := NewSlot(slot, Managed, dir);
      var updated := if binding.Some? then Approve(token, binding.value, SetupProof) else token;
      SaveChecked(env, s.(slots := s.slots + [updated]), Done)
  }

  function RetireAll(env: Env, filter: seq<bv64>, ops: seq<Operation>): (r: seq<bv64>)
    requires FilterShape(filter)
    ensures FilterShape(r)
    decreases ops
  {
    if ops == [] then filter else RetireAll(env, Retire(env, filter, ops[0].id), ops[1..])
  }

  function Removed(env: Env, s: Settings, slot: string): Settings
    requires FilterShape(s.filter) && FindSlot(s.slots, slot) < |s.slots|
  {
    var k := FindSlot(s.slots, slot);
    s.(slots := s.slots[..k] + s.slots[k + 1..],
       setups := Filter(s.setups, (op: Operation) => op.slot != slot),
       filter := RetireAll(env, s.filter, Filter(s.reconnects, (op: Operation) => op.slot == slot)),
       reconnects := Filter(s.reconnects, (op: Operation) => op.slot != slot))
  }

  function RemovePlan(env: Env, s: Settings, slot: string): Plan
    requires FilterShape(s.filter)
  {
    if FindSlot(s.slots, slot) == |s.slots| then Refuse(Invalid)
    else SaveChecked(env, Removed(env, s, slot), Done)
  }

  // ---- managed setup

  /** Register the directory an intent row names, and move the row on to waiting for login. */
  function Finalized(s: Settings, i: nat): Settings
    requires i < |s.setups|
  {
    var op := s.setups[i];
    s.(slots := s.slots + [NewSlot(op.slot, Managed, op.dir)],
       setups := s.setups[i := op.(state := WaitingForUserLogin)])
  }

  function FinalizePlan(env: Env, s: Settings, i: nat): Plan
    requires i < |s.setups|
  {
    var op := s.setups[i];
    if !op.state.Preparing? then Refuse(BadState)
    else
      var t := Finalized(s, i);
      if Valid(env, t) then Plan([MakeDir(op.dir), Save(t)], Done)
      else Plan([MakeDir(op.dir)], Refused(Invalid))
  }

  function After(first: seq<Effect>, rest: Plan): Plan {
    Plan(first + rest.effects, rest.reply)
  }

  /** Replay of a known setup id. The two resume saves are not validated again. */
  function ReplayPlan(env: Env, s: Settings, i: nat): Plan
    requires i < |s.setups|
  {
    var op := s.setups[i];
    var k := FindSlot(s.slots, op.slot);
    if k < |s.slots| then
      if !s.slots[k].ownership.Managed? || s.slots[k].dir != op.dir then Refuse(BadState)
      else if op.state.SetupStopped? then
        if OtherActive(s, op.id) then Plan([MakeDir(op.dir)], Refused(Invalid))
        else
          Plan([MakeDir(op.dir),
                Save(s.(setups := s.setups[i := op.(state := WaitingForUserLogin)]))], Done)
      else Plan([MakeDir(op.dir)], Done)
    else if op.state.SetupStopped? then
      if OtherActive(s, op.id) then Refuse(Invalid)
      else
        var t := s.(setups := s.setups[i := op.(state := Preparing)]);
        After([Save(t)], FinalizePlan(env, t, i))
    else if op.state.Preparing? then FinalizePlan(env, s, i)
    else Refuse(BadState)
  }

  function IntentRow(s: Settings, c: Call, dir: string): Operation
    requires c.Prepare?
  {
    Operation(ConnectManaged, NextSequence(s), c.id, c.token, dir, Preparing, c.target,
              c.account, c.organization, c.account, c.organization, None, None)
  }

  /** A first prepare: journal the intent, then create the directory, then register it. */
  function FirstPreparePlan(env: Env, s: Settings, c: Call): Plan
    requires c.Prepare?
  {
    if c.reusable.Some?
       && (!env.directChild(c.reusable.value)
           || (exists i :: 0 <= i < |s.slots| && s.slots[i].dir == c.reusable.value)
           || (exists i :: 0 <= i < |Rows(s)| && Rows(s)[i].dir == c.reusable.value))
    then Plan([MakeDir(env.root)], Refused(Invalid))
    else
      var dir := if c.reusable.Some? then c.reusable.value else ManagedPath(env, c.token);
      var made := [MakeDir(env.root)] + (if c.reusable.Some? then [MakeDir(dir)] else []);
      var t := s.(setups := s.setups + [IntentRow(s, c, dir)]);
      if !ValidDir(dir) || !Valid(env, t) then Plan(made, Refused(Invalid))
      else After(made + [Save(t)], FinalizePlan(env, t, |s.setups|))
  }

  function PreparePlan(env: Env, s: Settings, c: Call): Plan
    requires c.Prepare? && FilterShape(s.filter)
  {
    if HasOp(s.reconnects, c.id) then Refuse(Invalid)
    else
      var i := Find(s.setups, c.id);
      if i < |s.setups| then
        var op := s.setups[i];
        if op.target != c.target || op.requestedAccount != c.account || op.requestedOrganization != c.organization
        then Refuse(Invalid)
        else ReplayPlan(env, s, i)
      else if IsRetired(env, s.filter, c.id) then Refuse(Invalid)
      else if OtherActive(s, c.id) then Refuse(Invalid)
      else if |s.slots| + Unregistered(s.slots, s.setups) >= MAX_REGISTERED then Refuse(Invalid)
      else FirstPreparePlan(env, s, c)
  }

  // ---- reconnect

  function ReconnectRow(s: Settings, c: Call, dir: string): Operation
    requires c.Reconnect?
  {
    Operation(ReconnectRegistered, NextSequence(s), c.id, c.slot, dir, WaitingForUserLogin, c.target,
              Some(c.hash), c.organization, Some(c.hash), c.organization, Some(c.hash), c.organization)
  }

  function FindBySlot(ops: seq<Operation>, slot: string): (i: nat)
    ensures i <= |ops|
    ensures i < |ops| ==> ops[i].slot == slot
    ensures forall j :: 0 <= j < i ==> ops[j].slot != slot
  {
    if ops == [] then 0
    else if ops[0].slot == slot then 0
    else 1 + FindBySlot(ops[1..], slot)
  }

  /** Settings after the finished reconnect of this slot, if any, gave way to its successor. */
  function Superseded(env: Env, s: Settings, slot: string): Settings
    requires FilterShape(s.filter)
  {
    var j := FindBySlot(s.reconnects, slot);
    if j == |s.reconnects| then s
    else
      var prior := s.reconnects[j].id;
      s.(filter := Retire(env, s.filter, prior),
         reconnects := Filter(s.reconnects, (op: Operation) => op.id != prior))
  }

  function FirstReconnectPlan(env: Env, s: Settings, c: Call): Plan
    requires c.Reconnect? && FilterShape(s.filter)
  {
    var k := FindSlot(s.slots, c.slot);
    var j := FindBySlot(s.reconnects, c.slot);
    if k == |s.slots| then Refuse(Invalid)
    else if exists i :: 0 <= i < |s.setups| && s.setups[i].slot == c.slot && !AllowsSuccessor(s.setups[i])
    then Refuse(Invalid)
    else if j < |s.reconnects| && !AllowsSuccessor(s.reconnects[j]) then Refuse(Invalid)
    else
      var t := Superseded(env, s, c.slot);
      SaveChecked(env, t.(reconnects := t.reconnects + [ReconnectRow(t, c, s.slots[k].dir)]), Done)
  }

  function ReconnectPlan(env: Env, s: Settings, c: Call): Plan
    requires c.Reconnect? && FilterShape(s.filter)
  {
    if HasOp(s.setups, c.id) then Refuse(Invalid)
    else
      var i := Find(s.reconnects, c.id);
      if i < |s.reconnects| then
        var op := s.reconnects[i];
        var k := FindSlot(s.slots, op.slot);
        if !op.kind.ReconnectRegistered? || op.slot != c.slot || op.target != c.target
           || op.requestedAccount != Some(c.hash) || op.requestedOrganization != c.organization
        then Refuse(Invalid)
        else if k == |s.slots| then Refuse(Invalid)
        else if s.slots[k].dir != op.dir then Refuse(BadState)
        else if op.state.SetupStopped? then
          if OtherActive(s, c.id) then Refuse(Invalid)
          else Plan([Save(s.(reconnects := s.reconnects[i := op.(state := WaitingForUserLogin)]))], Done)
        else Plan([], Done)
      else if IsRetired(env, s.filter, c.id) then Refuse(Invalid)
      else if OtherActive(s, c.id) then Refuse(Invalid)
      else FirstReconnectPlan(env, s, c)
  }

  // ---- transitions and stop

  predicate Clash(bound: Option<string>, given: Option<string>) {
    bound.Some? && given.Some? && bound != given
  }

  function OrElse(a: Option<string>, b: Option<string>): Option<string> {
    if a.Some? then a else b
  }

  /** The row after an observation, or None when it contradicts the row's binding. */
  function Mutated(op: Operation, c: Call): Option<Operation>
    requires c.Transition?
  {
    if op.state.SetupStopped? then Some(op)
    else
      var account := OrElse(op.expectedAccount, c.expectedAccount);
      var organization := OrElse(op.expectedOrganization, c.expectedOrganization);
      if || Clash(op.expectedAccount, c.expectedAccount)
         || Clash(op.expectedOrganization, c.expectedOrganization)
         || Clash(account, c.account)
         || Clash(organization, c.organization)
      then None
      else
        Some(op.(state := c.state,
                 expectedAccount := OrElse(account, c.account),
                 expectedOrganization := OrElse(organization, c.organization),
                 account := c.account,
                 organization := c.organization))
  }

  /** A completed operation is the approval of record for its exact slot. */
  function WithProof(s: Settings, op: Operation): Settings {
    var proof := CompletedBinding(op);
    var k := FindExact(s.slots, op.slot, op.dir);
    if proof.Some? && k < |s.slots|
    then s.(slots := s.slots[k := Approve(s.slots[k], proof.value, SourceOf(op.kind))])
    else s
  }

  predicate Finishes(before: Operation, after: Operation) {
    && after.kind.ReconnectRegistered?
    && !(before.kind.ReconnectRegistered? && AllowsSuccessor(before))
    && AllowsSuccessor(after)
  }

  function TransitionPlan(env: Env, s: Settings, c: Call): Plan
    requires c.Transition? && FilterShape(s.filter)
  {
    var i := Find(Rows(s), c.id);
    if i == |Rows(s)| then Refuse(Invalid)
    else
      var op := Rows(s)[i];
      var updated := Mutated(op, c);
      if updated.None? then Refuse(Invalid)
      else
        var t := WithProof(WithRow(s, i, updated.value), updated.value);
        var filter := if Finishes(op, updated.value) then Retire(env, s.filter, c.id) else s.filter;
        SaveChecked(env, t.(filter := filter), Done)
  }

  function StopPlan(env: Env, s: Settings, c: Call): Plan
    requires c.Stop?
  {
    var i := Find(Rows(s), c.id);
    if i == |Rows(s)| then Refuse(Invalid)
    else
      var op := Rows(s)[i];
      if op.state.Complete? || op.state.SetupStopped? then SaveChecked(env, s, Done)
      else
        var drop := if !HasSlot(s.slots, op.slot) && op.kind.ConnectManaged? && c.dirEmpty
                    then [DropDir(op.dir)] else [];
        After(drop, SaveChecked(env, WithRow(s, i, op.(state := SetupStopped)), Done))
  }

  // ---- approvals

  datatype BindingOrigin = PendingOperation | Approved | CompletedOperation(source: ApprovalSource)

  function SlotOps(s: Settings, slot: Slot): seq<Operation> {
    Filter(Rows(s), (op: Operation) => op.slot == slot.id && op.dir == slot.dir)
  }

  /** The pair a slot must currently be signed in to, and where it comes from. */
  function EffectiveBinding(s: Settings, slotId: string): Option<(Binding, BindingOrigin)> {
    var k := FindSlot(s.slots, slotId);
    if k == |s.slots| then None
    else
      var approved := ApprovedBinding(s.slots[k]);
      var ops := SlotOps(s, s.slots[k]);
      var pending := Latest(Filter(ops, (op: Operation) => Active(op)));
      var proven := Latest(Filter(ops, (op: Operation) => CompletedBinding(op).Some?));
      if pending.Some? then
        var p := pending.value;
        if p.expectedAccount.Some? && p.expectedOrganization.Some?
           && ValidHash(p.expectedAccount.value) && ValidHash(p.expectedOrganization.value)
        then Some((Binding(p.expectedAccount.value, p.expectedOrganization.value), PendingOperation))
        else if approved.Some? && (p.expectedAccount.Some? ==> approved.value.account == p.expectedAccount.value)
        then Some((approved.value, PendingOperation))
        else None
      else if approved.Some? then Some((approved.value, Approved))
      else if proven.Some?
      then Some((CompletedBinding(proven.value).value, CompletedOperation(SourceOf(proven.value.kind))))
      else None
  }

  predicate AllowsFirstUse(s: Settings, slotId: string) {
    var k := FindSlot(s.slots, slotId);
    k < |s.slots| && forall op :: op in SlotOps(s, s.slots[k]) ==> op.state.Complete?
  }

  /** What to approve: None when nothing may be written. */
  function ToApprove(s: Settings, slotId: string, observed: Option<Binding>): Option<(Binding, ApprovalSource)> {
    var effective := EffectiveBinding(s, slotId);
    if effective.Some? then
      if effective.value.1.CompletedOperation? then Some((effective.value.0, effective.value.1.source)) else None
    else if observed.Some? && AllowsFirstUse(s, slotId) then Some((observed.value, Observation))
    else None
  }

  /** Reply when nothing is written. */
  function CurrentBinding(s: Settings, slotId: string): Option<Binding> {
    var effective := EffectiveBinding(s, slotId);
    if effective.Some? then Some(effective.value.0) else None
  }

  function EnsurePlan(env: Env, s: Settings, c: Call): Plan
    requires c.EnsureApproved?
  {
    var choice := ToApprove(s, c.slot, c.observed);
    var k := FindSlot(s.slots, c.slot);
    if choice.None? then Plan([], Bound(CurrentBinding(s, c.slot)))
    else if k == |s.slots| then Plan([], Bound(None))
    else
      var slot := Approve(s.slots[k], choice.value.0, choice.value.1);
      SaveChecked(env, s.(slots := s.slots[k := slot]), Bound(Some(choice.value.0)))
  }

  function AdoptPlan(env: Env, s: Settings, c: Call): Plan
    requires c.Adopt?
  {
    var i := Find(s.reconnects, c.id);
    if i == |s.reconnects| || !Active(s.reconnects[i]) then Plan([], Adopted(false))
    else
      var op := s.reconnects[i];
      var k := FindExact(s.slots, op.slot, op.dir);
      if k == |s.slots| || ApprovedBinding(s.slots[k]).None? || !ApprovalSourceOf(s.slots[k]).Observation?
      then Plan([], Adopted(false))
      else
        var updated := op.(expectedAccount := Some(c.proven.account),
                        expectedOrganization := Some(c.proven.organization),
                        account := Some(c.proven.account),
                        organization := Some(c.proven.organization));
        SaveChecked(env, s.(reconnects := s.reconnects[i := updated]), Adopted(true))
  }

  // ---- one call

  /** The argument checks made before the lock is taken. */
  predicate ArgumentsOk(env: Env, c: Call) {
    match c
    case SetConsent(_, _) => true
    case RegisterPath(_, dir, _, _) => ValidDir(dir)
    case Admit(_, slot, dir, binding) =>
      && ValidSlotId(slot) && ValidDir(dir) && env.directChild(dir)
      && (binding.Some? ==> ValidBinding(binding.value))
    case Prepare(_, id, target, account, organization, _, _) =>
      && ValidOpId(id) && ValidOptHash(account) && ValidOptHash(organization)
      && ValidTarget(target, account, organization)
    case Reconnect(_, id, slot, target, hash, organization) =>
      && ValidOpId(id) && ValidSlotId(slot) && ValidHash(hash) && ValidOptHash(organization)
      && ValidTarget(target, Some(hash), organization)
    case Transition(_, id, expectedAccount, expectedOrganization, _, account, organization) =>
      && ValidOpId(id) && ValidOptHash(expectedAccount) && ValidOptHash(expectedOrganization)
      && ValidOptHash(account) && ValidOptHash(organization)
    case Stop(_, id, _) => ValidOpId(id)
    case EnsureApproved(_, _, observed, _) => observed.Some? ==> ValidBinding(observed.value)
    case Adopt(_, id, proven) => ValidOpId(id) && ValidBinding(proven)
    case Remove(_, slot) => slot != "default"
  }

  function LockedPlan(env: Env, s: Settings, c: Call): Plan
    requires FilterShape(s.filter)
  {
    match c
    case SetConsent(_, consent) => SaveChecked(env, s.(consent := consent, consentChosen := true), Done)
    case RegisterPath(_, dir, ownership, token) => RegisterPlan(env, s, dir, ownership, token)
    case Admit(_, slot, dir, binding) => AdmitPlan(env, s, slot, dir, binding)
    case Prepare(_, _, _, _, _, _, _) => PreparePlan(env, s, c)
    case Reconnect(_, _, _, _, _, _) => ReconnectPlan(env, s, c)
    case Transition(_, _, _, _, _, _, _) => TransitionPlan(env, s, c)
    case Stop(_, _, _) => StopPlan(env, s, c)
    case EnsureApproved(_, _, _, _) => EnsurePlan(env, s, c)
    case Adopt(_, _, _) => AdoptPlan(env, s, c)
    case Remove(_, slot) => RemovePlan(env, s, slot)
  }

  /** The unlocked first look of `ensure_approved_slot_binding`, at whatever was on disk then. */
  function FirstLook(env: Env, c: Call): Option<Reply>
    requires c.EnsureApproved?
  {
    var first := Load(env, c.before);
    if first.Failed? then Some(Refused(first.error))
    else if ToApprove(first.settings, c.slot, c.observed).None?
    then Some(Bound(CurrentBinding(first.settings, c.slot)))
    else None
  }

  /** The whole call on the disk found under the lock. */
  function PlanOf(env: Env, d: Disk, c: Call): Plan {
    if !ArgumentsOk(env, c) then Refuse(Invalid)
    else if c.Admit? && c.dir !in d.dirs then Refuse(BadState)
    else if c.EnsureApproved? && FirstLook(env, c).Some? then Plan([], FirstLook(env, c).value)
    else if c.schema != SETTINGS_SCHEMA then Refuse(Invalid)
    else
      var loaded := Load(env, d);
      if loaded.Failed? then Refuse(loaded.error) else LockedPlan(env, loaded.settings, c)
  }

  /** A call either changes nothing or carries out its locked plan on the loaded settings. */
  lemma PlanIsLocked(env: Env, d: Disk, c: Call)
    requires Sound(env, d)
    ensures PlanOf(env, d, c).effects == [] || PlanOf(env, d, c) == LockedPlan(env, View(env, d), c)
    ensures ArgumentsOk(env, c) && c.schema == SETTINGS_SCHEMA && !c.EnsureApproved? && !c.Admit? ==>
              PlanOf(env, d, c) == LockedPlan(env, View(env, d), c)
  {
    hide Valid, LockedPlan, ArgumentsOk, FirstLook;
  }

  function Apply(d: Disk, e: Effect): Disk {
    match e
    case MakeDir(path) => d.(dirs := d.dirs + {path})
    case DropDir(path) => d.(dirs := d.dirs - {path})
    case Save(s) => AfterSave(d, s)
  }

  function ApplyAll(d: Disk, es: seq<Effect>): Disk
    decreases es
  {
    if es == [] then d else ApplyAll(Apply(d, es[0]), es[1..])
  }
}
