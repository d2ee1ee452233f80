/** Data model of the Claude config-slot registry: what the settings file and its sidecar hold. */
module SlotModel {
  import opened Prelude

  const MAX_REGISTERED: nat := 9
  const MAX_ACCOUNT_SLOTS: nat := 10
  const MAX_DIR_BYTES: nat := 4096
  const PERSISTED_SCHEMA: nat := 2
  const SETTINGS_SCHEMA: nat := 1
  const MAX_SEQUENCE: nat := 0xFFFF_FFFF_FFFF_FFFF

  datatype Ownership = Managed | External

  /** How an approval was obtained. */
  datatype ApprovalSource = SetupProof | ReconnectProof | Observation

  datatype Kind = ConnectManaged | ReconnectRegistered

  datatype OpState =
    | Idle | Preparing | WaitingForUserLogin | Validating | Reading
    | Complete | SetupStopped | SetupFailed | IdentityMismatch

  /** A strong account+organization pair. Strings stand for their UTF-8 bytes throughout. */
  datatype Binding = Binding(account: string, organization: string)

  datatype Slot = Slot(
    id: string,
    ownership: Ownership,
    dir: string,
    approvedAccount: Option<string>,
    approvedOrganization: Option<string>,
    approvedFrom: Option<ApprovalSource>)

  datatype Operation = Operation(
    kind: Kind,
    sequence: nat,
    id: string,
    slot: string,
    dir: string,
    state: OpState,
    target: Option<string>,
    requestedAccount: Option<string>,
    requestedOrganization: Option<string>,
    expectedAccount: Option<string>,
    expectedOrganization: Option<string>,
    account: Option<string>,
    organization: Option<string>)

  datatype Settings = Settings(
    schema: nat,
    consent: bool,
    consentChosen: bool,
    slots: seq<Slot>,
    setups: seq<Operation>,
    reconnects: seq<Operation>,
    filter: seq<bv64>)

  const DEFAULT_SETTINGS: Settings := Settings(PERSISTED_SCHEMA, false, false, [], [], [], [])

  /** The settings file, the retired-id sidecar and the directories that exist. */
  datatype Disk = Disk(main: Option<Settings>, sidecar: Option<seq<bv64>>, dirs: set<string>)

  datatype Error = Invalid | BadState

  datatype Loaded = Ok(settings: Settings) | Failed(error: Error)

  /** A SHA-256 digest as its eight big-endian 32-bit words. */
  datatype Digest = Digest(w0: bv32, w1: bv32, w2: bv32, w3: bv32, w4: bv32, w5: bv32, w6: bv32, w7: bv32) {
    function Words(): (ws: seq<bv32>)
      ensures |ws| == 8
    {
      [w0, w1, w2, w3, w4, w5, w6, w7]
    }
  }

  /** What the registry cannot see inside of: the hash, the Keychain service name of a directory,
      the managed accounts root and whether a path is its direct child. Every result holds for all of them. */
  datatype Env = Env(
    digest: string -> Digest,
    serviceName: string -> string,
    root: string,
    directChild: string -> bool)

  function ManagedPath(env: Env, slotId: string): string {
    env.root + "/" + slotId
  }

  // ---- rows

  function Rows(s: Settings): seq<Operation> {
    s.setups + s.reconnects
  }

  /** Index of the first row with this id, or the length when there is none. */
  function Find(ops: seq<Operation>, id: string): (i: nat)
    ensures i <= |ops|
    ensures i < |ops| ==> ops[i].id == id
    ensures forall j :: 0 <= j < i ==> ops[j].id != id
  {
    if ops == [] then 0
    else if ops[0].id == id then 0
    else 1 + Find(ops[1..], id)
  }

  function FindSlot(slots: seq<Slot>, id: string): (i: nat)
    ensures i <= |slots|
    ensures i < |slots| ==> slots[i].id == id
    ensures forall j :: 0 <= j < i ==> slots[j].id != id
  {
    if slots == [] then 0
    else if slots[0].id == id then 0
    else 1 + FindSlot(slots[1..], id)
  }

  predicate HasOp(ops: seq<Operation>, id: string) {
    exists i :: 0 <= i < |ops| && ops[i].id == id
  }

  predicate HasSlot(slots: seq<Slot>, id: string) {
    exists i :: 0 <= i < |slots| && slots[i].id == id
  }

  // ---- states

  predicate Active(op: Operation) {
    op.state.Preparing? || op.state.WaitingForUserLogin? || op.state.Validating? || op.state.Reading?
  }

  predicate AllowsSuccessor(op: Operation) {
    op.state.Complete? || op.state.SetupStopped? || op.state.SetupFailed? || op.state.IdentityMismatch?
  }

  function SourceOf(kind: Kind): ApprovalSource {
    if kind.ReconnectRegistered? then ReconnectProof else SetupProof
  }

  /** The approved pair of a slot; absent unless both halves are stored. */
  function ApprovedBinding(slot: Slot): Option<Binding> {
    if slot.approvedAccount.Some? && slot.approvedOrganization.Some?
    then Some(Binding(slot.approvedAccount.value, slot.approvedOrganization.value))
    else None
  }

  /** An approval without a recorded source is read as observed. */
  function ApprovalSourceOf(slot: Slot): ApprovalSource {
    if slot.approvedFrom.Some? then slot.approvedFrom.value else Observation
  }

  function Approve(slot: Slot, binding: Binding, source: ApprovalSource): Slot {
    slot.(approvedAccount := Some(binding.account),
          approvedOrganization := Some(binding.organization),
          approvedFrom := Some(source))
  }

  function NewSlot(id: string, ownership: Ownership, dir: string): Slot {
    Slot(id, ownership, dir, None, None, None)
  }

  /** The pair a completed operation proved. */
  function CompletedBinding(op: Operation): Option<Binding> {
    if op.state.Complete? && op.account.Some? && op.organization.Some?
       && ValidHash(op.account.value) && ValidHash(op.organization.value)
    then Some(Binding(op.account.value, op.organization.value))
    else None
  }

  // ---- shapes of ids, hashes and directories

  predicate LowerHex(c: char) {
    '0' <= c <= '9' || 'a' <= c <= 'f'
  }

  predicate PrefixedHex(value: string, prefix: string) {
    && |value| == |prefix| + 32
    && prefix <= value
    && forall i :: |prefix| <= i < |value| ==> LowerHex(value[i])
  }

  predicate ValidSlotId(id: string) {
    PrefixedHex(id, "claude_slot_")
  }

  predicate ValidOpId(id: string) {
    PrefixedHex(id, "claude_setup_")
  }

  predicate ValidHash(h: string) {
    |h| == 64 && forall i :: 0 <= i < |h| ==> LowerHex(h[i])
  }

  predicate ValidOptHash(h: Option<string>) {
    h.Some? ==> ValidHash(h.value)
  }

  predicate ValidDir(dir: string) {
    && 0 < |dir| <= MAX_DIR_BYTES
    && '\0' !in dir
    && dir[0] == '/'
  }

  predicate ValidTarget(target: Option<string>, account: Option<string>, organization: Option<string>) {
    target.Some? ==>
      && PrefixedHex(target.value, "claude_anchor_target_")
      && account.Some?
      && organization.Some?
  }

  predicate ValidBinding(b: Binding) {
    ValidHash(b.account) && ValidHash(b.organization)
  }

  // ---- what validate_persisted accepts

  predicate SlotShape(slot: Slot) {
    && ValidSlotId(slot.id)
    && ValidDir(slot.dir)
    && (|| (slot.approvedAccount.None? && slot.approvedOrganization.None? && slot.approvedFrom.None?)
        || (&& slot.approvedAccount.Some? && slot.approvedOrganization.Some?
            && ValidHash(slot.approvedAccount.value) && ValidHash(slot.approvedOrganization.value)))
  }

  predicate SlotsDistinct(env: Env, slots: seq<Slot>) {
    forall i, j :: 0 <= i < j < |slots| ==>
      && slots[i].id != slots[j].id
      && slots[i].dir != slots[j].dir
      && env.serviceName(slots[i].dir) != env.serviceName(slots[j].dir)
  }

  predicate OpShape(op: Operation) {
    && ValidOpId(op.id)
    && ValidSlotId(op.slot)
    && ValidDir(op.dir)
    && ValidOptHash(op.requestedAccount) && ValidOptHash(op.requestedOrganization)
    && ValidOptHash(op.expectedAccount) && ValidOptHash(op.expectedOrganization)
    && ValidOptHash(op.account) && ValidOptHash(op.organization)
    && ValidTarget(op.target, op.requestedAccount, op.requestedOrganization)
    && (op.target.Some? ==>
          op.expectedAccount == op.requestedAccount && op.expectedOrganization == op.requestedOrganization)
  }

  predicate IdsDistinct(ops: seq<Operation>) {
    forall i, j :: 0 <= i < j < |ops| ==> ops[i].id != ops[j].id
  }

  predicate SlotIdsDistinct(ops: seq<Operation>) {
    forall i, j :: 0 <= i < j < |ops| ==> ops[i].slot != ops[j].slot
  }

  predicate SetupMatches(slots: seq<Slot>, op: Operation) {
    var k := FindSlot(slots, op.slot);
    && op.kind.ConnectManaged?
    && (k == |slots| ==> op.state.Preparing? || op.state.SetupStopped?)
    && (k < |slots| ==> slots[k].ownership.Managed? && slots[k].dir == op.dir)
  }

  predicate ReconnectMatches(slots: seq<Slot>, op: Operation) {
    var k := FindSlot(slots, op.slot);
    && op.kind.ReconnectRegistered?
    && (k == |slots| ==> op.state.SetupStopped?)
    && (k < |slots| ==> slots[k].dir == op.dir)
    && op.requestedAccount.Some?
    && op.expectedAccount.Some?
  }

  predicate AtMostOneActive(ops: seq<Operation>) {
    forall i, j :: 0 <= i < j < |ops| ==> !(Active(ops[i]) && Active(ops[j]))
  }

  /** How many of these setup rows name a slot that is not registered. */
  function Unregistered(slots: seq<Slot>, ops: seq<Operation>): (n: nat)
    ensures n <= |ops|
  {
    if ops == [] then 0
    else (if HasSlot(slots, ops[0].slot) then 0 else 1) + Unregistered(slots, ops[1..])
  }

  predicate FilterShape(filter: seq<bv64>) {
    filter == [] || |filter| == 512
  }

  predicate SlotsOk(env: Env, slots: seq<Slot>) {
    && |slots| <= MAX_REGISTERED
    && (forall i :: 0 <= i < |slots| ==> SlotShape(slots[i]))
    && SlotsDistinct(env, slots)
  }

  predicate SetupsOk(slots: seq<Slot>, ops: seq<Operation>) {
    && |ops| <= MAX_REGISTERED
    && (forall i :: 0 <= i < |ops| ==> OpShape(ops[i]) && SetupMatches(slots, ops[i]))
    && |slots| + Unregistered(slots, ops) <= MAX_REGISTERED
  }

  predicate ReconnectsOk(slots: seq<Slot>, ops: seq<Operation>) {
    && |ops| <= MAX_REGISTERED
    && (forall i :: 0 <= i < |ops| ==> OpShape(ops[i]) && ReconnectMatches(slots, ops[i]))
    && SlotIdsDistinct(ops)
  }

  predicate RowsOk(ops: seq<Operation>) {
    IdsDistinct(ops) && AtMostOneActive(ops)
  }

  /** The conditions `validate_persisted` enforces. */
  predicate Valid(env: Env, s: Settings) {
    && s.schema == PERSISTED_SCHEMA
    && SlotsOk(env, s.slots)
    && SetupsOk(s.slots, s.setups)
    && ReconnectsOk(s.slots, s.reconnects)
    && RowsOk(Rows(s))
    && FilterShape(s.filter)
  }
}
