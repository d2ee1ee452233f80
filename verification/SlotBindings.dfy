/** The pair a slot is bound to, told by its rows and its stored approval alone, and what approving writes. */
module SlotBindings {
  import opened Prelude
  import opened SlotModel
  import opened SlotFilter
  import opened SlotCalls
  import opened SlotEvolution
  import opened SlotRuns
  import opened SlotGuarantees
  import opened SlotApprovals
  import opened SlotPrepare
  import opened SlotPromises
  import opened SlotRowPromises

  predicate On(op: Operation, slot: Slot) {
    op.slot == slot.id && op.dir == slot.dir
  }

  /** No operation on the slot is under way. */
  predicate Quiet(s: Settings, slot: Slot) {
    forall op :: op in Rows(s) && On(op, slot) ==> !UnderWay(op)
  }

  /** The row at `i` holds the slot's proof of greatest sequence, the last of those that share it. */
  predicate LatestProof(s: Settings, slot: Slot, i: nat) {
    && i < |Rows(s)| && On(Rows(s)[i], slot) && Proven(Rows(s)[i])
    && forall j :: 0 <= j < |Rows(s)| && On(Rows(s)[j], slot) && Proven(Rows(s)[j]) ==>
         Rows(s)[j].sequence < Rows(s)[i].sequence || (Rows(s)[j].sequence == Rows(s)[i].sequence && j <= i)
  }

  predicate HasProof(s: Settings, slot: Slot) {
    exists op :: op in Rows(s) && On(op, slot) && Proven(op)
  }

  /** Both halves are present and make up the pair. */
  predicate PairOf(account: Option<string>, organization: Option<string>, b: Option<Binding>) {
    && account.Some? && organization.Some? && b.Some?
    && b.value.account == account.value && b.value.organization == organization.value
  }

  /** Under way, the operation's own full pair binds its slot; a partial one keeps an approval it does not
      contradict. */
  predicate BoundWhile(op: Operation, slot: Slot, b: Option<Binding>) {
    if op.expectedAccount.Some? && op.expectedOrganization.Some?
    then PairOf(op.expectedAccount, op.expectedOrganization, b)
    else if slot.approvedAccount.Some? && (op.expectedAccount.Some? ==> slot.approvedAccount == op.expectedAccount)
    then PairOf(slot.approvedAccount, slot.approvedOrganization, b)
    else b == None
  }

  /** A slot at rest is bound to its approval, else to its latest proof, else to nothing. */
  ghost predicate BoundAtRest(s: Settings, slot: Slot, b: Option<Binding>) {
    if slot.approvedAccount.Some? then PairOf(slot.approvedAccount, slot.approvedOrganization, b)
    else if HasProof(s, slot)
    then exists i: nat :: LatestProof(s, slot, i) && PairOf(Rows(s)[i].account, Rows(s)[i].organization, b)
    else b == None
  }

  ghost predicate SlotBound(s: Settings, slot: Slot, b: Option<Binding>) {
    && (forall op :: op in Rows(s) && On(op, slot) && UnderWay(op) ==> BoundWhile(op, slot, b))
    && (Quiet(s, slot) ==> BoundAtRest(s, slot, b))
  }

  /** `b` is the pair the slot of this id must currently be signed in to. */
  ghost predicate RightBinding(s: Settings, id: string, b: Option<Binding>) {
    && (!HasSlot(s.slots, id) ==> b == None)
    && forall k :: 0 <= k < |s.slots| && s.slots[k].id == id ==> SlotBound(s, s.slots[k], b)
  }

  // ---- the latest of the rows that qualify

  predicate LatestOf(ops: seq<Operation>, p: Operation -> bool, i: nat) {
    && i < |ops| && p(ops[i])
    && forall j :: 0 <= j < |ops| && p(ops[j]) ==>
         ops[j].sequence < ops[i].sequence || (ops[j].sequence == ops[i].sequence && j <= i)
  }

  lemma {:induction false} FilterSnoc(ops: seq<Operation>, x: Operation, p: Operation -> bool)
    ensures Filter(ops + [x], p) == Filter(ops, p) + (if p(x) then [x] else [])
  {
    if ops == [] {
      assert ops + [x] == [x] && [x][1..] == [];
    } else {
      assert (ops + [x])[1..] == ops[1..] + [x];
      FilterSnoc(ops[1..], x, p);
    }
  }

  /** A last row moves the pick to itself unless an earlier one has a greater sequence. */
  lemma LatestSnoc(f: seq<Operation>, x: Operation)
    ensures Latest(f + [x]) ==
      if Latest(f).Some? && Latest(f).value.sequence > x.sequence then Latest(f) else Some(x)
  {
    assert (f + [x])[..|f + [x]| - 1] == f;
  }

  lemma LatestOfSnoc(rest: seq<Operation>, x: Operation, p: Operation -> bool, i: nat)
    requires LatestOf(rest, p, i) || forall j :: 0 <= j < |rest| ==> !p(rest[j])
    ensures LatestOf(rest, p, i) && (!p(x) || rest[i].sequence > x.sequence) ==> LatestOf(rest + [x], p, i)
    ensures p(x) && (LatestOf(rest, p, i) ==> rest[i].sequence <= x.sequence) ==> LatestOf(rest + [x], p, |rest|)
  {
    var ops := rest + [x];
    assert forall j :: 0 <= j < |rest| ==> ops[j] == rest[j];
    assert ops[|rest|] == x;
  }

  /** The row picked is the last of those with the greatest sequence. */
  lemma {:induction false} LatestIs(ops: seq<Operation>, p: Operation -> bool) returns (i: nat)
    ensures var r := Latest(Filter(ops, p));
      && (r.None? <==> forall j :: 0 <= j < |ops| ==> !p(ops[j]))
      && (r.Some? ==> LatestOf(ops, p, i) && r.value == ops[i])
  {
    hide Filter, Latest, LatestOf;
    i := 0;
    if ops == [] {
      NothingLatest(p);
    } else {
      var rest, x := ops[..|ops| - 1], ops[|ops| - 1];
      assert ops == rest + [x];
      i := LatestIs(rest, p);
      FilterSnoc(rest, x, p);
      LatestSnoc(Filter(rest, p), x);
      LatestOfSnoc(rest, x, p, i);
      assert Filter(rest, p) + [] == Filter(rest, p);
      assert forall j :: 0 <= j < |rest| ==> ops[j] == rest[j];
      if p(x) && (Latest(Filter(rest, p)).None? || Latest(Filter(rest, p)).value.sequence <= x.sequence) {
        if Latest(Filter(rest, p)).None? { NoneQualifies(rest, p, i); }
        i := |rest|;
      }
    }
  }

  lemma NothingLatest(p: Operation -> bool)
    ensures Latest(Filter([], p)) == None
  {
  }

  lemma NoneQualifies(ops: seq<Operation>, p: Operation -> bool, i: nat)
    requires forall j :: 0 <= j < |ops| ==> !p(ops[j])
    ensures !LatestOf(ops, p, i)
  {
  }

  lemma {:induction false} FilterTwice(ops: seq<Operation>, p: Operation -> bool, q: Operation -> bool,
                                       both: Operation -> bool)
    requires forall x :: both(x) <==> p(x) && q(x)
    ensures Filter(Filter(ops, p), q) == Filter(ops, both)
  {
    if ops != [] {
      FilterTwice(ops[1..], p, q, both);
      var rest := Filter(ops[1..], p);
      if p(ops[0]) {
        assert ([ops[0]] + rest)[1..] == rest;
      } else {
        assert [] + rest == rest && [] + Filter(ops[1..], both) == Filter(ops[1..], both);
      }
    }
  }

  // ---- the effective binding

  lemma OneUnderWay(s: Settings, a: Operation, b: Operation)
    requires RowsOk(Rows(s)) && a in Rows(s) && b in Rows(s) && UnderWay(a) && UnderWay(b)
    ensures a == b
  {
    ActiveIs(a);
    ActiveIs(b);
    var i :| 0 <= i < |Rows(s)| && Rows(s)[i] == a;
    var j :| 0 <= j < |Rows(s)| && Rows(s)[j] == b;
  }

  function PendingRow(s: Settings, slot: Slot): Option<Operation> {
    Latest(Filter(SlotOps(s, slot), (op: Operation) => Active(op)))
  }

  function ProofRow(s: Settings, slot: Slot): Option<Operation> {
    Latest(Filter(SlotOps(s, slot), (op: Operation) => CompletedBinding(op).Some?))
  }

  lemma PendingIs(s: Settings, slot: Slot)
    requires RowsOk(Rows(s))
    ensures var r := PendingRow(s, slot);
      && (r.None? <==> Quiet(s, slot))
      && (r.Some? ==> r.value in Rows(s) && On(r.value, slot) && UnderWay(r.value))
      && (forall op :: op in Rows(s) && On(op, slot) && UnderWay(op) ==> r == Some(op))
  {
    hide RowsOk;
    SlotOpsAre(s, slot);
    var ops, r := SlotOps(s, slot), PendingRow(s, slot);
    forall op: Operation ensures Active(op) <==> UnderWay(op) { ActiveIs(op); }
    forall op | op in Rows(s) && On(op, slot) && UnderWay(op) ensures r == Some(op) {
      assert op in ops && op in Filter(ops, (x: Operation) => Active(x));
      OneUnderWay(s, op, r.value);
    }
  }

  lemma ProofIs(s: Settings, slot: Slot)
    ensures var r := ProofRow(s, slot);
      && (r.None? <==> !HasProof(s, slot))
      && (r.Some? ==> exists i: nat :: LatestProof(s, slot, i) && r.value == Rows(s)[i])
      && (r.Some? ==> Proven(r.value) && CompletedBinding(r.value).Some?)
  {
    hide CompletedBinding, Proven, On, LatestOf, LatestProof, HasProof;
    var at, proven := (op: Operation) => op.slot == slot.id && op.dir == slot.dir,
                      (op: Operation) => CompletedBinding(op).Some?;
    var both := (op: Operation) => On(op, slot) && Proven(op);
    forall op: Operation ensures both(op) <==> at(op) && proven(op) {
      ProvenIs(op);
      OnIs(op, slot);
    }
    FilterTwice(Rows(s), at, proven, both);
    var i := LatestIs(Rows(s), both);
    QualifiesIs(s, slot, both, i);
    if ProofRow(s, slot).Some? { ProvenIs(ProofRow(s, slot).value); }
  }

  lemma QualifiesIs(s: Settings, slot: Slot, p: Operation -> bool, i: nat)
    requires forall op :: p(op) <==> On(op, slot) && Proven(op)
    ensures HasProof(s, slot) <==> !(forall j :: 0 <= j < |Rows(s)| ==> !p(Rows(s)[j]))
    ensures LatestOf(Rows(s), p, i) ==> LatestProof(s, slot, i) && Proven(Rows(s)[i])
  {
    hide On, Proven, Rows;
    var rows := Rows(s);
    if HasProof(s, slot) {
      var op :| op in rows && On(op, slot) && Proven(op);
      var j :| 0 <= j < |rows| && rows[j] == op;
    }
    if j: nat :| j < |rows| && p(rows[j]) { assert rows[j] in rows; }
  }

  lemma OnIs(op: Operation, slot: Slot)
    ensures On(op, slot) <==> op.slot == slot.id && op.dir == slot.dir
  {
  }

  lemma SlotAt(env: Env, s: Settings, k: nat)
    requires Valid(env, s) && k < |s.slots|
    ensures FindSlot(s.slots, s.slots[k].id) == k && SlotShape(s.slots[k])
  {
    hide SetupsOk, ReconnectsOk, RowsOk, SlotShape;
    assert forall j :: 0 <= j < k ==> s.slots[j].id != s.slots[k].id;
  }

  lemma RowOk(env: Env, s: Settings, op: Operation)
    requires Valid(env, s) && op in Rows(s)
    ensures OpShape(op)
  {
    hide SlotsOk, RowsOk, OpShape;
    var i :| 0 <= i < |Rows(s)| && Rows(s)[i] == op;
    if i < |s.setups| { assert OpShape(s.setups[i]); } else { assert OpShape(s.reconnects[i - |s.setups|]); }
  }

  /** The pair is the right one. */
  lemma BindingIs(env: Env, s: Settings, id: string)
    requires Valid(env, s)
    ensures RightBinding(s, id, CurrentBinding(s, id))
  {
    hide Valid, EffectiveBinding, SlotBound;
    var b := CurrentBinding(s, id);
    HasSlotFound(s.slots, id);
    UnknownUnbound(s, id);
    forall k | 0 <= k < |s.slots| && s.slots[k].id == id ensures SlotBound(s, s.slots[k], b) {
      SlotAt(env, s, k);
      SlotBinding(env, s, k);
    }
  }

  lemma UnknownUnbound(s: Settings, id: string)
    ensures FindSlot(s.slots, id) == |s.slots| ==> EffectiveBinding(s, id).None?
  {
  }

  lemma EffectiveIs(s: Settings, k: nat)
    requires k < |s.slots| && FindSlot(s.slots, s.slots[k].id) == k
    ensures var slot, e := s.slots[k], EffectiveBinding(s, s.slots[k].id);
      var pending, proof, approved := PendingRow(s, slot), ProofRow(s, slot), ApprovedBinding(slot);
      && (pending.Some? ==> e == PendingBinding(pending.value, approved))
      && (pending.None? && approved.Some? ==> e == Some((approved.value, BindingOrigin.Approved)))
      && (pending.None? && approved.None? && proof.Some? ==>
            && CompletedBinding(proof.value).Some?
            && e == Some((CompletedBinding(proof.value).value, CompletedOperation(SourceOf(proof.value.kind)))))
      && (pending.None? && approved.None? && proof.None? ==> e == None)
  {
    hide CompletedBinding, SlotOps, ApprovedBinding;
    var ops := SlotOps(s, s.slots[k]);
    var proven := (op: Operation) => CompletedBinding(op).Some?;
    assert ProofRow(s, s.slots[k]) == Latest(Filter(ops, proven));
    assert PendingRow(s, s.slots[k]) == Latest(Filter(ops, (op: Operation) => Active(op)));
  }

  function PendingBinding(p: Operation, approved: Option<Binding>): Option<(Binding, BindingOrigin)> {
    if p.expectedAccount.Some? && p.expectedOrganization.Some?
       && ValidHash(p.expectedAccount.value) && ValidHash(p.expectedOrganization.value)
    then Some((Binding(p.expectedAccount.value, p.expectedOrganization.value), PendingOperation))
    else if approved.Some? && (p.expectedAccount.Some? ==> approved.value.account == p.expectedAccount.value)
    then Some((approved.value, PendingOperation))
    else None
  }

  lemma PendingBound(op: Operation, slot: Slot)
    requires OpShape(op) && SlotShape(slot)
    ensures var e := PendingBinding(op, ApprovedBinding(slot));
      && BoundWhile(op, slot, if e.Some? then Some(e.value.0) else None)
      && (e.Some? ==> e.value.1.PendingOperation?)
  {
    hide ValidHash, ValidDir, ValidSlotId, ValidOpId;
  }

  lemma ApprovalIs(slot: Slot)
    requires SlotShape(slot)
    ensures ApprovedBinding(slot).Some? <==> slot.approvedAccount.Some?
    ensures ApprovedBinding(slot).Some? ==>
      PairOf(slot.approvedAccount, slot.approvedOrganization, ApprovedBinding(slot))
  {
    hide ValidHash, ValidDir, ValidSlotId;
  }

  lemma SlotBinding(env: Env, s: Settings, k: nat)
    requires Valid(env, s) && k < |s.slots| && FindSlot(s.slots, s.slots[k].id) == k
    ensures SlotBound(s, s.slots[k], CurrentBinding(s, s.slots[k].id))
  {
    hide SlotsOk, SetupsOk, ReconnectsOk, RowsOk, EffectiveBinding, PendingRow, ProofRow, CompletedBinding,
      ApprovedBinding, BoundWhile, LatestProof, HasProof, Quiet, On, UnderWay, PendingBinding, SlotShape, OpShape;
    var slot := s.slots[k];
    SlotAt(env, s, k);
    EffectiveIs(s, k);
    PendingIs(s, slot);
    ProofIs(s, slot);
    ApprovalIs(slot);
    forall op | op in Rows(s) && On(op, slot) && UnderWay(op)
      ensures BoundWhile(op, slot, CurrentBinding(s, slot.id))
    {
      RowOk(env, s, op);
      PendingBound(op, slot);
    }
    if ProofRow(s, slot).Some? { CompletedShape(ProofRow(s, slot).value); }
  }

  // ---- what is approved

  /** The slot has no approval and nothing under way, and an operation on it proved a pair. */
  predicate ProofDue(s: Settings, slot: Slot) {
    slot.approvedAccount.None? && Quiet(s, slot) && HasProof(s, slot)
  }

  /** The slot has no approval, no proof, and no operation that is not complete. */
  predicate ObservationDue(s: Settings, slot: Slot, observed: Option<Binding>) {
    && slot.approvedAccount.None? && !HasProof(s, slot) && observed.Some?
    && forall op :: op in Rows(s) && On(op, slot) ==> op.state == Complete
  }

  predicate Due(s: Settings, c: Call)
    requires c.EnsureApproved?
  {
    exists slot :: slot in s.slots && slot.id == c.slot && (ProofDue(s, slot) || ObservationDue(s, slot, c.observed))
  }

  /** The slot at `k` takes its latest proof, or else the observed pair, as its approval; nothing else changes. */
  ghost predicate ApprovedAt(s: Settings, t: Settings, c: Call, k: nat)
    requires c.EnsureApproved?
  {
    && k < |s.slots| == |t.slots| && s.slots[k].id == c.slot
    && t == s.(slots := s.slots[k := t.slots[k]])
    && (ProofDue(s, s.slots[k]) ==>
          exists i: nat ::
            LatestProof(s, s.slots[k], i) && SlotRowPromises.Approved(s.slots[k], t.slots[k], Rows(s)[i]))
    && (!ProofDue(s, s.slots[k]) ==>
          && c.observed.Some?
          && t.slots[k] == Slot(s.slots[k].id, s.slots[k].ownership, s.slots[k].dir, Some(c.observed.value.account),
                                Some(c.observed.value.organization), Some(Observation)))
  }

  lemma FirstUseIs(s: Settings, k: nat)
    requires k < |s.slots| && FindSlot(s.slots, s.slots[k].id) == k
    ensures AllowsFirstUse(s, s.slots[k].id) <==>
      forall op :: op in Rows(s) && On(op, s.slots[k]) ==> op.state == Complete
  {
    SlotOpsAre(s, s.slots[k]);
  }

  lemma CompleteIsQuiet(s: Settings, slot: Slot)
    requires forall op :: op in Rows(s) && On(op, slot) ==> op.state == Complete
    ensures Quiet(s, slot)
  {
  }

  /** The choice for the slot at `k`. */
  lemma ChoiceIs(env: Env, s: Settings, k: nat, observed: Option<Binding>)
    requires Valid(env, s) && k < |s.slots|
    ensures var slot, choice := s.slots[k], ToApprove(s, s.slots[k].id, observed);
      && (choice.Some? <==> ProofDue(s, slot) || ObservationDue(s, slot, observed))
      && (ProofDue(s, slot) ==> choice.Some? && exists i: nat ::
            LatestProof(s, slot, i)
            && SlotRowPromises.Approved(slot, Approve(slot, choice.value.0, choice.value.1), Rows(s)[i]))
      && (!ProofDue(s, slot) && choice.Some? ==> observed.Some? && choice.value == (observed.value, Observation))
  {
    hide SlotsOk, SetupsOk, ReconnectsOk, RowsOk, EffectiveBinding, PendingRow, ProofRow, CompletedBinding,
      ApprovedBinding, LatestProof, HasProof, Quiet, On, UnderWay, PendingBinding, SlotShape, OpShape, AllowsFirstUse,
      SlotRowPromises.Approved, Approve, SourceOf;
    var slot := s.slots[k];
    SlotAt(env, s, k);
    EffectiveIs(s, k);
    PendingIs(s, slot);
    ProofIs(s, slot);
    ApprovalIs(slot);
    FirstUseIs(s, k);
    if PendingRow(s, slot).Some? {
      RowOk(env, s, PendingRow(s, slot).value);
      PendingBound(PendingRow(s, slot).value, slot);
    }
    if AllowsFirstUse(s, slot.id) { CompleteIsQuiet(s, slot); }
    if ProofRow(s, slot).Some? {
      ProvenIs(ProofRow(s, slot).value);
      ProvenApproves(ProofRow(s, slot).value, slot);
    }
  }

  lemma ChoiceValid(env: Env, s: Settings, c: Call, k: nat)
    requires c.EnsureApproved? && Valid(env, s) && ArgumentsOk(env, c) && k < |s.slots| && s.slots[k].id == c.slot
    requires ToApprove(s, c.slot, c.observed).Some?
    ensures var choice := ToApprove(s, c.slot, c.observed).value;
      ValidBinding(choice.0) && Valid(env, s.(slots := s.slots[k := Approve(s.slots[k], choice.0, choice.1)]))
  {
    hide SlotsOk, SetupsOk, ReconnectsOk, RowsOk, SlotShape, ToApprove, ValidHash;
    var choice := ToApprove(s, c.slot, c.observed).value;
    ChoiceWellFormed(env, s, c, k);
    var t := s.(slots := s.slots[k := Approve(s.slots[k], choice.0, choice.1)]);
    ApprovedSlotsOk(env, s.slots, k, t.slots[k]);
    ApprovalKeepsRows(s.slots, t.slots, s.setups, s.reconnects);
    assert Rows(t) == Rows(s);
  }

  lemma ChoiceWellFormed(env: Env, s: Settings, c: Call, k: nat)
    requires c.EnsureApproved? && Valid(env, s) && ArgumentsOk(env, c) && k < |s.slots| && s.slots[k].id == c.slot
    requires ToApprove(s, c.slot, c.observed).Some?
    ensures ValidBinding(ToApprove(s, c.slot, c.observed).value.0)
  {
    hide SlotsOk, SetupsOk, ReconnectsOk, RowsOk, EffectiveBinding, PendingRow, ProofRow, CompletedBinding,
      ApprovedBinding, PendingBinding, SlotShape, OpShape, AllowsFirstUse, ValidHash, HasProof,
      LatestProof, Quiet, BoundWhile, On, UnderWay;
    var slot := s.slots[k];
    SlotAt(env, s, k);
    EffectiveIs(s, k);
    PendingIs(s, slot);
    ProofIs(s, slot);
    if PendingRow(s, slot).Some? {
      RowOk(env, s, PendingRow(s, slot).value);
      PendingBound(PendingRow(s, slot).value, slot);
    }
    if ProofRow(s, slot).Some? { CompletedShape(ProofRow(s, slot).value); }
  }

  /** What the plan does on the settings found under the lock. */
  lemma EnsureSteps(env: Env, s: Settings, c: Call)
    requires c.EnsureApproved? && Valid(env, s) && ArgumentsOk(env, c)
    ensures var p := EnsurePlan(env, s, c);
      var t := LastSaved(s, p.effects);
      && p.reply.Bound? && Valid(env, t) && RightBinding(t, c.slot, p.reply.binding)
      && (Due(s, c) ==> exists k: nat :: ApprovedAt(s, t, c, k))
      && (!Due(s, c) ==> p.effects == [])
  {
    hide Valid, ToApprove, ArgumentsOk, CurrentBinding, RightBinding, ApprovedAt, ProofDue, ObservationDue, Approve;
    var k, choice := FindSlot(s.slots, c.slot), ToApprove(s, c.slot, c.observed);
    EnsureSettles(env, s, c);
    DueIs(env, s, c);
    if choice.Some? && k < |s.slots| {
      var t := s.(slots := s.slots[k := Approve(s.slots[k], choice.value.0, choice.value.1)]);
      ChoiceValid(env, s, c, k);
      LastOfChecked(env, s, t, Bound(Some(choice.value.0)));
      ChosenAt(env, s, c, k);
      BindingIs(env, t, c.slot);
    } else {
      LastOfChecked(env, s, s, Done);
      BindingIs(env, s, c.slot);
    }
  }

  lemma ChosenAt(env: Env, s: Settings, c: Call, k: nat)
    requires c.EnsureApproved? && Valid(env, s) && k < |s.slots| && s.slots[k].id == c.slot
    requires ToApprove(s, c.slot, c.observed).Some?
    ensures var choice := ToApprove(s, c.slot, c.observed).value;
      ApprovedAt(s, s.(slots := s.slots[k := Approve(s.slots[k], choice.0, choice.1)]), c, k)
  {
    hide Valid, ToApprove, LatestProof, HasProof, ProofDue, ObservationDue, SlotRowPromises.Approved;
    ChoiceIs(env, s, k, c.observed);
  }

  lemma DueIs(env: Env, s: Settings, c: Call)
    requires c.EnsureApproved? && Valid(env, s)
    ensures ToApprove(s, c.slot, c.observed).Some? <==> Due(s, c)
    ensures Due(s, c) ==> FindSlot(s.slots, c.slot) < |s.slots|
  {
    hide Valid, ToApprove, ProofDue, ObservationDue;
    var k := FindSlot(s.slots, c.slot);
    forall j | 0 <= j < |s.slots| && s.slots[j].id == c.slot ensures j == k { SlotAt(env, s, j); }
    if k < |s.slots| { ChoiceIs(env, s, k, c.observed); } else { NoSlotNoChoice(s, c.slot, c.observed); }
  }

  /** With good arguments and a first look that loads: when the first look finds nothing to approve, it answers with the
      right pair and nothing is written. Otherwise the locked look answers: it approves what is then due, or nothing,
      and the reply is the right pair for what the next load sees. */
  ghost predicate EnsureAnswered(env: Env, d: Disk, c: Call, reply: Reply, e: Disk)
    requires c.EnsureApproved?
  {
    && (ArgumentsOk(env, c) && Load(env, c.before).Ok? && !Due(Load(env, c.before).settings, c) ==>
          reply.Bound? && RightBinding(Load(env, c.before).settings, c.slot, reply.binding) && e == d)
    && (!ArgumentsOk(env, c) || Load(env, c.before).Failed? ==> reply.Refused? && e == d)
    && (Good(env, d) && ArgumentsOk(env, c) && Load(env, c.before).Ok? && Due(Load(env, c.before).settings, c) ==>
          if c.schema == SETTINGS_SCHEMA then LockedAnswer(env, d, c, reply, e) else reply.Refused? && e == d)
  }

  ghost predicate LockedAnswer(env: Env, d: Disk, c: Call, reply: Reply, e: Disk)
    requires c.EnsureApproved? && Good(env, d)
  {
    && Good(env, e) && reply.Bound? && RightBinding(View(env, e), c.slot, reply.binding)
    && (Due(View(env, d), c) ==> exists k: nat :: ApprovedAt(View(env, d), View(env, e), c, k))
    && (!Due(View(env, d), c) ==> e == d)
  }

  lemma FirstLookIs(env: Env, c: Call)
    requires c.EnsureApproved?
    ensures var first := Load(env, c.before);
      && (first.Failed? ==> FirstLook(env, c) == Some(Refused(first.error)))
      && (first.Ok? ==>
            && Valid(env, first.settings) && (FirstLook(env, c).None? <==> Due(first.settings, c))
            && (FirstLook(env, c).Some? ==>
                  && FirstLook(env, c).value.Bound?
                  && RightBinding(first.settings, c.slot, FirstLook(env, c).value.binding)))
  {
    hide Valid, ToApprove, CurrentBinding, Due, RightBinding;
    var first := Load(env, c.before);
    if first.Ok? {
      DueIs(env, first.settings, c);
      BindingIs(env, first.settings, c.slot);
    }
  }

  lemma EnsurePlanSteps(env: Env, d: Disk, c: Call)
    requires c.EnsureApproved?
    ensures !ArgumentsOk(env, c) ==> PlanOf(env, d, c) == Refuse(Invalid)
    ensures ArgumentsOk(env, c) && FirstLook(env, c).Some? ==> PlanOf(env, d, c) == Plan([], FirstLook(env, c).value)
    ensures ArgumentsOk(env, c) && FirstLook(env, c).None? && c.schema != SETTINGS_SCHEMA ==>
      PlanOf(env, d, c) == Refuse(Invalid)
    ensures ArgumentsOk(env, c) && FirstLook(env, c).None? && c.schema == SETTINGS_SCHEMA && Good(env, d) ==>
      PlanOf(env, d, c) == EnsurePlan(env, View(env, d), c)
  {
    hide Valid, EnsurePlan, FirstLook, ArgumentsOk;
  }

  lemma EnsureAnswers(env: Env, d: Disk, c: Call)
    requires c.EnsureApproved?
    ensures var p := PlanOf(env, d, c); EnsureAnswered(env, d, c, p.reply, ApplyAll(d, p.effects))
  {
    hide Valid, Load, View, EnsurePlan, FirstLook, PlanOf, ArgumentsOk, Due, RightBinding, ApprovedAt, Sound;
    FirstLookIs(env, c);
    EnsurePlanSteps(env, d, c);
    if Good(env, d) && ArgumentsOk(env, c) && FirstLook(env, c).None? && c.schema == SETTINGS_SCHEMA {
      GoodIsValid(env, d);
      LoadedAfter(env, d, c);
      EnsureSteps(env, View(env, d), c);
    }
  }
}
