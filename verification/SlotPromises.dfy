/** What every store operation keeps, and what a caller of the operations on slots may rely on, in terms of the
    settings the next load will see. */
module SlotPromises {
  import opened Prelude
  import opened SlotModel
  import opened SlotFilter
  import opened SlotCalls
  import opened SlotEvolution
  import opened SlotRuns
  import opened SlotGuarantees
  import opened SlotApprovals
  import opened SlotPrepare

  // ---- what every call keeps

  /** No filter bit is lost, every held reconnect id stays held and every frozen id stays frozen. */
  ghost predicate Keeps(env: Env, d: Disk, e: Disk) {
    && Good(env, d) && Good(env, e)
    && Covers(View(env, d).filter, View(env, e).filter)
    && (forall id, identity :: Held(env, View(env, d), id, identity) ==> Held(env, View(env, e), id, identity))
    && (forall was, id :: Frozen(env, was, View(env, d), id) ==> Frozen(env, was, View(env, e), id))
  }

  /** The filter `g` has the bits of `f`, those of these ids, and no other. */
  ghost predicate GrowsBy(env: Env, f: seq<bv64>, g: seq<bv64>, ids: set<string>) {
    && FilterShape(f) && FilterShape(g)
    && forall bit :: bit < 32768 ==>
         (HasBit(g, bit) <==> HasBit(f, bit) || exists id :: id in ids && BitOf(env, id, bit))
  }

  lemma GrowsByNone(env: Env, f: seq<bv64>, ids: set<string>)
    requires FilterShape(f) && ids == {}
    ensures GrowsBy(env, f, f, ids)
  {
  }

  lemma RetireGrows(env: Env, f: seq<bv64>, id: string, ids: set<string>)
    requires FilterShape(f) && ids == {id}
    ensures GrowsBy(env, f, Retire(env, f, id), ids)
  {
    hide HasBit, BitOf, Retire;
    forall bit | bit < 32768 ensures HasBit(Retire(env, f, id), bit) <==> HasBit(f, bit) || BitOf(env, id, bit) {
      RetireExact(env, f, id, bit);
    }
  }

  lemma {:induction false} RetireAllGrows(env: Env, f: seq<bv64>, ops: seq<Operation>)
    requires FilterShape(f)
    ensures GrowsBy(env, f, RetireAll(env, f, ops), set op | op in ops :: op.id)
    decreases ops
  {
    hide HasBit, BitOf, Retire;
    if ops != [] {
      var g, ids := Retire(env, f, ops[0].id), set op | op in ops[1..] :: op.id;
      RetireGrows(env, f, ops[0].id, {ops[0].id});
      RetireAllGrows(env, g, ops[1..]);
      assert (set op | op in ops :: op.id) == {ops[0].id} + ids;
    }
  }

  lemma CallKeeps(env: Env, d: Disk, c: Call)
    requires Good(env, d)
    ensures Keeps(env, d, ApplyAll(d, PlanOf(env, d, c).effects))
  {
    hide Sound, RowsAgree, View, Held, Frozen, Evolves, PlanOf, Covers;
    var l, e := Ran(c), ApplyAll(d, PlanOf(env, d, c).effects);
    assert e == Next(env, d, l);
    StepCovers(env, d, l);
    forall id, identity | Held(env, View(env, d), id, identity) ensures Held(env, View(env, e), id, identity) {
      forall s, t | Evolves(env, s, t) && Held(env, s, id, identity) ensures Held(env, t, id, identity) {
        HeldKept(env, s, t, id, identity);
      }
      StepKeeps(env, s => Held(env, s, id, identity), d, l);
    }
    forall was, id | Frozen(env, was, View(env, d), id) ensures Frozen(env, was, View(env, e), id) {
      forall s, t | Evolves(env, s, t) && Frozen(env, was, s, id) ensures Frozen(env, was, t, id) {
        FrozenKept(env, was, s, t, id);
      }
      StepKeeps(env, s => Frozen(env, was, s, id), d, l);
    }
  }

  lemma StepCovers(env: Env, d: Disk, l: Label)
    requires Good(env, d) && l.Ran?
    ensures Good(env, Next(env, d, l)) && Covers(View(env, d).filter, View(env, Next(env, d, l)).filter)
  {
    hide Evolves, Valid, Covers, PlanOf;
    var f := View(env, d).filter;
    ValidFilter(env, View(env, d));
    var P := (s: Settings) => FilterShape(s.filter) && Covers(f, s.filter);
    CoversReflexive(f);
    forall s, t | Evolves(env, s, t) && P(s) ensures P(t) {
      EvolvesParts(env, s, t);
      ValidFilter(env, t);
      CoversTransitive(f, s.filter, t.filter);
    }
    StepKeeps(env, P, d, l);
  }

  /** The next load sees the last save of the call. */
  lemma LoadedAfter(env: Env, d: Disk, c: Call)
    requires Good(env, d)
    ensures var e := ApplyAll(d, PlanOf(env, d, c).effects);
      Good(env, e) && View(env, e) == LastSaved(View(env, d), PlanOf(env, d, c).effects)
  {
    hide Good, View, PlanOf, Chain;
    PlanChain(env, d, c);
    ApplyAllView(env, d, PlanOf(env, d, c).effects);
  }

  lemma StaysGood(env: Env, d: Disk, c: Call)
    ensures Good(env, d) ==> Good(env, ApplyAll(d, PlanOf(env, d, c).effects))
  {
    hide Good, View, PlanOf;
    if Good(env, d) { LoadedAfter(env, d, c); }
  }

  lemma LastOfChecked(env: Env, s: Settings, t: Settings, reply: Reply)
    ensures LastSaved(s, []) == s
    ensures LastSaved(s, [Save(t)]) == t
    ensures LastSaved(s, SaveChecked(env, t, reply).effects) == if Valid(env, t) then t else s
  {
    hide Valid;
    assert [Save(t)][1..] == [];
    assert LastSaved(t, []) == t;
  }

  /** An operation is under way: it is neither new nor over. */
  predicate UnderWay(op: Operation) {
    op.state !in {Idle, Complete, SetupStopped, SetupFailed, IdentityMismatch}
  }

  lemma ActiveIs(op: Operation)
    ensures Active(op) <==> UnderWay(op)
    ensures AllowsSuccessor(op) <==> !UnderWay(op) && op.state != Idle
  {
  }

  /** The number after the greatest of the rows, as far as the counter reaches; 1 when there is none. */
  predicate Newest(s: Settings, sequence: nat) {
    && 1 <= sequence <= MAX_SEQUENCE
    && (forall op :: op in Rows(s) ==> op.sequence < sequence || sequence == MAX_SEQUENCE)
    && (sequence > 1 ==> exists op :: op in Rows(s) && op.sequence + 1 >= sequence)
  }

  lemma NextIsNewest(s: Settings)
    ensures Newest(s, NextSequence(s))
  {
    hide Latest;
  }

  // ---- consent

  /** Choosing consent is never refused, changes nothing else, and is what the next load reads. */
  ghost predicate ConsentKept(env: Env, d: Disk, schema: nat, consent: bool, reply: Reply, e: Disk) {
    Good(env, d) ==>
      && Keeps(env, d, e)
      && (reply.Done? <==> schema == SETTINGS_SCHEMA)
      && (if reply.Done? then View(env, e) == View(env, d).(consent := consent, consentChosen := true) else e == d)
  }

  lemma ConsentPromise(env: Env, d: Disk, schema: nat, consent: bool)
    ensures var p := PlanOf(env, d, SetConsent(schema, consent));
      ConsentKept(env, d, schema, consent, p.reply, ApplyAll(d, p.effects))
  {
    hide SlotsOk, SetupsOk, ReconnectsOk, RowsOk, Keeps, Load, View, Sound;
    if Good(env, d) {
      var c := SetConsent(schema, consent);
      CallKeeps(env, d, c);
      LoadedAfter(env, d, c);
      PlanIsLocked(env, d, c);
      GoodIsValid(env, d);
      var t := View(env, d).(consent := consent, consentChosen := true);
      assert Rows(t) == Rows(View(env, d));
      LastOfChecked(env, View(env, d), t, Done);
    }
  }

  lemma GoodIsValid(env: Env, d: Disk)
    requires Good(env, d)
    ensures Sound(env, d) && Healthy(env, View(env, d)) && FilterShape(View(env, d).filter)
  {
    hide SlotsOk, SetupsOk, ReconnectsOk, RowsOk;
  }

  // ---- registration

  /** No slot and no row has this id. */
  predicate FreshToken(s: Settings, token: string) {
    !HasSlot(s.slots, token) && forall op :: op in Rows(s) ==> op.slot != token
  }

  predicate DirFree(env: Env, s: Settings, dir: string) {
    forall i :: 0 <= i < |s.slots| ==> s.slots[i].dir != dir && env.serviceName(s.slots[i].dir) != env.serviceName(dir)
  }

  predicate RoomLeft(s: Settings) {
    |s.slots| + Unregistered(s.slots, s.setups) < MAX_REGISTERED
  }

  /** With a fresh id a directory is registered if and only if it is well-formed, free and there is room; it is then
      registered exactly once, without an approval, and nothing else changes. */
  ghost predicate DirectoryKept(env: Env, d: Disk, schema: nat, dir: string, ownership: Ownership, token: string,
                                reply: Reply, e: Disk) {
    Good(env, d) ==>
      && Keeps(env, d, e)
      && var s, t := View(env, d), View(env, e);
      && (FreshToken(s, token) ==> (reply.Done? <==>
            schema == SETTINGS_SCHEMA && ValidDir(dir) && ValidSlotId(token) && DirFree(env, s, dir) && RoomLeft(s)))
      && (if reply.Done?
          then DirFree(env, s, dir) && t == s.(slots := s.slots + [Slot(token, ownership, dir, None, None, None)])
          else e == d)
  }

  lemma {:induction false} AppendFindOther(slots: seq<Slot>, x: Slot, id: string)
    requires x.id != id
    ensures FindSlot(slots + [x], id) == if FindSlot(slots, id) < |slots| then FindSlot(slots, id) else |slots| + 1
  {
    if slots == [] {
      assert slots + [x] == [x] && [x][1..] == [];
    } else {
      assert (slots + [x])[1..] == slots[1..] + [x];
      AppendFindOther(slots[1..], x, id);
    }
  }

  lemma {:induction false} AppendUnregistered(slots: seq<Slot>, x: Slot, ops: seq<Operation>)
    requires forall op :: op in ops ==> op.slot != x.id
    ensures Unregistered(slots + [x], ops) == Unregistered(slots, ops)
  {
    if ops != [] {
      AppendUnregistered(slots, x, ops[1..]);
      HasSlotFound(slots, ops[0].slot);
      HasSlotFound(slots + [x], ops[0].slot);
      AppendFindOther(slots, x, ops[0].slot);
    }
  }

  lemma AppendSlotsOk(env: Env, slots: seq<Slot>, x: Slot)
    requires SlotsOk(env, slots)
    ensures SlotsOk(env, slots + [x]) <==>
      && |slots| < MAX_REGISTERED && SlotShape(x)
      && forall i :: 0 <= i < |slots| ==>
           slots[i].id != x.id && slots[i].dir != x.dir && env.serviceName(slots[i].dir) != env.serviceName(x.dir)
  {
    hide SlotShape;
    var r := slots + [x];
    assert r[|slots|] == x && forall i :: 0 <= i < |slots| ==> r[i] == slots[i];
  }

  lemma AppendRowsMatch(slots: seq<Slot>, x: Slot, setups: seq<Operation>, reconnects: seq<Operation>)
    requires SetupsOk(slots, setups) && ReconnectsOk(slots, reconnects)
    requires forall op :: op in setups + reconnects ==> op.slot != x.id
    ensures SetupsOk(slots + [x], setups) <==> |slots| + Unregistered(slots, setups) < MAX_REGISTERED
    ensures ReconnectsOk(slots + [x], reconnects)
  {
    hide OpShape;
    AppendUnregistered(slots, x, setups);
    forall i | 0 <= i < |setups| ensures SetupMatches(slots + [x], setups[i]) {
      assert setups[i] in setups + reconnects;
      assert SetupMatches(slots, setups[i]);
      AppendFindOther(slots, x, setups[i].slot);
    }
    forall i | 0 <= i < |reconnects| ensures ReconnectMatches(slots + [x], reconnects[i]) {
      assert reconnects[i] in setups + reconnects;
      assert ReconnectMatches(slots, reconnects[i]);
      AppendFindOther(slots, x, reconnects[i].slot);
    }
  }

  lemma RegisterValid(env: Env, s: Settings, dir: string, ownership: Ownership, token: string)
    requires Valid(env, s) && FreshToken(s, token)
    ensures Valid(env, s.(slots := s.slots + [NewSlot(token, ownership, dir)])) <==>
      ValidDir(dir) && ValidSlotId(token) && DirFree(env, s, dir) && RoomLeft(s)
  {
    hide SlotsOk, SetupsOk, ReconnectsOk, RowsOk, ValidDir, ValidSlotId;
    var x := NewSlot(token, ownership, dir);
    var t := s.(slots := s.slots + [x]);
    AppendSlotsOk(env, s.slots, x);
    AppendRowsMatch(s.slots, x, s.setups, s.reconnects);
    assert Rows(t) == Rows(s);
    forall i | 0 <= i < |s.slots| ensures s.slots[i].id != token { assert HasSlot(s.slots, s.slots[i].id); }
  }

  lemma RegisteredFree(env: Env, s: Settings, x: Slot)
    requires SlotsOk(env, s.slots + [x])
    ensures DirFree(env, s, x.dir) && ValidDir(x.dir)
  {
    var r := s.slots + [x];
    forall i | 0 <= i < |s.slots|
      ensures s.slots[i].dir != x.dir && env.serviceName(s.slots[i].dir) != env.serviceName(x.dir) {
      assert r[i] == s.slots[i] && r[|s.slots|] == x;
    }
    assert SlotShape(r[|s.slots|]);
  }

  lemma DirectoryPromise(env: Env, d: Disk, schema: nat, dir: string, ownership: Ownership, token: string)
    ensures var p := PlanOf(env, d, RegisterPath(schema, dir, ownership, token));
      DirectoryKept(env, d, schema, dir, ownership, token, p.reply, ApplyAll(d, p.effects))
  {
    hide SlotsOk, SetupsOk, ReconnectsOk, RowsOk, Keeps, Load, View, Sound, ValidDir, ValidSlotId, DirFree, RoomLeft,
      FreshToken;
    if Good(env, d) {
      var c := RegisterPath(schema, dir, ownership, token);
      CallKeeps(env, d, c);
      LoadedAfter(env, d, c);
      PlanIsLocked(env, d, c);
      GoodIsValid(env, d);
      var s := View(env, d);
      var t := s.(slots := s.slots + [NewSlot(token, ownership, dir)]);
      if FreshToken(s, token) { RegisterValid(env, s, dir, ownership, token); }
      LastOfChecked(env, s, t, Done);
      if Valid(env, t) { RegisteredFree(env, s, NewSlot(token, ownership, dir)); }
    }
  }

  // ---- admission

  /** What an admission leaves: one managed slot with this id and directory, every other slot as it was. */
  ghost predicate AdmittedSlot(s: Settings, t: Settings, c: Call)
    requires c.Admit?
  {
    exists k :: 0 <= k < |t.slots|
      && t.slots[k].id == c.slot && t.slots[k].dir == c.dir && t.slots[k].ownership.Managed?
      && (c.binding.Some? ==>
            && t.slots[k].approvedAccount == Some(c.binding.value.account)
            && t.slots[k].approvedOrganization == Some(c.binding.value.organization)
            && t.slots[k].approvedFrom == Some(SetupProof))
      && (c.binding.None? && !HasSlot(s.slots, c.slot) ==>
            t.slots[k] == Slot(c.slot, Managed, c.dir, None, None, None))
      && (c.binding.None? && HasSlot(s.slots, c.slot) ==> t.slots[k] in s.slots)
      && (forall x :: x in s.slots && x.id != c.slot ==> x in t.slots)
      && (forall x :: x in t.slots && x.id != c.slot ==> x in s.slots)
  }

  predicate ManagedSlot(slots: seq<Slot>, id: string, dir: string) {
    exists k :: 0 <= k < |slots| && slots[k].id == id && slots[k].dir == dir && slots[k].ownership.Managed?
  }

  /** An admission leaves exactly one managed slot with that id and directory. A pair replaces whatever approval the
      slot had, a proven one included; on a slot that is already managed there it is never refused; repeating it
      changes nothing. */
  ghost predicate AdmissionKept(env: Env, d: Disk, c: Call, reply: Reply, e: Disk)
    requires c.Admit?
  {
    Good(env, d) ==>
      && Keeps(env, d, e)
      && var s, t := View(env, d), View(env, e);
      && (ArgumentsOk(env, c) && c.schema == SETTINGS_SCHEMA && c.dir in d.dirs ==>
            ManagedSlot(s.slots, c.slot, c.dir) ==> reply.Done?)
      && (if reply.Done?
          then && AdmittedSlot(s, t, c) && OneRegistration(t, c.slot, c.dir) && t == s.(slots := t.slots)
               && PlanOf(env, e, c).reply.Done? && Next(env, e, Ran(c)) == e
          else e == d)
  }

  /** Where an admission finds its slot, when it is accepted. */
  function AdmittedAs(s: Settings, c: Call): Settings
    requires c.Admit?
  {
    var k := FindEither(s.slots, c.slot, c.dir);
    var prior := if k < |s.slots| then s.slots[k] else NewSlot(c.slot, Managed, c.dir);
    var slot := if c.binding.Some? then Approve(prior, c.binding.value, SetupProof) else prior;
    s.(slots := if k < |s.slots| then s.slots[k := slot] else s.slots + [slot])
  }

  predicate MayAdmit(s: Settings, c: Call)
    requires c.Admit?
  {
    var k := FindEither(s.slots, c.slot, c.dir);
    k < |s.slots| ==> s.slots[k].id == c.slot && s.slots[k].dir == c.dir && s.slots[k].ownership.Managed?
  }

  lemma AdmitIs(env: Env, s: Settings, c: Call)
    requires c.Admit?
    ensures AdmitPlan(env, s, c.slot, c.dir, c.binding) ==
      if MayAdmit(s, c) then SaveChecked(env, AdmittedAs(s, c), Done) else Refuse(Invalid)
  {
    hide Valid;
  }

  lemma AdmittedHas(env: Env, s: Settings, c: Call)
    requires c.Admit? && MayAdmit(s, c) && SlotsOk(env, AdmittedAs(s, c).slots)
    ensures AdmittedSlot(s, AdmittedAs(s, c), c) && OneRegistration(AdmittedAs(s, c), c.slot, c.dir)
    ensures AdmittedAs(s, c) == s.(slots := AdmittedAs(s, c).slots)
  {
    hide SlotShape;
    var k, t := FindEither(s.slots, c.slot, c.dir), AdmittedAs(s, c);
    assert t.slots[k].id == c.slot && t.slots[k].dir == c.dir && t.slots[k].ownership.Managed?;
    forall j | 0 <= j < |t.slots| && j != k ensures t.slots[j].id != c.slot && t.slots[j].dir != c.dir {
      assert SlotsDistinct(env, t.slots);
    }
    forall x | x in s.slots && x.id != c.slot ensures x in t.slots {
      var i :| 0 <= i < |s.slots| && s.slots[i] == x;
      assert t.slots[i] == x;
    }
    if c.binding.None? && HasSlot(s.slots, c.slot) {
      var i :| 0 <= i < |s.slots| && s.slots[i].id == c.slot;
      assert k < |s.slots|;
      assert t.slots[k] == s.slots[k];
    }
  }

  /** Admitting again finds the same slot and writes the same settings. */
  lemma AdmitAgain(env: Env, s: Settings, c: Call)
    requires c.Admit? && MayAdmit(s, c) && SlotsOk(env, AdmittedAs(s, c).slots)
    ensures MayAdmit(AdmittedAs(s, c), c) && AdmittedAs(AdmittedAs(s, c), c) == AdmittedAs(s, c)
  {
    hide SlotShape;
    var k, t := FindEither(s.slots, c.slot, c.dir), AdmittedAs(s, c);
    forall j | 0 <= j < k ensures t.slots[j].id != c.slot && t.slots[j].dir != c.dir {
      assert t.slots[j] == s.slots[j];
    }
    assert t.slots[k].id == c.slot;
    assert FindEither(t.slots, c.slot, c.dir) == k;
    assert t.slots[k := t.slots[k]] == t.slots;
  }

  lemma ManagedFound(env: Env, s: Settings, c: Call)
    requires c.Admit? && Valid(env, s) && ManagedSlot(s.slots, c.slot, c.dir)
    requires c.binding.Some? ==> ValidBinding(c.binding.value)
    ensures MayAdmit(s, c) && Valid(env, AdmittedAs(s, c))
  {
    hide ReconnectsOk, SetupsOk, RowsOk, SlotsOk, SlotShape;
    var n :| 0 <= n < |s.slots| && s.slots[n].id == c.slot && s.slots[n].dir == c.dir && s.slots[n].ownership.Managed?;
    EitherIs(env, s.slots, n);
    var t := AdmittedAs(s, c);
    ApprovedSlotsOk(env, s.slots, n, t.slots[n]);
    assert Rows(t) == Rows(s);
    ApprovalKeepsRows(s.slots, t.slots, s.setups, s.reconnects);
  }

  lemma EitherIs(env: Env, slots: seq<Slot>, n: nat)
    requires SlotsOk(env, slots) && n < |slots|
    ensures FindEither(slots, slots[n].id, slots[n].dir) == n
  {
    hide SlotShape;
    assert forall i :: 0 <= i < n ==> slots[i].id != slots[n].id && slots[i].dir != slots[n].dir;
  }

  lemma ApprovedSlotsOk(env: Env, slots: seq<Slot>, n: nat, slot: Slot)
    requires SlotsOk(env, slots) && n < |slots| && slot.id == slots[n].id && slot.dir == slots[n].dir
    requires slot == slots[n] || (ApprovedBinding(slot).Some? && ValidBinding(ApprovedBinding(slot).value))
    ensures SlotsOk(env, slots[n := slot])
  {
    hide ValidHash, ValidDir, ValidSlotId;
    assert SlotShape(slots[n]);
  }

  /** Approvals do not enter the rules for rows. */
  lemma {:induction false} SameFind(a: seq<Slot>, b: seq<Slot>, id: string)
    requires |a| == |b| && forall i :: 0 <= i < |a| ==> a[i].id == b[i].id
    ensures FindSlot(a, id) == FindSlot(b, id) && (HasSlot(a, id) <==> HasSlot(b, id))
  {
    HasSlotFound(a, id);
    HasSlotFound(b, id);
    if a != [] { SameFind(a[1..], b[1..], id); }
  }

  lemma {:induction false} SameUnregistered(a: seq<Slot>, b: seq<Slot>, ops: seq<Operation>)
    requires |a| == |b| && forall i :: 0 <= i < |a| ==> a[i].id == b[i].id
    ensures Unregistered(a, ops) == Unregistered(b, ops)
  {
    if ops != [] {
      SameFind(a, b, ops[0].slot);
      SameUnregistered(a, b, ops[1..]);
    }
  }

  lemma ApprovalKeepsRows(a: seq<Slot>, b: seq<Slot>, setups: seq<Operation>, reconnects: seq<Operation>)
    requires |a| == |b|
    requires forall i :: 0 <= i < |a| ==> a[i].id == b[i].id && a[i].dir == b[i].dir && a[i].ownership == b[i].ownership
    requires SetupsOk(a, setups) && ReconnectsOk(a, reconnects)
    ensures SetupsOk(b, setups) && ReconnectsOk(b, reconnects)
  {
    hide OpShape;
    SameUnregistered(a, b, setups);
    forall i | 0 <= i < |setups| ensures SetupMatches(b, setups[i]) {
      assert SetupMatches(a, setups[i]);
      SameFind(a, b, setups[i].slot);
    }
    forall i | 0 <= i < |reconnects| ensures ReconnectMatches(b, reconnects[i]) {
      assert ReconnectMatches(a, reconnects[i]);
      SameFind(a, b, reconnects[i].slot);
    }
  }

  lemma AdmissionPromise(env: Env, d: Disk, c: Call)
    requires c.Admit?
    ensures var p := PlanOf(env, d, c); AdmissionKept(env, d, c, p.reply, ApplyAll(d, p.effects))
  {
    hide SlotsOk, SetupsOk, ReconnectsOk, RowsOk, Keeps, Load, View, Sound, ArgumentsOk, AdmittedSlot, OneRegistration,
      AdmittedAs, MayAdmit, AdmitPlan, ManagedSlot;
    if Good(env, d) {
      CallKeeps(env, d, c);
      LoadedAfter(env, d, c);
      AdmitPlanOf(env, d, c);
      GoodIsValid(env, d);
      var s := View(env, d);
      AdmitIs(env, s, c);
      LastOfChecked(env, s, AdmittedAs(s, c), Done);
      if ArgumentsOk(env, c) && ManagedSlot(s.slots, c.slot, c.dir) {
        AdmitArguments(env, c);
        ManagedFound(env, s, c);
      }
      if PlanOf(env, d, c).reply.Done? { AdmittedTwice(env, d, c); }
    }
  }

  lemma AdmitArguments(env: Env, c: Call)
    requires c.Admit? && ArgumentsOk(env, c)
    ensures c.binding.Some? ==> ValidBinding(c.binding.value)
  {
  }

  lemma AdmitPlanOf(env: Env, d: Disk, c: Call)
    requires c.Admit? && Good(env, d)
    ensures var ok := ArgumentsOk(env, c) && c.schema == SETTINGS_SCHEMA && c.dir in d.dirs;
      && (ok ==> PlanOf(env, d, c) == AdmitPlan(env, View(env, d), c.slot, c.dir, c.binding))
      && (!ok ==> PlanOf(env, d, c).reply.Refused? && PlanOf(env, d, c).effects == [])
  {
    hide Valid, ArgumentsOk, AdmitPlan;
  }

  lemma AdmittedTwice(env: Env, d: Disk, c: Call)
    requires c.Admit? && Good(env, d) && PlanOf(env, d, c).reply.Done?
    ensures var s, e := View(env, d), ApplyAll(d, PlanOf(env, d, c).effects);
      && Good(env, e) && View(env, e) == AdmittedAs(s, c) == s.(slots := AdmittedAs(s, c).slots)
      && AdmittedSlot(s, View(env, e), c) && OneRegistration(View(env, e), c.slot, c.dir)
      && PlanOf(env, e, c).reply.Done? && Next(env, e, Ran(c)) == e
  {
    hide SetupsOk, ReconnectsOk, RowsOk, SlotsOk, Load, View, Sound, ArgumentsOk, AdmittedSlot, OneRegistration,
      AdmittedAs, MayAdmit, AdmitPlan, PlanOf;
    var s, e := View(env, d), ApplyAll(d, PlanOf(env, d, c).effects);
    AdmitPlanOf(env, d, c);
    AdmitIs(env, s, c);
    LoadedAfter(env, d, c);
    var t := AdmittedAs(s, c);
    LastOfChecked(env, s, t, Done);
    AdmittedHas(env, s, c);
    AdmitAgain(env, s, c);
    AdmitPlanOf(env, e, c);
    AdmitIs(env, t, c);
    SaveTwice(d, t);
  }

  lemma SaveTwice(d: Disk, t: Settings)
    ensures ApplyAll(d, [Save(t)]).dirs == d.dirs
    ensures ApplyAll(ApplyAll(d, [Save(t)]), [Save(t)]) == ApplyAll(d, [Save(t)])
  {
    assert [Save(t)][1..] == [];
    assert ApplyAll(d, [Save(t)]) == AfterSave(d, t);
    assert ApplyAll(AfterSave(d, t), [Save(t)]) == AfterSave(AfterSave(d, t), t);
  }

  // ---- removal

  /** The slot and every row on it are gone, every reconnect id that went is retired, and all else stays. */
  ghost predicate RemovedFrom(env: Env, s: Settings, t: Settings, slot: string)
    requires FilterShape(t.filter)
  {
    && (forall x :: x in t.slots <==> x in s.slots && x.id != slot)
    && (forall op :: op in t.setups <==> op in s.setups && op.slot != slot)
    && (forall op :: op in t.reconnects <==> op in s.reconnects && op.slot != slot)
    && (forall op :: op in s.reconnects && op.slot == slot ==> IsRetired(env, t.filter, op.id))
    && GrowsBy(env, s.filter, t.filter, set op | op in s.reconnects && op.slot == slot :: op.id)
    && t == s.(slots := t.slots, setups := t.setups, reconnects := t.reconnects, filter := t.filter)
  }

  ghost predicate RemoveKept(env: Env, d: Disk, schema: nat, slot: string, reply: Reply, e: Disk) {
    Good(env, d) ==>
      && Keeps(env, d, e) && FilterShape(View(env, e).filter)
      && (reply.Done? <==> schema == SETTINGS_SCHEMA && slot != "default" && HasSlot(View(env, d).slots, slot))
      && (if reply.Done? then RemovedFrom(env, View(env, d), View(env, e), slot) else e == d)
  }

  lemma RemovedIs(env: Env, s: Settings, slot: string)
    requires Valid(env, s) && FilterShape(s.filter) && FindSlot(s.slots, slot) < |s.slots|
    ensures var t := Removed(env, s, slot); FilterShape(t.filter) && RemovedFrom(env, s, t, slot)
  {
    hide SetupsOk, ReconnectsOk, RowsOk, SlotShape, Filter, RetireAll, IsRetired, GrowsBy;
    var k, t := FindSlot(s.slots, slot), Removed(env, s, slot);
    var gone := Filter(s.reconnects, (op: Operation) => op.slot == slot);
    RetireAllCorrect(env, s.filter, gone);
    RetireAllGrows(env, s.filter, gone);
    assert (set op | op in gone :: op.id) == set op | op in s.reconnects && op.slot == slot :: op.id;
    forall op | op in s.reconnects && op.slot == slot ensures IsRetired(env, t.filter, op.id) {
      assert op in gone;
      var i :| 0 <= i < |gone| && gone[i] == op;
    }
    SlotsWithout(env, s.slots, k);
  }

  lemma SlotsWithout(env: Env, slots: seq<Slot>, k: nat)
    requires SlotsOk(env, slots) && k < |slots|
    ensures forall x :: x in slots[..k] + slots[k + 1..] <==> x in slots && x.id != slots[k].id
  {
    hide SlotShape;
    var r := slots[..k] + slots[k + 1..];
    forall x | x in r ensures x in slots && x.id != slots[k].id {
      var i :| 0 <= i < |r| && r[i] == x;
      assert x == slots[if i < k then i else i + 1];
    }
    forall x | x in slots && x.id != slots[k].id ensures x in r {
      var i :| 0 <= i < |slots| && slots[i] == x;
      assert r[if i < k then i else i - 1] == x;
    }
  }

  lemma RemovePlanOf(env: Env, d: Disk, c: Call)
    requires c.Remove? && Good(env, d) && FilterShape(View(env, d).filter)
    ensures var ok := c.slot != "default" && c.schema == SETTINGS_SCHEMA;
      PlanOf(env, d, c) == if ok then RemovePlan(env, View(env, d), c.slot) else Refuse(Invalid)
  {
    hide Valid, RemovePlan;
  }

  lemma RemovePromise(env: Env, d: Disk, schema: nat, slot: string)
    ensures var p := PlanOf(env, d, Remove(schema, slot));
      RemoveKept(env, d, schema, slot, p.reply, ApplyAll(d, p.effects))
  {
    hide SlotsOk, SetupsOk, ReconnectsOk, RowsOk, Keeps, Load, View, Sound, PlanOf, Removed, RemovedFrom;
    if Good(env, d) {
      var c := Remove(schema, slot);
      CallKeeps(env, d, c);
      LoadedAfter(env, d, c);
      GoodIsValid(env, d);
      GoodIsValid(env, ApplyAll(d, PlanOf(env, d, c).effects));
      RemovePlanOf(env, d, c);
      var s := View(env, d);
      HasSlotFound(s.slots, slot);
      if FindSlot(s.slots, slot) < |s.slots| {
        RemovedValid(env, s, slot);
        RemovedIs(env, s, slot);
        LastOfChecked(env, s, Removed(env, s, slot), Done);
      }
    }
  }
}
