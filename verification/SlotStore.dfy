/** The store as the source writes it: load, change the loaded value step by step, validate, write the sidecar
    and then the main file. Each method carries out the plan the run theorems are about, and says what its caller may
    rely on at the next load. */
module SlotStore {
  import opened Prelude
  import opened SlotModel
  import opened SlotFilter
  import opened SlotCalls
  import opened SlotEvolution
  import opened SlotRuns
  import opened SlotPrepare
  import opened SlotPromises
  import opened SlotRowPromises
  import opened SlotAcceptance
  import opened SlotBindings
  import opened SlotDirectories

  // ---- validate_persisted

  /** One pass over the registered slots with the three uniqueness sets. */
  method CheckSlots(env: Env, slots: seq<Slot>) returns (ok: bool)
    ensures ok <==> SlotsOk(env, slots)
  {
    if |slots| > MAX_REGISTERED { return false; }
    var ids: set<string>, dirs: set<string>, services: set<string> := {}, {}, {};
    for i := 0 to |slots|
      invariant forall a :: 0 <= a < i ==> SlotShape(slots[a])
      invariant ids == set a | 0 <= a < i :: slots[a].id
      invariant dirs == set a | 0 <= a < i :: slots[a].dir
      invariant services == set a | 0 <= a < i :: env.serviceName(slots[a].dir)
      invariant SlotsDistinct(env, slots[..i])
    {
      hide SlotShape;
      var slot := slots[i];
      if !SlotShape(slot) { return false; }
      if slot.id in ids {
        var a :| 0 <= a < i && slots[a].id == slot.id;
        assert !SlotsDistinct(env, slots);
        return false;
      }
      if slot.dir in dirs {
        var a :| 0 <= a < i && slots[a].dir == slot.dir;
        assert !SlotsDistinct(env, slots);
        return false;
      }
      if env.serviceName(slot.dir) in services {
        var a :| 0 <= a < i && env.serviceName(slots[a].dir) == env.serviceName(slot.dir);
        assert !SlotsDistinct(env, slots);
        return false;
      }
      ids, dirs, services := ids + {slot.id}, dirs + {slot.dir}, services + {env.serviceName(slot.dir)};
      DistinctSnoc(env, slots, i);
    }
    assert slots[..|slots|] == slots;
    return true;
  }

  lemma DistinctSnoc(env: Env, slots: seq<Slot>, i: nat)
    requires i < |slots| && SlotsDistinct(env, slots[..i])
    requires forall a :: 0 <= a < i ==>
      slots[a].id != slots[i].id && slots[a].dir != slots[i].dir
      && env.serviceName(slots[a].dir) != env.serviceName(slots[i].dir)
    ensures SlotsDistinct(env, slots[..i + 1])
  {
    var r := slots[..i + 1];
    forall a, b | 0 <= a < b < |r|
      ensures r[a].id != r[b].id && r[a].dir != r[b].dir && env.serviceName(r[a].dir) != env.serviceName(r[b].dir)
    {
      if b < i { assert slots[..i][a] == r[a] && slots[..i][b] == r[b]; }
    }
  }

  /** The setup rows that name no registered slot. */
  method CountUnregistered(slots: seq<Slot>, ops: seq<Operation>) returns (n: nat)
    ensures n == Unregistered(slots, ops)
  {
    n := 0;
    for i := |ops| downto 0
      invariant n == Unregistered(slots, ops[i..])
    {
      assert ops[i..][1..] == ops[i + 1..];
      if !HasSlot(slots, ops[i].slot) { n := n + 1; }
    }
    assert ops[0..] == ops;
  }

  /** Unique ids over both arrays, and the count of active rows, as one pass each. */
  method CheckRows(ops: seq<Operation>) returns (ok: bool)
    ensures ok <==> RowsOk(ops)
  {
    var ids: set<string> := {};
    for i := 0 to |ops|
      invariant forall x :: x in ids <==> exists a :: 0 <= a < i && ops[a].id == x
      invariant forall a, b :: 0 <= a < b < i ==> ops[a].id != ops[b].id
    {
      if ops[i].id in ids {
        var a :| 0 <= a < i && ops[a].id == ops[i].id;
        assert !IdsDistinct(ops);
        return false;
      }
      ids := ids + {ops[i].id};
    }
    var active: nat := 0;
    ghost var first: nat := 0;
    for i := 0 to |ops|
      invariant active <= 1
      invariant active == 0 ==> forall a :: 0 <= a < i ==> !Active(ops[a])
      invariant active == 1 ==> first < i && Active(ops[first]) && forall a :: 0 <= a < i && a != first ==>
        !Active(ops[a])
    {
      if Active(ops[i]) {
        if active == 1 {
          assert !AtMostOneActive(ops);
          return false;
        }
        active, first := 1, i;
      }
    }
    return true;
  }

  method CheckSetups(slots: seq<Slot>, ops: seq<Operation>) returns (ok: bool)
    ensures ok <==> SetupsOk(slots, ops)
  {
    if |ops| > MAX_REGISTERED { return false; }
    for i := 0 to |ops|
      invariant forall a :: 0 <= a < i ==> OpShape(ops[a]) && SetupMatches(slots, ops[a])
    {
      if !OpShape(ops[i]) || !SetupMatches(slots, ops[i]) { return false; }
    }
    var reserved := CountUnregistered(slots, ops);
    return |slots| + reserved <= MAX_REGISTERED;
  }

  method CheckReconnects(slots: seq<Slot>, ops: seq<Operation>) returns (ok: bool)
    ensures ok <==> ReconnectsOk(slots, ops)
  {
    if |ops| > MAX_REGISTERED { return false; }
    var seen: set<string> := {};
    for i := 0 to |ops|
      invariant forall a :: 0 <= a < i ==> OpShape(ops[a]) && ReconnectMatches(slots, ops[a])
      invariant forall x :: x in seen <==> exists a :: 0 <= a < i && ops[a].slot == x
      invariant forall a, b :: 0 <= a < b < i ==> ops[a].slot != ops[b].slot
    {
      if !OpShape(ops[i]) || !ReconnectMatches(slots, ops[i]) { return false; }
      if ops[i].slot in seen {
        var a :| 0 <= a < i && ops[a].slot == ops[i].slot;
        assert !SlotIdsDistinct(ops);
        return false;
      }
      seen := seen + {ops[i].slot};
    }
    return true;
  }

  /** `validate_persisted` accepts exactly the valid settings. */
  method ValidatePersisted(env: Env, s: Settings) returns (ok: bool)
    ensures ok <==> Valid(env, s)
  {
    hide SlotsOk, SetupsOk, ReconnectsOk, RowsOk;
    if s.schema != PERSISTED_SCHEMA || !FilterShape(s.filter) { return false; }
    ok := CheckSlots(env, s.slots);
    if !ok { return; }
    ok := CheckSetups(s.slots, s.setups);
    if !ok { return; }
    ok := CheckReconnects(s.slots, s.reconnects);
    if !ok { return; }
    ok := CheckRows(Rows(s));
  }

  // ---- the filter words, updated in place

  method OrInto(words: array<bv64>, source: seq<bv64>)
    requires words.Length == |source| == FILTER_WORDS
    modifies words
    ensures words[..] == MergeFilters(old(words[..]), source)
  {
    for i := 0 to words.Length
      invariant forall a :: 0 <= a < i ==> words[a] == Or(old(words[a]), source[a])
      invariant forall a :: i <= a < words.Length ==> words[a] == old(words[a])
    {
      words[i] := Or(words[i], source[i]);
    }
  }

  lemma {:induction false} SetBitsSnoc(filter: seq<bv64>, ws: seq<bv32>, i: nat)
    requires |filter| == FILTER_WORDS && i < |ws|
    ensures SetBits(filter, ws[..i + 1]) == SetBit(SetBits(filter, ws[..i]), ws[i])
    decreases ws
  {
    if i == 0 {
      assert ws[..1] == [ws[0]] && ws[..0] == [];
      assert SetBits(SetBit(filter, ws[0]), []) == SetBit(filter, ws[0]);
    } else {
      assert ws[..i + 1][1..] == ws[1..][..i] && ws[..i][1..] == ws[1..][..i - 1];
      SetBitsSnoc(SetBit(filter, ws[0]), ws[1..], i - 1);
    }
  }

  /** The loop of `retire_reconnect_operation_id` over the eight digest words. */
  method RetireId(env: Env, filter: seq<bv64>, id: string) returns (r: seq<bv64>)
    requires FilterShape(filter)
    ensures r == Retire(env, filter, id)
  {
    r := if filter == [] then seq(FILTER_WORDS, _ => 0) else filter;
    ghost var start := r;
    var words := env.digest(id).Words();
    for i := 0 to |words|
      invariant |r| == FILTER_WORDS && r == SetBits(start, words[..i])
    {
      SetBitsSnoc(start, words, i);
      r := SetBit(r, words[i]);
    }
    assert words[..|words|] == words;
  }

  /** The loop of `remove` over the ids that go. */
  method RetireEach(env: Env, filter: seq<bv64>, gone: seq<Operation>) returns (r: seq<bv64>)
    requires FilterShape(filter)
    ensures FilterShape(r) && r == RetireAll(env, filter, gone)
  {
    hide Retire;
    r := filter;
    for i := 0 to |gone|
      invariant FilterShape(r)
      invariant RetireAll(env, r, gone[i..]) == RetireAll(env, filter, gone)
    {
      r := RetireId(env, r, gone[i].id);
      assert gone[i..][1..] == gone[i + 1..];
    }
  }

  // ---- the store

  class FileStore {
    var main: Option<Settings>
    var sidecar: Option<seq<bv64>>
    var dirs: set<string>

    ghost function OnDisk(): Disk
      reads this
    {
      Disk(main, sidecar, dirs)
    }

    /** The files load, the sidecar covers the main file, and observed hashes are the expected ones. */
    ghost predicate Intact(env: Env)
      reads this
    {
      Good(env, OnDisk())
    }

    constructor ()
      ensures OnDisk() == Disk(None, None, {})
      ensures forall env :: Intact(env)
    {
      main, sidecar, dirs := None, None, {};
      new;
      forall env ensures Good(env, OnDisk()) { ReachGood(env, []); }
    }

    /** `load_persisted`. */
    method LoadPersisted(env: Env) returns (r: Loaded)
      ensures r == Load(env, OnDisk())
    {
      hide Valid;
      var s := if main.Some? then main.value else DEFAULT_SETTINGS;
      if s.schema != 1 && s.schema != PERSISTED_SCHEMA { return Failed(Invalid); }
      if sidecar.Some? && |sidecar.value| != FILTER_WORDS { return Failed(BadState); }
      if !FilterShape(s.filter) { return Failed(Invalid); }
      s := s.(schema := PERSISTED_SCHEMA);
      if sidecar.Some? {
        if s.filter == [] {
          s := s.(filter := sidecar.value);
        } else {
          var filter := s.filter;
          var words := new bv64[FILTER_WORDS](i requires 0 <= i < FILTER_WORDS => filter[i]);
          assert words[..] == filter;
          OrInto(words, sidecar.value);
          s := s.(filter := words[..]);
        }
      }
      var ok := ValidatePersisted(env, s);
      return if ok then Ok(s) else Failed(Invalid);
    }

    /** `write_persisted`: the sidecar first, then the main file. */
    method WritePersisted(s: Settings)
      modifies this`main, this`sidecar
      ensures OnDisk() == AfterSave(old(OnDisk()), s)
    {
      if s.filter != [] { sidecar := Some(s.filter); }
      main := Some(s);
    }

    method ValidateAndWrite(env: Env, s: Settings, ghost reply: Reply) returns (ok: bool)
      modifies this`main, this`sidecar
      ensures ok <==> Valid(env, s)
      ensures OnDisk() == ApplyAll(old(OnDisk()), SaveChecked(env, s, reply).effects)
    {
      hide Valid;
      ok := ValidatePersisted(env, s);
      if ok { WritePersisted(s); }
    }

    method EnsureDirectory(path: string)
      modifies this`dirs
      ensures OnDisk() == Apply(old(OnDisk()), MakeDir(path))
    {
      dirs := dirs + {path};
    }

    /** Effects of one call so far, then the rest. */
    static lemma {:induction false} ApplySplit(d: Disk, a: seq<Effect>, b: seq<Effect>)
      ensures ApplyAll(d, a + b) == ApplyAll(ApplyAll(d, a), b)
      decreases a
    {
      if a == [] {
        assert a + b == b;
      } else {
        assert (a + b)[1..] == a[1..] + b;
        ApplySplit(Apply(d, a[0]), a[1..], b);
      }
    }

    static lemma ApplyOne(d: Disk, e: Effect)
      ensures ApplyAll(d, [e]) == Apply(d, e)
      ensures ApplyAll(d, []) == d
    {
      assert [e][1..] == [];
    }

    /** The checks and the load every locked call starts with. */
    method Begin(env: Env, c: Call) returns (r: Loaded)
      requires !c.EnsureApproved?
      ensures r.Failed? ==> PlanOf(env, OnDisk(), c) == Refuse(r.error)
      ensures r.Ok? ==> Load(env, OnDisk()) == r && FilterShape(r.settings.filter)
      ensures r.Ok? ==> PlanOf(env, OnDisk(), c) == LockedPlan(env, r.settings, c)
    {
      hide Valid, LockedPlan;
      if !ArgumentsOk(env, c) { return Failed(Invalid); }
      if c.Admit? && c.dir !in dirs { return Failed(BadState); }
      if c.schema != SETTINGS_SCHEMA { return Failed(Invalid); }
      r := LoadPersisted(env);
      if r.Ok? { ValidFilter(env, r.settings); }
    }

    method SetUpkeepConsent(env: Env, schema: nat, consent: bool) returns (reply: Reply)
      modifies this
      ensures var p := PlanOf(env, old(OnDisk()), SetConsent(schema, consent));
        OnDisk() == ApplyAll(old(OnDisk()), p.effects) && reply == p.reply
      ensures old(Intact(env)) ==> Intact(env)
      ensures ConsentKept(env, old(OnDisk()), schema, consent, reply, OnDisk())
    {
      hide ConsentKept, Good, Valid;
      StaysGood(env, OnDisk(), SetConsent(schema, consent));
      ConsentPromise(env, OnDisk(), schema, consent);
      var loaded := Begin(env, SetConsent(schema, consent));
      if loaded.Failed? { return Refused(loaded.error); }
      var s := loaded.settings;
      s := s.(consent := consent);
      s := s.(consentChosen := true);
      var ok := ValidateAndWrite(env, s, Done);
      reply := if ok then Done else Refused(Invalid);
    }

    method RegisterDirectory(env: Env, schema: nat, dir: string, ownership: Ownership, token: string)
      returns (reply: Reply)
      modifies this
      ensures var p := PlanOf(env, old(OnDisk()), RegisterPath(schema, dir, ownership, token));
        OnDisk() == ApplyAll(old(OnDisk()), p.effects) && reply == p.reply
      ensures old(Intact(env)) ==> Intact(env)
      ensures DirectoryKept(env, old(OnDisk()), schema, dir, ownership, token, reply, OnDisk())
    {
      hide DirectoryKept, Good, Valid;
      StaysGood(env, OnDisk(), RegisterPath(schema, dir, ownership, token));
      DirectoryPromise(env, OnDisk(), schema, dir, ownership, token);
      var loaded := Begin(env, RegisterPath(schema, dir, ownership, token));
      if loaded.Failed? { return Refused(loaded.error); }
      var s := loaded.settings;
      s := s.(slots := s.slots + [NewSlot(token, ownership, dir)]);
      var ok := ValidateAndWrite(env, s, Done);
      reply := if ok then Done else Refused(Invalid);
    }

    method AdmitManaged(env: Env, schema: nat, slot: string, dir: string, binding: Option<Binding>)
      returns (reply: Reply)
      modifies this
      ensures var p := PlanOf(env, old(OnDisk()), Admit(schema, slot, dir, binding));
        OnDisk() == ApplyAll(old(OnDisk()), p.effects) && reply == p.reply
      ensures old(Intact(env)) ==> Intact(env)
      ensures AdmissionKept(env, old(OnDisk()), Admit(schema, slot, dir, binding), reply, OnDisk())
      ensures AdmissionAnswered(env, old(OnDisk()), Admit(schema, slot, dir, binding), reply)
    {
      hide AdmissionKept, AdmissionAnswered, Good, Valid;
      StaysGood(env, OnDisk(), Admit(schema, slot, dir, binding));
      AdmissionPromise(env, OnDisk(), Admit(schema, slot, dir, binding));
      AdmissionAnswers(env, OnDisk(), Admit(schema, slot, dir, binding));
      var loaded := Begin(env, Admit(schema, slot, dir, binding));
      if loaded.Failed? { return Refused(loaded.error); }
      var s := loaded.settings;
      var k := FindEither(s.slots, slot, dir);
      if k < |s.slots| {
        if s.slots[k].id != slot || s.slots[k].dir != dir || !s.slots[k].ownership.Managed? {
          return Refused(Invalid);
        }
        var existing := s.slots[k];
        if binding.Some? { existing := Approve(existing, binding.value, SetupProof); }
        s := s.(slots := s.slots[k := existing]);
      } else {
        var registered := NewSlot(slot, Managed, dir);
        if binding.Some? { registered := Approve(registered, binding.value, SetupProof); }
        s := s.(slots := s.slots + [registered]);
      }
      var ok := ValidateAndWrite(env, s, Done);
      reply := if ok then Done else Refused(Invalid);
    }

    /** Removes the slot and its rows, retiring the id of every reconnect row that goes. */
    method RemoveSlot(env: Env, schema: nat, slot: string) returns (reply: Reply)
      modifies this
      ensures var p := PlanOf(env, old(OnDisk()), Remove(schema, slot));
        OnDisk() == ApplyAll(old(OnDisk()), p.effects) && reply == p.reply
      ensures old(Intact(env)) ==> Intact(env)
      ensures RemoveKept(env, old(OnDisk()), schema, slot, reply, OnDisk())
    {
      hide RemoveKept, Good, Valid, Filter, RetireAll, PlanOf;
      StaysGood(env, OnDisk(), Remove(schema, slot));
      RemovePromise(env, OnDisk(), schema, slot);
      var loaded := Begin(env, Remove(schema, slot));
      if loaded.Failed? { return Refused(loaded.error); }
      var s := loaded.settings;
      var k := FindSlot(s.slots, slot);
      if k == |s.slots| { return Refused(Invalid); }
      ghost var was := s;
      s := s.(slots := s.slots[..k] + s.slots[k + 1..]);
      s := s.(setups := Filter(s.setups, (op: Operation) => op.slot != slot));
      var gone := Filter(s.reconnects, (op: Operation) => op.slot == slot);
      var filter := RetireEach(env, s.filter, gone);
      s := s.(filter := filter);
      s := s.(reconnects := Filter(s.reconnects, (op: Operation) => op.slot != slot));
      assert s == Removed(env, was, slot);
      var ok := ValidateAndWrite(env, s, Done);
      reply := if ok then Done else Refused(Invalid);
    }

    /** `finalize_preparing_operation`. */
    method FinalizePreparing(env: Env, s: Settings, i: nat) returns (reply: Reply)
      requires i < |s.setups|
      modifies this
      ensures var p := FinalizePlan(env, s, i);
        OnDisk() == ApplyAll(old(OnDisk()), p.effects) && reply == p.reply
    {
      hide Valid;
      var op := s.setups[i];
      if !op.state.Preparing? { return Refused(BadState); }
      EnsureDirectory(op.dir);
      var t := s.(slots := s.slots + [NewSlot(op.slot, Managed, op.dir)]);
      t := t.(setups := t.setups[i := op.(state := WaitingForUserLogin)]);
      assert t == Finalized(s, i);
      ghost var mid := OnDisk();
      assert mid == ApplyAll(old(OnDisk()), [MakeDir(op.dir)]) by { ApplyOne(old(OnDisk()), MakeDir(op.dir)); }
      var ok := ValidateAndWrite(env, t, Done);
      ApplySplit(old(OnDisk()), [MakeDir(op.dir)], [Save(t)]);
      assert [MakeDir(op.dir)] + [Save(t)] == [MakeDir(op.dir), Save(t)];
      if ok {
        assert OnDisk() == ApplyAll(mid, [Save(t)]);
        reply := Done;
      } else {
        assert OnDisk() == ApplyAll(mid, []) == mid;
        reply := Refused(Invalid);
      }
    }

    method ReplayPrepare(env: Env, s: Settings, i: nat) returns (reply: Reply)
      requires i < |s.setups|
      modifies this
      ensures var p := ReplayPlan(env, s, i);
        OnDisk() == ApplyAll(old(OnDisk()), p.effects) && reply == p.reply
    {
      hide Valid, FinalizePlan, OtherActive;
      var op := s.setups[i];
      var k := FindSlot(s.slots, op.slot);
      ghost var d := OnDisk();
      if k < |s.slots| {
        if !s.slots[k].ownership.Managed? || s.slots[k].dir != op.dir { return Refused(BadState); }
        EnsureDirectory(op.dir);
        ApplyOne(d, MakeDir(op.dir));
        if op.state.SetupStopped? {
          if OtherActive(s, op.id) { return Refused(Invalid); }
          var t := s.(setups := s.setups[i := op.(state := WaitingForUserLogin)]);
          ApplyOne(OnDisk(), Save(t));
          ApplySplit(d, [MakeDir(op.dir)], [Save(t)]);
          assert [MakeDir(op.dir)] + [Save(t)] == [MakeDir(op.dir), Save(t)];
          WritePersisted(t);
        }
        return Done;
      }
      if !op.state.Preparing? && !op.state.SetupStopped? { return Refused(BadState); }
      var t := s;
      if op.state.SetupStopped? {
        if OtherActive(s, op.id) { return Refused(Invalid); }
        t := s.(setups := s.setups[i := op.(state := Preparing)]);
        ApplyOne(d, Save(t));
        WritePersisted(t);
        ApplySplit(d, [Save(t)], FinalizePlan(env, t, i).effects);
      }
      reply := FinalizePreparing(env, t, i);
    }

    method PrepareManaged(env: Env, c: Call) returns (reply: Reply)
      requires c.Prepare?
      modifies this
      ensures var p := PlanOf(env, old(OnDisk()), c);
        OnDisk() == ApplyAll(old(OnDisk()), p.effects) && reply == p.reply
      ensures old(Intact(env)) ==> Intact(env)
      ensures PrepareKept(env, old(OnDisk()), c, reply, OnDisk())
      ensures DirsKept(env, old(OnDisk()), c, reply, OnDisk())
      ensures PrepareAnswered(env, old(OnDisk()), c, reply)
    {
      hide PrepareKept, DirsKept, PrepareAnswered, Good, Valid, ReplayPlan, FirstPreparePlan, OtherActive, IsRetired,
        PlanOf;
      StaysGood(env, OnDisk(), c);
      PreparePromise(env, OnDisk(), c);
      DirsAfter(env, OnDisk(), c);
      PrepareAnswers(env, OnDisk(), c);
      var loaded := Begin(env, c);
      if loaded.Failed? { return Refused(loaded.error); }
      var s := loaded.settings;
      if HasOp(s.reconnects, c.id) { return Refused(Invalid); }
      var i := Find(s.setups, c.id);
      if i < |s.setups| {
        if s.setups[i].target != c.target || s.setups[i].requestedAccount != c.account
           || s.setups[i].requestedOrganization != c.organization
        {
          return Refused(Invalid);
        }
        reply := ReplayPrepare(env, s, i);
        return;
      }
      if IsRetired(env, s.filter, c.id) || OtherActive(s, c.id) { return Refused(Invalid); }
      var reserved := CountUnregistered(s.slots, s.setups);
      if |s.slots| + reserved >= MAX_REGISTERED { return Refused(Invalid); }
      reply := PrepareFirst(env, s, c);
    }

    method PrepareFirst(env: Env, s: Settings, c: Call) returns (reply: Reply)
      requires c.Prepare?
      modifies this
      ensures var p := FirstPreparePlan(env, s, c);
        OnDisk() == ApplyAll(old(OnDisk()), p.effects) && reply == p.reply
    {
      hide Valid, FinalizePlan, IntentRow;
      ghost var d := OnDisk();
      EnsureDirectory(env.root);
      ApplyOne(d, MakeDir(env.root));
      var dir := ManagedPath(env, c.token);
      ghost var made: seq<Effect> := [MakeDir(env.root)];
      if c.reusable.Some? {
        dir := c.reusable.value;
        if !env.directChild(dir)
           || (exists i :: 0 <= i < |s.slots| && s.slots[i].dir == dir)
           || (exists i :: 0 <= i < |Rows(s)| && Rows(s)[i].dir == dir)
        {
          return Refused(Invalid);
        }
        ApplyOne(OnDisk(), MakeDir(dir));
        ApplySplit(d, made, [MakeDir(dir)]);
        EnsureDirectory(dir);
        made := made + [MakeDir(dir)];
      }
      assert OnDisk() == ApplyAll(d, made);
      assert made == [MakeDir(env.root)] + (if c.reusable.Some? then [MakeDir(dir)] else []);
      if !ValidDir(dir) { return Refused(Invalid); }
      var t := s.(setups := s.setups + [IntentRow(s, c, dir)]);
      ghost var before := OnDisk();
      var ok := ValidatePersisted(env, t);
      if !ok { return Refused(Invalid); }
      WritePersisted(t);
      ApplyOne(before, Save(t));
      ApplySplit(d, made, [Save(t)]);
      ApplySplit(d, made + [Save(t)], FinalizePlan(env, t, |s.setups|).effects);
      reply := FinalizePreparing(env, t, |s.setups|);
    }

    method BeginReconnect(env: Env, c: Call) returns (reply: Reply)
      requires c.Reconnect?
      modifies this
      ensures var p := PlanOf(env, old(OnDisk()), c);
        OnDisk() == ApplyAll(old(OnDisk()), p.effects) && reply == p.reply
      ensures old(Intact(env)) ==> Intact(env)
      ensures ReconnectKept(env, old(OnDisk()), c, reply, OnDisk())
      ensures ReconnectAnswered(env, old(OnDisk()), c, reply)
    {
      hide ReconnectKept, ReconnectAnswered, Good, Valid, OtherActive, IsRetired, PlanOf, FirstReconnectPlan, Retire;
      StaysGood(env, OnDisk(), c);
      ReconnectPromise(env, OnDisk(), c);
      ReconnectAnswers(env, OnDisk(), c);
      var loaded := Begin(env, c);
      if loaded.Failed? { return Refused(loaded.error); }
      var s := loaded.settings;
      if HasOp(s.setups, c.id) { return Refused(Invalid); }
      var i := Find(s.reconnects, c.id);
      if i < |s.reconnects| {
        var op := s.reconnects[i];
        if !op.kind.ReconnectRegistered? || op.slot != c.slot || op.target != c.target
           || op.requestedAccount != Some(c.hash) || op.requestedOrganization != c.organization
        {
          return Refused(Invalid);
        }
        var k := FindSlot(s.slots, op.slot);
        if k == |s.slots| { return Refused(Invalid); }
        if s.slots[k].dir != op.dir { return Refused(BadState); }
        if op.state.SetupStopped? {
          if OtherActive(s, c.id) { return Refused(Invalid); }
          var t := s.(reconnects := s.reconnects[i := op.(state := WaitingForUserLogin)]);
          ApplyOne(OnDisk(), Save(t));
          WritePersisted(t);
        }
        return Done;
      }
      if IsRetired(env, s.filter, c.id) || OtherActive(s, c.id) { return Refused(Invalid); }
      reply := ReconnectFirst(env, s, c);
    }

    method ReconnectFirst(env: Env, s: Settings, c: Call) returns (reply: Reply)
      requires c.Reconnect? && FilterShape(s.filter)
      modifies this
      ensures var p := FirstReconnectPlan(env, s, c);
        OnDisk() == ApplyAll(old(OnDisk()), p.effects) && reply == p.reply
    {
      hide Valid, Retire, ReconnectRow;
      var k := FindSlot(s.slots, c.slot);
      if k == |s.slots| { return Refused(Invalid); }
      if exists i :: 0 <= i < |s.setups| && s.setups[i].slot == c.slot && !AllowsSuccessor(s.setups[i]) {
        return Refused(Invalid);
      }
      var t := s;
      var j := FindBySlot(s.reconnects, c.slot);
      if j < |s.reconnects| {
        if !AllowsSuccessor(s.reconnects[j]) { return Refused(Invalid); }
        var gone := s.reconnects[j].id;
        var filter := RetireId(env, s.filter, gone);
        t := t.(filter := filter, reconnects := Filter(s.reconnects, (op: Operation) => op.id != gone));
      }
      t := t.(reconnects := t.reconnects + [ReconnectRow(t, c, s.slots[k].dir)]);
      var ok := ValidateAndWrite(env, t, Done);
      reply := if ok then Done else Refused(Invalid);
    }

    method TransitionOperation(env: Env, c: Call) returns (reply: Reply)
      requires c.Transition?
      modifies this
      ensures var p := PlanOf(env, old(OnDisk()), c);
        OnDisk() == ApplyAll(old(OnDisk()), p.effects) && reply == p.reply
      ensures old(Intact(env)) ==> Intact(env)
      ensures TransitionKept(env, old(OnDisk()), c, reply, OnDisk())
      ensures TransitionAnswered(env, old(OnDisk()), c, reply)
    {
      hide TransitionKept, TransitionAnswered, Good, Valid, PlanOf, Retire, Mutated, CompletedBinding;
      StaysGood(env, OnDisk(), c);
      TransitionPromise(env, OnDisk(), c);
      TransitionAnswers(env, OnDisk(), c);
      var loaded := Begin(env, c);
      if loaded.Failed? { return Refused(loaded.error); }
      var s := loaded.settings;
      var i := Find(Rows(s), c.id);
      if i == |Rows(s)| { return Refused(Invalid); }
      var op := Rows(s)[i];
      var updated := Mutated(op, c);
      if updated.None? { return Refused(Invalid); }
      var t := WithRow(s, i, updated.value);
      var proof := CompletedBinding(updated.value);
      if proof.Some? {
        var k := FindExact(t.slots, updated.value.slot, updated.value.dir);
        if k < |t.slots| {
          t := t.(slots := t.slots[k := Approve(t.slots[k], proof.value, SourceOf(updated.value.kind))]);
        }
      }
      if Finishes(op, updated.value) {
        var filter := RetireId(env, s.filter, c.id);
        t := t.(filter := filter);
      } else {
        assert t.(filter := s.filter) == t;
      }
      var ok := ValidateAndWrite(env, t, Done);
      reply := if ok then Done else Refused(Invalid);
    }

    method StopWaiting(env: Env, c: Call) returns (reply: Reply)
      requires c.Stop?
      modifies this
      ensures var p := PlanOf(env, old(OnDisk()), c);
        OnDisk() == ApplyAll(old(OnDisk()), p.effects) && reply == p.reply
      ensures old(Intact(env)) ==> Intact(env)
      ensures StopKept(env, old(OnDisk()), c, reply, OnDisk())
      ensures DirsKept(env, old(OnDisk()), c, reply, OnDisk())
    {
      hide StopKept, DirsKept, Good, Valid, PlanOf;
      StaysGood(env, OnDisk(), c);
      StopPromise(env, OnDisk(), c);
      DirsAfter(env, OnDisk(), c);
      var loaded := Begin(env, c);
      if loaded.Failed? { return Refused(loaded.error); }
      var s := loaded.settings;
      var i := Find(Rows(s), c.id);
      if i == |Rows(s)| { return Refused(Invalid); }
      var op := Rows(s)[i];
      ghost var d := OnDisk();
      ghost var dropped: seq<Effect> := [];
      if !op.state.Complete? && !op.state.SetupStopped? {
        if !HasSlot(s.slots, op.slot) && op.kind.ConnectManaged? && c.dirEmpty {
          dirs := dirs - {op.dir};
          dropped := [DropDir(op.dir)];
          ApplyOne(d, DropDir(op.dir));
        }
        s := WithRow(s, i, op.(state := SetupStopped));
      }
      assert OnDisk() == ApplyAll(d, dropped);
      var ok := ValidateAndWrite(env, s, Done);
      ApplySplit(d, dropped, SaveChecked(env, s, Done).effects);
      assert [] + SaveChecked(env, s, Done).effects == SaveChecked(env, s, Done).effects;
      reply := if ok then Done else Refused(Invalid);
    }

    /** `before` is what the unlocked first look found; other writers may have run since. */
    method EnsureApprovedBinding(env: Env, c: Call) returns (reply: Reply)
      requires c.EnsureApproved?
      modifies this
      ensures var p := PlanOf(env, old(OnDisk()), c);
        OnDisk() == ApplyAll(old(OnDisk()), p.effects) && reply == p.reply
      ensures old(Intact(env)) ==> Intact(env)
      ensures EnsureKept(env, old(OnDisk()), c, reply, OnDisk())
      ensures EnsureAnswered(env, old(OnDisk()), c, reply, OnDisk())
    {
      hide EnsureKept, EnsureAnswered, Good, Valid, ToApprove, CurrentBinding;
      StaysGood(env, OnDisk(), c);
      EnsurePromise(env, OnDisk(), c);
      EnsureAnswers(env, OnDisk(), c);
      if !ArgumentsOk(env, c) { return Refused(Invalid); }
      var first := Load(env, c.before);
      if first.Failed? { return Refused(first.error); }
      if ToApprove(first.settings, c.slot, c.observed).None? {
        return Bound(CurrentBinding(first.settings, c.slot));
      }
      if c.schema != SETTINGS_SCHEMA { return Refused(Invalid); }
      var loaded := LoadPersisted(env);
      if loaded.Failed? { return Refused(loaded.error); }
      var s := loaded.settings;
      var choice := ToApprove(s, c.slot, c.observed);
      if choice.None? { return Bound(CurrentBinding(s, c.slot)); }
      var k := FindSlot(s.slots, c.slot);
      if k == |s.slots| { return Bound(None); }
      s := s.(slots := s.slots[k := Approve(s.slots[k], choice.value.0, choice.value.1)]);
      var ok := ValidateAndWrite(env, s, Bound(Some(choice.value.0)));
      reply := if ok then Bound(Some(choice.value.0)) else Refused(Invalid);
    }

    method AdoptReconnectIdentity(env: Env, c: Call) returns (reply: Reply)
      requires c.Adopt?
      modifies this
      ensures var p := PlanOf(env, old(OnDisk()), c);
        OnDisk() == ApplyAll(old(OnDisk()), p.effects) && reply == p.reply
      ensures old(Intact(env)) ==> Intact(env)
      ensures AdoptKept(env, old(OnDisk()), c, reply, OnDisk())
      ensures AdoptAnswered(env, old(OnDisk()), c, reply)
    {
      hide AdoptKept, AdoptAnswered, Good, Valid, PlanOf;
      StaysGood(env, OnDisk(), c);
      AdoptPromise(env, OnDisk(), c);
      AdoptAnswers(env, OnDisk(), c);
      var loaded := Begin(env, c);
      if loaded.Failed? { return Refused(loaded.error); }
      var s := loaded.settings;
      var i := Find(s.reconnects, c.id);
      if i == |s.reconnects| || !Active(s.reconnects[i]) { return Adopted(false); }
      var op := s.reconnects[i];
      var k := FindExact(s.slots, op.slot, op.dir);
      if k == |s.slots| || ApprovedBinding(s.slots[k]).None? || !ApprovalSourceOf(s.slots[k]).Observation? {
        return Adopted(false);
      }
      op := op.(expectedAccount := Some(c.proven.account), expectedOrganization := Some(c.proven.organization));
      op := op.(account := Some(c.proven.account), organization := Some(c.proven.organization));
      s := s.(reconnects := s.reconnects[i := op]);
      var ok := ValidateAndWrite(env, s, Adopted(true));
      reply := if ok then Adopted(true) else Refused(Invalid);
    }
  }
}
