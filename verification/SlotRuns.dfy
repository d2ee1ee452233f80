/** Runs of the registry from an empty disk: any calls, crashes between any two file writes, rewrites by an
    older daemon, and outside changes to directories, in any order. */
module SlotRuns {
  import opened Prelude
  import opened SlotModel
  import opened SlotFilter
  import opened SlotCalls
  import opened SlotEvolution

  /** One step. `Crashed(c, k, half)` performs the first k effects of the call and, with `half`, also the
      sidecar write of a save that is next: the shape of a crash and of a failed write alike. */
  datatype Label =
    | Ran(call: Call)
    | Crashed(call: Call, after: nat, half: bool)
    | Downgraded(schema: nat)
    | DirsChanged(dirs: set<string>)

  const EMPTY_DISK: Disk := Disk(None, None, {})

  function CrashDisk(d: Disk, es: seq<Effect>, k: nat, half: bool): Disk
    decreases es
  {
    if es == [] then d
    else if k == 0 then if half && es[0].Save? then AfterSidecar(d, es[0].settings) else d
    else CrashDisk(Apply(d, es[0]), es[1..], k - 1, half)
  }

  function ClearedSlot(slot: Slot): Slot {
    NewSlot(slot.id, slot.ownership, slot.dir)
  }

  function ClearedSlots(slots: seq<Slot>): (r: seq<Slot>)
    ensures |r| == |slots|
    ensures forall i :: 0 <= i < |slots| ==> r[i] == ClearedSlot(slots[i])
  {
    seq(|slots|, i requires 0 <= i < |slots| => ClearedSlot(slots[i]))
  }

  /** An older daemon keeps registrations and managed setups and drops every field it does not know. */
  function Rewritten(s: Settings, schema: nat): Settings {
    s.(schema := if schema == 1 then 1 else PERSISTED_SCHEMA, consentChosen := false,
       slots := ClearedSlots(s.slots), reconnects := [], filter := [])
  }

  function Next(env: Env, d: Disk, l: Label): Disk {
    match l
    case Ran(c) => ApplyAll(d, PlanOf(env, d, c).effects)
    case Crashed(c, k, half) => CrashDisk(d, PlanOf(env, d, c).effects, k, half)
    case Downgraded(schema) =>
      d.(main := Some(Rewritten(if d.main.Some? then d.main.value else DEFAULT_SETTINGS, schema)))
    case DirsChanged(dirs) => d.(dirs := dirs)
  }

  /** The disk after a run. */
  function Reach(env: Env, ls: seq<Label>): Disk {
    if ls == [] then EMPTY_DISK else Next(env, Reach(env, ls[..|ls| - 1]), ls[|ls| - 1])
  }

  predicate Good(env: Env, d: Disk) {
    Sound(env, d) && RowsAgree(View(env, d))
  }

  // ---- how a plan changes the loaded settings

  lemma HalfEvolves(env: Env, s: Settings, t: Settings)
    requires Evolves(env, s, t)
    ensures Evolves(env, s, s.(filter := t.filter))
  {
    hide SlotsOk, SetupsOk, ReconnectsOk, RowsOk;
    assert Rows(s.(filter := t.filter)) == Rows(s);
    SameRowsEvolve(env, s, s.(filter := t.filter));
  }

  lemma DirsKeepView(env: Env, d: Disk, dirs: set<string>)
    requires Good(env, d)
    ensures Good(env, d.(dirs := dirs)) && View(env, d.(dirs := dirs)) == View(env, d)
  {
    assert Load(env, d.(dirs := dirs)) == Load(env, d);
  }

  /** Induction over the saves of one plan: whatever every save keeps, any crash of the plan keeps. */
  lemma {:induction false} CrashKeeps(env: Env, P: Settings -> bool, d: Disk, es: seq<Effect>, k: nat, half: bool)
    requires Good(env, d) && Chain(env, View(env, d), es) && P(View(env, d))
    requires forall s, t :: Evolves(env, s, t) && P(s) ==> P(t)
    ensures Good(env, CrashDisk(d, es, k, half))
    ensures P(View(env, CrashDisk(d, es, k, half)))
    decreases es
  {
    hide Sound, Evolves, Valid, RowsAgree;
    var s := View(env, d);
    if es == [] {
    } else if es[0].Save? {
      var t := es[0].settings;
      EvolvesParts(env, s, t);
      if k == 0 {
        HalfSaveReadsBack(env, d, t);
        HalfEvolves(env, s, t);
        EvolvesParts(env, s, s.(filter := t.filter));
      } else {
        SaveReadsBack(env, d, t);
        CrashKeeps(env, P, AfterSave(d, t), es[1..], k - 1, half);
      }
    } else if k > 0 {
      DirsKeepView(env, d, Apply(d, es[0]).dirs);
      CrashKeeps(env, P, Apply(d, es[0]), es[1..], k - 1, half);
    }
  }

  lemma EvolvesParts(env: Env, s: Settings, t: Settings)
    requires Evolves(env, s, t)
    ensures Valid(env, s) && Valid(env, t) && RowsAgree(t) && Covers(s.filter, t.filter)
  {
  }

  lemma {:induction false} FullIsCrash(d: Disk, es: seq<Effect>)
    ensures ApplyAll(d, es) == CrashDisk(d, es, |es|, false)
    decreases es
  {
    if es != [] {
      FullIsCrash(Apply(d, es[0]), es[1..]);
    }
  }

  lemma PlanChain(env: Env, d: Disk, c: Call)
    requires Good(env, d)
    ensures Chain(env, View(env, d), PlanOf(env, d, c).effects)
  {
    hide Valid, Evolves, LockedPlan, FirstLook, ArgumentsOk;
    CallChain(env, View(env, d), c);
  }

  // ---- the older daemon's rewrite

  lemma {:induction false} ClearedFind(slots: seq<Slot>, id: string)
    ensures FindSlot(ClearedSlots(slots), id) == FindSlot(slots, id)
  {
    if slots != [] {
      assert ClearedSlots(slots)[1..] == ClearedSlots(slots[1..]);
      ClearedFind(slots[1..], id);
    }
  }

  lemma {:induction false} ClearedUnregistered(slots: seq<Slot>, ops: seq<Operation>)
    ensures Unregistered(ClearedSlots(slots), ops) == Unregistered(slots, ops)
  {
    if ops != [] {
      ClearedUnregistered(slots, ops[1..]);
      if HasSlot(slots, ops[0].slot) {
        var i :| 0 <= i < |slots| && slots[i].id == ops[0].slot;
        assert ClearedSlots(slots)[i].id == ops[0].slot;
      }
      if HasSlot(ClearedSlots(slots), ops[0].slot) {
        var i :| 0 <= i < |slots| && ClearedSlots(slots)[i].id == ops[0].slot;
        assert slots[i].id == ops[0].slot;
      }
    }
  }

  /** How a downgrade rewrite looks to the next load: the filter survives in the sidecar. */
  function Forgotten(s: Settings): Settings {
    s.(consentChosen := false, slots := ClearedSlots(s.slots), reconnects := [])
  }

  lemma ClearedSlotsOk(env: Env, slots: seq<Slot>)
    requires SlotsOk(env, slots)
    ensures SlotsOk(env, ClearedSlots(slots))
  {
    forall i, j | 0 <= i < j < |slots|
      ensures slots[i].id != slots[j].id && slots[i].dir != slots[j].dir
              && env.serviceName(slots[i].dir) != env.serviceName(slots[j].dir)
    {}
  }

  lemma ClearedSetupsOk(slots: seq<Slot>, ops: seq<Operation>)
    requires SetupsOk(slots, ops)
    ensures SetupsOk(ClearedSlots(slots), ops)
  {
    ClearedUnregistered(slots, ops);
    forall i | 0 <= i < |ops| ensures OpShape(ops[i]) && SetupMatches(ClearedSlots(slots), ops[i]) {
      ClearedFind(slots, ops[i].slot);
      assert SetupMatches(slots, ops[i]);
    }
  }

  lemma RowsPrefixOk(a: seq<Operation>, b: seq<Operation>)
    requires RowsOk(a + b)
    ensures RowsOk(a)
  {
    forall i, j | 0 <= i < j < |a| ensures a[i].id != a[j].id && !(Active(a[i]) && Active(a[j])) {
      assert (a + b)[i] == a[i] && (a + b)[j] == a[j];
    }
  }

  lemma ForgottenHealthy(env: Env, s: Settings)
    requires Healthy(env, s)
    ensures Healthy(env, Forgotten(s))
  {
    hide SlotsOk, SetupsOk, RowsOk;
    ClearedSlotsOk(env, s.slots);
    ClearedSetupsOk(s.slots, s.setups);
    RowsPrefixOk(s.setups, s.reconnects);
    assert Rows(Forgotten(s)) == s.setups;
  }

  lemma DowngradeView(env: Env, d: Disk, schema: nat)
    requires Good(env, d)
    ensures Good(env, Next(env, d, Downgraded(schema)))
    ensures View(env, Next(env, d, Downgraded(schema))) == Forgotten(View(env, d))
  {
    hide SlotsOk, SetupsOk, ReconnectsOk, RowsOk;
    var t := Forgotten(View(env, d));
    ForgottenHealthy(env, View(env, d));
    ViewFilter(env, d);
    var after := Next(env, d, Downgraded(schema));
    var raw := after.main.value;
    assert raw.(schema := PERSISTED_SCHEMA, filter := t.filter) == t;
  }

  // ---- induction over whole runs

  /** Whatever every save keeps, and every rewrite keeps unless there is none, holds after any step. */
  lemma StepKeeps(env: Env, P: Settings -> bool, d: Disk, l: Label)
    requires Good(env, d) && P(View(env, d))
    requires forall s, t :: Evolves(env, s, t) && P(s) ==> P(t)
    requires l.Downgraded? ==> forall s :: P(s) ==> P(Forgotten(s))
    ensures Good(env, Next(env, d, l)) && P(View(env, Next(env, d, l)))
  {
    hide Evolves, Chain, Good, View, Forgotten;
    match l
    case Ran(c) =>
      PlanChain(env, d, c);
      FullIsCrash(d, PlanOf(env, d, c).effects);
      CrashKeeps(env, P, d, PlanOf(env, d, c).effects, |PlanOf(env, d, c).effects|, false);
    case Crashed(c, k, half) =>
      PlanChain(env, d, c);
      CrashKeeps(env, P, d, PlanOf(env, d, c).effects, k, half);
    case Downgraded(schema) => DowngradeView(env, d, schema);
    case DirsChanged(dirs) => DirsKeepView(env, d, dirs);
  }

  /** Every reachable disk loads, with a sidecar that covers the main file and rows that agree. */
  lemma {:induction false} ReachGood(env: Env, ls: seq<Label>)
    ensures Good(env, Reach(env, ls))
  {
    if ls == [] {
      assert DEFAULT_SETTINGS.(schema := PERSISTED_SCHEMA, filter := []) == DEFAULT_SETTINGS;
    } else {
      ReachGood(env, ls[..|ls| - 1]);
      StepKeeps(env, s => true, Reach(env, ls[..|ls| - 1]), ls[|ls| - 1]);
    }
  }

  function At(env: Env, ls: seq<Label>, i: nat): (s: Settings)
    requires i <= |ls|
    ensures Valid(env, s)
  {
    ReachGood(env, ls[..i]);
    View(env, Reach(env, ls[..i]))
  }

  lemma {:induction false} RunKeeps(env: Env, P: Settings -> bool, ls: seq<Label>, i: nat, j: nat)
    requires i <= j <= |ls| && P(At(env, ls, i))
    requires forall s, t :: Evolves(env, s, t) && P(s) ==> P(t)
    requires (forall k :: i <= k < j ==> !ls[k].Downgraded?) || (forall s :: P(s) ==> P(Forgotten(s)))
    ensures P(At(env, ls, j))
    decreases j
  {
    hide Evolves, Good, View, Forgotten, Next;
    if i < j {
      RunKeeps(env, P, ls, i, j - 1);
      ReachGood(env, ls[..j - 1]);
      assert ls[..j][..j - 1] == ls[..j - 1];
      StepKeeps(env, P, Reach(env, ls[..j - 1]), ls[j - 1]);
    }
  }
}
