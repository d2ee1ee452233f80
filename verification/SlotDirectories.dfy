/** Which directories a call makes or drops. */
module SlotDirectories {
  import opened Prelude
  import opened SlotModel
  import opened SlotFilter
  import opened SlotCalls
  import opened SlotEvolution
  import opened SlotRuns
  import opened SlotPrepare
  import opened SlotPromises
  import opened SlotRowPromises

  /** The row is a setup that was neither completed nor stopped and whose slot never was registered. */
  predicate Abandoned(s: Settings, op: Operation) {
    op in Rows(s) && op.kind == ConnectManaged && !HasSlot(s.slots, op.slot) && op.state !in {Complete, SetupStopped}
  }

  /** A prepare may only add the accounts root and the directory of its own intent; a stop drops the directory of an
      abandoned setup, when it is empty, and no other; every other call leaves the directories alone. */
  ghost predicate DirsKept(env: Env, d: Disk, c: Call, reply: Reply, e: Disk) {
    Good(env, d) ==>
      var s := View(env, d);
      && (!c.Prepare? && !c.Stop? ==> e.dirs == d.dirs)
      && (c.Prepare? ==> d.dirs <= e.dirs <= d.dirs + MayMake(env, s, c))
      && (c.Stop? ==> e.dirs <= d.dirs)
      && (c.Stop? ==> forall dir :: dir in d.dirs ==>
            (dir !in e.dirs <==>
              reply.Done? && c.dirEmpty && exists op :: Abandoned(s, op) && op.id == c.id && op.dir == dir))
  }

  ghost function MayMake(env: Env, s: Settings, c: Call): set<string>
    requires c.Prepare?
  {
    if HasOp(s.setups, c.id) then set op | op in s.setups && op.id == c.id :: op.dir
    else {env.root} + if c.reusable.Some? then {c.reusable.value} else {env.root + "/" + c.token}
  }

  predicate OnlySaves(es: seq<Effect>) {
    forall e :: e in es ==> e.Save?
  }

  predicate OnlyMakes(es: seq<Effect>, dirs: set<string>) {
    forall e :: e in es ==> e.Save? || (e.MakeDir? && e.path in dirs)
  }

  lemma {:induction false} MadeDirs(d: Disk, es: seq<Effect>, dirs: set<string>)
    requires OnlyMakes(es, dirs)
    ensures d.dirs <= ApplyAll(d, es).dirs <= d.dirs + dirs
    decreases es
  {
    if es != [] {
      assert es[0] in es && forall e :: e in es[1..] ==> e in es;
      MadeDirs(Apply(d, es[0]), es[1..], dirs);
    }
  }

  lemma SavedDirs(d: Disk, es: seq<Effect>)
    requires OnlySaves(es)
    ensures ApplyAll(d, es).dirs == d.dirs
  {
    MadeDirs(d, es, {});
    assert d.dirs + {} == d.dirs;
  }

  lemma FinalizeMakesOwn(env: Env, s: Settings, i: nat)
    requires i < |s.setups|
    ensures OnlyMakes(FinalizePlan(env, s, i).effects, {s.setups[i].dir})
  {
    hide Valid, Finalized;
  }

  lemma ReplayMakesOwn(env: Env, s: Settings, i: nat)
    requires i < |s.setups|
    ensures OnlyMakes(ReplayPlan(env, s, i).effects, {s.setups[i].dir})
  {
    hide Valid, OtherActive, FinalizePlan;
    var t := s.(setups := s.setups[i := s.setups[i].(state := Preparing)]);
    FinalizeMakesOwn(env, s, i);
    FinalizeMakesOwn(env, t, i);
  }

  lemma MakesConcat(a: seq<Effect>, b: seq<Effect>, own: set<string>, dirs: set<string>)
    requires OnlyMakes(a, dirs) && OnlyMakes(b, own) && own <= dirs
    ensures OnlyMakes(a + b, dirs)
  {
  }

  lemma MakesFirst(env: Env, dir: string, t: Settings, dirs: set<string>)
    requires env.root in dirs && dir in dirs
    ensures OnlyMakes([MakeDir(env.root)], dirs) && OnlyMakes([MakeDir(env.root)] + [MakeDir(dir)], dirs)
    ensures OnlyMakes([MakeDir(env.root)] + [] + [Save(t)], dirs)
    ensures OnlyMakes([MakeDir(env.root)] + [], dirs)
    ensures OnlyMakes([MakeDir(env.root)] + [MakeDir(dir)] + [Save(t)], dirs)
  {
  }

  lemma FirstMakesOwn(env: Env, s: Settings, c: Call)
    requires c.Prepare?
    ensures OnlyMakes(FirstPreparePlan(env, s, c).effects,
      {env.root} + if c.reusable.Some? then {c.reusable.value} else {env.root + "/" + c.token})
  {
    hide Valid, FinalizePlan, OnlyMakes, IntentRow, ValidDir;
    var dir := if c.reusable.Some? then c.reusable.value else ManagedPath(env, c.token);
    var t := s.(setups := s.setups + [IntentRow(s, c, dir)]);
    var dirs := {env.root} + if c.reusable.Some? then {c.reusable.value} else {env.root + "/" + c.token};
    IntentKeeps(s, c, dir);
    FinalizeMakesOwn(env, t, |s.setups|);
    MakesFirst(env, dir, t, dirs);
    var made := [MakeDir(env.root)] + (if c.reusable.Some? then [MakeDir(dir)] else []);
    MakesConcat(made + [Save(t)], FinalizePlan(env, t, |s.setups|).effects, {dir}, dirs);
  }

  lemma IntentKeeps(s: Settings, c: Call, dir: string)
    requires c.Prepare?
    ensures IntentRow(s, c, dir).dir == dir
  {
  }

  lemma PrepareMakesOwn(env: Env, s: Settings, c: Call)
    requires c.Prepare? && FilterShape(s.filter)
    ensures OnlyMakes(PreparePlan(env, s, c).effects, MayMake(env, s, c))
  {
    hide Valid, FirstPreparePlan, ReplayPlan, IsRetired, OtherActive;
    var i := Find(s.setups, c.id);
    if i < |s.setups| {
      ReplayMakesOwn(env, s, i);
      assert s.setups[i] in s.setups && s.setups[i].dir in MayMake(env, s, c);
    } else {
      FirstMakesOwn(env, s, c);
    }
  }

  lemma CheckedSaves(env: Env, s: Settings, reply: Reply)
    ensures OnlySaves(SaveChecked(env, s, reply).effects)
  {
    hide Valid;
  }

  lemma SlotCallsSave(env: Env, s: Settings, c: Call)
    requires c.SetConsent? || c.RegisterPath? || c.Admit? || c.Remove? || c.Adopt?
    requires FilterShape(s.filter)
    ensures OnlySaves(LockedPlan(env, s, c).effects)
  {
    hide SaveChecked, Removed, Active, ApprovedBinding, ApprovalSourceOf, Approve, OnlySaves;
    forall t, reply ensures OnlySaves(SaveChecked(env, t, reply).effects) { CheckedSaves(env, t, reply); }
    NothingSaves();
  }

  lemma NothingSaves()
    ensures OnlySaves([])
  {
  }

  lemma RowCallsSave(env: Env, s: Settings, c: Call)
    requires c.Reconnect? || c.Transition? || c.EnsureApproved?
    requires FilterShape(s.filter)
    ensures OnlySaves(LockedPlan(env, s, c).effects)
  {
    hide SaveChecked, ToApprove, CurrentBinding, Superseded, Mutated, WithProof, WithRow, Finishes, Retire, IsRetired,
      OtherActive, ReconnectRow, Approve, AllowsSuccessor;
    forall t, reply ensures OnlySaves(SaveChecked(env, t, reply).effects) { CheckedSaves(env, t, reply); }
  }

  lemma OthersSave(env: Env, s: Settings, c: Call)
    requires !c.Prepare? && !c.Stop? && FilterShape(s.filter)
    ensures OnlySaves(LockedPlan(env, s, c).effects)
  {
    hide LockedPlan;
    if c.Reconnect? || c.Transition? || c.EnsureApproved? {
      RowCallsSave(env, s, c);
    } else {
      SlotCallsSave(env, s, c);
    }
  }

  lemma StopDirs(env: Env, d: Disk, s: Settings, c: Call)
    requires c.Stop? && Healthy(env, s)
    ensures var p, e := StopPlan(env, s, c), ApplyAll(d, StopPlan(env, s, c).effects);
      && e.dirs <= d.dirs
      && forall dir :: dir in d.dirs ==>
           (dir !in e.dirs <==>
             p.reply.Done? && c.dirEmpty && exists op :: Abandoned(s, op) && op.id == c.id && op.dir == dir)
  {
    hide SlotsOk, SetupsOk, ReconnectsOk, SaveChecked, HasSlot, Evolves;
    var i := Find(Rows(s), c.id);
    StopSettles(env, s, c);
    if i < |Rows(s)| {
      var op := Rows(s)[i];
      OnlyRow(s, i);
      var row := op.(state := SetupStopped);
      SaveCheckedDirs(env, d, s);
      SaveCheckedDirs(env, d, WithRow(s, i, row));
      DropFirst(env, d, op.dir, WithRow(s, i, row));
      var saves := SaveChecked(env, WithRow(s, i, row), Done).effects;
      assert [] + saves == saves;
    } else {
      assert forall op :: op in Rows(s) ==> op.id != c.id;
    }
  }

  lemma OnlyRow(s: Settings, i: nat)
    requires RowsOk(Rows(s)) && i < |Rows(s)|
    ensures forall op :: op in Rows(s) && op.id == Rows(s)[i].id ==> op == Rows(s)[i]
  {
    forall op | op in Rows(s) && op.id == Rows(s)[i].id ensures op == Rows(s)[i] {
      var j :| 0 <= j < |Rows(s)| && Rows(s)[j] == op;
    }
  }

  lemma SaveCheckedDirs(env: Env, d: Disk, s: Settings)
    ensures ApplyAll(d, SaveChecked(env, s, Done).effects).dirs == d.dirs
  {
    hide Valid;
    SavedDirs(d, SaveChecked(env, s, Done).effects);
  }

  lemma DropFirst(env: Env, d: Disk, dir: string, s: Settings)
    ensures ApplyAll(d, [DropDir(dir)] + SaveChecked(env, s, Done).effects).dirs == d.dirs - {dir}
  {
    hide SaveChecked;
    var es := SaveChecked(env, s, Done).effects;
    assert ([DropDir(dir)] + es)[1..] == es;
    SaveCheckedDirs(env, Apply(d, DropDir(dir)), s);
  }

  /** What a call does to the directories. */
  lemma DirsAfter(env: Env, d: Disk, c: Call)
    ensures var p := PlanOf(env, d, c); DirsKept(env, d, c, p.reply, ApplyAll(d, p.effects))
  {
    hide Valid, LockedPlan, PreparePlan, StopPlan, Load, View, Sound, PlanOf, MayMake, Abandoned;
    if Good(env, d) {
      var s := View(env, d);
      GoodIsValid(env, d);
      PlanIsLocked(env, d, c);
      if c.Stop? {
        StopPlanOf(env, d, c);
        StopDirs(env, d, s, c);
      } else if PlanOf(env, d, c).effects != [] {
        LockedIsPrepare(env, s, c);
        if c.Prepare? {
          PrepareMakesOwn(env, s, c);
          MadeDirs(d, PlanOf(env, d, c).effects, MayMake(env, s, c));
        } else {
          OthersSave(env, s, c);
          SavedDirs(d, PlanOf(env, d, c).effects);
        }
      }
    }
  }

  lemma LockedIsPrepare(env: Env, s: Settings, c: Call)
    requires FilterShape(s.filter)
    ensures c.Prepare? ==> LockedPlan(env, s, c) == PreparePlan(env, s, c)
  {
    hide PreparePlan;
  }
}
