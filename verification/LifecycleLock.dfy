/**
 * The lifecycle lock as the operating system sees it: open file descriptions, the close-on-exec flag of each
 * process's copy, fork, exec and exit, in any interleaving.
 *
 * `team`, `opener` and `won` are history only: no step's guard reads `team`.
 */
module LifecycleLock {
  import opened Prelude

  type Pid = nat
  /** An open file description of the lock file; descriptors in several processes may share one. */
  type Ofd = nat

  /** A process's descriptors with their close-on-exec flags, and whether it has run exec since it was forked. */
  datatype Proc = Proc(fds: map<Ofd, bool>, execd: bool)

  datatype System = System(
    procs: map<Pid, Proc>,
    owner: Option<Ofd>,
    nextPid: Pid,
    nextOfd: Ofd,
    opener: map<Ofd, Pid>,
    won: set<Ofd>,
    team: map<Ofd, set<Pid>>)

  datatype Step =
    | Start(p: Pid)                         // a process that has nothing to do with the lock yet
    | Open(p: Pid, o: Ofd)                  // acquire_path opens the file with close-on-exec
    | TryLock(p: Pid, o: Ofd, got: bool)    // a non-blocking exclusive flock
    | Fork(p: Pid, c: Pid)
    | Keep(c: Pid, o: Ofd)                  // the pre-exec hook of a transaction's command clears the flag
    | Exec(p: Pid)
    | Drop(p: Pid, o: Ofd)                  // the transaction value is dropped: its file is closed
    | Exit(p: Pid)                          // returns, crashes or is killed

  predicate Has(s: System, p: Pid, o: Ofd) {
    p in s.procs && o in s.procs[p].fds
  }

  ghost predicate Referenced(procs: map<Pid, Proc>, o: Ofd) {
    exists p :: p in procs && o in procs[p].fds
  }

  /** The kernel gives the lock up at the last close of the description that holds it. */
  ghost function AfterClose(s: System, procs: map<Pid, Proc>): System {
    s.(procs := procs, owner := if s.owner.Some? && !Referenced(procs, s.owner.value) then None else s.owner)
  }

  function Team(s: System, o: Ofd): set<Pid> {
    if o in s.team then s.team[o] else {}
  }

  function Kept(fds: map<Ofd, bool>): map<Ofd, bool> {
    map o | o in fds && !fds[o] :: fds[o]
  }

  /** A command's own children belong to the same transactions. */
  function Inherited(s: System, p: Pid, c: Pid): map<Ofd, set<Pid>> {
    map o | o in s.team :: if p in s.team[o] then s.team[o] + {c} else s.team[o]
  }

  predicate Enabled(s: System, l: Step) {
    match l
    case Start(p) => p == s.nextPid
    case Open(p, o) => p in s.procs && s.procs[p].execd && o == s.nextOfd
    case TryLock(p, o, got) =>
      && Has(s, p, o) && s.procs[p].execd && o in s.opener && s.opener[o] == p
      && (got <==> s.owner == None || s.owner == Some(o))
    case Fork(p, c) => p in s.procs && s.procs[p].execd && c == s.nextPid
    case Keep(c, o) => Has(s, c, o) && !s.procs[c].execd && o in s.won
    case Exec(p) => p in s.procs
    case Drop(p, o) => Has(s, p, o) && s.procs[p].execd && o in s.opener && s.opener[o] == p && s.procs[p].fds[o]
    case Exit(p) => p in s.procs
  }

  ghost function Apply(s: System, l: Step): System
    requires Enabled(s, l)
  {
    match l
    case Start(p) => s.(procs := s.procs[p := Proc(map[], true)], nextPid := p + 1)
    case Open(p, o) =>
      s.(procs := s.procs[p := s.procs[p].(fds := s.procs[p].fds[o := true])], nextOfd := o + 1,
         opener := s.opener[o := p], team := s.team[o := {}])
    case TryLock(p, o, got) => if got then s.(owner := Some(o), won := s.won + {o}) else s
    case Fork(p, c) =>
      s.(procs := s.procs[c := s.procs[p].(execd := false)], nextPid := c + 1, team := Inherited(s, p, c))
    case Keep(c, o) =>
      s.(procs := s.procs[c := s.procs[c].(fds := s.procs[c].fds[o := false])],
         team := s.team[o := Team(s, o) + {c}])
    case Exec(p) => AfterClose(s, s.procs[p := Proc(Kept(s.procs[p].fds), true)])
    case Drop(p, o) => AfterClose(s, s.procs[p := s.procs[p].(fds := s.procs[p].fds - {o})])
    case Exit(p) => AfterClose(s, s.procs - {p})
  }

  const INIT := System(map[], None, 0, 0, map[], {}, map[])

  /** A run: states and the steps between them. */
  datatype Run = Run(states: seq<System>, steps: seq<Step>)

  ghost predicate IsRun(r: Run) {
    && |r.states| == |r.steps| + 1 && r.states[0] == INIT
    && forall i :: 0 <= i < |r.steps| ==>
         Enabled(r.states[i], r.steps[i]) && r.states[i + 1] == Apply(r.states[i], r.steps[i])
  }

  // ---- the invariant

  ghost predicate Numbered(s: System) {
    && (forall p: Pid :: p in s.procs ==> p < s.nextPid)
    && (forall o: Ofd :: o in s.opener <==> o < s.nextOfd)
    && (forall o: Ofd :: o in s.team <==> o < s.nextOfd)
    && (forall o: Ofd :: o in s.won ==> o < s.nextOfd)
    && (forall p: Pid, o: Ofd :: Has(s, p, o) ==> o < s.nextOfd)
    && (forall o: Ofd, p: Pid :: o in s.team && p in s.team[o] ==> p < s.nextPid)
    && (forall o: Ofd :: o in s.opener ==> s.opener[o] < s.nextPid)
  }

  /** A live command still has the description, and exec will not close it. */
  ghost predicate CommandsHold(s: System) {
    forall o: Ofd, p: Pid :: o in s.team && p in s.team[o] && p in s.procs ==> Has(s, p, o) && !s.procs[p].fds[o]
  }

  /** Who has a copy: the opener, commands, and processes between fork and exec. */
  ghost predicate CopiesKnown(s: System) {
    && (forall p: Pid, o: Ofd :: Has(s, p, o) && !s.procs[p].fds[o] ==> p in Team(s, o))
    && (forall p: Pid, o: Ofd :: Has(s, p, o) && s.procs[p].fds[o] && s.procs[p].execd ==>
          o in s.opener && s.opener[o] == p)
  }

  /** The lock belongs to the description that won it for as long as anyone has a copy of it. */
  ghost predicate LockHeld(s: System) {
    && (s.owner.Some? ==> s.owner.value in s.won && Referenced(s.procs, s.owner.value))
    && (forall p: Pid, o: Ofd :: o in s.won && Has(s, p, o) ==> s.owner == Some(o))
  }

  ghost predicate Inv(s: System) {
    Numbered(s) && CommandsHold(s) && CopiesKnown(s) && LockHeld(s)
  }

  lemma InitInv()
    ensures Inv(INIT)
  {
  }

  /** Where a copy comes from. */
  lemma CopyBefore(s: System, l: Step, p: Pid, o: Ofd)
    requires Enabled(s, l) && Has(Apply(s, l), p, o)
    ensures match l {
        case Open(q, n) => Has(s, p, o) || (p == q && o == n)
        case Fork(q, c) => if p == c then Has(s, q, o) else Has(s, p, o)
        case _ => Has(s, p, o)
      }
  {
  }

  lemma StepNumbered(s: System, l: Step)
    requires Inv(s) && Enabled(s, l)
    ensures Numbered(Apply(s, l))
  {
    hide LockHeld, CommandsHold, CopiesKnown;
    var t := Apply(s, l);
    forall p: Pid, o: Ofd | Has(t, p, o) ensures o < t.nextOfd { CopyBefore(s, l, p, o); }
  }

  lemma StepCommands(s: System, l: Step)
    requires Inv(s) && Enabled(s, l)
    ensures CommandsHold(Apply(s, l))
  {
    hide LockHeld;
  }

  /** A copy that exec would close, in a process that has run exec, is the opener's own. */
  lemma StepOpeners(s: System, l: Step, p: Pid, o: Ofd)
    requires Inv(s) && Enabled(s, l)
    requires var t := Apply(s, l); Has(t, p, o) && t.procs[p].fds[o] && t.procs[p].execd
    ensures var t := Apply(s, l); o in t.opener && t.opener[o] == p
  {
    hide LockHeld, CommandsHold;
    CopyBefore(s, l, p, o);
  }

  lemma StepTeam(s: System, l: Step, p: Pid, o: Ofd)
    requires Inv(s) && Enabled(s, l)
    requires var t := Apply(s, l); Has(t, p, o) && !t.procs[p].fds[o]
    ensures p in Team(Apply(s, l), o)
  {
    hide LockHeld, CommandsHold;
    CopyBefore(s, l, p, o);
  }

  lemma StepCopies(s: System, l: Step)
    requires Inv(s) && Enabled(s, l)
    ensures CopiesKnown(Apply(s, l))
  {
    hide LockHeld, CommandsHold, Numbered, Inv, Apply, Enabled, Team;
    var t := Apply(s, l);
    forall p: Pid, o: Ofd | Has(t, p, o) && !t.procs[p].fds[o] ensures p in Team(t, o) { StepTeam(s, l, p, o); }
    forall p: Pid, o: Ofd | Has(t, p, o) && t.procs[p].fds[o] && t.procs[p].execd
      ensures o in t.opener && t.opener[o] == p { StepOpeners(s, l, p, o); }
  }

  lemma CopyRefers(s: System, p: Pid, o: Ofd)
    requires Has(s, p, o)
    ensures Referenced(s.procs, o)
  {
  }

  /** A description the lock was won with stays the owner while it has a copy. */
  lemma StepOwner(s: System, l: Step, p: Pid, o: Ofd)
    requires Inv(s) && Enabled(s, l) && o in Apply(s, l).won && Has(Apply(s, l), p, o)
    ensures Apply(s, l).owner == Some(o)
  {
    hide CommandsHold, CopiesKnown, Referenced;
    var t := Apply(s, l);
    CopyBefore(s, l, p, o);
    CopyRefers(t, p, o);
  }

  /** The owner always has a copy somewhere. */
  lemma StepReferenced(s: System, l: Step)
    requires Inv(s) && Enabled(s, l) && Apply(s, l).owner.Some?
    ensures Apply(s, l).owner.value in Apply(s, l).won && Referenced(Apply(s, l).procs, Apply(s, l).owner.value)
  {
    hide CommandsHold, CopiesKnown;
    var t := Apply(s, l);
    var o := t.owner.value;
    match l {
      case TryLock(p, n, got) => if got { CopyRefers(t, p, n); }
      case Exec(_) =>
      case Drop(_, _) =>
      case Exit(_) =>
      case _ =>
        var p: Pid :| p in s.procs && o in s.procs[p].fds;
        assert Has(t, p, o);
    }
  }

  lemma StepLock(s: System, l: Step)
    requires Inv(s) && Enabled(s, l)
    ensures LockHeld(Apply(s, l))
  {
    hide CommandsHold, CopiesKnown, Numbered, Inv, Apply, Enabled, Referenced;
    var t := Apply(s, l);
    forall p: Pid, o: Ofd | o in t.won && Has(t, p, o) ensures t.owner == Some(o) { StepOwner(s, l, p, o); }
    if t.owner.Some? { StepReferenced(s, l); }
  }

  lemma StepInv(s: System, l: Step)
    requires Inv(s) && Enabled(s, l)
    ensures Inv(Apply(s, l))
  {
    hide Numbered, CommandsHold, CopiesKnown, LockHeld, Apply, Enabled;
    StepNumbered(s, l);
    StepCommands(s, l);
    StepCopies(s, l);
    StepLock(s, l);
  }

  lemma {:induction false} RunInv(r: Run, i: nat)
    requires IsRun(r) && i < |r.states|
    ensures Inv(r.states[i])
  {
    hide Inv, Apply, Enabled;
    if i == 0 {
      InitInv();
    } else {
      RunInv(r, i - 1);
      assert r.states[i] == Apply(r.states[i - 1], r.steps[i - 1]);
      StepInv(r.states[i - 1], r.steps[i - 1]);
    }
  }

  // ---- history grows

  lemma StepHistory(s: System, l: Step)
    requires Inv(s) && Enabled(s, l)
    ensures s.won <= Apply(s, l).won
    ensures forall o :: o in s.opener ==> o in Apply(s, l).opener && Apply(s, l).opener[o] == s.opener[o]
    ensures forall o: Ofd :: Team(s, o) <= Team(Apply(s, l), o)
  {
    hide CommandsHold, CopiesKnown, LockHeld;
  }

  lemma {:induction false} RunHistory(r: Run, i: nat, j: nat, o: Ofd)
    requires IsRun(r) && i <= j < |r.states|
    ensures o in r.states[i].won ==> o in r.states[j].won
    ensures o in r.states[i].opener ==> o in r.states[j].opener && r.states[j].opener[o] == r.states[i].opener[o]
    ensures Team(r.states[i], o) <= Team(r.states[j], o)
    decreases j - i
  {
    hide Inv, Apply, Enabled, Team;
    if i < j {
      RunHistory(r, i, j - 1, o);
      RunInv(r, j - 1);
      assert r.states[j] == Apply(r.states[j - 1], r.steps[j - 1]);
      StepHistory(r.states[j - 1], r.steps[j - 1]);
    }
  }

  // ---- exclusion

  /** Nothing of a transaction is left: its opener closed the file, and its commands and their descendants exited. */
  ghost predicate Gone(s: System, o: Ofd) {
    && (o in s.opener ==> !Has(s, s.opener[o], o))
    && (forall p: Pid :: p in Team(s, o) ==> p !in s.procs)
  }

  /** Another description gets the lock only when nothing of the transaction is left. */
  lemma OnlyAfterGone(s: System, o: Ofd, l: Step)
    requires Inv(s) && Enabled(s, l) && o in s.won && l.TryLock? && l.got && l.o != o
    ensures Gone(s, o) && !Referenced(s.procs, o)
  {
    hide Numbered, CopiesKnown;
    forall p: Pid | p in s.procs ensures o !in s.procs[p].fds { assert !Has(s, p, o); }
  }

  /** Over every interleaving, including kills: of two transactions, the second is entered only after the first
      holder let go and every command spawned for it at any time, with all its descendants, has exited; no process
      at all has a copy of the first description left, not even one between fork and exec. */
  lemma Exclusion(r: Run, i: nat, j: nat)
    requires IsRun(r) && i < j < |r.steps|
    requires r.steps[i].TryLock? && r.steps[i].got && r.steps[j].TryLock? && r.steps[j].got
    requires r.steps[i].o != r.steps[j].o
    ensures Gone(r.states[j], r.steps[i].o) && !Referenced(r.states[j].procs, r.steps[i].o)
    ensures forall k :: 0 <= k <= j ==> Team(r.states[k], r.steps[i].o) <= Team(r.states[j], r.steps[i].o)
  {
    var o := r.steps[i].o;
    assert r.states[i + 1] == Apply(r.states[i], r.steps[i]);
    assert o in r.states[i + 1].won;
    hide Inv, Apply, Gone, Referenced, Team, Enabled;
    RunHistory(r, i + 1, j, o);
    RunInv(r, j);
    OnlyAfterGone(r.states[j], o, r.steps[j]);
    forall k | 0 <= k <= j ensures Team(r.states[k], o) <= Team(r.states[j], o) { RunHistory(r, k, j, o); }
  }

  /** Two transactions never have anything alive at the same time. */
  lemma NeverTwo(r: Run, i: nat, x: Ofd, y: Ofd)
    requires IsRun(r) && i < |r.states| && x != y && x in r.states[i].won && y in r.states[i].won
    ensures Gone(r.states[i], x) || Gone(r.states[i], y)
  {
    RunInv(r, i);
    hide Numbered, CopiesKnown, Referenced, IsRun;
  }

  // ---- release

  /** No process is between fork and exec. */
  ghost predicate Quiet(s: System) {
    forall p: Pid :: p in s.procs ==> s.procs[p].execd
  }

  /** Between forks the lock is held exactly while something of the transaction is left, so it never outlives it:
      other children of the holder do not keep it. */
  lemma HeldExactly(r: Run, i: nat, o: Ofd)
    requires IsRun(r) && i < |r.states| && o in r.states[i].won && Quiet(r.states[i])
    ensures r.states[i].owner == Some(o) <==> !Gone(r.states[i], o)
  {
    RunInv(r, i);
    var s := r.states[i];
    hide IsRun;
    if s.owner == Some(o) {
      var p: Pid :| p in s.procs && o in s.procs[p].fds;
      assert Has(s, p, o);
    }
  }
}
