/** Entering the lifecycle transaction and the launchctl commands issued under it. */
module LifecycleKickstart {
  import opened Prelude

  // ---- acquiring

  /** What one non-blocking flock call answers. */
  datatype Flock = Granted | WouldBlock | Interrupted | OtherError

  datatype Acquired = Locked | Busy | Refused

  predicate Retries(f: Flock) {
    f.WouldBlock? || f.Interrupted?
  }

  /** The polling loop of `acquire_path`: attempts are made while they only report contention and the deadline has
      not passed; at least one is made. `late(n)` says whether the timeout has elapsed after attempt `n`. */
  method AcquirePath(answer: nat -> Flock, late: nat -> bool, ghost bound: nat) returns (r: Acquired, attempts: nat)
    requires late(bound)
    ensures 1 <= attempts <= bound + 1
    ensures forall n :: 0 <= n < attempts - 1 ==> Retries(answer(n)) && !late(n)
    ensures r == match answer(attempts - 1) case Granted => Locked case OtherError => Refused case _ => Busy
    ensures r.Busy? ==> late(attempts - 1)
  {
    attempts := 0;
    while true
      invariant attempts <= bound
      invariant forall n :: 0 <= n < attempts ==> Retries(answer(n)) && !late(n)
      decreases bound - attempts
    {
      var got := answer(attempts);
      attempts := attempts + 1;
      if got.Granted? { return Locked, attempts; }
      if !got.WouldBlock? && !got.Interrupted? { return Refused, attempts; }
      if late(attempts - 1) { return Busy, attempts; }
    }
  }

  // ---- commands

  datatype Command = Enable | Print | Bootstrap | Kickstart | KickstartKill | Bootout

  /** A command's exit code, or none if a signal ended it; or it could not be run to its end. */
  datatype Outcome = Exited(code: Option<int>) | Failed

  /** Any behaviour of the executor: the outcome of the last command after all those before it. */
  type Executor = seq<Command> -> Outcome

  datatype JobState = Loaded | Absent | Unknown

  const ESRCH := 3

  predicate Succeeded(o: Outcome) {
    o == Exited(Some(0))
  }

  /** A conclusive failure: the command ran and reported one. */
  predicate ExitFailure(o: Outcome) {
    o.Exited? && !Succeeded(o)
  }

  function StateOf(o: Outcome): JobState {
    if o == Exited(Some(0)) then Loaded
    else if o == Exited(Some(ESRCH)) || o == Exited(Some(113)) then Absent
    else Unknown
  }

  function Prints(n: nat): (r: seq<Command>)
    ensures |r| == n && forall i :: 0 <= i < n ==> r[i] == Print
  {
    seq(n, _ => Print)
  }

  /** After `log`, `n` reports of the job's state: all but the last say absent, and the last says otherwise unless
      the limit of 20 is reached. */
  ghost predicate Waited(exec: Executor, log: seq<Command>, n: nat) {
    && 1 <= n <= 20
    && (forall i :: 1 <= i < n ==> StateOf(exec(log + Prints(i))) == Absent)
    && (n < 20 ==> StateOf(exec(log + Prints(n))) != Absent)
  }

  class Session {
    var log: seq<Command>
    const exec: Executor

    constructor (exec: Executor)
      ensures log == [] && this.exec == exec
    {
      this.exec := exec;
      log := [];
    }

    method Run(c: Command) returns (o: Outcome)
      modifies this
      ensures log == old(log) + [c] && o == exec(log)
    {
      log := log + [c];
      o := exec(log);
    }

    method IsLoaded() returns (r: JobState)
      modifies this
      ensures log == old(log) + [Print] && r == StateOf(exec(log))
      ensures r.Loaded? <==> exec(log) == Exited(Some(0))
      ensures r.Absent? <==> exec(log) == Exited(Some(3)) || exec(log) == Exited(Some(113))
    {
      var o := Run(Print);
      r := if o == Exited(Some(0)) then Loaded
           else if o.Exited? && o.code.Some? && (o.code.value == ESRCH || o.code.value == 113) then Absent
           else Unknown;
    }

    method WaitLoaded() returns (r: JobState)
      modifies this
      ensures exists n :: Waited(exec, old(log), n) && log == old(log) + Prints(n) && r == StateOf(exec(log))
    {
      r := Absent;
      for i := 0 to 20
        invariant log == old(log) + Prints(i)
        invariant forall k :: 1 <= k <= i ==> StateOf(exec(old(log) + Prints(k))) == Absent
        invariant r == Absent
        invariant i > 0 ==> StateOf(exec(log)) == Absent
      {
        assert Prints(i + 1) == Prints(i) + [Print];
        r := IsLoaded();
        assert log == old(log) + Prints(i + 1);
        if !r.Absent? {
          assert Waited(exec, old(log), i + 1);
          return;
        }
      }
      assert Waited(exec, old(log), 20);
    }

    /** True when the job may be started; otherwise an error stops the autostart. */
    method BootstrapAgent() returns (ok: bool)
      modifies this
      ensures var asked := old(log) + [Bootstrap];
        && (!ExitFailure(exec(asked)) ==> log == asked && ok == Succeeded(exec(asked)))
        && (ExitFailure(exec(asked)) ==>
              exists n :: Waited(exec, asked, n) && log == asked + Prints(n) && ok == (StateOf(exec(log)) == Loaded))
    {
      var o := Run(Bootstrap);
      if Succeeded(o) { return true; }
      if o.Failed? { return false; }
      var state := WaitLoaded();
      ok := state.Loaded?;
    }

    method EnsureLoaded(plistExists: bool) returns (ok: bool)
      modifies this
      ensures var asked := old(log) + [Print];
        var state := StateOf(exec(asked));
        && (state.Loaded? || (state.Absent? && !plistExists) ==> log == asked && ok)
        && (state.Unknown? ==> log == asked && !ok)
        && (state.Absent? && plistExists ==> Bootstrapped(exec, asked, log, ok))
    {
      var state := IsLoaded();
      if state.Unknown? { return false; }
      if state.Loaded? || !plistExists { return true; }
      ok := BootstrapAgent();
    }

    method KickstartWith(lock: Acquired, plistExists: bool) returns (ok: bool)
      requires log == []
      modifies this
      ensures lock.Busy? ==> ok && log == []
      ensures lock.Refused? ==> !ok && log == []
      ensures lock.Locked? ==> Story(exec, plistExists, log, ok)
    {
      if lock.Busy? { return true; }
      if lock.Refused? { return false; }
      var enabled := Run(Enable);
      assert log == [Enable];
      if !Succeeded(enabled) { return false; }
      var ready := EnsureLoaded(plistExists);
      assert [Enable] + [Print] == [Enable, Print];
      if !ready { return false; }
      ghost var before := log;
      var kicked := Run(Kickstart);
      ok := Succeeded(kicked);
      assert log[..|log| - 1] == before;
    }
  }

  /** The log and verdict of a bootstrap after `log0`. */
  ghost predicate Bootstrapped(exec: Executor, log0: seq<Command>, log: seq<Command>, ok: bool) {
    var asked := log0 + [Bootstrap];
    && (!ExitFailure(exec(asked)) ==> log == asked && ok == Succeeded(exec(asked)))
    && (ExitFailure(exec(asked)) ==>
          exists n :: Waited(exec, asked, n) && log == asked + Prints(n) && ok == (StateOf(exec(log)) == Loaded))
  }

  /** Whether, after the first report, the job may be started, and what was issued to get there. */
  ghost predicate Readied(exec: Executor, plistExists: bool, log: seq<Command>, ready: bool) {
    var asked := [Enable, Print];
    var state := StateOf(exec(asked));
    && (state.Loaded? || (state.Absent? && !plistExists) ==> log == asked && ready)
    && (state.Unknown? ==> log == asked && !ready)
    && (state.Absent? && plistExists ==> Bootstrapped(exec, asked, log, ready))
  }

  /** The whole transaction, as commands issued and result. */
  ghost predicate Story(exec: Executor, plistExists: bool, log: seq<Command>, ok: bool) {
    if !Succeeded(exec([Enable])) then log == [Enable] && !ok
    else
      || (Readied(exec, plistExists, log, false) && !ok)
      || (log != [] && log[|log| - 1] == Kickstart && Readied(exec, plistExists, log[..|log| - 1], true)
          && ok == Succeeded(exec(log)))
  }

  // ---- what no executor behaviour can make it do

  /** The log when its first `n` commands had been issued. */
  function UpTo(log: seq<Command>, n: nat): seq<Command>
    requires n <= |log|
  {
    log[..n]
  }

  /** A report that did not settle the job's state. */
  ghost predicate Inconclusive(exec: Executor, log: seq<Command>, i: nat) {
    i < |log| && log[i] == Print && StateOf(exec(UpTo(log, i + 1))) == Unknown
  }

  ghost predicate Safe(exec: Executor, plistExists: bool, log: seq<Command>) {
    && |log| <= 24
    && (forall i :: 0 <= i < |log| ==> log[i] != Bootout && log[i] != KickstartKill)
    && (forall i :: 0 <= i < |log| && log[i] == Bootstrap ==>
          i == 2 && log[1] == Print && StateOf(exec(UpTo(log, 2))) == Absent && plistExists)
    && (forall i :: 0 <= i < |log| && log[i] == Kickstart ==> i == |log| - 1 && i >= 2)
    && (forall i: nat :: Inconclusive(exec, log, i) ==> i == |log| - 1)
  }

  /** Safe, and a kickstart may follow. */
  ghost predicate SafeSoFar(exec: Executor, plistExists: bool, log: seq<Command>, ready: bool) {
    && Safe(exec, plistExists, log) && 2 <= |log| <= 23
    && (forall i :: 0 <= i < |log| ==> log[i] != Kickstart)
    && (ready ==> forall i: nat :: !Inconclusive(exec, log, i))
  }

  const ASKED: seq<Command> := [Enable, Print, Bootstrap]

  lemma WaitedLog(n: nat, i: nat)
    requires 1 <= i <= n
    ensures UpTo(ASKED + Prints(n), 3 + i) == ASKED + Prints(i)
    ensures UpTo(ASKED + Prints(n), 2) == [Enable, Print]
  {
  }

  lemma WaitedSafe(exec: Executor, n: nat, log: seq<Command>)
    requires StateOf(exec([Enable, Print])) == Absent && Waited(exec, ASKED, n) && log == ASKED + Prints(n)
    ensures SafeSoFar(exec, true, log, StateOf(exec(log)) == Loaded)
  {
    hide UpTo, StateOf;
    WaitedLog(n, n);
    forall i: nat | Inconclusive(exec, log, i) ensures i == |log| - 1 && StateOf(exec(log)) == Unknown {
      if i >= 3 {
        WaitedLog(n, i - 2);
        WaitedLog(n, n);
        AllOf(log);
      }
    }
  }

  lemma AllOf(log: seq<Command>)
    ensures UpTo(log, |log|) == log
  {
  }

  lemma AskedSafe(exec: Executor, ready: bool)
    requires StateOf(exec([Enable, Print])) == Absent
    ensures SafeSoFar(exec, true, ASKED, ready)
  {
    assert UpTo(ASKED, 2) == [Enable, Print];
  }

  lemma BootstrappedSafe(exec: Executor, log: seq<Command>, ok: bool)
    requires StateOf(exec([Enable, Print])) == Absent && Bootstrapped(exec, [Enable, Print], log, ok)
    ensures SafeSoFar(exec, true, log, ok)
  {
    hide SafeSoFar, StateOf, Waited;
    assert [Enable, Print] + [Bootstrap] == ASKED;
    if ExitFailure(exec(ASKED)) {
      var n :| Waited(exec, ASKED, n) && log == ASKED + Prints(n) && ok == (StateOf(exec(log)) == Loaded);
      WaitedSafe(exec, n, log);
    } else {
      AskedSafe(exec, ok);
    }
  }

  lemma ReadiedSafe(exec: Executor, plistExists: bool, log: seq<Command>, ready: bool)
    requires Readied(exec, plistExists, log, ready)
    ensures SafeSoFar(exec, plistExists, log, ready)
  {
    hide Bootstrapped;
    if StateOf(exec([Enable, Print])).Absent? && plistExists {
      BootstrappedSafe(exec, log, ready);
    } else {
      assert UpTo(log, 2) == log == [Enable, Print];
    }
  }

  /** For every executor: no bootout and no kill; a bootstrap at most once, right after a report that the job is
      absent and only if its plist exists; a kickstart at most once and last; nothing after an inconclusive report. */
  lemma KickstartSafe(exec: Executor, plistExists: bool, log: seq<Command>, ok: bool)
    requires Story(exec, plistExists, log, ok)
    ensures Safe(exec, plistExists, log)
    ensures ok ==> log != [] && log[|log| - 1] == Kickstart && Succeeded(exec(log))
  {
    hide Readied, StateOf, UpTo;
    if Succeeded(exec([Enable])) && !Readied(exec, plistExists, log, false) {
      var before := log[..|log| - 1];
      ReadiedSafe(exec, plistExists, before, true);
      Longer(log, 2);
      forall i: nat | Inconclusive(exec, log, i) ensures Inconclusive(exec, before, i) { Longer(log, i + 1); }
    } else if Succeeded(exec([Enable])) {
      ReadiedSafe(exec, plistExists, log, false);
    }
  }

  lemma Longer(log: seq<Command>, n: nat)
    requires log != [] && n <= |log|
    ensures n < |log| ==> UpTo(log, n) == UpTo(log[..|log| - 1], n)
  {
  }
}
