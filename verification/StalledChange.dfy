/** When the main loop sleeps on a change that it could apply: the end of an apply does not wake it. */
module StalledChange {
  import opened Text
  import Input = InputDevice
  import opened EventLoop

  /** One job at a time, exactly under the lock: a goroutine, a message or an armed rebind. */
  predicate OneJob(s: State) {
    (if s.working then 1 else 0) + |s.rebindChan| + (if s.pendingEnable then 1 else 0) == if s.locked then 1 else 0
  }

  lemma {:induction false} StepKeepsOneJob(cfg: Config, s: State, l: Label)
    requires OneJob(s) && Enabled(cfg, s, l)
    ensures OneJob(After(cfg, s, l))
  {
  }

  /** Nothing is readable, and nothing under way will make anything readable. */
  predicate Silent(s: State) {
    && !s.input.wake && s.input.signals == 0 && s.input.multiTapTimer == None
    && !s.ipcWake && s.ipcSignals == 0
    && s.rebindChan == [] && !s.working && s.lazyTimer == None
  }

  /** The loop sleeps on a change that it could apply. */
  predicate Stalled(s: State) {
    s.place == Blocked && s.changePending && !s.locked && Silent(s)
  }

  /** The lock was released under a pending change, and no wake-up has been handled since. */
  ghost function Unserved(cfg: Config, run: Run, n: nat): bool
    requires IsRun(cfg, run) && n <= |run.labels|
  {
    if n == 0 then false
    else match run.labels[n - 1].action
      case Handle(_) => false
      case ReleaseLock => run.states[n - 1].changePending
      case _ => Unserved(cfg, run, n - 1)
  }

  /** Handling a wake-up leaves no change that could have been applied. */
  lemma {:induction false} HandleServes(cfg: Config, s: State, now: int, changes: bool)
    requires Enabled(cfg, s, At(now, Handle(changes)))
    ensures var r := After(cfg, s, At(now, Handle(changes))); r.place != Exited ==> !(r.changePending && !r.locked)
  {
  }

  /** The lock and the pending change are left alone by everything else but a release. */
  lemma {:induction false} OthersLeave(cfg: Config, s: State, l: Label)
    requires Enabled(cfg, s, l) && !l.action.Handle? && !l.action.ReleaseLock?
    ensures var r := After(cfg, s, l); r.changePending == s.changePending && r.locked == s.locked
  {
  }

  lemma {:induction false} UnservedStep(cfg: Config, s: State, l: Label)
    requires Enabled(cfg, s, l) && OneJob(s) && After(cfg, s, l).place != Exited
    ensures var r := After(cfg, s, l);
            match l.action
            case Handle(_) => !(r.changePending && !r.locked)
            case ReleaseLock => s.locked && r.changePending == s.changePending && !r.locked
            case _ => r.changePending == s.changePending && r.locked == s.locked
  {
    match l.action {
      case Handle(changes) => HandleServes(cfg, s, l.now, changes);
      case ReleaseLock =>
      case _ => OthersLeave(cfg, s, l);
    }
  }

  lemma {:induction false} UnservedIff(cfg: Config, run: Run, n: nat)
    requires IsRun(cfg, run) && n <= |run.labels| && run.states[n].place != Exited
    ensures OneJob(run.states[n])
    ensures run.states[n].changePending && !run.states[n].locked <==> Unserved(cfg, run, n)
  {
    if n > 0 {
      assert StepAt(cfg, run, n - 1);
      var s, l := run.states[n - 1], run.labels[n - 1];
      ExitedStays(cfg, s, l);
      UnservedIff(cfg, run, n - 1);
      StepKeepsOneJob(cfg, s, l);
      UnservedStep(cfg, s, l);
    }
  }

  lemma {:induction false} ExitedStays(cfg: Config, s: State, l: Label)
    requires Enabled(cfg, s, l)
    ensures s.place == Exited ==> After(cfg, s, l).place == Exited
  {
  }

  /**
   * The end of an apply does not signal the main loop. The loop sleeps on a change that it could
   * apply exactly when it is blocked with everything silent, and the last lock was released under a
   * pending change with no wake-up handled since.
   */
  lemma {:induction false} StalledIff(cfg: Config, run: Run, n: nat)
    requires IsRun(cfg, run) && n <= |run.labels|
    ensures Stalled(run.states[n]) <==> run.states[n].place == Blocked && Unserved(cfg, run, n) && Silent(run.states[n])
  {
    if run.states[n].place != Exited {
      UnservedIff(cfg, run, n);
    }
  }

  // ----- a run -----

  const QUIET: Input.State := Input.State(false, Input.TIME_ZERO, false, [], false, 0, None, Input.AtSelect, [], [])

  /** A state at time zero around the start-up apply; only a request stirs. */
  function At0(requests: nat, ipcSignals: nat, ipcWake: bool, changePending: bool, locked: bool, place: Place): State {
    var input := if place == Woken then QUIET.(consumer := Input.Handling) else QUIET;
    State(input, false, 0, [], requests, ipcSignals, ipcWake, changePending, locked, locked, None, place, 0)
  }

  ghost predicate Leads(cfg: Config, s: State, a: Action, s': State) {
    Enabled(cfg, s, At(0, a)) && After(cfg, s, At(0, a)) == s'
  }

  lemma {:induction false} RequestArrives(cfg: Config)
    ensures Leads(cfg, At0(0, 0, false, false, true, Arming), SendRequest, At0(1, 1, false, false, true, Arming))
    ensures Leads(cfg, At0(1, 1, false, false, true, Arming), IpcSignal, At0(1, 0, true, false, true, Arming))
    ensures Leads(cfg, At0(1, 0, true, false, true, Arming), Arm, At0(1, 0, true, false, true, Blocked))
    ensures Leads(cfg, At0(1, 0, true, false, true, Blocked), Select(IpcWake), At0(1, 0, false, false, true, Woken))
  {
  }

  lemma {:induction false} LockIsHeld(cfg: Config)
    ensures Leads(cfg, At0(1, 0, false, false, true, Woken), Handle(true), At0(0, 0, false, true, true, Arming))
    ensures Leads(cfg, At0(0, 0, false, true, true, Arming), Arm, At0(0, 0, false, true, true, Blocked))
    ensures Leads(cfg, At0(0, 0, false, true, true, Blocked), ReleaseLock, At0(0, 0, false, true, false, Blocked))
  {
  }

  /** A request during the start-up apply, which then ends: the change it made waits for the next wake-up. */
  lemma {:induction false} RequestStalls(cfg: Config) returns (run: Run)
    ensures IsRun(cfg, run) && Stalled(run.states[|run.labels|])
  {
    run := Run(
      [At0(0, 0, false, false, true, Arming), At0(1, 1, false, false, true, Arming),
       At0(1, 0, true, false, true, Arming), At0(1, 0, true, false, true, Blocked),
       At0(1, 0, false, false, true, Woken), At0(0, 0, false, true, true, Arming),
       At0(0, 0, false, true, true, Blocked), At0(0, 0, false, true, false, Blocked)],
      [At(0, SendRequest), At(0, IpcSignal), At(0, Arm), At(0, Select(IpcWake)), At(0, Handle(true)), At(0, Arm),
       At(0, ReleaseLock)]);
    RequestArrives(cfg);
    LockIsHeld(cfg);
  }
}
