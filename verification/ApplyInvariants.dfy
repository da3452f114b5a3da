/**
 * What every run of the apply protocol keeps: one owner of the gadget at a time, a trace that a
 * one-job sequential automaton accepts, agreement with the last good configuration at rest, and
 * indices and submodes within bounds.
 */
module ApplyInvariants {
  import opened Text
  import opened GadgetApply

  // ----- the sequential reference: one job, step after step -----

  datatype Phase =
    | Idle
    | Asked
    | Started(target: Target, submodeOnly: bool)
    | Settling(target: Target, since: int)   // phase one done, the rebind delay runs
    | Binding(target: Target)
    | InForce(target: Target, submode: int, submodeOnly: bool)   // `enable` runs on that submode
    | Undoing(submodeOnly: bool)
    | Restoring(since: int)                  // the rollback has rebuilt, its own rebind delay runs
    | Restored

  /**
   * The job of one apply from request to release. A submode-only apply is enabled at once, any other
   * is built, settles and is bound first; only an enabled gadget is committed, and only the client
   * submode falls back. A rollback takes the same way, and one that must rebuild
   * cannot succeed without binding again. No other order is accepted.
   */
  function Advance(delay: nat, p: Phase, o: Observation): Option<Phase> {
    match (p, o)
    case (Idle, Requested) => Some(Asked)
    case (Asked, Began(t, submodeOnly)) => Some(Started(t, submodeOnly))
    case (Started(t, submodeOnly), Built(u, at)) => if t == u && !submodeOnly then Some(Settling(t, at)) else None
    case (Started(t, submodeOnly), Dispatched(x)) => if submodeOnly then Some(InForce(t, x, true)) else None
    case (Started(t, submodeOnly), Failed(u)) => if t == u then Some(Undoing(submodeOnly)) else None
    case (Settling(t, since), PhaseTwo(at)) => if since + delay <= at then Some(Binding(t)) else None
    case (Binding(t), Dispatched(x)) => Some(InForce(t, x, false))
    case (InForce(t, x, submodeOnly), Fallback) => if x == CLIENT then Some(InForce(t, GATEWAY, submodeOnly)) else None
    case (InForce(t, _, _), Committed(u)) => if t == u then Some(Idle) else None
    case (InForce(t, _, submodeOnly), Failed(u)) => if t == u then Some(Undoing(submodeOnly)) else None
    case (Binding(t), Failed(u)) => if t == u then Some(Undoing(false)) else None
    case (Undoing(submodeOnly), Released(rolledBack)) => if rolledBack ==> submodeOnly then Some(Idle) else None
    case (Undoing(submodeOnly), Rebuilt(at)) => if submodeOnly then None else Some(Restoring(at))
    case (Restoring(since), Rebound(at)) => if since + delay <= at then Some(Restored) else None
    case (Restored, Released(_)) => Some(Idle)
    case _ => None
  }

  function AdvanceAll(delay: nat, p: Phase, os: seq<Observation>): Option<Phase> {
    if os == [] then Some(p)
    else match AdvanceAll(delay, p, os[..|os| - 1])
      case None => None
      case Some(q) => Advance(delay, q, os[|os| - 1])
  }

  lemma {:induction false} AdvanceConcat(delay: nat, p: Phase, xs: seq<Observation>, ys: seq<Observation>)
    ensures AdvanceAll(delay, p, xs + ys) ==
            match AdvanceAll(delay, p, xs)
            case None => None
            case Some(q) => AdvanceAll(delay, q, ys)
  {
    if ys == [] {
      assert xs + ys == xs;
    } else {
      AdvanceConcat(delay, p, xs, ys[..|ys| - 1]);
      assert (xs + ys)[..|xs + ys| - 1] == xs + ys[..|ys| - 1];
    }
  }

  lemma {:induction false} Compose(delay: nat, p: Phase, xs: seq<Observation>, q: Phase, ys: seq<Observation>, r: Phase)
    requires AdvanceAll(delay, p, xs) == Some(q) && AdvanceAll(delay, q, ys) == Some(r)
    ensures AdvanceAll(delay, p, xs + ys) == Some(r)
  {
    AdvanceConcat(delay, p, xs, ys);
  }

  // ----- the invariant -----

  /** Apply and finish goroutines, messages under way and the armed rebind all own the gadget. */
  function Owners(s: State): nat {
    |s.jobs| + |s.rebindChan| + (if s.pendingEnable then 1 else 0)
  }

  ghost predicate SingleOwner(s: State) {
    Owners(s) == if s.modeChanging then 1 else 0
  }

  function EnablePhase(entered: Phase, t: Target, p: Progress, submodeOnly: bool): Phase {
    match p
    case Entered => entered
    case Running(x) => InForce(t, x, submodeOnly)
    case FellBack => InForce(t, GATEWAY, submodeOnly)
  }

  /** The phase of the one job that the concurrent state stands for. */
  function PhaseOf(cfg: Config, s: State): Phase {
    if s.jobs != [] then
      match s.jobs[0]
      case Spawned => Asked
      case Reconfiguring(t, p) => EnablePhase(Started(t, true), t, p, true)
      case Rebuilding(t) => Started(t, false)
      case Sending(t, deadline) => Settling(t, deadline - cfg.rebindDelay)
      case FinishSpawned => Binding(s.pendingApply)
      case Enabling(t, p) => EnablePhase(Binding(t), t, p, false)
      case UndoRebuilding(_) => Undoing(false)
      case UndoEnabling(_, until, _) => Restoring(until - cfg.rebindDelay)
      case UndoReconfiguring(_, _) => Undoing(true)
    else if s.rebindChan != [] then Settling(s.pendingApply, s.rebindChan[0] - cfg.rebindDelay)
    else if s.pendingEnable then Settling(s.pendingApply, s.enableDeadline - cfg.rebindDelay)
    else Idle
  }

  /** The last good selection, or what the fallback made of it. */
  predicate IsLastGood(s: State, chosen: Target) {
    chosen.mode == s.lastGood.mode && (chosen.submode == s.lastGood.submode || chosen.submode == GATEWAY)
  }

  /** While nothing new was selected, the selection is the target at work, or the last good one at rest. */
  ghost predicate Agrees(cfg: Config, s: State)
    requires Fits(cfg, s)
  {
    var chosen := Selected(cfg, s.choice);
    match PhaseOf(cfg, s)
    case Asked => true
    case Started(t, _) => chosen == t
    case Settling(t, _) => chosen == t
    case Binding(t) => chosen == t
    case InForce(t, x, _) => chosen == Target(t.mode, x) && (x == t.submode || x == GATEWAY)
    case _ => IsLastGood(s, chosen)
  }

  ghost predicate Inv(cfg: Config, s: State) {
    && Fits(cfg, s)
    && SingleOwner(s)
    && (s.jobs != [] && s.jobs[0].Sending? ==> s.pendingApply == s.jobs[0].target)
    && (s.jobs != [] && s.jobs[0].UndoRebuilding? ==> s.jobs[0].mode == s.lastGood.mode)
    && (s.jobs != [] && s.jobs[0].UndoEnabling? ==> s.jobs[0].mode == s.lastGood.mode)
    && (s.jobs != [] && s.jobs[0].UndoReconfiguring? ==> s.jobs[0].mode == s.lastGood.mode)
    && (!s.choice.modeChanged ==> Agrees(cfg, s))
  }

  lemma {:induction false} AdvanceOne(delay: nat, p: Phase, o: Observation)
    ensures AdvanceAll(delay, p, [o]) == Advance(delay, p, o)
  {
    assert [o][..0] == [];
    assert AdvanceAll(delay, p, []) == Some(p);
  }

  lemma {:induction false} AdvanceTwo(delay: nat, p: Phase, q: Phase, o: Observation, o': Observation)
    requires Advance(delay, p, o) == Some(q)
    ensures AdvanceAll(delay, p, [o, o']) == Advance(delay, q, o')
  {
    AdvanceOne(delay, p, o);
    assert [o, o'][..1] == [o];
  }

  // ----- the parts of a pass -----

  lemma {:induction false} ReceiveKeeps(cfg: Config, s: State, wake: Wake, now: int)
    requires Inv(cfg, s) && (wake.Rebind? ==> s.rebindChan != [])
    ensures var r := Receive(s, wake).(clock := now); Inv(cfg, r) && PhaseOf(cfg, r) == PhaseOf(cfg, s)
  {
  }

  lemma {:induction false} PhaseTwoKeeps(cfg: Config, s: State, now: int)
    requires Inv(cfg, s)
    ensures Inv(cfg, StartPhaseTwo(s, now))
    ensures RebindDue(s, now) ==>
              Advance(cfg.rebindDelay, PhaseOf(cfg, s), PhaseTwo(now)) == Some(PhaseOf(cfg, StartPhaseTwo(s, now)))
  {
  }

  lemma {:induction false} WakeKeeps(cfg: Config, s: State, l: Label)
    requires Inv(cfg, s) && l.Pass? && Enabled(s, l)
    ensures Inv(cfg, Woken(s, l))
    ensures AdvanceAll(cfg.rebindDelay, PhaseOf(cfg, s), WakeShows(s, l)) == Some(PhaseOf(cfg, Woken(s, l)))
  {
    var r := Receive(s, l.wake).(clock := l.now);
    ReceiveKeeps(cfg, s, l.wake, l.now);
    PhaseTwoKeeps(cfg, r, l.now);
    AdvanceOne(cfg.rebindDelay, PhaseOf(cfg, s), PhaseTwo(l.now));
  }

  lemma {:induction false} ChoiceKeeps(cfg: Config, s: State, c: Choice)
    requires Inv(cfg, s) && ChoiceFits(cfg, c)
    requires c.modeChanged || Selected(cfg, c) == Selected(cfg, s.choice)
    requires s.choice.modeChanged ==> c.modeChanged
    ensures Inv(cfg, s.(choice := c)) && PhaseOf(cfg, s.(choice := c)) == PhaseOf(cfg, s)
  {
  }

  lemma {:induction false} StartApplyKeeps(cfg: Config, s: State)
    requires Inv(cfg, s)
    ensures Inv(cfg, StartApply(s))
    ensures AdvanceAll(cfg.rebindDelay, PhaseOf(cfg, s), StartShows(s)) == Some(PhaseOf(cfg, StartApply(s)))
  {
    AdvanceOne(cfg.rebindDelay, PhaseOf(cfg, s), Requested);
  }

  lemma {:induction false} HeldKeeps(cfg: Config, s: State)
    requires Inv(cfg, s)
    ensures var r := s.(shuttingDown := true); Inv(cfg, r) && PhaseOf(cfg, r) == PhaseOf(cfg, s)
  {
  }

  lemma {:induction false} AbsorbKeeps(cfg: Config, s: State, l: Label)
    requires Inv(cfg, s) && l.Pass?
    ensures var r := Absorbed(cfg, s, l); Inv(cfg, r) && PhaseOf(cfg, r) == PhaseOf(cfg, s)
  {
    ChoiceKeeps(cfg, s, Absorbed(cfg, s, l).choice);
  }

  /** A pass keeps the invariant and moves the sequential job exactly as it shows. */
  lemma {:induction false} PassKeeps(cfg: Config, s: State, l: Label)
    requires Inv(cfg, s) && l.Pass? && Enabled(s, l)
    ensures Inv(cfg, AfterPass(cfg, s, l))
    ensures AdvanceAll(cfg.rebindDelay, PhaseOf(cfg, s), PassShows(cfg, s, l)) ==
            Some(PhaseOf(cfg, AfterPass(cfg, s, l)))
  {
    WakeKeeps(cfg, s, l);
    var woken := Woken(s, l);
    if l.held {
      HeldKeeps(cfg, woken);
      assert PassShows(cfg, s, l) == WakeShows(s, l);
    } else {
      AbsorbKeeps(cfg, woken, l);
      var absorbed := Absorbed(cfg, woken, l);
      StartApplyKeeps(cfg, absorbed);
      Compose(cfg.rebindDelay, PhaseOf(cfg, s), WakeShows(s, l), PhaseOf(cfg, woken),
              StartShows(absorbed), PhaseOf(cfg, StartApply(absorbed)));
    }
  }

  // ----- the segments of a goroutine -----

  /** Giving up leaves the last good submode in memory, whichever rollback came before. */
  lemma {:induction false} ReleaseKeeps(cfg: Config, s: State, rolledBack: bool)
    requires Fits(cfg, s) && SingleOwner(s) && |s.jobs| == 1
    requires !s.choice.modeChanged ==> s.choice.current == s.lastGood.mode
    requires !s.choice.modeChanged && rolledBack ==>
            s.choice.submodes[s.choice.current] in {GATEWAY, s.lastGood.submode}
    ensures var r := Release(cfg, s, 0, rolledBack); Inv(cfg, r) && PhaseOf(cfg, r) == Idle
  {
  }

  /** The phases in which an apply of `t` can fail. */
  predicate CanFail(p: Phase, t: Target, submodeOnly: bool) {
    || p == Started(t, submodeOnly)
    || (p == Binding(t) && !submodeOnly)
    || (p.InForce? && p.target == t && p.submodeOnly == submodeOnly)
  }

  /** An apply that fails hands over to its rollback, or lets go at once. */
  lemma {:induction false} FailKeeps(cfg: Config, s: State, t: Target, submodeOnly: bool)
    requires Inv(cfg, s) && |s.jobs| == 1 && CanFail(PhaseOf(cfg, s), t, submodeOnly)
    ensures Inv(cfg, Fail(cfg, s, 0, t, submodeOnly))
    ensures AdvanceAll(cfg.rebindDelay, PhaseOf(cfg, s), FailShows(cfg, s, t)) ==
            Some(PhaseOf(cfg, Fail(cfg, s, 0, t, submodeOnly)))
  {
    AdvanceOne(cfg.rebindDelay, PhaseOf(cfg, s), Failed(t));
    if !ShouldRollback(cfg, t, s.lastGood) {
      AdvanceTwo(cfg.rebindDelay, PhaseOf(cfg, s), Undoing(submodeOnly), Failed(t), Released(false));
      ReleaseKeeps(cfg, s, false);
    }
  }

  lemma {:induction false} EnableKeeps(cfg: Config, s: State, t: Target, ok: bool, submodeOnly: bool)
    requires Inv(cfg, s) && |s.jobs| == 1 && CanFail(PhaseOf(cfg, s), t, submodeOnly)
    requires ok ==> PhaseOf(cfg, s).InForce?
    ensures Inv(cfg, AfterEnable(cfg, s, 0, t, ok, submodeOnly))
    ensures AdvanceAll(cfg.rebindDelay, PhaseOf(cfg, s), if ok then [Committed(t)] else FailShows(cfg, s, t))
         == Some(PhaseOf(cfg, AfterEnable(cfg, s, 0, t, ok, submodeOnly)))
  {
    AdvanceOne(cfg.rebindDelay, PhaseOf(cfg, s), Committed(t));
    if !ok {
      FailKeeps(cfg, s, t, submodeOnly);
    }
  }

  lemma {:induction false} RebuildKeeps(cfg: Config, s: State, t: Target, ok: bool)
    requires Inv(cfg, s) && s.jobs == [Rebuilding(t)]
    ensures Inv(cfg, AfterRebuild(cfg, s, 0, t, ok))
    ensures AdvanceAll(cfg.rebindDelay, PhaseOf(cfg, s), if ok then [Built(t, s.clock)] else FailShows(cfg, s, t))
         == Some(PhaseOf(cfg, AfterRebuild(cfg, s, 0, t, ok)))
  {
    AdvanceOne(cfg.rebindDelay, PhaseOf(cfg, s), Built(t, s.clock));
    if !ok {
      FailKeeps(cfg, s, t, false);
    }
  }

  /** The end of a rollback, at a moment when its bind may return. */
  lemma {:induction false} UndoReturnKeeps(cfg: Config, s: State, ok: bool)
    requires Inv(cfg, s) && |s.jobs| == 1 && (s.jobs[0].UndoEnabling? || s.jobs[0].UndoReconfiguring?)
    requires s.jobs[0].UndoEnabling? ==> s.jobs[0].until <= s.clock
    ensures Inv(cfg, AfterReturn(cfg, s, 0, ok))
    ensures AdvanceAll(cfg.rebindDelay, PhaseOf(cfg, s), ReturnShows(cfg, s, 0, s.clock, ok))
         == Some(PhaseOf(cfg, AfterReturn(cfg, s, 0, ok)))
  {
    ReleaseKeeps(cfg, s, ok);
    if s.jobs[0].UndoEnabling? {
      AdvanceTwo(cfg.rebindDelay, PhaseOf(cfg, s), Restored, Rebound(s.clock), Released(ok));
    } else {
      AdvanceOne(cfg.rebindDelay, PhaseOf(cfg, s), Released(ok));
    }
  }

  lemma {:induction false} TickKeeps(cfg: Config, s: State, now: int)
    requires Inv(cfg, s)
    ensures var r := s.(clock := now); Inv(cfg, r) && PhaseOf(cfg, r) == PhaseOf(cfg, s)
  {
  }

  lemma {:induction false} BeginKeeps(cfg: Config, s: State)
    requires Inv(cfg, s) && s.jobs == [Spawned]
    ensures Inv(cfg, Begin(cfg, s, 0))
    ensures var began := Began(Selected(cfg, s.choice), s.choice.submodeChanged);
            AdvanceAll(cfg.rebindDelay, PhaseOf(cfg, s), [began]) == Some(PhaseOf(cfg, Begin(cfg, s, 0)))
  {
    AdvanceOne(cfg.rebindDelay, PhaseOf(cfg, s), Began(Selected(cfg, s.choice), s.choice.submodeChanged));
  }

  lemma {:induction false} HandOverKeeps(cfg: Config, s: State, ok: bool)
    requires Inv(cfg, s) && |s.jobs| == 1
    requires s.jobs[0].Sending? || s.jobs[0].FinishSpawned? || s.jobs[0].UndoRebuilding?
    ensures Inv(cfg, AfterReturn(cfg, s, 0, ok))
    ensures AdvanceAll(cfg.rebindDelay, PhaseOf(cfg, s), ReturnShows(cfg, s, 0, s.clock, ok))
         == Some(PhaseOf(cfg, AfterReturn(cfg, s, 0, ok)))
  {
    var os := ReturnShows(cfg, s, 0, s.clock, ok);
    if os != [] {
      AdvanceOne(cfg.rebindDelay, PhaseOf(cfg, s), os[0]);
    }
    if s.jobs[0].UndoRebuilding? && !ok {
      ReleaseKeeps(cfg, s, false);
    }
  }

  /** Every call may return, with success or not. */
  lemma {:induction false} ReturnKeeps(cfg: Config, s: State, ok: bool)
    requires Inv(cfg, s) && |s.jobs| == 1 && MayDo(s.jobs[0], Returns(ok))
    requires s.jobs[0].UndoEnabling? ==> s.jobs[0].until <= s.clock
    ensures Inv(cfg, AfterReturn(cfg, s, 0, ok))
    ensures AdvanceAll(cfg.rebindDelay, PhaseOf(cfg, s), ReturnShows(cfg, s, 0, s.clock, ok))
         == Some(PhaseOf(cfg, AfterReturn(cfg, s, 0, ok)))
  {
    match s.jobs[0] {
      case Spawned => BeginKeeps(cfg, s);
      case Reconfiguring(t, _) => EnableKeeps(cfg, s, t, ok, true);
      case Rebuilding(t) => RebuildKeeps(cfg, s, t, ok);
      case Enabling(t, _) => EnableKeeps(cfg, s, t, ok, false);
      case UndoEnabling(_, _, _) => UndoReturnKeeps(cfg, s, ok);
      case UndoReconfiguring(_, _) => UndoReturnKeeps(cfg, s, ok);
      case _ => HandOverKeeps(cfg, s, ok);
    }
  }

  lemma {:induction false} DispatchKeeps(cfg: Config, s: State)
    requires Inv(cfg, s) && |s.jobs| == 1 && MayDo(s.jobs[0], Dispatches)
    ensures Inv(cfg, Dispatch(cfg, s, 0))
    ensures s.jobs[0].UndoEnabling? || s.jobs[0].UndoReconfiguring? ==>
            PhaseOf(cfg, Dispatch(cfg, s, 0)) == PhaseOf(cfg, s)
    ensures s.jobs[0].Reconfiguring? || s.jobs[0].Enabling? ==>
              var x := s.choice.submodes[GadgetOf(s.jobs[0])];
              Advance(cfg.rebindDelay, PhaseOf(cfg, s), Dispatched(x)) == Some(PhaseOf(cfg, Dispatch(cfg, s, 0)))
  {
    assert StageFits(cfg, s.jobs[0]);
  }

  lemma {:induction false} FallBackKeeps(cfg: Config, s: State)
    requires Inv(cfg, s) && |s.jobs| == 1 && MayDo(s.jobs[0], FallsBack)
    ensures Inv(cfg, FallBack(cfg, s, 0))
    ensures s.jobs[0].UndoEnabling? || s.jobs[0].UndoReconfiguring? ==>
            PhaseOf(cfg, FallBack(cfg, s, 0)) == PhaseOf(cfg, s)
    ensures s.jobs[0].Reconfiguring? || s.jobs[0].Enabling? ==>
              Advance(cfg.rebindDelay, PhaseOf(cfg, s), Fallback) == Some(PhaseOf(cfg, FallBack(cfg, s, 0)))
  {
    assert StageFits(cfg, s.jobs[0]);
  }

  /** A goroutine segment keeps the invariant and moves the sequential job exactly as it shows. */
  lemma {:induction false} SegmentKeeps(cfg: Config, before: State, l: Label)
    requires Inv(cfg, before) && l.Segment? && Enabled(before, l)
    ensures Inv(cfg, AfterSegment(cfg, before, l))
    ensures AdvanceAll(cfg.rebindDelay, PhaseOf(cfg, before), SegmentShows(cfg, before, l))
         == Some(PhaseOf(cfg, AfterSegment(cfg, before, l)))
  {
    var s := before.(clock := l.now);
    TickKeeps(cfg, before, l.now);
    match l.usb {
      case Dispatches =>
        DispatchKeeps(cfg, s);
        AdvanceOne(cfg.rebindDelay, PhaseOf(cfg, s), Dispatched(s.choice.submodes[GadgetOf(s.jobs[0])]));
      case FallsBack =>
        FallBackKeeps(cfg, s);
        AdvanceOne(cfg.rebindDelay, PhaseOf(cfg, s), Fallback);
      case Returns(ok) => ReturnKeeps(cfg, s, ok);
    }
  }

  /** A step keeps the invariant and moves the sequential job exactly as it shows. */
  lemma {:induction false} StepKeeps(cfg: Config, s: State, l: Label)
    requires Inv(cfg, s) && Enabled(s, l)
    ensures Inv(cfg, After(cfg, s, l))
    ensures AdvanceAll(cfg.rebindDelay, PhaseOf(cfg, s), Shows(cfg, s, l)) == Some(PhaseOf(cfg, After(cfg, s, l)))
  {
    if l.Pass? {
      PassKeeps(cfg, s, l);
    } else {
      SegmentKeeps(cfg, s, l);
    }
  }
}
