/** The promises of the apply protocol, for every run and every state of it. */
module ApplyTheorems {
  import opened Text
  import opened GadgetSpec
  import opened GadgetApply
  import opened ApplyInvariants

  lemma {:induction false} InitialInv(cfg: Config, s: State)
    requires Initial(cfg, s)
    ensures Inv(cfg, s) && PhaseOf(cfg, s) == Started(s.lastGood, false)
  {
  }

  lemma {:induction false} StepExtends(cfg: Config, os: seq<Observation>, s: State, l: Label)
    requires Inv(cfg, s) && Enabled(s, l)
    requires AdvanceAll(cfg.rebindDelay, Idle, os) == Some(PhaseOf(cfg, s))
    ensures Inv(cfg, After(cfg, s, l))
    ensures AdvanceAll(cfg.rebindDelay, Idle, os + Shows(cfg, s, l)) == Some(PhaseOf(cfg, After(cfg, s, l)))
  {
    StepKeeps(cfg, s, l);
    Compose(cfg.rebindDelay, Idle, os, PhaseOf(cfg, s), Shows(cfg, s, l), PhaseOf(cfg, After(cfg, s, l)));
  }

  /** Every state of a run is sound and stands for the phase that the trace so far leads to. */
  lemma {:induction false} RunKeeps(cfg: Config, run: Run, n: nat)
    requires IsRun(cfg, run) && n <= |run.labels|
    ensures Inv(cfg, run.states[n])
    ensures AdvanceAll(cfg.rebindDelay, Idle, run.shown[n]) == Some(PhaseOf(cfg, run.states[n]))
  {
    if n == 0 {
      InitialInv(cfg, run.states[0]);
      AdvanceTwo(cfg.rebindDelay, Idle, Asked, Requested, Began(run.states[0].lastGood, false));
    } else {
      RunKeeps(cfg, run, n - 1);
      assert StepAt(cfg, run, n - 1);
      StepExtends(cfg, run.shown[n - 1], run.states[n - 1], run.labels[n - 1]);
    }
  }

  /**
   * At most one goroutine, channel message or armed rebind is at work, and there is one exactly
   * while `mode_changing` is set. A goroutine about to send its deadline finds the channel empty.
   */
  lemma {:induction false} OneOwner(cfg: Config, run: Run, n: nat)
    requires IsRun(cfg, run) && n <= |run.labels|
    ensures var s := run.states[n];
            && Owners(s) <= 1
            && (Owners(s) == 1 <==> s.modeChanging)
            && (forall j :: 0 <= j < |s.jobs| && s.jobs[j].Sending? ==> s.rebindChan == [])
  {
    RunKeeps(cfg, run, n);
  }

  /** At rest with nothing newly selected, the selection is the last good one, up to the client fallback. */
  lemma {:induction false} QuietAgreement(cfg: Config, run: Run, n: nat)
    requires IsRun(cfg, run) && n <= |run.labels|
    requires var s := run.states[n]; Owners(s) == 0 && !s.choice.modeChanged
    ensures var s := run.states[n];
            && s.choice.current == s.lastGood.mode
            && 0 <= s.choice.current < |s.choice.submodes|
            && s.choice.submodes[s.choice.current] in {0, s.lastGood.submode}
  {
    RunKeeps(cfg, run, n);
  }

  predicate IsRndis(cfg: Config, mode: int) {
    0 <= mode < |cfg.modes| && cfg.modes[mode].Rndis?
  }

  /** A gadget's `enable` has not met a submode that it does not know. */
  predicate KnownSubmode(cfg: Config, stage: Stage) {
    InEnable(stage) && stage.progress.Running? && IsRndis(cfg, GadgetOf(stage)) ==>
      RndisBranch(stage.progress.submode) != UnknownSubmode
  }

  /** Client mode is what can be given up: the branch that `enable` took on the submode it read. */
  lemma {:induction false} OnlyClientFallsBack(stage: Stage)
    ensures MayDo(stage, FallsBack) <==>
            InEnable(stage) && stage.progress.Running? && RndisBranch(stage.progress.submode) == ClientMode
    ensures RndisBranch(GATEWAY) == GatewayMode
  {
  }

  /**
   * Indices and submodes never leave their ranges, so whenever RNDIS is asked to enable itself it
   * knows the submode that it reads, whatever was selected meanwhile.
   */
  lemma {:induction false} BoundsAlways(cfg: Config, run: Run, n: nat)
    requires IsRun(cfg, run) && n <= |run.labels|
    ensures var s := run.states[n];
            && Fits(cfg, s)
            && (forall m :: IsRndis(cfg, m) ==> RndisBranch(s.choice.submodes[m]) != UnknownSubmode)
            && (forall j :: 0 <= j < |s.jobs| ==> KnownSubmode(cfg, s.jobs[j]))
  {
    RunKeeps(cfg, run, n);
    var s := run.states[n];
    forall j | 0 <= j < |s.jobs| ensures KnownSubmode(cfg, s.jobs[j]) {
      assert StageFits(cfg, s.jobs[j]);
    }
  }

  // ----- what the trace of a run looks like -----

  predicate Ends(o: Observation) {
    o.Committed? || o.Failed?
  }

  lemma {:induction false} AcceptedPrefix(delay: nat, p: Phase, os: seq<Observation>, i: nat)
    requires AdvanceAll(delay, p, os).Some? && i <= |os|
    ensures AdvanceAll(delay, p, os[..i]).Some?
  {
    if i < |os| {
      AcceptedPrefix(delay, p, os[..|os| - 1], i);
      assert os[..|os| - 1][..i] == os[..i];
    } else {
      assert os[..i] == os;
    }
  }

  /** The trace just before an observation, and the phase it leads to. */
  lemma {:induction false} Before(delay: nat, os: seq<Observation>, i: nat) returns (p: Phase)
    requires AdvanceAll(delay, Idle, os).Some? && i < |os|
    ensures AdvanceAll(delay, Idle, os[..i]) == Some(p) && Advance(delay, p, os[i]).Some?
    ensures AdvanceAll(delay, Idle, os[..i + 1]) == Advance(delay, p, os[i])
  {
    AcceptedPrefix(delay, Idle, os, i + 1);
    assert os[..i + 1][..i] == os[..i];
    p := AdvanceAll(delay, Idle, os[..i]).value;
  }

  /** A phase other than the first tells which observation led to it. */
  lemma {:induction false} LedHere(delay: nat, os: seq<Observation>, i: nat, q: Phase) returns (p: Phase)
    requires AdvanceAll(delay, Idle, os).Some? && i <= |os|
    requires AdvanceAll(delay, Idle, os[..i]) == Some(q) && q != Idle
    ensures i > 0 && AdvanceAll(delay, Idle, os[..i - 1]) == Some(p) && Advance(delay, p, os[i - 1]) == Some(q)
  {
    p := Before(delay, os, i - 1);
  }

  /**
   * The trace before `i` is an apply of `t` that has come to enabling its gadget: a submode-only one
   * at once, any other after it was built, settled for the delay and was bound.
   */
  ghost predicate AtEnable(delay: nat, os: seq<Observation>, i: int, t: Target, submodeOnly: bool) {
    if submodeOnly then 1 <= i <= |os| && os[i - 1] == Began(t, true)
    else
      && 3 <= i <= |os|
      && os[i - 3] == Began(t, false)
      && os[i - 2].Built? && os[i - 2].target == t
      && os[i - 1].PhaseTwo? && os[i - 2].at + delay <= os[i - 1].at
  }

  /**
   * The trace before `i` is an apply of `t` whose gadget runs on submode `x`, read from the selection
   * or fallen back to.
   */
  ghost predicate InForceAt(delay: nat, os: seq<Observation>, i: int, t: Target, x: int, submodeOnly: bool) {
    && 1 <= i <= |os|
    && if os[i - 1] == Fallback then
         x == GATEWAY && 2 <= i && os[i - 2] == Dispatched(CLIENT) && AtEnable(delay, os, i - 2, t, submodeOnly)
       else
         os[i - 1] == Dispatched(x) && AtEnable(delay, os, i - 1, t, submodeOnly)
  }

  /** The apply that ends at `i` is the one begun directly before, of the same target; a commit enabled it first. */
  ghost predicate EndsAsBegun(delay: nat, os: seq<Observation>, i: nat, t: Target)
    requires i < |os|
  {
    || (exists x, submodeOnly :: InForceAt(delay, os, i, t, x, submodeOnly))
    || (os[i].Failed? && i >= 1 && os[i - 1].Began? && os[i - 1].target == t)
    || (os[i].Failed? && AtEnable(delay, os, i, t, false))
  }

  /** How a job came to settle: it began as a full apply and was built. */
  lemma {:induction false} SettlingPath(delay: nat, os: seq<Observation>, i: nat, t: Target, since: int)
    requires AdvanceAll(delay, Idle, os).Some? && i <= |os|
    requires AdvanceAll(delay, Idle, os[..i]) == Some(Settling(t, since))
    ensures i >= 2 && os[i - 2] == Began(t, false) && os[i - 1] == Built(t, since)
  {
    var p := LedHere(delay, os, i, Settling(t, since));
    var p1 := LedHere(delay, os, i - 1, p);
  }

  lemma {:induction false} BindingPath(delay: nat, os: seq<Observation>, i: nat, t: Target)
    requires AdvanceAll(delay, Idle, os).Some? && i <= |os|
    requires AdvanceAll(delay, Idle, os[..i]) == Some(Binding(t))
    ensures AtEnable(delay, os, i, t, false)
  {
    var p := LedHere(delay, os, i, Binding(t));
    SettlingPath(delay, os, i - 1, p.target, p.since);
  }

  lemma {:induction false} DispatchPath(delay: nat, os: seq<Observation>, i: nat, p: Phase)
    requires AdvanceAll(delay, Idle, os).Some? && i < |os| && os[i].Dispatched?
    requires AdvanceAll(delay, Idle, os[..i]) == Some(p) && Advance(delay, p, os[i]).Some?
    ensures Advance(delay, p, os[i]).value.InForce?
    ensures var q := Advance(delay, p, os[i]).value;
            q.submode == os[i].submode && AtEnable(delay, os, i, q.target, q.submodeOnly)
  {
    if p.Binding? {
      BindingPath(delay, os, i, p.target);
    } else {
      var p1 := LedHere(delay, os, i, p);
    }
  }

  lemma {:induction false} InForcePath(delay: nat, os: seq<Observation>, i: nat, q: Phase)
    requires AdvanceAll(delay, Idle, os).Some? && i <= |os|
    requires AdvanceAll(delay, Idle, os[..i]) == Some(q) && q.InForce?
    ensures InForceAt(delay, os, i, q.target, q.submode, q.submodeOnly)
  {
    var p := LedHere(delay, os, i, q);
    if os[i - 1].Dispatched? {
      DispatchPath(delay, os, i - 1, p);
    } else {
      var p1 := LedHere(delay, os, i - 1, p);
      DispatchedOnly(delay, p1, os[i - 2], p);
      DispatchPath(delay, os, i - 2, p1);
    }
  }

  /** Client mode is entered by a dispatch, not by a fallback. */
  lemma {:induction false} DispatchedOnly(delay: nat, p: Phase, o: Observation, q: Phase)
    requires Advance(delay, p, o) == Some(q) && q.InForce? && q.submode == CLIENT
    ensures o == Dispatched(CLIENT)
  {
  }

  lemma {:induction false} EndPath(delay: nat, os: seq<Observation>, i: nat)
    requires AdvanceAll(delay, Idle, os).Some? && i < |os| && Ends(os[i])
    ensures EndsAsBegun(delay, os, i, os[i].target)
  {
    var p := Before(delay, os, i);
    if p.InForce? {
      InForcePath(delay, os, i, p);
    } else if p.Binding? {
      BindingPath(delay, os, i, p.target);
    } else {
      var p1 := LedHere(delay, os, i, p);
    }
  }

  /**
   * Whatever is committed or reported as failed is the target snapshotted by the apply that ends
   * there, whatever was selected meanwhile: the trace before it is that apply alone. A commit
   * follows the gadget's own `enable`; without a rebuild it is one of a submode-only apply, any
   * other has been built, has settled for the rebind delay and has been bound.
   */
  lemma {:induction false} EndsItsOwnTarget(cfg: Config, run: Run, n: nat, i: nat)
    requires IsRun(cfg, run) && n <= |run.labels|
    requires i < |run.shown[n]| && Ends(run.shown[n][i])
    ensures EndsAsBegun(cfg.rebindDelay, run.shown[n], i, run.shown[n][i].target)
  {
    RunKeeps(cfg, run, n);
    EndPath(cfg.rebindDelay, run.shown[n], i);
  }

  /** A release at `i` follows its failure at once, or a rebuild and a bind of the last good gadget. */
  ghost predicate ReleasesAFailure(delay: nat, os: seq<Observation>, i: nat)
    requires i < |os| && os[i].Released?
  {
    || (i >= 1 && os[i - 1].Failed?)
    || (&& i >= 3 && os[i - 3].Failed? && os[i - 2].Rebuilt? && os[i - 1].Rebound?
        && os[i - 2].at + delay <= os[i - 1].at)
  }

  /** The failure at `i` is that of a submode-only apply, before or after its `enable` read the submode. */
  ghost predicate FailedSubmodeOnly(delay: nat, os: seq<Observation>, i: int)
    requires 0 <= i < |os| && os[i].Failed?
  {
    AtEnable(delay, os, i, os[i].target, true) || exists x :: InForceAt(delay, os, i, os[i].target, x, true)
  }

  lemma {:induction false} UndoingPath(delay: nat, os: seq<Observation>, i: nat, submodeOnly: bool)
    requires AdvanceAll(delay, Idle, os).Some? && i <= |os|
    requires AdvanceAll(delay, Idle, os[..i]) == Some(Undoing(submodeOnly))
    ensures i >= 1 && os[i - 1].Failed? && (submodeOnly ==> FailedSubmodeOnly(delay, os, i - 1))
  {
    var p := LedHere(delay, os, i, Undoing(submodeOnly));
    if p.InForce? {
      InForcePath(delay, os, i - 1, p);
    } else if p.Started? {
      var p1 := LedHere(delay, os, i - 1, p);
    }
  }

  lemma {:induction false} ReleasePath(delay: nat, os: seq<Observation>, i: nat)
    requires AdvanceAll(delay, Idle, os).Some? && i < |os| && os[i].Released?
    ensures ReleasesAFailure(delay, os, i)
    ensures os[i].rolledBack && os[i - 1].Failed? ==> FailedSubmodeOnly(delay, os, i - 1)
  {
    var p := Before(delay, os, i);
    if p.Restored? {
      var p1 := LedHere(delay, os, i, p);
      var p2 := LedHere(delay, os, i - 1, p1);
      UndoingPath(delay, os, i - 2, p2.submodeOnly);
    } else {
      UndoingPath(delay, os, i, p.submodeOnly);
    }
  }

  /**
   * Every release ends the rollback of the failure before it. One that succeeded either put back a
   * submode without rebuilding, after a submode-only apply, or rebuilt the last good gadget, let it
   * settle for the rebind delay and bound it.
   */
  lemma {:induction false} ReleasesItsFailure(cfg: Config, run: Run, n: nat, i: nat)
    requires IsRun(cfg, run) && n <= |run.labels|
    requires i < |run.shown[n]| && run.shown[n][i].Released?
    ensures var os := run.shown[n];
            && ReleasesAFailure(cfg.rebindDelay, os, i)
            && (os[i].rolledBack && os[i - 1].Failed? ==> FailedSubmodeOnly(cfg.rebindDelay, os, i - 1))
  {
    RunKeeps(cfg, run, n);
    ReleasePath(cfg.rebindDelay, run.shown[n], i);
  }

  lemma {:induction false} PhaseTwoFollows(delay: nat, os: seq<Observation>, i: nat)
    requires AdvanceAll(delay, Idle, os).Some? && i < |os| && os[i].PhaseTwo?
    ensures i > 0 && os[i - 1].Built? && os[i - 1].at + delay <= os[i].at
  {
    var p := Before(delay, os, i);
    var p1 := LedHere(delay, os, i, p);
  }

  /** Phase two directly follows a phase one that ended at least the rebind delay earlier. */
  lemma {:induction false} RebindDelayKept(cfg: Config, run: Run, n: nat, i: nat)
    requires IsRun(cfg, run) && n <= |run.labels|
    requires i < |run.shown[n]| && run.shown[n][i].PhaseTwo?
    ensures var os := run.shown[n];
            i > 0 && os[i - 1].Built? && os[i - 1].at + cfg.rebindDelay <= os[i].at
  {
    RunKeeps(cfg, run, n);
    PhaseTwoFollows(cfg.rebindDelay, run.shown[n], i);
  }

  lemma {:induction false} BuiltSettles(delay: nat, os: seq<Observation>, t: Target, at: int)
    requires AdvanceAll(delay, Idle, os).Some? && os != [] && os[|os| - 1] == Built(t, at)
    ensures AdvanceAll(delay, Idle, os) == Some(Settling(t, at))
  {
    var p := Before(delay, os, |os| - 1);
    assert os[..|os|] == os;
  }

  /**
   * After a phase one that ended at `at`, a pass that has received its message starts phase two if
   * the rebind delay has passed since, and only then; the job handed over is the only one.
   */
  lemma {:induction false} DuePassBinds(cfg: Config, run: Run, n: nat, t: Target, at: int)
    requires IsRun(cfg, run) && n < |run.labels| && run.labels[n].Pass?
    requires run.shown[n] != [] && run.shown[n][|run.shown[n]| - 1] == Built(t, at)
    requires run.labels[n].wake.Rebind? || run.states[n].pendingEnable
    ensures var s, l := run.states[n], run.labels[n];
            && StepAt(cfg, run, n)
            && (PhaseTwo(l.now) in Shows(cfg, s, l) <==> at + cfg.rebindDelay <= l.now)
            && (at + cfg.rebindDelay <= l.now ==> run.states[n + 1].jobs == [FinishSpawned] && s.pendingApply == t)
  {
    var s, l := run.states[n], run.labels[n];
    assert StepAt(cfg, run, n);
    RunKeeps(cfg, run, n);
    BuiltSettles(cfg.rebindDelay, run.shown[n], t, at);
    assert RebindDue(Receive(s, l.wake), l.now) <==> at + cfg.rebindDelay <= l.now;
    if RebindDue(Receive(s, l.wake), l.now) {
      assert Shows(cfg, s, l)[0] == PhaseTwo(l.now);
      WakeKeeps(cfg, s, l);
      assert Woken(s, l).jobs == [FinishSpawned];
    }
  }

  // ----- what a run remembers -----

  datatype Memory = Memory(lastGood: Target, error: bool)

  /** Commits set the last good configuration, and endings the error: only a failed rollback raises it. */
  function Remember(m: Memory, o: Observation): Memory {
    match o
    case Committed(t) => Memory(t, false)
    case Released(rolledBack) => m.(error := !rolledBack)
    case _ => m
  }

  function RememberAll(m: Memory, os: seq<Observation>): Memory {
    if os == [] then m else Remember(RememberAll(m, os[..|os| - 1]), os[|os| - 1])
  }

  lemma {:induction false} RememberConcat(m: Memory, xs: seq<Observation>, ys: seq<Observation>)
    ensures RememberAll(m, xs + ys) == RememberAll(RememberAll(m, xs), ys)
  {
    if ys == [] {
      assert xs + ys == xs;
    } else {
      assert (xs + ys)[..|xs + ys| - 1] == xs + ys[..|ys| - 1];
      RememberConcat(m, xs, ys[..|ys| - 1]);
    }
  }

  lemma {:induction false} RememberFew(m: Memory, os: seq<Observation>)
    requires |os| <= 2
    ensures RememberAll(m, os) ==
              if |os| == 0 then m
              else if |os| == 1 then Remember(m, os[0])
              else Remember(Remember(m, os[0]), os[1])
  {
    if |os| == 2 {
      RememberFew(m, os[..1]);
    } else if |os| == 1 {
      assert os[..0] == [];
    }
  }

  function MemoryOf(s: State): Memory {
    Memory(s.lastGood, s.applyError)
  }

  lemma {:induction false} FailRemembers(cfg: Config, s: State, j: nat, t: Target, submodeOnly: bool)
    requires Fits(cfg, s) && j < |s.jobs|
    ensures MemoryOf(Fail(cfg, s, j, t, submodeOnly)) == RememberAll(MemoryOf(s), FailShows(cfg, s, t))
  {
    RememberFew(MemoryOf(s), FailShows(cfg, s, t));
  }

  lemma {:induction false} EnableRemembers(cfg: Config, s: State, j: nat, t: Target, ok: bool, submodeOnly: bool)
    requires Fits(cfg, s) && j < |s.jobs|
    ensures MemoryOf(AfterEnable(cfg, s, j, t, ok, submodeOnly))
         == RememberAll(MemoryOf(s), if ok then [Committed(t)] else FailShows(cfg, s, t))
  {
    RememberFew(MemoryOf(s), [Committed(t)]);
    FailRemembers(cfg, s, j, t, submodeOnly);
  }

  lemma {:induction false} UndoRemembers(cfg: Config, s: State, j: nat, ok: bool)
    requires Fits(cfg, s) && j < |s.jobs|
    requires s.jobs[j].UndoRebuilding? || s.jobs[j].UndoEnabling? || s.jobs[j].UndoReconfiguring?
    ensures MemoryOf(AfterReturn(cfg, s, j, ok)) == RememberAll(MemoryOf(s), ReturnShows(cfg, s, j, s.clock, ok))
  {
    RememberFew(MemoryOf(s), ReturnShows(cfg, s, j, s.clock, ok));
  }

  lemma {:induction false} ReturnRemembers(cfg: Config, s: State, j: nat, ok: bool)
    requires Fits(cfg, s) && j < |s.jobs|
    ensures MemoryOf(AfterReturn(cfg, s, j, ok)) == RememberAll(MemoryOf(s), ReturnShows(cfg, s, j, s.clock, ok))
  {
    match s.jobs[j] {
      case Reconfiguring(t, _) => EnableRemembers(cfg, s, j, t, ok, true);
      case Enabling(t, _) => EnableRemembers(cfg, s, j, t, ok, false);
      case Rebuilding(t) =>
        RememberFew(MemoryOf(s), [Built(t, s.clock)]);
        FailRemembers(cfg, s, j, t, false);
      case UndoRebuilding(_) => UndoRemembers(cfg, s, j, ok);
      case UndoEnabling(_, _, _) => UndoRemembers(cfg, s, j, ok);
      case UndoReconfiguring(_, _) => UndoRemembers(cfg, s, j, ok);
      case Spawned => RememberFew(MemoryOf(s), ReturnShows(cfg, s, j, s.clock, ok));
      case Sending(_, _) => RememberFew(MemoryOf(s), []);
      case FinishSpawned => RememberFew(MemoryOf(s), []);
    }
  }

  lemma {:induction false} SegmentRemembers(cfg: Config, before: State, l: Label)
    requires Fits(cfg, before) && l.Segment? && Enabled(before, l)
    ensures MemoryOf(AfterSegment(cfg, before, l)) == RememberAll(MemoryOf(before), SegmentShows(cfg, before, l))
  {
    var s := before.(clock := l.now);
    match l.usb {
      case Returns(ok) => ReturnRemembers(cfg, s, l.job, ok);
      case _ => RememberFew(MemoryOf(s), SegmentShows(cfg, before, l));
    }
  }

  lemma {:induction false} PassRemembers(cfg: Config, s: State, l: Label)
    requires Fits(cfg, s) && l.Pass? && Enabled(s, l)
    ensures MemoryOf(AfterPass(cfg, s, l)) == RememberAll(MemoryOf(s), PassShows(cfg, s, l))
  {
    RememberFew(MemoryOf(s), PassShows(cfg, s, l));
  }

  lemma {:induction false} StepRemembers(cfg: Config, s: State, l: Label, os: seq<Observation>, m: Memory)
    requires Fits(cfg, s) && Enabled(s, l) && MemoryOf(s) == RememberAll(m, os)
    ensures MemoryOf(After(cfg, s, l)) == RememberAll(m, os + Shows(cfg, s, l))
  {
    if l.Pass? {
      PassRemembers(cfg, s, l);
    } else {
      SegmentRemembers(cfg, s, l);
    }
    RememberConcat(m, os, Shows(cfg, s, l));
  }

  /**
   * The last good configuration is the start-up one until something is committed and then the last
   * commit; the error shows exactly while the last ending was a failure that no rollback repaired.
   */
  lemma {:induction false} RunRemembers(cfg: Config, run: Run, n: nat)
    requires IsRun(cfg, run) && n <= |run.labels|
    ensures MemoryOf(run.states[n]) == RememberAll(Memory(run.states[0].lastGood, false), run.shown[n])
  {
    var m := Memory(run.states[0].lastGood, false);
    if n == 0 {
      RememberFew(m, run.shown[0]);
    } else {
      RunRemembers(cfg, run, n - 1);
      assert StepAt(cfg, run, n - 1);
      StepRemembers(cfg, run.states[n - 1], run.labels[n - 1], run.shown[n - 1], m);
    }
  }

  // ----- what a failure leads to -----

  /**
   * What a failure of `t` at `stage` shows and leaves, when `good` was good before: with another
   * gadget to choose from and another configuration than the one that failed, that configuration is
   * selected again and one rollback takes over; otherwise the failure is released with the error shown.
   */
  predicate Decided(cfg: Config, t: Target, good: Target, stage: Stage, os: seq<Observation>, s': State) {
    if |cfg.modes| > 1 && (t.mode != good.mode || t.submode != good.submode) then
      && os == [Failed(t)] && s'.modeChanging
      && s'.choice.current == good.mode
      && 0 <= good.mode < |s'.choice.submodes| && s'.choice.submodes[good.mode] == good.submode
      && s'.jobs == [if stage.Reconfiguring? then UndoReconfiguring(good.mode, Entered) else UndoRebuilding(good.mode)]
    else
      os == [Failed(t), Released(false)] && s'.jobs == [] && !s'.modeChanging && s'.applyError
  }

  lemma {:induction false} FailDecides(cfg: Config, s: State, t: Target)
    requires Inv(cfg, s) && |s.jobs| == 1
    ensures Decided(cfg, t, s.lastGood, s.jobs[0], FailShows(cfg, s, t), Fail(cfg, s, 0, t, s.jobs[0].Reconfiguring?))
  {
    assert Without(s.jobs, 0) == [];
  }

  lemma {:induction false} PassesDoNotFail(cfg: Config, s: State, l: Label)
    requires Fits(cfg, s) && l.Pass? && Enabled(s, l)
    ensures var os := PassShows(cfg, s, l); os != [] ==> !os[0].Failed?
  {
  }

  lemma {:induction false} SegmentDecides(cfg: Config, s: State, l: Label, t: Target)
    requires Inv(cfg, s) && l.Segment? && Enabled(s, l)
    requires SegmentShows(cfg, s, l) != [] && SegmentShows(cfg, s, l)[0] == Failed(t)
    ensures |s.jobs| == 1
    ensures Decided(cfg, t, s.lastGood, s.jobs[0], SegmentShows(cfg, s, l), AfterSegment(cfg, s, l))
  {
    TickKeeps(cfg, s, l.now);
    FailDecides(cfg, s.(clock := l.now), t);
  }

  /**
   * For every failure in every run, with the last good configuration that the trace remembers: when
   * there is more than one gadget and that configuration differs from what failed, in gadget or in
   * submode, it is selected again and one rollback takes over, by reconfiguring after a submode-only
   * apply and by rebuilding otherwise. In all other cases the failure is released at once, with the
   * error shown.
   */
  lemma {:induction false} FailureDecides(cfg: Config, run: Run, n: nat, t: Target)
    requires IsRun(cfg, run) && n < |run.labels| && StepAt(cfg, run, n)
    requires var os := Shows(cfg, run.states[n], run.labels[n]); os != [] && os[0] == Failed(t)
    ensures |run.states[n].jobs| == 1
    ensures var good := RememberAll(Memory(run.states[0].lastGood, false), run.shown[n]).lastGood;
            var os := Shows(cfg, run.states[n], run.labels[n]);
            Decided(cfg, t, good, run.states[n].jobs[0], os, run.states[n + 1])
  {
    RunKeeps(cfg, run, n);
    RunRemembers(cfg, run, n);
    var s, l := run.states[n], run.labels[n];
    if l.Pass? {
      PassesDoNotFail(cfg, s, l);
    } else {
      SegmentDecides(cfg, s, l, t);
    }
  }

  // ----- the last turn -----

  lemma {:induction false} StaysShut(cfg: Config, run: Run, i: nat, j: nat)
    requires IsRun(cfg, run) && i <= j <= |run.labels| && run.states[i].shuttingDown
    ensures run.states[j].shuttingDown
    decreases j - i
  {
    if i < j {
      assert StepAt(cfg, run, i);
      StaysShut(cfg, run, i + 1, j);
    }
  }

  /**
   * The turn that finds the button held ends the main loop: it takes in nothing and starts no apply,
   * and no turn follows it; only goroutines that are under way go on.
   */
  lemma {:induction false} HeldTurnIsLast(cfg: Config, run: Run, i: nat, j: nat)
    requires IsRun(cfg, run) && i < j < |run.labels| && run.labels[i].Pass? && run.labels[i].held
    ensures run.states[i + 1].choice == run.states[i].choice
    ensures run.states[j].shuttingDown && run.labels[j].Segment?
  {
    assert StepAt(cfg, run, i);
    StaysShut(cfg, run, i + 1, j);
    assert StepAt(cfg, run, j);
  }

  // ----- nothing is blocked -----

  /**
   * In every state of every run the main loop can turn, unless it has shut down, and every goroutine
   * can go on: its call may fail at any time, it may succeed once `enable` has read the submode, and
   * client mode may be given up whenever it was entered.
   */
  lemma {:induction false} NothingBlocks(cfg: Config, run: Run, n: nat, j: nat, now: int)
    requires IsRun(cfg, run) && n <= |run.labels| && run.states[n].clock <= now
    ensures var s := run.states[n];
            && (!s.shuttingDown ==> forall held, events, requests ::
                  Enabled(s, Pass(OtherWake, now, held, events, requests)) &&
                  (s.rebindChan != [] ==> Enabled(s, Pass(Rebind, now, held, events, requests))))
            && (j < |s.jobs| && (s.jobs[j].UndoEnabling? ==> s.jobs[j].until <= now) ==>
                  && Enabled(s, Segment(j, now, Returns(false)))
                  && (InEnable(s.jobs[j]) && s.jobs[j].progress == Entered ==> Enabled(s, Segment(j, now, Dispatches)))
                  && (!InEnable(s.jobs[j]) ==> Enabled(s, Segment(j, now, Returns(true))))
                  && (InEnable(s.jobs[j]) && s.jobs[j].progress != Entered ==>
                        Enabled(s, Segment(j, now, Returns(true))))
                  && (InEnable(s.jobs[j]) && s.jobs[j].progress == Running(CLIENT) ==>
                        Enabled(s, Segment(j, now, FallsBack))))
  {
    RunKeeps(cfg, run, n);
  }

  // ----- making a run longer -----

  ghost function Extended(cfg: Config, run: Run, l: Label): Run
    requires IsRun(cfg, run) && Fits(cfg, run.states[|run.labels|]) && Enabled(run.states[|run.labels|], l)
  {
    var s, os := run.states[|run.labels|], run.shown[|run.labels|];
    Run(run.states + [After(cfg, s, l)], run.labels + [l], run.shown + [os + Shows(cfg, s, l)])
  }

  /** A step that is enabled at the end of a run makes it longer. */
  lemma {:induction false} ExtendRun(cfg: Config, run: Run, l: Label)
    requires IsRun(cfg, run) && Fits(cfg, run.states[|run.labels|]) && Enabled(run.states[|run.labels|], l)
    ensures IsRun(cfg, Extended(cfg, run, l))
  {
    var longer := Extended(cfg, run, l);
    forall i: nat | i < |longer.labels| ensures StepAt(cfg, longer, i) {
      if i < |run.labels| {
        assert StepAt(cfg, run, i);
      }
    }
  }
}
