/** Which submode a committed gadget was really enabled on: `enable` reads the selection anew. */
module EnabledSubmode {
  import opened GadgetSpec
  import opened GadgetApply
  import opened ApplyInvariants
  import opened ApplyTheorems

  /** An apply inside the gadget's `enable`, past the point where the submode is read. */
  predicate PastDispatch(stage: Stage) {
    (stage.Reconfiguring? || stage.Enabling?) && stage.progress != Entered
  }

  /** The submode that `enable` read. */
  function ReadSubmode(p: Progress): int
    requires p != Entered
  {
    if p.Running? then p.submode else CLIENT
  }

  /** The submode that the gadget ends up on. */
  function EnabledOn(p: Progress): int
    requires p != Entered
  {
    if p.Running? then p.submode else GATEWAY
  }

  /** A step into a stage past the dispatch: from the dispatch, from the fallback, or from the same stage. */
  lemma {:induction false} StepBack(cfg: Config, s: State, l: Label)
    requires Inv(cfg, s) && Enabled(s, l)
    requires var r := After(cfg, s, l); |r.jobs| == 1 && PastDispatch(r.jobs[0])
    ensures var stage := After(cfg, s, l).jobs[0];
            && |s.jobs| == 1
            && (|| s.jobs[0] == stage
                || (&& l.Segment? && l.usb == Dispatches && s.jobs[0] == WithProgress(stage, Entered)
                    && 0 <= stage.target.mode < |s.choice.submodes|
                    && stage.progress == Running(s.choice.submodes[stage.target.mode]))
                || (&& l.Segment? && l.usb == FallsBack && s.jobs[0] == WithProgress(stage, Running(CLIENT))
                    && stage.progress == FellBack))
  {
    if l.Pass? {
      PassKeepsJob(cfg, s, l);
    } else if l.usb.Returns? {
      ReturnEnters(cfg, s.(clock := l.now), l.usb.ok);
    } else {
      assert StageFits(cfg, s.jobs[0]);
    }
  }

  /** No call returns into the middle of `enable`. */
  lemma {:induction false} ReturnEnters(cfg: Config, s: State, ok: bool)
    requires Fits(cfg, s) && |s.jobs| == 1
    ensures var jobs := AfterReturn(cfg, s, 0, ok).jobs; |jobs| == 1 ==> !PastDispatch(jobs[0])
  {
    assert Without(s.jobs, 0) == [];
    match s.jobs[0] {
      case Reconfiguring(t, _) => FailEnters(cfg, s, t, true);
      case Rebuilding(t) => FailEnters(cfg, s, t, false);
      case Enabling(t, _) => FailEnters(cfg, s, t, false);
      case _ =>
    }
  }

  lemma {:induction false} FailEnters(cfg: Config, s: State, t: Target, submodeOnly: bool)
    requires Fits(cfg, s) && |s.jobs| == 1
    ensures var jobs := Fail(cfg, s, 0, t, submodeOnly).jobs; |jobs| == 1 ==> !PastDispatch(jobs[0])
  {
  }

  /** A pass leaves a running goroutine alone, and what it spawns is not past a dispatch. */
  lemma {:induction false} PassKeepsJob(cfg: Config, s: State, l: Label)
    requires Inv(cfg, s) && l.Pass? && Enabled(s, l)
    ensures var jobs := AfterPass(cfg, s, l).jobs;
            if s.jobs != [] then jobs == s.jobs else forall j :: 0 <= j < |jobs| ==> !PastDispatch(jobs[j])
  {
    WakeKeeps(cfg, s, l);
  }

  /** In step `d` the `enable` of the apply at `stage` read its submode from the selection. */
  ghost predicate ReadAt(cfg: Config, run: Run, d: nat, stage: Stage) {
    && PastDispatch(stage)
    && StepAt(cfg, run, d) && run.labels[d].Segment? && run.labels[d].usb == Dispatches
    && run.states[d].jobs == [WithProgress(stage, Entered)]
    && 0 <= stage.target.mode < |run.states[d].choice.submodes|
    && run.states[d].choice.submodes[stage.target.mode] == ReadSubmode(stage.progress)
  }

  lemma {:induction false} FellBackReadAt(cfg: Config, run: Run, d: nat, stage: Stage)
    requires PastDispatch(stage) && stage.progress == FellBack
    requires ReadAt(cfg, run, d, WithProgress(stage, Running(CLIENT)))
    ensures ReadAt(cfg, run, d, stage)
  {
  }

  lemma {:induction false} ReadsHere(cfg: Config, run: Run, d: nat, stage: Stage)
    requires StepAt(cfg, run, d) && run.labels[d].Segment? && run.labels[d].usb == Dispatches
    requires (stage.Reconfiguring? || stage.Enabling?) && 0 <= stage.target.mode < |run.states[d].choice.submodes|
    requires stage.progress == Running(run.states[d].choice.submodes[stage.target.mode])
    requires |run.states[d].jobs| == 1 && run.states[d].jobs[0] == WithProgress(stage, Entered)
    ensures ReadAt(cfg, run, d, stage)
  {
    assert run.states[d].jobs == [WithProgress(stage, Entered)];
  }

  /** Where an `enable` past its dispatch was one step earlier: there as well, or reading, or falling back. */
  lemma {:induction false} CameFrom(cfg: Config, run: Run, n: nat)
    requires IsRun(cfg, run) && n <= |run.labels|
    requires |run.states[n].jobs| == 1 && PastDispatch(run.states[n].jobs[0])
    ensures n > 0
    ensures var stage, jobs := run.states[n].jobs[0], run.states[n - 1].jobs;
            || jobs == [stage]
            || ReadAt(cfg, run, n - 1, stage)
            || (stage.progress == FellBack && jobs == [WithProgress(stage, Running(CLIENT))])
  {
    assert n > 0;
    var s, l, stage := run.states[n - 1], run.labels[n - 1], run.states[n].jobs[0];
    assert StepAt(cfg, run, n - 1);
    RunKeeps(cfg, run, n - 1);
    StepBack(cfg, s, l);
    if s.jobs[0] != stage && l.usb == Dispatches {
      ReadsHere(cfg, run, n - 1, stage);
    }
  }

  lemma {:induction false} DispatchedBefore(cfg: Config, run: Run, n: nat) returns (d: nat)
    requires IsRun(cfg, run) && n <= |run.labels|
    requires |run.states[n].jobs| == 1 && PastDispatch(run.states[n].jobs[0])
    ensures d < n && ReadAt(cfg, run, d, run.states[n].jobs[0])
  {
    CameFrom(cfg, run, n);
    var stage, jobs := run.states[n].jobs[0], run.states[n - 1].jobs;
    if ReadAt(cfg, run, n - 1, stage) {
      d := n - 1;
    } else {
      d := DispatchedBefore(cfg, run, n - 1);
      if jobs != [stage] {
        FellBackReadAt(cfg, run, d, stage);
      }
    }
  }

  /**
   * A commit records the snapshot, but the gadget runs on what `enable` read later. The two agree
   * exactly when the submode selected at the moment of reading was still the snapshot's, or when
   * client mode was given up and the snapshot was gateway mode. They do agree when nothing was
   * selected anew by then and client mode was not given up.
   */
  lemma {:induction false} CommittedIsEnabledIff(cfg: Config, run: Run, n: nat) returns (d: nat)
    requires IsRun(cfg, run) && n < |run.labels|
    requires run.labels[n].Segment? && run.labels[n].usb == Returns(true)
    requires |run.states[n].jobs| == 1 && (run.states[n].jobs[0].Reconfiguring? || run.states[n].jobs[0].Enabling?)
    ensures var stage := run.states[n].jobs[0];
            && PastDispatch(stage) && run.states[n + 1].lastGood == stage.target
            && d < n && ReadAt(cfg, run, d, stage)
            && var live := run.states[d].choice.submodes[stage.target.mode];
            && (EnabledOn(stage.progress) == stage.target.submode <==>
                  if stage.progress.FellBack? then stage.target.submode == GATEWAY else live == stage.target.submode)
            && (stage.progress.FellBack? ==> live == CLIENT)
            && (!run.states[d].choice.modeChanged ==> live == stage.target.submode)
  {
    assert StepAt(cfg, run, n);
    d := DispatchedBefore(cfg, run, n);
    RunKeeps(cfg, run, d);
    RunKeeps(cfg, run, n);
  }

  /**
   * A tap in the submode selection between the snapshot and the reading: gateway mode is committed
   * although the gadget was enabled in client mode. The pending change brings a further apply.
   */
  lemma {:induction false} TapSlipsIn(s: State)
    requires s.choice == Choice(0, [GATEWAY], false, false, true) && s.modeChanging && !s.shuttingDown
    requires s.lastGood == s.pendingApply == Target(0, GATEWAY) && !s.pendingEnable && s.rebindChan == []
    requires s.jobs == [Enabling(Target(0, GATEWAY), Entered)]
    ensures var cfg := Config([Rndis], 0);
            var now := s.clock;
            var tapped := AfterPass(cfg, s, Pass(OtherWake, now, false, [Tap], []));
            var read := AfterSegment(cfg, tapped, Segment(0, now, Dispatches));
            var done := AfterSegment(cfg, read, Segment(0, now, Returns(true)));
            && Inv(cfg, s)
            && read.jobs == [Enabling(Target(0, GATEWAY), Running(CLIENT))]
            && done.lastGood == Target(0, GATEWAY) && done.choice.modeChanged
  {
    var cfg := Config([Rndis], 0);
    var l := Pass(OtherWake, s.clock, false, [Tap], []);
    assert [Tap][..0] == [];
    assert OnEvents(cfg, s.choice, []) == s.choice;
    assert OnEvents(cfg, s.choice, [Tap]) == Choice(0, [CLIENT], true, true, true);
    assert Woken(s, l) == s;
    assert AfterPass(cfg, s, l) == s.(choice := Choice(0, [CLIENT], true, true, true));
  }
}
