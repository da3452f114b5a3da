/** Two places where the daemon keeps less than its design suggests, with the exact condition. */
module ApplyEdges {
  import opened Text
  import opened GadgetSpec
  import opened GadgetApply
  import opened ApplyInvariants

  // ----- the window between spawning the start-up apply and its first segment -----

  /** The start-up goroutine has been spawned but has not run: it does not hold the lock yet. */
  predicate Launching(cfg: Config, s: State) {
    && Fits(cfg, s)
    && s.jobs == [Spawned] && s.rebindChan == [] && !s.pendingEnable
    && !s.modeChanging && !s.choice.modeChanged && !s.shuttingDown
  }

  ghost predicate PassAt(cfg: Config, run: Run, i: nat) {
    StepAt(cfg, run, i) && run.labels[i].Pass? && !run.labels[i].held
  }

  /** Passes of the main loop that run inside the window. */
  ghost predicate IsLaunch(cfg: Config, run: Run) {
    && |run.states| == |run.shown| == |run.labels| + 1
    && Launching(cfg, run.states[0])
    && forall i: nat :: i < |run.labels| ==> PassAt(cfg, run, i)
  }

  /** Whether the events and requests of a pass select anything anew. */
  predicate Selects(cfg: Config, s: State, l: Label)
    requires Fits(cfg, s) && l.Pass?
  {
    OnRequests(cfg, OnEvents(cfg, s.choice, l.events), l.requests).modeChanged
  }

  ghost predicate SelectsAt(cfg: Config, run: Run, i: nat) {
    PassAt(cfg, run, i) && Selects(cfg, run.states[i], run.labels[i])
  }

  lemma {:induction false} LaunchPass(cfg: Config, s: State, l: Label)
    requires Launching(cfg, s) && l.Pass? && !l.held && Enabled(s, l)
    ensures Selects(cfg, s, l) ==> Owners(AfterPass(cfg, s, l)) == 2
    ensures !Selects(cfg, s, l) ==> Launching(cfg, AfterPass(cfg, s, l))
  {
  }

  lemma {:induction false} LaunchLasts(cfg: Config, run: Run, n: nat)
    requires IsLaunch(cfg, run) && n <= |run.labels|
    requires forall i: nat :: i < n ==> !SelectsAt(cfg, run, i)
    ensures Launching(cfg, run.states[n]) && Owners(run.states[n]) == 1
  {
    if n > 0 {
      LaunchLasts(cfg, run, n - 1);
      assert PassAt(cfg, run, n - 1) && !SelectsAt(cfg, run, n - 1);
      LaunchPass(cfg, run.states[n - 1], run.labels[n - 1]);
    }
  }

  lemma {:induction false} LaunchClash(cfg: Config, run: Run, n: nat) returns (k: nat)
    requires IsLaunch(cfg, run) && n < |run.labels| && SelectsAt(cfg, run, n)
    ensures k <= n && Owners(run.states[k + 1]) == 2
  {
    if i: nat :| i < n && SelectsAt(cfg, run, i) {
      k := LaunchClash(cfg, run, i);
    } else {
      LaunchLasts(cfg, run, n);
      LaunchPass(cfg, run.states[n], run.labels[n]);
      k := n;
    }
  }

  /**
   * Inside the window the gadget keeps a single owner exactly as long as no pass selects anything;
   * one that does spawns a second apply next to the start-up one.
   */
  lemma {:induction false} LaunchSingleIff(cfg: Config, run: Run)
    requires IsLaunch(cfg, run)
    ensures (forall i: nat :: i < |run.states| ==> Owners(run.states[i]) <= 1)
       <==> (forall i: nat :: i < |run.labels| ==> !SelectsAt(cfg, run, i))
  {
    if i: nat :| i < |run.labels| && SelectsAt(cfg, run, i) {
      var k := LaunchClash(cfg, run, i);
    } else {
      forall i: nat | i < |run.states| ensures Owners(run.states[i]) <= 1 {
        LaunchLasts(cfg, run, i);
      }
    }
  }

  /** A tap inside the window: two goroutines work on the gadget at once. */
  lemma {:induction false} TapDoubles(cfg: Config, s: State)
    requires Launching(cfg, s) && !s.choice.selection
    ensures var l := Pass(OtherWake, s.clock, false, [Tap], []);
            Selects(cfg, s, l) && AfterPass(cfg, s, l).jobs == [Spawned, Spawned]
  {
    assert [Tap][..0] == [];
    assert OnEvents(cfg, s.choice, []) == s.choice;
    assert OnEvents(cfg, s.choice, [Tap]).modeChanged;
  }

  /** Once the start-up goroutine takes its snapshot in a quiet window, the invariant of all runs holds. */
  lemma {:induction false} LaunchEntersInv(cfg: Config, s: State, now: int, ok: bool)
    requires Launching(cfg, s) && s.clock <= now
    ensures Inv(cfg, AfterSegment(cfg, s, Segment(0, now, Returns(ok))))
  {
  }

  // ----- sending a queried gadget back -----

  /**
   * Requesting the very text that a query answers changes nothing exactly when the current gadget
   * is the first of its name; a later entry of the same name makes the daemon jump to the first.
   */
  lemma {:induction false} EchoIsNoOpIff(cfg: Config, c: Choice)
    requires ChoiceFits(cfg, c)
    ensures var answer := OnRequest(cfg, c, "").1.gadget;
            && OnRequest(cfg, c, "").0 == c
            && (OnRequest(cfg, c, answer).0 == c <==> FirstNamed(cfg.modes, cfg.modes[c.current].Name()) == c.current)
  {
    var gadget, submode := cfg.modes[c.current], c.submodes[c.current];
    assert TrimSpace("") == "";
    assert OnRequest(cfg, c, "").1 == Answer(Print(gadget, submode));
    ParsePrint(gadget, submode);
    var index := FirstNamed(cfg.modes, gadget.Name());
    assert index <= c.current;
    assert cfg.modes[index] == gadget;
  }

  /** A gadget listed twice, the second one current: the echoed request moves to the first. */
  lemma {:induction false} EchoJumps(gadget: Gadget)
    ensures var cfg := Config([gadget, gadget], 0);
            var c := Choice(1, [0, 0], false, false, false);
            ChoiceFits(cfg, c) && OnRequest(cfg, c, OnRequest(cfg, c, "").1.gadget).0.current == 0
  {
    var cfg, c := Config([gadget, gadget], 0), Choice(1, [0, 0], false, false, false);
    assert TrimSpace("") == "";
    ParsePrint(gadget, 0);
    assert FirstNamed(cfg.modes, gadget.Name()) == 0;
  }
}
