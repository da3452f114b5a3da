/** Three runs in which the gadget in place, the last good one and the one reconfigured part ways. */
module PlacementRuns {
  import opened Text
  import opened GadgetSpec
  import opened GadgetApply
  import opened ApplyTheorems
  import opened PendingRebuild
  import opened GadgetInPlace

  const TWO: Config := Config([Rndis, Adb], 0)
  const RNDIS: Target := Target(0, GATEWAY)
  const ADB: Target := Target(1, 0)

  /** Nothing of RNDIS is in place, RNDIS is, and RNDIS is after ADB was committed over it. */
  const NOTHING: Site := Site(RNDIS, None, None, false)
  const FRESH: Site := Site(RNDIS, Some(0), None, false)
  const STRAY: Site := Site(ADB, Some(0), Some(1), true)

  /** A selection: the current gadget, the submode of RNDIS and the flags. */
  function Chosen(current: int, rndis: int, modeChanged: bool, submodeChanged: bool, selection: bool): Choice {
    Choice(current, [rndis, 0], modeChanged, submodeChanged, selection)
  }

  /** A state at time zero with nothing between the phases. */
  function Working(c: Choice, good: Target, stage: Stage): State {
    State(c, true, good, false, RNDIS, false, 0, [], [stage], 0, false)
  }

  function Resting(c: Choice, good: Target, error: bool): State {
    State(c, false, good, error, RNDIS, false, 0, [], [], 0, false)
  }

  function Press(events: seq<Event>): Label {
    Pass(OtherWake, 0, false, events, [])
  }

  function Go(usb: Usb): Label {
    Segment(0, 0, usb)
  }

  /** A run that ends in `s`, with `site` in place. */
  ghost predicate EndsAt(run: Run, s: State, site: Site) {
    IsRun(TWO, run) && run.states[|run.labels|] == s && SiteAt(TWO, run, |run.labels|) == site
  }

  /** One more step, and what it marks. */
  lemma {:induction false} Then(run: Run, l: Label, s: State, site: Site, s': State, os: seq<Observation>)
    returns (longer: Run)
    requires EndsAt(run, s, site) && Fits(TWO, s) && Enabled(s, l)
    requires After(TWO, s, l) == s' && Shows(TWO, s, l) == os && |os| <= 2
    ensures EndsAt(longer, s', MarkAll(TWO, site, os))
    ensures |os| == 0 ==> EndsAt(longer, s', site)
    ensures |os| == 1 ==> EndsAt(longer, s', Mark(TWO, site, os[0]))
    ensures |os| == 2 ==> EndsAt(longer, s', Mark(TWO, Mark(TWO, site, os[0]), os[1]))
    ensures |longer.labels| == |run.labels| + 1
    ensures longer.labels[|run.labels|] == l && longer.states[|run.labels|] == s
    ensures SiteAt(TWO, longer, |run.labels|) == site
  {
    ExtendRun(TWO, run, l);
    longer := Extended(TWO, run, l);
    MarkConcat(TWO, Site(run.states[0].lastGood, None, None, false), run.shown[|run.labels|], os);
    MarkFew(TWO, site, os);
  }

  lemma {:induction false} OneMoreEvent(c: Choice, events: seq<Event>, e: Event)
    requires ChoiceFits(TWO, c)
    ensures OnEvents(TWO, c, events + [e]) == OnEvent(TWO, OnEvents(TWO, c, events), e)
  {
    assert (events + [e])[..|events|] == events;
  }

  /** What a press does to a waiting daemon: the change is marked and an apply is spawned. */
  lemma {:induction false} PressSpawns(c: Choice, good: Target, error: bool, events: seq<Event>, c': Choice)
    requires Fits(TWO, Resting(c, good, error)) && OnEvents(TWO, c, events) == c' && c'.modeChanged
    ensures var s, l := Resting(c, good, error), Press(events);
            && Enabled(s, l) && Shows(TWO, s, l) == [Requested]
            && After(TWO, s, l) == Working(c'.(modeChanged := false), good, Spawned).(applyError := error)
  {
    assert OnRequests(TWO, c', []) == c';
    assert Woken(Resting(c, good, error), Press(events)) == Resting(c, good, error);
  }

  /** The start-up apply is rebuilding RNDIS. */
  lemma {:induction false} AtStart() returns (run: Run)
    ensures EndsAt(run, Working(Chosen(0, 0, false, false, false), RNDIS, Rebuilding(RNDIS)), NOTHING)
  {
    var s := Working(Chosen(0, 0, false, false, false), RNDIS, Rebuilding(RNDIS));
    run := Run([s], [], [[Requested, Began(RNDIS, false)]]);
    assert Initial(TWO, s);
    MarkFew(TWO, NOTHING, run.shown[0]);
  }

  lemma {:induction false} CollapsingTaps()
    ensures OnEvents(TWO, Chosen(0, 0, false, false, false), [Tap, LongTap, Tap]) == Chosen(1, 0, true, true, true)
  {
    var c := Chosen(0, 0, false, false, false);
    assert OnEvents(TWO, c, []) == c;
    OneMoreEvent(c, [], Tap);
    OneMoreEvent(c, [Tap], LongTap);
    OneMoreEvent(c, [Tap, LongTap], Tap);
    assert [] + [Tap] == [Tap] && [Tap] + [LongTap] == [Tap, LongTap] && [Tap, LongTap] + [Tap] == [Tap, LongTap, Tap];
  }

  /** A tap, a long tap and a tap while the start-up apply is rebuilding RNDIS; it succeeds. */
  lemma {:induction false} BuiltAmidTaps() returns (run: Run)
    ensures EndsAt(run, Working(Chosen(1, 0, true, true, true), RNDIS, Sending(RNDIS, 0)), FRESH)
  {
    run := AtStart();
    var c0, c1 := Chosen(0, 0, false, false, false), Chosen(1, 0, true, true, true);
    var s0, s1 := Working(c0, RNDIS, Rebuilding(RNDIS)), Working(c1, RNDIS, Rebuilding(RNDIS));
    CollapsingTaps();
    assert OnRequests(TWO, c1, []) == c1;
    assert Woken(s0, Press([Tap, LongTap, Tap])) == s0;
    run := Then(run, Press([Tap, LongTap, Tap]), s0, NOTHING, s1, []);
    run := Then(run, Go(Returns(true)), s1, NOTHING, Working(c1, RNDIS, Sending(RNDIS, 0)), [Built(RNDIS, 0)]);
  }

  /** Its message is received and phase two begins. */
  lemma {:induction false} BoundAmidTaps() returns (run: Run)
    ensures EndsAt(run, Working(Chosen(1, 0, true, true, true), RNDIS, FinishSpawned), FRESH)
  {
    run := BuiltAmidTaps();
    var c := Chosen(1, 0, true, true, true);
    var sent := Resting(c, RNDIS, false).(modeChanging := true, rebindChan := [0]);
    var bound := Working(c, RNDIS, FinishSpawned);
    run := Then(run, Go(Returns(true)), Working(c, RNDIS, Sending(RNDIS, 0)), FRESH, sent, []);
    var l := Pass(Rebind, 0, false, [], []);
    assert OnEvents(TWO, c, []) == c && OnRequests(TWO, c, []) == c;
    assert Woken(sent, l) == bound;
    run := Then(run, l, sent, FRESH, bound, [PhaseTwo(0)]);
  }

  /** Phase two commits RNDIS; the change that was marked meanwhile is still pending. */
  lemma {:induction false} CommittedAmidTaps() returns (run: Run)
    ensures EndsAt(run, Resting(Chosen(1, 0, true, true, true), RNDIS, false), FRESH)
  {
    run := BoundAmidTaps();
    var c := Chosen(1, 0, true, true, true);
    var entered, read := Working(c, RNDIS, Enabling(RNDIS, Entered)), Working(c, RNDIS, Enabling(RNDIS, Running(0)));
    run := Then(run, Go(Returns(true)), Working(c, RNDIS, FinishSpawned), FRESH, entered, []);
    run := Then(run, Go(Dispatches), entered, FRESH, read, [Dispatched(0)]);
    run := Then(run, Go(Returns(true)), read, FRESH, Resting(c, RNDIS, false), [Committed(RNDIS)]);
  }

  /** It begins as a reconfiguration of ADB. */
  lemma {:induction false} Collapsed() returns (run: Run)
    ensures EndsAt(run, Working(Chosen(1, 0, false, false, true), RNDIS, Reconfiguring(ADB, Entered)),
                   FRESH.(submodeOnly := true))
  {
    run := CommittedAmidTaps();
    var c0, c1, c2 := Chosen(1, 0, true, true, true), Chosen(1, 0, false, true, true), Chosen(1, 0, false, false, true);
    var spawned, entered := Working(c1, RNDIS, Spawned), Working(c2, RNDIS, Reconfiguring(ADB, Entered));
    assert OnEvents(TWO, c0, []) == c0;
    PressSpawns(c0, RNDIS, false, [], c0);
    run := Then(run, Press([]), Resting(c0, RNDIS, false), FRESH, spawned, [Requested]);
    run := Then(run, Go(Returns(true)), spawned, FRESH, entered, [Began(ADB, true)]);
  }

  /** That does nothing and is committed: RNDIS is still in place. */
  lemma {:induction false} Strayed() returns (run: Run)
    ensures EndsAt(run, Resting(Chosen(1, 0, false, false, true), ADB, false), STRAY)
  {
    run := Collapsed();
    var c, quick := Chosen(1, 0, false, false, true), FRESH.(submodeOnly := true);
    var read := Working(c, RNDIS, Reconfiguring(ADB, Running(0)));
    run := Then(run, Go(Dispatches), Working(c, RNDIS, Reconfiguring(ADB, Entered)), quick, read, [Dispatched(0)]);
    run := Then(run, Go(Returns(true)), read, quick, Resting(c, ADB, false), [Committed(ADB)]);
  }

  /** The last step of a run begins an apply as a reconfiguration of `t`, with `site` in place. */
  ghost predicate BeginsLast(run: Run, t: Target, site: Site) {
    && IsRun(TWO, run) && |run.labels| > 0
    && var n := |run.labels| - 1;
    && Begins(run.states[n], run.labels[n]) && StepAt(TWO, run, n)
    && Shows(TWO, run.states[n], run.labels[n]) == [Began(t, true)]
    && SiteAt(TWO, run, n) == site && run.states[n].lastGood == site.lastGood
  }

  lemma {:induction false} BeginNow(run: Run, c: Choice, good: Target, error: bool, site: Site) returns (longer: Run)
    requires ChoiceFits(TWO, c) && c.submodeChanged && site.lastGood == good
    requires EndsAt(run, Working(c, good, Spawned).(applyError := error), site)
    requires Fits(TWO, Working(c, good, Spawned))
    ensures BeginsLast(longer, Selected(TWO, c), site)
  {
    var s := Working(c, good, Spawned).(applyError := error);
    var t := Selected(TWO, c);
    longer := Then(run, Go(Returns(true)), s, site,
                   s.(choice := c.(submodeChanged := false), jobs := [Reconfiguring(t, Entered)]), [Began(t, true)]);
    assert StepAt(TWO, longer, |run.labels|);
  }

  /** One more tap in the selection: ADB is reconfigured, the last good gadget, and it was never built. */
  lemma {:induction false} ReconfiguresTheAbsent() returns (run: Run)
    ensures BeginsLast(run, ADB, STRAY) && STRAY.built == Some(0) && STRAY.lastGood.mode == ADB.mode != 0
  {
    run := Strayed();
    var c, c' := Chosen(1, 0, false, false, true), Chosen(1, 0, true, true, true);
    assert OnEvents(TWO, c, []) == c;
    OneMoreEvent(c, [], Tap);
    assert [] + [Tap] == [Tap];
    PressSpawns(c, ADB, false, [Tap], c');
    var spawned := Working(Chosen(1, 0, false, true, true), ADB, Spawned);
    run := Then(run, Press([Tap]), Resting(c, ADB, false), STRAY, spawned, [Requested]);
    run := BeginNow(run, Chosen(1, 0, false, true, true), ADB, false, STRAY);
  }

  /**
   * Back to RNDIS and its other submode: another gadget than the last good one is reconfigured, and
   * it is the one in place.
   */
  lemma {:induction false} ReconfiguresThePresent() returns (run: Run)
    ensures BeginsLast(run, Target(0, CLIENT), STRAY) && STRAY.built == Some(0) && STRAY.lastGood.mode != 0
  {
    run := Strayed();
    var c, c' := Chosen(1, 0, false, false, true), Chosen(0, CLIENT, true, true, true);
    ReturningTaps();
    PressSpawns(c, ADB, false, [LongTap, Tap, LongTap, Tap], c');
    var spawned := Working(Chosen(0, CLIENT, false, true, true), ADB, Spawned);
    run := Then(run, Press([LongTap, Tap, LongTap, Tap]), Resting(c, ADB, false), STRAY, spawned, [Requested]);
    run := BeginNow(run, Chosen(0, CLIENT, false, true, true), ADB, false, STRAY);
  }

  lemma {:induction false} ReturningTaps()
    ensures OnEvents(TWO, Chosen(1, 0, false, false, true), [LongTap, Tap, LongTap, Tap]) ==
            Chosen(0, CLIENT, true, true, true)
  {
    var c := Chosen(1, 0, false, false, true);
    assert OnEvents(TWO, c, []) == c;
    OneMoreEvent(c, [], LongTap);
    OneMoreEvent(c, [LongTap], Tap);
    OneMoreEvent(c, [LongTap, Tap], LongTap);
    OneMoreEvent(c, [LongTap, Tap, LongTap], Tap);
    assert [] + [LongTap] == [LongTap] && [LongTap] + [Tap] == [LongTap, Tap];
    assert [LongTap, Tap] + [LongTap] == [LongTap, Tap, LongTap];
    assert [LongTap, Tap, LongTap] + [Tap] == [LongTap, Tap, LongTap, Tap];
  }

  /** The start-up rebuild fails, and there is nothing to roll back to. */
  lemma {:induction false} StartFails() returns (run: Run)
    ensures EndsAt(run, Resting(Chosen(0, 0, false, false, false), RNDIS, true), NOTHING)
  {
    run := AtStart();
    var c := Chosen(0, 0, false, false, false);
    run := Then(run, Go(Returns(false)), Working(c, RNDIS, Rebuilding(RNDIS)), NOTHING, Resting(c, RNDIS, true),
                [Failed(RNDIS), Released(false)]);
  }

  lemma {:induction false} SubmodeTap()
    ensures OnEvents(TWO, Chosen(0, 0, false, false, false), [LongTap, Tap]) == Chosen(0, CLIENT, true, true, true)
  {
    var c := Chosen(0, 0, false, false, false);
    assert OnEvents(TWO, c, []) == c;
    OneMoreEvent(c, [], LongTap);
    OneMoreEvent(c, [LongTap], Tap);
    assert [] + [LongTap] == [LongTap] && [LongTap] + [Tap] == [LongTap, Tap];
  }

  /** The next submode tap then reconfigures a gadget that is not there. */
  lemma {:induction false} ReconfiguresNothing() returns (run: Run)
    ensures BeginsLast(run, Target(0, CLIENT), NOTHING) && NOTHING.built == None && NOTHING.lastGood.mode == 0
  {
    run := StartFails();
    var c, c' := Chosen(0, 0, false, false, false), Chosen(0, CLIENT, true, true, true);
    SubmodeTap();
    PressSpawns(c, RNDIS, true, [LongTap, Tap], c');
    var spawned := Working(Chosen(0, CLIENT, false, true, true), RNDIS, Spawned).(applyError := true);
    run := Then(run, Press([LongTap, Tap]), Resting(c, RNDIS, true), NOTHING, spawned, [Requested]);
    run := BeginNow(run, Chosen(0, CLIENT, false, true, true), RNDIS, true, NOTHING);
  }
}
