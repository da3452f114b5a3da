/**
 * Which gadget is in place on the bus, and when a submode-only apply reconfigures that one. A
 * collapsed apply is committed without being built, so the last good gadget need not be in place.
 */
module GadgetInPlace {
  import opened Text
  import opened GadgetApply
  import opened ApplyInvariants
  import opened ApplyTheorems
  import opened PendingRebuild

  /**
   * What the trace tells: the last good configuration, the gadget in place if any, the gadget of the
   * last submode-only commit since that one was built, and the kind of apply at work.
   */
  datatype Site = Site(lastGood: Target, built: Option<int>, committed: Option<int>, submodeOnly: bool)

  /** A rebuild tears down what was there, an apply's or a rollback's; only its success puts a gadget in place. */
  function Mark(cfg: Config, site: Site, o: Observation): Site {
    match o
    case Began(_, submodeOnly) =>
      if submodeOnly then site.(submodeOnly := true) else site.(built := None, committed := None, submodeOnly := false)
    case Built(t, _) => site.(built := Some(t.mode), committed := None)
    case Failed(t) =>
      if !site.submodeOnly && ShouldRollback(cfg, t, site.lastGood) then site.(built := None, committed := None)
      else site
    case Rebuilt(_) => site.(built := Some(site.lastGood.mode), committed := None)
    case Committed(t) => site.(lastGood := t, committed := if site.submodeOnly then Some(t.mode) else site.committed)
    case _ => site
  }

  function MarkAll(cfg: Config, site: Site, os: seq<Observation>): Site {
    if os == [] then site else Mark(cfg, MarkAll(cfg, site, os[..|os| - 1]), os[|os| - 1])
  }

  lemma {:induction false} MarkConcat(cfg: Config, site: Site, xs: seq<Observation>, ys: seq<Observation>)
    ensures MarkAll(cfg, site, xs + ys) == MarkAll(cfg, MarkAll(cfg, site, xs), ys)
  {
    if ys == [] {
      assert xs + ys == xs;
    } else {
      assert (xs + ys)[..|xs + ys| - 1] == xs + ys[..|ys| - 1];
      MarkConcat(cfg, site, xs, ys[..|ys| - 1]);
    }
  }

  lemma {:induction false} MarkFew(cfg: Config, site: Site, os: seq<Observation>)
    requires |os| <= 2
    ensures MarkAll(cfg, site, os) ==
              if |os| == 0 then site
              else if |os| == 1 then Mark(cfg, site, os[0])
              else Mark(cfg, Mark(cfg, site, os[0]), os[1])
  {
    if |os| == 2 {
      MarkFew(cfg, site, os[..1]);
    } else if |os| == 1 {
      assert os[..0] == [];
    }
  }

  /** What the first `n` steps of a run have put in place. */
  ghost function SiteAt(cfg: Config, run: Run, n: nat): Site
    requires IsRun(cfg, run) && n <= |run.labels|
  {
    MarkAll(cfg, Site(run.states[0].lastGood, None, None, false), run.shown[n])
  }

  // ----- the invariant -----

  /** The last good gadget is the one of the last submode-only commit on this site, or else the one built. */
  predicate Settled(site: Site) {
    site.built.Some? ==> site.lastGood.mode == if site.committed.Some? then site.committed.value else site.built.value
  }

  /** The target of a full apply is in place once it is built. */
  predicate Standing(site: Site, t: Target) {
    site.built == Some(t.mode) && site.committed == None && !site.submodeOnly
  }

  ghost predicate Placed(cfg: Config, s: State, site: Site) {
    && site.lastGood == s.lastGood
    && match PhaseOf(cfg, s)
       case Started(_, submodeOnly) =>
         Settled(site) && site.submodeOnly == submodeOnly && (submodeOnly || site.built == None)
       case Settling(t, _) => Standing(site, t)
       case Binding(t) => Standing(site, t)
       case InForce(t, _, submodeOnly) => if submodeOnly then Settled(site) && site.submodeOnly else Standing(site, t)
       case _ => Settled(site)
  }

  lemma {:induction false} PassMarksNothing(cfg: Config, s: State, l: Label, site: Site)
    requires Fits(cfg, s) && l.Pass? && Enabled(s, l)
    ensures MarkAll(cfg, site, PassShows(cfg, s, l)) == site
  {
    MarkFew(cfg, site, PassShows(cfg, s, l));
  }

  lemma {:induction false} PassPlaces(cfg: Config, s: State, l: Label, site: Site)
    requires Inv(cfg, s) && l.Pass? && Enabled(s, l) && Placed(cfg, s, site)
    ensures Placed(cfg, AfterPass(cfg, s, l), site)
  {
    WakePlaces(cfg, s, l, site);
    WakeKeeps(cfg, s, l);
    if l.held {
      HeldKeeps(cfg, Woken(s, l));
    } else {
      AbsorbKeeps(cfg, Woken(s, l), l);
      StartPlaces(cfg, Absorbed(cfg, Woken(s, l), l), site);
    }
  }

  lemma {:induction false} WakePlaces(cfg: Config, s: State, l: Label, site: Site)
    requires Inv(cfg, s) && l.Pass? && Enabled(s, l) && Placed(cfg, s, site)
    ensures Placed(cfg, Woken(s, l), site)
  {
  }

  lemma {:induction false} StartPlaces(cfg: Config, s: State, site: Site)
    requires Inv(cfg, s) && Placed(cfg, s, site)
    ensures Placed(cfg, StartApply(s), site)
  {
  }

  lemma {:induction false} FailPlaces(cfg: Config, s: State, t: Target, submodeOnly: bool, site: Site)
    requires Inv(cfg, s) && |s.jobs| == 1 && CanFail(PhaseOf(cfg, s), t, submodeOnly) && 0 <= t.mode < |cfg.modes|
    requires Placed(cfg, s, site)
    ensures Placed(cfg, Fail(cfg, s, 0, t, submodeOnly), MarkAll(cfg, site, FailShows(cfg, s, t)))
  {
    MarkFew(cfg, site, FailShows(cfg, s, t));
  }

  lemma {:induction false} EnablePlaces(cfg: Config, s: State, t: Target, ok: bool, submodeOnly: bool, site: Site)
    requires Inv(cfg, s) && |s.jobs| == 1 && CanFail(PhaseOf(cfg, s), t, submodeOnly) && 0 <= t.mode < |cfg.modes|
    requires ok ==> PhaseOf(cfg, s).InForce?
    requires Placed(cfg, s, site)
    ensures Placed(cfg, AfterEnable(cfg, s, 0, t, ok, submodeOnly),
                   MarkAll(cfg, site, if ok then [Committed(t)] else FailShows(cfg, s, t)))
  {
    MarkFew(cfg, site, [Committed(t)]);
    if !ok {
      FailPlaces(cfg, s, t, submodeOnly, site);
    }
  }

  lemma {:induction false} RebuildPlaces(cfg: Config, s: State, t: Target, ok: bool, site: Site)
    requires Inv(cfg, s) && s.jobs == [Rebuilding(t)] && Placed(cfg, s, site)
    ensures Placed(cfg, AfterRebuild(cfg, s, 0, t, ok),
                   MarkAll(cfg, site, if ok then [Built(t, s.clock)] else FailShows(cfg, s, t)))
  {
    assert StageFits(cfg, s.jobs[0]);
    MarkFew(cfg, site, [Built(t, s.clock)]);
    if !ok {
      FailPlaces(cfg, s, t, false, site);
    }
  }

  lemma {:induction false} UndoPlaces(cfg: Config, s: State, ok: bool, site: Site)
    requires Inv(cfg, s) && |s.jobs| == 1 && Placed(cfg, s, site)
    requires s.jobs[0].UndoRebuilding? || s.jobs[0].UndoEnabling? || s.jobs[0].UndoReconfiguring?
    ensures Placed(cfg, AfterReturn(cfg, s, 0, ok), MarkAll(cfg, site, ReturnShows(cfg, s, 0, s.clock, ok)))
  {
    MarkFew(cfg, site, ReturnShows(cfg, s, 0, s.clock, ok));
  }

  lemma {:induction false} OtherReturnPlaces(cfg: Config, s: State, ok: bool, site: Site)
    requires Inv(cfg, s) && |s.jobs| == 1 && Placed(cfg, s, site)
    requires s.jobs[0].Spawned? || s.jobs[0].Sending? || s.jobs[0].FinishSpawned?
    ensures Placed(cfg, AfterReturn(cfg, s, 0, ok), MarkAll(cfg, site, ReturnShows(cfg, s, 0, s.clock, ok)))
  {
    MarkFew(cfg, site, ReturnShows(cfg, s, 0, s.clock, ok));
    assert Without(s.jobs, 0) == [];
  }

  lemma {:induction false} ReturnPlaces(cfg: Config, s: State, ok: bool, site: Site)
    requires Inv(cfg, s) && |s.jobs| == 1 && MayDo(s.jobs[0], Returns(ok)) && Placed(cfg, s, site)
    ensures Placed(cfg, AfterReturn(cfg, s, 0, ok), MarkAll(cfg, site, ReturnShows(cfg, s, 0, s.clock, ok)))
  {
    assert StageFits(cfg, s.jobs[0]);
    match s.jobs[0] {
      case Reconfiguring(t, _) => EnablePlaces(cfg, s, t, ok, true, site);
      case Rebuilding(t) => RebuildPlaces(cfg, s, t, ok, site);
      case Enabling(t, _) => EnablePlaces(cfg, s, t, ok, false, site);
      case UndoRebuilding(_) => UndoPlaces(cfg, s, ok, site);
      case UndoEnabling(_, _, _) => UndoPlaces(cfg, s, ok, site);
      case UndoReconfiguring(_, _) => UndoPlaces(cfg, s, ok, site);
      case _ => OtherReturnPlaces(cfg, s, ok, site);
    }
  }

  lemma {:induction false} ProgressPlaces(cfg: Config, s: State, site: Site)
    requires Inv(cfg, s) && |s.jobs| == 1 && InEnable(s.jobs[0]) && Placed(cfg, s, site)
    ensures Placed(cfg, Dispatch(cfg, s, 0), site)
    ensures s.jobs[0].progress != Entered ==> Placed(cfg, FallBack(cfg, s, 0), site)
  {
  }

  lemma {:induction false} SegmentPlaces(cfg: Config, before: State, l: Label, site: Site)
    requires Inv(cfg, before) && l.Segment? && Enabled(before, l) && Placed(cfg, before, site)
    ensures Placed(cfg, AfterSegment(cfg, before, l), MarkAll(cfg, site, SegmentShows(cfg, before, l)))
  {
    var s := before.(clock := l.now);
    TickKeeps(cfg, before, l.now);
    match l.usb {
      case Returns(ok) => ReturnPlaces(cfg, s, ok, site);
      case _ =>
        ProgressPlaces(cfg, s, site);
        MarkFew(cfg, site, SegmentShows(cfg, before, l));
    }
  }

  lemma {:induction false} RunPlaces(cfg: Config, run: Run, n: nat)
    requires IsRun(cfg, run) && n <= |run.labels|
    ensures Placed(cfg, run.states[n], SiteAt(cfg, run, n))
  {
    if n == 0 {
      MarkFew(cfg, Site(run.states[0].lastGood, None, None, false), run.shown[0]);
    } else {
      RunPlaces(cfg, run, n - 1);
      RunKeeps(cfg, run, n - 1);
      assert StepAt(cfg, run, n - 1);
      var s, l, site := run.states[n - 1], run.labels[n - 1], SiteAt(cfg, run, n - 1);
      MarkConcat(cfg, Site(run.states[0].lastGood, None, None, false), run.shown[n - 1], Shows(cfg, s, l));
      if l.Pass? {
        PassMarksNothing(cfg, s, l, site);
        PassPlaces(cfg, s, l, site);
      } else {
        SegmentPlaces(cfg, s, l, site);
      }
    }
  }

  // ----- at rest, and at the beginning of an apply -----

  /** No apply is at work: none at all, or one that has not begun. */
  predicate AtRest(s: State) {
    Owners(s) == 0 || s.jobs == [Spawned]
  }

  /** No submode-only commit since the gadget in place was built, or the last one was its own. */
  predicate Faithful(site: Site) {
    site.committed.None? || site.committed == site.built
  }

  /**
   * At rest the gadget in place is the last good one exactly when there is one, that is, the last
   * rebuild did not fail, and the last submode-only commit since it was built, if any, was its own.
   */
  lemma {:induction false} LastGoodInPlaceIff(cfg: Config, run: Run, n: nat)
    requires IsRun(cfg, run) && n <= |run.labels| && AtRest(run.states[n])
    ensures var s, site := run.states[n], SiteAt(cfg, run, n);
            site.built == Some(s.lastGood.mode) <==> site.built.Some? && Faithful(site)
  {
    RunKeeps(cfg, run, n);
    RunPlaces(cfg, run, n);
  }

  /**
   * A submode-only apply reconfigures the gadget in place exactly when there is one, and: while the
   * site is faithful, no collapse is in effect; after a collapsed commit, a collapse is in effect
   * that has gone back to the gadget built.
   */
  lemma {:induction false} ReconfiguresInPlaceIff(cfg: Config, run: Run, n: nat)
    requires IsRun(cfg, run) && n < |run.labels| && Begins(run.states[n], run.labels[n])
    requires run.states[n].choice.submodeChanged
    ensures var s, l, site := run.states[n], run.labels[n], SiteAt(cfg, run, n);
            && StepAt(cfg, run, n)
            && Shows(cfg, s, l) == [Began(Selected(cfg, s.choice), true)]
            && (site.built == Some(s.choice.current) <==>
                  && site.built.Some?
                  && if Faithful(site) then !CollapsedBefore(cfg, run, n)
                     else CollapsedBefore(cfg, run, n) && s.choice.current == site.built.value)
  {
    assert StepAt(cfg, run, n);
    RunKeeps(cfg, run, n);
    CollapsedIff(cfg, run, n);
    LastGoodInPlaceIff(cfg, run, n);
  }
}
