/**
 * When a rebuild that is still pending is applied as a reconfiguration only: a change of gadget,
 * followed by a change of submode before the apply begins.
 */
module PendingRebuild {
  import opened Text
  import opened GadgetSpec
  import opened GadgetApply
  import opened ApplyInvariants
  import opened ApplyTheorems

  // ----- one input -----

  /** What a pass takes in: button events and then IPC requests. */
  datatype Input = Button(event: Event) | Ask(raw: string)

  function OnInput(cfg: Config, c: Choice, i: Input): (r: Choice)
    requires ChoiceFits(cfg, c)
    ensures ChoiceFits(cfg, r)
  {
    match i
    case Button(e) => OnEvent(cfg, c, e)
    case Ask(raw) => OnRequest(cfg, c, raw).0
  }

  /** The gadget and submode that a request names, if there is such a gadget and it supports the submode. */
  function Named(cfg: Config, raw: string): Option<Target> {
    var text := TrimSpace(raw);
    if text == "" || Parse(text).None? then None
    else
      var spec := Parse(text).value;
      var index := FirstNamed(cfg.modes, spec.name);
      if index < |cfg.modes| && spec.submode <= cfg.modes[index].MaxSubmode() then Some(Target(index, spec.submode))
      else None
  }

  /** A tap in the submode selection, or a request for another submode of the current gadget. */
  predicate Reconfigures(cfg: Config, c: Choice, i: Input)
    requires ChoiceFits(cfg, c)
  {
    match i
    case Button(e) => e == Tap && c.selection
    case Ask(raw) =>
      Named(cfg, raw).Some? && Named(cfg, raw).value.mode == c.current && Named(cfg, raw).value != Selected(cfg, c)
  }

  /** A tap outside the selection, a multiple tap, or a request for another gadget. */
  predicate Rebuilds(cfg: Config, c: Choice, i: Input)
    requires ChoiceFits(cfg, c)
  {
    match i
    case Button(e) => (e == Tap && !c.selection) || e == MultipleTap
    case Ask(raw) => Named(cfg, raw).Some? && Named(cfg, raw).value.mode != c.current
  }

  lemma {:induction false} RequestEffect(cfg: Config, c: Choice, raw: string)
    requires ChoiceFits(cfg, c)
    ensures var r := OnRequest(cfg, c, raw).0;
            && (Reconfigures(cfg, c, Ask(raw)) ==> r.current == c.current && r.modeChanged && r.submodeChanged)
            && (Rebuilds(cfg, c, Ask(raw)) ==> r.modeChanged && !r.submodeChanged)
            && (!Reconfigures(cfg, c, Ask(raw)) && !Rebuilds(cfg, c, Ask(raw)) ==> r == c)
  {
  }

  /** The two guards tell exactly what an input does to the gadget and to the kind of apply that is due. */
  lemma {:induction false} InputEffect(cfg: Config, c: Choice, i: Input)
    requires ChoiceFits(cfg, c)
    ensures var r := OnInput(cfg, c, i);
            && (Reconfigures(cfg, c, i) ==> r.current == c.current && r.modeChanged && r.submodeChanged)
            && (Rebuilds(cfg, c, i) ==> r.modeChanged && !r.submodeChanged)
            && (!Reconfigures(cfg, c, i) && !Rebuilds(cfg, c, i) ==>
                  r.current == c.current && r.modeChanged == c.modeChanged && r.submodeChanged == c.submodeChanged)
  {
    if i.Ask? {
      RequestEffect(cfg, c, i.raw);
    }
  }

  /**
   * One input turns a pending rebuild into a reconfiguration exactly when a rebuild is pending and
   * the input is a tap in the submode selection, or a request whose first-named gadget is the
   * current one on another supported submode.
   */
  lemma {:induction false} CollapsesIff(cfg: Config, c: Choice, i: Input)
    requires ChoiceFits(cfg, c)
    ensures var r := OnInput(cfg, c, i);
            (c.modeChanged && !c.submodeChanged && r.modeChanged && r.submodeChanged) <==>
            (c.modeChanged && !c.submodeChanged && Reconfigures(cfg, c, i))
  {
    InputEffect(cfg, c, i);
  }

  // ----- a pass -----

  function Buttons(events: seq<Event>): seq<Input> {
    seq(|events|, i requires 0 <= i < |events| => Button(events[i]))
  }

  function Asks(requests: seq<string>): seq<Input> {
    seq(|requests|, i requires 0 <= i < |requests| => Ask(requests[i]))
  }

  function OnInputs(cfg: Config, c: Choice, inputs: seq<Input>): (r: Choice)
    requires ChoiceFits(cfg, c)
    ensures ChoiceFits(cfg, r)
  {
    if inputs == [] then c else OnInput(cfg, OnInputs(cfg, c, inputs[..|inputs| - 1]), inputs[|inputs| - 1])
  }

  lemma {:induction false} OneMoreInput(cfg: Config, c: Choice, inputs: seq<Input>, i: Input)
    requires ChoiceFits(cfg, c)
    ensures OnInputs(cfg, c, inputs + [i]) == OnInput(cfg, OnInputs(cfg, c, inputs), i)
  {
    assert (inputs + [i])[..|inputs|] == inputs;
  }

  lemma {:induction false} ButtonsAbsorbed(cfg: Config, c: Choice, events: seq<Event>)
    requires ChoiceFits(cfg, c)
    ensures OnInputs(cfg, c, Buttons(events)) == OnEvents(cfg, c, events)
  {
    if events != [] {
      var init, e := events[..|events| - 1], events[|events| - 1];
      ButtonsAbsorbed(cfg, c, init);
      assert Buttons(events) == Buttons(init) + [Button(e)];
      OneMoreInput(cfg, c, Buttons(init), Button(e));
    }
  }

  lemma {:induction false} AsksSnoc(inputs: seq<Input>, requests: seq<string>)
    requires requests != []
    ensures inputs + Asks(requests) == inputs + Asks(requests[..|requests| - 1]) + [Ask(requests[|requests| - 1])]
  {
  }

  lemma {:induction false} AsksAbsorbed(cfg: Config, c: Choice, inputs: seq<Input>, requests: seq<string>)
    requires ChoiceFits(cfg, c)
    ensures OnInputs(cfg, c, inputs + Asks(requests)) == OnRequests(cfg, OnInputs(cfg, c, inputs), requests)
  {
    if requests == [] {
      assert inputs + Asks(requests) == inputs;
    } else {
      var init, raw := requests[..|requests| - 1], requests[|requests| - 1];
      AsksAbsorbed(cfg, c, inputs, init);
      AsksSnoc(inputs, requests);
      OneMoreInput(cfg, c, inputs + Asks(init), Ask(raw));
    }
  }

  lemma {:induction false} InputsAreAbsorbed(cfg: Config, c: Choice, events: seq<Event>, requests: seq<string>)
    requires ChoiceFits(cfg, c)
    ensures OnInputs(cfg, c, Buttons(events) + Asks(requests)) == OnRequests(cfg, OnEvents(cfg, c, events), requests)
  {
    ButtonsAbsorbed(cfg, c, events);
    AsksAbsorbed(cfg, c, Buttons(events), requests);
  }

  /**
   * Whether a collapse is the last thing that mattered, given that the gadget at work is `home`:
   * an input that reconfigures while a rebuild to another gadget is pending collapses it, one that
   * rebuilds undoes that.
   */
  function Track(cfg: Config, home: int, c: Choice, inputs: seq<Input>, collapsed: bool): bool
    requires ChoiceFits(cfg, c)
  {
    if inputs == [] then collapsed
    else
      var init, i := inputs[..|inputs| - 1], inputs[|inputs| - 1];
      var before := OnInputs(cfg, c, init);
      if Rebuilds(cfg, before, i) then false
      else if Reconfigures(cfg, before, i) && before.current != home && !before.submodeChanged then true
      else Track(cfg, home, c, init, collapsed)
  }

  predicate ReconfiguresAway(home: int, c: Choice) {
    c.current != home && c.submodeChanged
  }

  lemma {:induction false} TrackIff(cfg: Config, home: int, c: Choice, inputs: seq<Input>)
    requires ChoiceFits(cfg, c)
    ensures Track(cfg, home, c, inputs, ReconfiguresAway(home, c)) <==> ReconfiguresAway(home, OnInputs(cfg, c, inputs))
  {
    if inputs != [] {
      var init, i := inputs[..|inputs| - 1], inputs[|inputs| - 1];
      TrackIff(cfg, home, c, init);
      InputEffect(cfg, OnInputs(cfg, c, init), i);
    }
  }

  // ----- runs -----

  /** The gadget that will be the last good one if the job at work succeeds; without one, the last good one. */
  function Home(cfg: Config, s: State): int {
    match PhaseOf(cfg, s)
    case Started(t, _) => t.mode
    case Settling(t, _) => t.mode
    case Binding(t) => t.mode
    case InForce(t, _, _) => t.mode
    case _ => s.lastGood.mode
  }

  /** Another gadget than that is selected only while a change is pending or about to begin. */
  lemma {:induction false} AwayIsPending(cfg: Config, s: State)
    requires Inv(cfg, s) && s.choice.current != Home(cfg, s)
    ensures s.choice.modeChanged || s.jobs == [Spawned]
  {
  }

  predicate Begins(s: State, l: Label) {
    l.Segment? && l.job < |s.jobs| && s.jobs[l.job].Spawned?
  }

  /** The stages whose call can fail an apply. */
  predicate Applies(stage: Stage) {
    stage.Reconfiguring? || stage.Rebuilding? || stage.Enabling?
  }

  /** A failed apply that goes back to the last good gadget. */
  predicate TurnsBack(cfg: Config, s: State, l: Label) {
    && l.Segment? && l.job < |s.jobs| && l.usb == Returns(false)
    && Applies(s.jobs[l.job])
    && ShouldRollback(cfg, s.jobs[l.job].target, s.lastGood)
  }

  /** What a step does to a collapse: a rebuild, a rollback or a beginning undoes it. */
  function CollapseStep(cfg: Config, s: State, l: Label, collapsed: bool): bool
    requires Fits(cfg, s)
  {
    if l.Pass? then
      if l.held then collapsed else Track(cfg, Home(cfg, s), s.choice, Buttons(l.events) + Asks(l.requests), collapsed)
    else if Begins(s, l) || TurnsBack(cfg, s, l) then false
    else collapsed
  }

  /** Whether a collapse is in effect after `n` steps. */
  ghost function CollapsedBefore(cfg: Config, run: Run, n: nat): bool
    requires IsRun(cfg, run) && n <= |run.labels|
  {
    if n == 0 then false
    else
      assert StepAt(cfg, run, n - 1);
      CollapseStep(cfg, run.states[n - 1], run.labels[n - 1], CollapsedBefore(cfg, run, n - 1))
  }

  lemma {:induction false} WokenHome(cfg: Config, s: State, l: Label)
    requires Inv(cfg, s) && l.Pass? && Enabled(s, l)
    ensures Home(cfg, Woken(s, l)) == Home(cfg, s) && Woken(s, l).choice == s.choice
  {
  }

  lemma {:induction false} PassTracks(cfg: Config, s: State, l: Label)
    requires Inv(cfg, s) && l.Pass? && Enabled(s, l)
    ensures var r := AfterPass(cfg, s, l);
            && Home(cfg, r) == Home(cfg, s)
            && if l.held then r.choice == s.choice
               else ReconfiguresAway(Home(cfg, s), r.choice) <==>
                      ReconfiguresAway(Home(cfg, s), OnInputs(cfg, s.choice, Buttons(l.events) + Asks(l.requests)))
  {
    WokenHome(cfg, s, l);
    WakeKeeps(cfg, s, l);
    if !l.held {
      InputsAreAbsorbed(cfg, s.choice, l.events, l.requests);
      AbsorbKeeps(cfg, Woken(s, l), l);
      StartHome(cfg, Absorbed(cfg, Woken(s, l), l));
    }
  }

  lemma {:induction false} StartHome(cfg: Config, s: State)
    requires Inv(cfg, s)
    ensures var r := StartApply(s);
            && Home(cfg, r) == Home(cfg, s)
            && r.choice.current == s.choice.current && r.choice.submodeChanged == s.choice.submodeChanged
  {
  }

  /** The gadget selected, the kind of change due and the gadget at work are the same. */
  predicate SameSelection(cfg: Config, s: State, r: State) {
    && Home(cfg, r) == Home(cfg, s)
    && r.choice.current == s.choice.current && r.choice.submodeChanged == s.choice.submodeChanged
  }

  lemma {:induction false} FailTracks(cfg: Config, s: State, t: Target, submodeOnly: bool)
    requires Inv(cfg, s) && |s.jobs| == 1 && CanFail(PhaseOf(cfg, s), t, submodeOnly)
    requires 0 <= t.mode < |cfg.modes|
    ensures var r := Fail(cfg, s, 0, t, submodeOnly);
            if ShouldRollback(cfg, t, s.lastGood) then r.choice.current == Home(cfg, r) else SameSelection(cfg, s, r)
  {
  }

  lemma {:induction false} ReturnTracks(cfg: Config, s: State, ok: bool)
    requires Inv(cfg, s) && |s.jobs| == 1 && !s.jobs[0].Spawned? && MayDo(s.jobs[0], Returns(ok))
    requires !ok ==> !Applies(s.jobs[0])
    ensures SameSelection(cfg, s, AfterReturn(cfg, s, 0, ok))
  {
  }

  lemma {:induction false} EnableTracks(cfg: Config, s: State)
    requires Inv(cfg, s) && |s.jobs| == 1 && InEnable(s.jobs[0])
    ensures SameSelection(cfg, s, Dispatch(cfg, s, 0)) && SameSelection(cfg, s, FallBack(cfg, s, 0))
  {
    assert StageFits(cfg, s.jobs[0]);
  }

  lemma {:induction false} FailedReturnTracks(cfg: Config, s: State)
    requires Inv(cfg, s) && |s.jobs| == 1 && Applies(s.jobs[0])
    ensures var r := AfterReturn(cfg, s, 0, false);
            if ShouldRollback(cfg, s.jobs[0].target, s.lastGood) then r.choice.current == Home(cfg, r)
            else SameSelection(cfg, s, r)
  {
    assert StageFits(cfg, s.jobs[0]);
    FailTracks(cfg, s, s.jobs[0].target, s.jobs[0].Reconfiguring?);
  }

  lemma {:induction false} SegmentTracks(cfg: Config, before: State, l: Label)
    requires Inv(cfg, before) && l.Segment? && Enabled(before, l) && !Begins(before, l)
    ensures var r := AfterSegment(cfg, before, l);
            if TurnsBack(cfg, before, l) then r.choice.current == Home(cfg, r) else SameSelection(cfg, before, r)
  {
    var s := before.(clock := l.now);
    TickKeeps(cfg, before, l.now);
    match l.usb {
      case Dispatches => EnableTracks(cfg, s);
      case FallsBack => EnableTracks(cfg, s);
      case Returns(ok) =>
        if !ok && Applies(s.jobs[0]) {
          FailedReturnTracks(cfg, s);
        } else {
          ReturnTracks(cfg, s, ok);
        }
    }
  }

  lemma {:induction false} StepTracks(cfg: Config, s: State, l: Label)
    requires Inv(cfg, s) && Enabled(s, l)
    ensures var r := After(cfg, s, l);
            CollapseStep(cfg, s, l, ReconfiguresAway(Home(cfg, s), s.choice)) <==>
                ReconfiguresAway(Home(cfg, r), r.choice)
  {
    if l.Pass? {
      PassTracks(cfg, s, l);
      TrackIff(cfg, Home(cfg, s), s.choice, Buttons(l.events) + Asks(l.requests));
    } else if !Begins(s, l) {
      SegmentTracks(cfg, s, l);
    }
  }

  /** In every state of every run, a reconfiguration is due on another gadget exactly when a collapse is in effect. */
  lemma {:induction false} CollapsedIff(cfg: Config, run: Run, n: nat)
    requires IsRun(cfg, run) && n <= |run.labels|
    ensures CollapsedBefore(cfg, run, n) <==> ReconfiguresAway(Home(cfg, run.states[n]), run.states[n].choice)
  {
    if n > 0 {
      CollapsedIff(cfg, run, n - 1);
      RunKeeps(cfg, run, n - 1);
      assert StepAt(cfg, run, n - 1);
      StepTracks(cfg, run.states[n - 1], run.labels[n - 1]);
    }
  }

  /**
   * An apply begins as a reconfiguration of a gadget other than the last good one exactly when a
   * pending rebuild was collapsed by a button or a request, and no later change of gadget, multiple
   * tap, rollback or beginning undid that.
   */
  lemma {:induction false} BeginsCollapsedIff(cfg: Config, run: Run, n: nat)
    requires IsRun(cfg, run) && n < |run.labels| && Begins(run.states[n], run.labels[n])
    ensures StepAt(cfg, run, n)
    ensures var s, l := run.states[n], run.labels[n];
            (exists t :: Shows(cfg, s, l) == [Began(t, true)] && t.mode != s.lastGood.mode) <==>
            CollapsedBefore(cfg, run, n)
  {
    assert StepAt(cfg, run, n);
    RunKeeps(cfg, run, n);
    CollapsedIff(cfg, run, n);
    var s := run.states[n];
    assert Shows(cfg, s, run.labels[n]) == [Began(Selected(cfg, s.choice), s.choice.submodeChanged)];
  }

  // ----- two collapses -----

  /** By the button: a tap, a long tap and another tap. */
  lemma {:induction false} ButtonCollapses()
    ensures var cfg := Config([Rndis, Adb], 0);
            var c := Choice(0, [0, 0], false, false, false);
            var r := OnInputs(cfg, c, [Button(Tap), Button(LongTap), Button(Tap)]);
            ChoiceFits(cfg, c) && r.current == 1 && r.modeChanged && r.submodeChanged
  {
    var cfg, c := Config([Rndis, Adb], 0), Choice(0, [0, 0], false, false, false);
    var inputs := [Button(Tap), Button(LongTap), Button(Tap)];
    assert inputs[..2] == [Button(Tap), Button(LongTap)] && inputs[..2][..1] == [Button(Tap)] &&
        inputs[..2][..1][..0] == [];
    assert OnInputs(cfg, c, []) == c;
    assert OnInputs(cfg, c, inputs[..2][..1]).current == 1;
  }

  /** The printed form of a configured gadget names the first one of its kind. */
  lemma {:induction false} NamedPrinted(cfg: Config, gadget: Gadget, submode: nat, index: nat)
    requires index < |cfg.modes| && cfg.modes[index] == gadget && submode <= gadget.MaxSubmode()
    requires forall i :: 0 <= i < index ==> cfg.modes[i] != gadget
    ensures Named(cfg, Print(gadget, submode)) == Some(Target(index, submode))
  {
    ParsePrint(gadget, submode);
    SameName(cfg, index);
  }

  lemma {:induction false} SameName(cfg: Config, index: nat)
    requires index < |cfg.modes| && forall i :: 0 <= i < index ==> cfg.modes[i] != cfg.modes[index]
    ensures FirstNamed(cfg.modes, cfg.modes[index].Name()) == index
  {
    assert Rndis.Name() != Adb.Name();
    assert forall i :: 0 <= i < index ==> cfg.modes[i].Name() != cfg.modes[index].Name();
  }

  /** By a request: a tap, and then the new gadget's other submode. */
  lemma {:induction false} RequestCollapses()
    ensures var cfg := Config([Adb, Rndis], 0);
            var c := Choice(0, [0, 0], false, false, false);
            var r := OnInputs(cfg, c, [Button(Tap), Ask("rndis.1")]);
            ChoiceFits(cfg, c) && r.current == 1 && r.modeChanged && r.submodeChanged
  {
    var cfg, c := Config([Adb, Rndis], 0), Choice(0, [0, 0], false, false, false);
    var inputs := [Button(Tap), Ask("rndis.1")];
    assert inputs[..1] == [Button(Tap)] && inputs[..1][..0] == [];
    assert OnInputs(cfg, c, []) == c;
    var tapped := OnInputs(cfg, c, inputs[..1]);
    assert tapped == Choice(1, [0, 0], true, false, false);
    assert Decimal(CLIENT) == "1";
    assert Print(Rndis, CLIENT) == "rndis.1";
    NamedPrinted(cfg, Rndis, CLIENT, 1);
    InputEffect(cfg, tapped, Ask("rndis.1"));
  }
}
