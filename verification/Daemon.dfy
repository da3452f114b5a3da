/**
 * The daemon object: its fields, changed in place by the main loop and by the apply goroutines.
 * Every turn of the main loop and every goroutine segment does one step of the protocol in
 * GadgetApply and keeps the object valid, so whole schedules inherit the protocol's promises.
 */
module Daemon {
  import opened Text
  import opened GadgetSpec
  import opened GadgetApply
  import opened ApplyInvariants
  import opened ApplyTheorems

  class Daemon {
    const cfg: Config

    var currentMode: int
    var submodes: seq<int>
    var modeChanged: bool
    var submodeChanged: bool
    var submodeSelection: bool
    var modeChanging: bool
    var lastGoodMode: int
    var lastGoodSubmode: int
    var applyError: bool
    var pendingApply: Target
    var pendingEnable: bool
    var enableDeadline: int
    var rebindChan: seq<int>
    var goroutines: seq<Stage>
    var clock: int
    var shuttingDown: bool

    function Selection(): Choice
      reads this
    {
      Choice(currentMode, submodes, modeChanged, submodeChanged, submodeSelection)
    }

    function Value(): State
      reads this
    {
      State(Selection(), modeChanging, Target(lastGoodMode, lastGoodSubmode), applyError, pendingApply,
            pendingEnable, enableDeadline, rebindChan, goroutines, clock, shuttingDown)
    }

    /** One owner of the gadget, everything in range, and agreement with the last good configuration at rest. */
    ghost predicate Valid()
      reads this
    {
      Inv(cfg, Value())
    }

    function LastGood(): Target
      reads this
    {
      Target(lastGoodMode, lastGoodSubmode)
    }

    /** A daemon whose start-up apply has run its first segment. */
    constructor (cfg: Config, submodes: seq<int>, now: int)
      requires |cfg.modes| > 0 && |submodes| == |cfg.modes|
      requires forall m :: 0 <= m < |submodes| ==> SubmodeFits(cfg, m, submodes[m])
      ensures this.cfg == cfg && Initial(cfg, Value()) && Valid()
    {
      this.cfg := cfg;
      currentMode, this.submodes := 0, submodes;
      modeChanged, submodeChanged, submodeSelection := false, false, false;
      lastGoodMode, lastGoodSubmode, applyError := 0, submodes[0], false;
      pendingApply, pendingEnable, enableDeadline, rebindChan := Target(0, 0), false, 0, [];
      modeChanging, goroutines := true, [Rebuilding(Target(0, submodes[0]))];
      clock, shuttingDown := now, false;
    }

    // ----- main loop -----

    method FindGadget(name: string) returns (index: nat)
      ensures index == FirstNamed(cfg.modes, name)
    {
      index := 0;
      while index < |cfg.modes| && cfg.modes[index].Name() != name
        invariant index <= |cfg.modes|
        invariant forall i :: 0 <= i < index ==> cfg.modes[i].Name() != name
      {
        index := index + 1;
      }
    }

    method SelectGadget(index: nat, submode: nat)
      requires ChoiceFits(cfg, Selection()) && SubmodeFits(cfg, index, submode)
      modifies `currentMode, `submodes, `modeChanged, `submodeChanged
      ensures Selection() == Select(cfg, old(Selection()), index, submode)
    {
      if index != currentMode {
        currentMode, modeChanged, submodeChanged := index, true, false;
        submodes := submodes[index := submode];
      } else if submodes[index] != submode {
        submodes, modeChanged, submodeChanged := submodes[index := submode], true, true;
      }
    }

    method HandleGadgetRequest(raw: string) returns (r: Response)
      requires ChoiceFits(cfg, Selection())
      modifies `currentMode, `submodes, `modeChanged, `submodeChanged
      ensures Selection() == OnRequest(cfg, old(Selection()), raw).0
      ensures r == OnRequest(cfg, old(Selection()), raw).1
    {
      var text := TrimSpace(raw);
      if text == "" {
        return Answer(Print(cfg.modes[currentMode], submodes[currentMode]));
      }
      var parsed := Parse(text);
      if parsed.None? { return Refused; }
      var submode := parsed.value.submode;
      var index := FindGadget(parsed.value.name);
      if index == |cfg.modes| || submode > cfg.modes[index].MaxSubmode() { return Refused; }
      SelectGadget(index, submode);
      return Answer(Print(cfg.modes[currentMode], submodes[currentMode]));
    }

    method HandleInputEvent(e: Event)
      requires ChoiceFits(cfg, Selection())
      modifies `currentMode, `submodes, `modeChanged, `submodeChanged, `submodeSelection
      ensures Selection() == OnEvent(cfg, old(Selection()), e)
    {
      match e {
        case Tap =>
          if submodeSelection {
            var next := (submodes[currentMode] + 1) % (cfg.modes[currentMode].MaxSubmode() + 1);
            submodes, modeChanged, submodeChanged := submodes[currentMode := next], true, true;
          } else {
            currentMode, modeChanged, submodeChanged := (currentMode + 1) % |cfg.modes|, true, false;
          }
        case LongTap => submodeSelection := !submodeSelection;
        case MultipleTap => modeChanged, submodeChanged := true, false;
        case Abnormal =>
      }
    }

    method HandleInputEvents(events: seq<Event>)
      requires ChoiceFits(cfg, Selection())
      modifies `currentMode, `submodes, `modeChanged, `submodeChanged, `submodeSelection
      ensures Selection() == OnEvents(cfg, old(Selection()), events)
    {
      ghost var before := Selection();
      for i := 0 to |events|
        invariant Selection() == OnEvents(cfg, before, events[..i])
      {
        HandleInputEvent(events[i]);
        assert events[..i + 1][..i] == events[..i];
      }
      assert events[..|events|] == events;
    }

    method HandleGadgetRequests(requests: seq<string>)
      requires ChoiceFits(cfg, Selection())
      modifies `currentMode, `submodes, `modeChanged, `submodeChanged
      ensures Selection() == OnRequests(cfg, old(Selection()), requests)
    {
      ghost var before := Selection();
      for i := 0 to |requests|
        invariant Selection() == OnRequests(cfg, before, requests[..i])
        invariant submodeSelection == before.selection
      {
        var _ := HandleGadgetRequest(requests[i]);
        assert requests[..i + 1][..i] == requests[..i];
      }
      assert requests[..|requests|] == requests;
    }

    /** `handle_events` up to the shutdown check. */
    method StartDueRebind(now: int)
      modifies `pendingEnable, `goroutines
      ensures Value() == StartPhaseTwo(old(Value()), now)
    {
      if pendingEnable && now >= enableDeadline {
        pendingEnable := false;
        goroutines := goroutines + [FinishSpawned];
      }
    }

    /** The end of `handle_events`: take the lock and spawn the apply. */
    method StartPendingApply()
      modifies `modeChanged, `modeChanging, `goroutines
      ensures Value() == StartApply(old(Value()))
    {
      if modeChanged && !modeChanging {
        modeChanged, modeChanging := false, true;
        goroutines := goroutines + [Spawned];
      }
    }

    method HandleSelection(l: Label)
      requires Fits(cfg, Value()) && l.Pass?
      modifies `currentMode, `submodes, `modeChanged, `submodeChanged, `submodeSelection
      ensures Value() == Absorbed(cfg, old(Value()), l)
    {
      HandleInputEvents(l.events);
      HandleGadgetRequests(l.requests);
    }

    method TakeWake(wake: Wake, now: int)
      requires wake.Rebind? ==> rebindChan != []
      modifies `clock, `enableDeadline, `rebindChan, `pendingEnable
      ensures Value() == Receive(old(Value()), wake).(clock := now)
    {
      clock := now;
      if wake == Rebind {
        enableDeadline, rebindChan, pendingEnable := rebindChan[0], rebindChan[1..], true;
      }
    }

    method WakeAndHandle(l: Label)
      requires Fits(cfg, Value()) && l.Pass? && Enabled(Value(), l)
      modifies this
      ensures Value() == AfterPass(cfg, old(Value()), l)
    {
      TakeWake(l.wake, l.now);
      StartDueRebind(l.now);
      assert Value() == Woken(old(Value()), l);
      if l.held {
        shuttingDown := true;
      } else {
        HandleSelection(l);
        StartPendingApply();
      }
    }

    /** One turn of the main loop: the wake-up, then `handle_events`. It never touches the last good configuration. */
    method MainloopTurn(l: Label)
      requires Valid() && l.Pass? && Enabled(Value(), l)
      modifies this
      ensures Value() == AfterPass(cfg, old(Value()), l)
      ensures Valid() && LastGood() == old(LastGood())
    {
      PassKeeps(cfg, Value(), l);
      WakeAndHandle(l);
      assert Value().lastGood == old(Value()).lastGood;
    }

    // ----- goroutines -----

    method CommitMode(t: Target)
      modifies `lastGoodMode, `lastGoodSubmode, `applyError
      ensures lastGoodMode == t.mode && lastGoodSubmode == t.submode && !applyError
    {
      lastGoodMode, lastGoodSubmode, applyError := t.mode, t.submode, false;
    }

    method Exit(j: nat)
      requires j < |goroutines|
      modifies `goroutines
      ensures goroutines == Without(old(goroutines), j)
    {
      goroutines := goroutines[..j] + goroutines[j + 1..];
    }

    method FinishFailure(j: nat, rolledBack: bool)
      requires Fits(cfg, Value()) && j < |goroutines|
      modifies `submodes, `applyError, `modeChanging, `goroutines
      ensures Value() == Release(cfg, old(Value()), j, rolledBack)
    {
      applyError := !rolledBack;
      if !rolledBack {
        submodes := submodes[lastGoodMode := lastGoodSubmode];
      }
      modeChanging := false;
      Exit(j);
    }

    method HandleApplyFailure(j: nat, failed: Target, submodeOnly: bool)
      requires Fits(cfg, Value()) && j < |goroutines|
      modifies `currentMode, `submodes, `applyError, `modeChanging, `goroutines
      ensures Value() == Fail(cfg, old(Value()), j, failed, submodeOnly)
    {
      if ShouldRollback(cfg, failed, Target(lastGoodMode, lastGoodSubmode)) {
        submodes := submodes[lastGoodMode := lastGoodSubmode];
        currentMode := lastGoodMode;
        var undo := if submodeOnly then UndoReconfiguring(lastGoodMode, Entered) else UndoRebuilding(lastGoodMode);
        goroutines := goroutines[j := undo];
      } else {
        FinishFailure(j, false);
      }
    }

    /** The gadget's `enable` reads the submode that is selected now. */
    method ReadSubmode(j: nat)
      requires Fits(cfg, Value()) && j < |goroutines| && InEnable(goroutines[j])
      modifies `goroutines
      ensures Value() == Dispatch(cfg, old(Value()), j)
    {
      assert StageFits(cfg, goroutines[j]);
      goroutines := goroutines[j := WithProgress(goroutines[j], Running(submodes[GadgetOf(goroutines[j])]))];
    }

    /** `fallback_to_gateway_mode` in the middle of `enable`. */
    method FallBackToGateway(j: nat)
      requires Fits(cfg, Value()) && j < |goroutines| && InEnable(goroutines[j])
      modifies `submodes, `goroutines
      ensures Value() == FallBack(cfg, old(Value()), j)
    {
      assert StageFits(cfg, goroutines[j]);
      submodes := submodes[GadgetOf(goroutines[j]) := GATEWAY];
      goroutines := goroutines[j := WithProgress(goroutines[j], FellBack)];
    }

    method EnableReturned(j: nat, t: Target, ok: bool, submodeOnly: bool)
      requires Fits(cfg, Value()) && j < |goroutines|
      modifies this
      ensures Value() == AfterEnable(cfg, old(Value()), j, t, ok, submodeOnly)
    {
      if ok {
        CommitMode(t);
        modeChanging := false;
        Exit(j);
      } else {
        HandleApplyFailure(j, t, submodeOnly);
      }
    }

    /** The start of `apply_function`: snapshot, consume the submode flag, take the lock. */
    method BeginApply(j: nat)
      requires Fits(cfg, Value()) && j < |goroutines|
      modifies this
      ensures Value() == Begin(cfg, old(Value()), j)
    {
      var t := Target(currentMode, submodes[currentMode]);
      var submodeOnly := submodeChanged;
      submodeChanged := false;
      modeChanging := true;
      goroutines := goroutines[j := if submodeOnly then Reconfiguring(t, Entered) else Rebuilding(t)];
    }

    method RebuildReturned(j: nat, t: Target, ok: bool)
      requires Fits(cfg, Value()) && j < |goroutines|
      modifies this
      ensures Value() == AfterRebuild(cfg, old(Value()), j, t, ok)
    {
      if ok {
        pendingApply := t;
        goroutines := goroutines[j := Sending(t, clock + cfg.rebindDelay)];
      } else {
        HandleApplyFailure(j, t, false);
      }
    }

    method SendDeadline(j: nat, deadline: int)
      requires j < |goroutines|
      modifies `rebindChan, `goroutines
      ensures Value() == old(Value()).(rebindChan := old(rebindChan) + [deadline], jobs := Without(old(goroutines), j))
    {
      rebindChan := rebindChan + [deadline];
      Exit(j);
    }

    /** A call of a rollback is back. */
    method UndoReturned(j: nat, ok: bool)
      requires Fits(cfg, Value()) && j < |goroutines|
      requires goroutines[j].UndoRebuilding? || goroutines[j].UndoEnabling? || goroutines[j].UndoReconfiguring?
      modifies `submodes, `applyError, `modeChanging, `goroutines
      ensures Value() == AfterReturn(cfg, old(Value()), j, ok)
    {
      if ok && goroutines[j].UndoRebuilding? {
        goroutines := goroutines[j := UndoEnabling(goroutines[j].mode, clock + cfg.rebindDelay, Entered)];
      } else {
        FinishFailure(j, ok);
      }
    }

    method CallReturned(j: nat, ok: bool)
      requires Fits(cfg, Value()) && j < |goroutines|
      modifies this
      ensures Value() == AfterReturn(cfg, old(Value()), j, ok)
    {
      match goroutines[j] {
        case Spawned => BeginApply(j);
        case Reconfiguring(t, _) => EnableReturned(j, t, ok, true);
        case Rebuilding(t) => RebuildReturned(j, t, ok);
        case Sending(_, deadline) => SendDeadline(j, deadline);
        case FinishSpawned => goroutines := goroutines[j := Enabling(pendingApply, Entered)];
        case Enabling(t, _) => EnableReturned(j, t, ok, false);
        case _ => UndoReturned(j, ok);
      }
    }

    method Resume(j: nat, now: int, usb: Usb)
      requires Fits(cfg, Value()) && Enabled(Value(), Segment(j, now, usb))
      modifies this
      ensures Value() == AfterSegment(cfg, old(Value()), Segment(j, now, usb))
    {
      clock := now;
      match usb {
        case Dispatches => ReadSubmode(j);
        case FallsBack => FallBackToGateway(j);
        case Returns(ok) => CallReturned(j, ok);
      }
    }

    /**
     * One segment of goroutine `j`. The last good configuration changes only by the success of an
     * apply, and then to the target that this very goroutine carries.
     */
    method RunSegment(j: nat, now: int, usb: Usb)
      requires Valid() && Enabled(Value(), Segment(j, now, usb))
      modifies this
      ensures Value() == AfterSegment(cfg, old(Value()), Segment(j, now, usb))
      ensures Valid()
      ensures LastGood() == old(LastGood()) || (usb == Returns(true) && CarriesTarget(old(goroutines[j]), LastGood()))
    {
      SegmentKeeps(cfg, Value(), Segment(j, now, usb));
      OnlyCommitsOwn(cfg, Value(), Segment(j, now, usb));
      Resume(j, now, usb);
      assert LastGood() == Value().lastGood;
    }

    // ----- whole schedules -----

    method Step(l: Label)
      requires Valid() && Enabled(Value(), l)
      modifies this
      ensures Value() == After(cfg, old(Value()), l) && Valid()
    {
      match l {
        case Pass(_, _, _, _, _) => MainloopTurn(l);
        case Segment(j, now, usb) => RunSegment(j, now, usb);
      }
    }

    /**
     * Executes a schedule in place, passing over what is not enabled when its turn comes. What was
     * executed is a run of the protocol, and whatever the schedule, the gadget has at most one
     * owner, exactly while the lock is held, everything is in range, and at rest with nothing newly
     * selected the last good configuration, up to the client fallback, is selected.
     */
    method Execute(schedule: seq<Label>) returns (executed: seq<Label>, ghost run: Run)
      requires Initial(cfg, Value())
      modifies this
      ensures IsRun(cfg, run) && run.labels == executed
      ensures run.states[0] == old(Value()) && run.states[|executed|] == Value()
      ensures Valid() && Fits(cfg, Value())
      ensures Owners(Value()) <= 1 && (Owners(Value()) == 1 <==> modeChanging)
      ensures !modeChanging && !modeChanged ==>
                currentMode == lastGoodMode && submodes[currentMode] in {GATEWAY, lastGoodSubmode}
      ensures Memory(LastGood(), applyError) == RememberAll(Memory(old(LastGood()), false), run.shown[|executed|])
    {
      InitialInv(cfg, Value());
      executed := [];
      run := Run([Value()], [], [[Requested, Began(LastGood(), false)]]);
      for i := 0 to |schedule|
        invariant IsRun(cfg, run) && run.labels == executed
        invariant run.states[0] == old(Value()) && run.states[|executed|] == Value()
        invariant Valid()
      {
        var l := schedule[i];
        if Enabled(Value(), l) {
          Step(l);
          ExtendRun(cfg, run, l);
          executed := executed + [l];
          run := Extended(cfg, run, l);
        }
      }
      RunRemembers(cfg, run, |executed|);
    }
  }

  /** A goroutine in the last call of an apply of `t`. */
  predicate CarriesTarget(stage: Stage, t: Target) {
    (stage.Reconfiguring? || stage.Enabling?) && stage.target == t
  }

  lemma {:induction false} OnlyCommitsOwn(cfg: Config, s: State, l: Label)
    requires Fits(cfg, s) && l.Segment? && Enabled(s, l)
    ensures var good := AfterSegment(cfg, s, l).lastGood;
            good == s.lastGood || (l.usb == Returns(true) && CarriesTarget(s.jobs[l.job], good))
  {
    if l.usb.Returns? {
      ReturnCommitsOwn(cfg, s.(clock := l.now), l.job, l.usb.ok);
    }
  }

  lemma {:induction false} ReturnCommitsOwn(cfg: Config, s: State, j: nat, ok: bool)
    requires Fits(cfg, s) && j < |s.jobs|
    ensures var good := AfterReturn(cfg, s, j, ok).lastGood;
            good == s.lastGood || (ok && CarriesTarget(s.jobs[j], good))
  {
  }
}
