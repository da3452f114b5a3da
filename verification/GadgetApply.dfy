/**
 * The two-phase gadget apply of the daemon as a step relation.
 *
 * One step is either a full pass of the main loop (wake-up plus `handle_events`) or the segment
 * of one goroutine (`apply_function`, `finish_apply` and the rollbacks they end in) between two
 * blocking USB calls. USB outcomes, button events, IPC requests and the clock come from outside.
 */
module GadgetApply {
  import opened Text
  import opened GadgetSpec

  /** What the command line fixes: the gadget sequence and the settling time before the rebind. */
  datatype Config = Config(modes: seq<Gadget>, rebindDelay: nat)

  /** `applyTarget`: which gadget, on which submode. */
  datatype Target = Target(mode: int, submode: int)

  // ----- what buttons and IPC change -----

  datatype Event = Tap | LongTap | MultipleTap | Abnormal

  /** The selection kept by the main loop and overwritten by rollbacks. */
  datatype Choice = Choice(current: int, submodes: seq<int>, modeChanged: bool, submodeChanged: bool, selection: bool)

  predicate SubmodeFits(cfg: Config, mode: int, submode: int) {
    0 <= mode < |cfg.modes| && 0 <= submode <= cfg.modes[mode].MaxSubmode()
  }

  predicate ChoiceFits(cfg: Config, c: Choice) {
    && 0 <= c.current < |cfg.modes|
    && |c.submodes| == |cfg.modes|
    && forall m :: 0 <= m < |c.submodes| ==> SubmodeFits(cfg, m, c.submodes[m])
  }

  function Selected(cfg: Config, c: Choice): Target
    requires ChoiceFits(cfg, c)
  {
    Target(c.current, c.submodes[c.current])
  }

  /** One drained input event, as `handle_events` treats it. */
  function OnEvent(cfg: Config, c: Choice, e: Event): (r: Choice)
    requires ChoiceFits(cfg, c)
    ensures ChoiceFits(cfg, r)
    ensures r.modeChanged || Selected(cfg, r) == Selected(cfg, c)
    ensures c.modeChanged ==> r.modeChanged
  {
    match e
    case Tap =>
      if c.selection then
        var max := cfg.modes[c.current].MaxSubmode();
        c.(submodes := c.submodes[c.current := (c.submodes[c.current] + 1) % (max + 1)],
           modeChanged := true, submodeChanged := true)
      else
        c.(current := (c.current + 1) % |cfg.modes|, modeChanged := true, submodeChanged := false)
    case LongTap => c.(selection := !c.selection)
    case MultipleTap => c.(modeChanged := true, submodeChanged := false)
    case Abnormal => c
  }

  datatype Response = Answer(gadget: string) | Refused

  /** The first configured gadget of that name, or the length of the sequence. */
  function FirstNamed(modes: seq<Gadget>, name: string): (i: nat)
    ensures i <= |modes|
    ensures i < |modes| ==> modes[i].Name() == name
    ensures forall j :: 0 <= j < i ==> modes[j].Name() != name
  {
    if modes == [] then 0
    else if modes[0].Name() == name then 0
    else
      assert modes == [modes[0]] + modes[1..];
      1 + FirstNamed(modes[1..], name)
  }

  /** Selecting a gadget: another one is rebuilt, another submode only reconfigured. */
  function Select(cfg: Config, c: Choice, index: nat, submode: nat): (r: Choice)
    requires ChoiceFits(cfg, c) && SubmodeFits(cfg, index, submode)
    ensures ChoiceFits(cfg, r)
    ensures Selected(cfg, r) == Target(index, submode)
    ensures r.modeChanged || r == c
    ensures r == c <==> Selected(cfg, c) == Target(index, submode)
  {
    if index != c.current then
      c.(current := index, submodes := c.submodes[index := submode], modeChanged := true, submodeChanged := false)
    else if c.submodes[index] != submode then
      c.(submodes := c.submodes[index := submode], modeChanged := true, submodeChanged := true)
    else c
  }

  /** `handle_gadget_request`: the empty text asks, anything else selects. */
  function OnRequest(cfg: Config, c: Choice, raw: string): (r: (Choice, Response))
    requires ChoiceFits(cfg, c)
    ensures ChoiceFits(cfg, r.0)
    ensures r.0.modeChanged || Selected(cfg, r.0) == Selected(cfg, c)
    ensures c.modeChanged ==> r.0.modeChanged
    ensures r.1.Answer? ==> r.1.gadget == Print(cfg.modes[r.0.current], r.0.submodes[r.0.current])
    ensures r.1.Refused? ==> r.0 == c
  {
    var text := TrimSpace(raw);
    if text == "" then (c, Answer(Print(cfg.modes[c.current], c.submodes[c.current])))
    else match Parse(text)
      case None => (c, Refused)
      case Some(spec) =>
        var index := FirstNamed(cfg.modes, spec.name);
        if index == |cfg.modes| || spec.submode > cfg.modes[index].MaxSubmode() then (c, Refused)
        else
          var r := Select(cfg, c, index, spec.submode);
          (r, Answer(Print(cfg.modes[r.current], r.submodes[r.current])))
  }

  function OnEvents(cfg: Config, c: Choice, events: seq<Event>): (r: Choice)
    requires ChoiceFits(cfg, c)
    ensures ChoiceFits(cfg, r)
    ensures r.modeChanged || Selected(cfg, r) == Selected(cfg, c)
    ensures c.modeChanged ==> r.modeChanged
  {
    if events == [] then c
    else OnEvent(cfg, OnEvents(cfg, c, events[..|events| - 1]), events[|events| - 1])
  }

  function OnRequests(cfg: Config, c: Choice, requests: seq<string>): (r: Choice)
    requires ChoiceFits(cfg, c)
    ensures ChoiceFits(cfg, r)
    ensures r.modeChanged || Selected(cfg, r) == Selected(cfg, c)
    ensures c.modeChanged ==> r.modeChanged
  {
    if requests == [] then c
    else OnRequest(cfg, OnRequests(cfg, c, requests[..|requests| - 1]), requests[|requests| - 1]).0
  }

  // ----- goroutines and shared fields -----

  /** How far the gadget's own `enable` has come: it reads the live submode, and client mode may be given up. */
  datatype Progress = Entered | Running(submode: int) | FellBack

  /** Where a goroutine stands: the blocking call it is in, or the start it has not reached yet. */
  datatype Stage =
    | Spawned                                                  // go apply_function()
    | Reconfiguring(target: Target, progress: Progress)        // ReconfigureFunction of a submode-only apply
    | Rebuilding(target: Target)                               // ApplyFunctions, phase one
    | Sending(target: Target, deadline: int)                   // rebind_chan <- deadline
    | FinishSpawned                                            // go finish_apply()
    | Enabling(target: Target, progress: Progress)             // Enable, phase two
    | UndoRebuilding(mode: int)                                // ApplyFunctions of rollback_mode
    | UndoEnabling(mode: int, until: int, progress: Progress)  // Sleep until then and Enable of rollback_mode
    | UndoReconfiguring(mode: int, progress: Progress)         // ReconfigureFunction of rollback_submode

  /** The stages in which a gadget's `enable` is called. */
  predicate InEnable(stage: Stage) {
    stage.Reconfiguring? || stage.Enabling? || stage.UndoEnabling? || stage.UndoReconfiguring?
  }

  /** The gadget being enabled. */
  function GadgetOf(stage: Stage): int
    requires InEnable(stage)
  {
    if stage.Reconfiguring? || stage.Enabling? then stage.target.mode else stage.mode
  }

  function WithProgress(stage: Stage, p: Progress): Stage {
    match stage
    case Reconfiguring(t, _) => Reconfiguring(t, p)
    case Enabling(t, _) => Enabling(t, p)
    case UndoEnabling(m, until, _) => UndoEnabling(m, until, p)
    case UndoReconfiguring(m, _) => UndoReconfiguring(m, p)
    case _ => stage
  }

  datatype State = State(
    choice: Choice,
    modeChanging: bool,
    lastGood: Target,
    applyError: bool,
    pendingApply: Target,
    pendingEnable: bool,
    enableDeadline: int,
    rebindChan: seq<int>,
    jobs: seq<Stage>,
    clock: int,
    shuttingDown: bool)

  predicate ProgressFits(cfg: Config, mode: int, p: Progress) {
    p.Running? ==> SubmodeFits(cfg, mode, p.submode)
  }

  predicate StageFits(cfg: Config, stage: Stage) {
    match stage
    case Reconfiguring(t, p) => SubmodeFits(cfg, t.mode, t.submode) && ProgressFits(cfg, t.mode, p)
    case Rebuilding(t) => SubmodeFits(cfg, t.mode, t.submode)
    case Sending(t, _) => SubmodeFits(cfg, t.mode, t.submode)
    case Enabling(t, p) => SubmodeFits(cfg, t.mode, t.submode) && ProgressFits(cfg, t.mode, p)
    case UndoRebuilding(m) => 0 <= m < |cfg.modes|
    case UndoEnabling(m, _, p) => 0 <= m < |cfg.modes| && ProgressFits(cfg, m, p)
    case UndoReconfiguring(m, p) => 0 <= m < |cfg.modes| && ProgressFits(cfg, m, p)
    case _ => true
  }

  /** Every index names a configured gadget and every submode is one its gadget supports. */
  predicate Fits(cfg: Config, s: State) {
    && ChoiceFits(cfg, s.choice)
    && SubmodeFits(cfg, s.lastGood.mode, s.lastGood.submode)
    && SubmodeFits(cfg, s.pendingApply.mode, s.pendingApply.submode)
    && forall j :: 0 <= j < |s.jobs| ==> StageFits(cfg, s.jobs[j])
  }

  /** What a blocking call comes to next: `enable` reads the submode, gives up client mode, or the call returns. */
  datatype Usb = Dispatches | FallsBack | Returns(ok: bool)

  const CLIENT: int := 1
  const GATEWAY: int := 0

  datatype Wake = Rebind | OtherWake

  datatype Label =
    | Pass(wake: Wake, now: int, held: bool, events: seq<Event>, requests: seq<string>)
    | Segment(job: nat, now: int, usb: Usb)

  /** What a step shows of the apply it works on. */
  datatype Observation =
    | Requested
    | Began(target: Target, submodeOnly: bool)
    | Built(target: Target, at: int)
    | PhaseTwo(at: int)
    | Dispatched(submode: int)   // `enable` has read the live submode
    | Fallback                  // and has given up client mode
    | Committed(target: Target)
    | Failed(target: Target)
    | Rebuilt(at: int)   // a rollback has rebuilt the last good gadget
    | Rebound(at: int)   // and its Enable has returned
    | Released(rolledBack: bool)

  /** `enable` must have been entered for its own steps, and must have got past the dispatch to succeed. */
  predicate MayDo(stage: Stage, usb: Usb) {
    match usb
    case Dispatches => InEnable(stage) && stage.progress == Entered
    case FallsBack => InEnable(stage) && stage.progress == Running(CLIENT)
    case Returns(ok) => ok && InEnable(stage) ==> stage.progress != Entered
  }

  predicate Enabled(s: State, l: Label) {
    match l
    case Pass(wake, now, _, _, _) =>
      !s.shuttingDown && s.clock <= now && (wake.Rebind? ==> s.rebindChan != [])
    case Segment(job, now, _) =>
      && job < |s.jobs| && s.clock <= now
      && (s.jobs[job].Sending? ==> |s.rebindChan| < 1)
      && (s.jobs[job].UndoEnabling? ==> s.jobs[job].until <= now)
      && MayDo(s.jobs[job], l.usb)
  }

  // ----- a pass of the main loop -----

  /** The select: taking a deadline out of the channel arms the rebind. */
  function Receive(s: State, wake: Wake): State
    requires wake.Rebind? ==> s.rebindChan != []
  {
    match wake
    case OtherWake => s
    case Rebind => s.(enableDeadline := s.rebindChan[0], rebindChan := s.rebindChan[1..], pendingEnable := true)
  }

  predicate RebindDue(s: State, now: int) {
    s.pendingEnable && s.enableDeadline <= now
  }

  function StartPhaseTwo(s: State, now: int): State {
    if RebindDue(s, now) then s.(pendingEnable := false, jobs := s.jobs + [FinishSpawned]) else s
  }

  function StartApply(s: State): State {
    if s.choice.modeChanged && !s.modeChanging then
      s.(choice := s.choice.(modeChanged := false), modeChanging := true, jobs := s.jobs + [Spawned])
    else s
  }

  /** The pass up to the shutdown check: wake-up, then phase two when its deadline has come. */
  function Woken(s: State, l: Label): State
    requires l.Pass? && Enabled(s, l)
  {
    StartPhaseTwo(Receive(s, l.wake).(clock := l.now), l.now)
  }

  /** Drained events first, queued IPC requests after them. */
  function Absorbed(cfg: Config, s: State, l: Label): State
    requires Fits(cfg, s) && l.Pass?
  {
    s.(choice := OnRequests(cfg, OnEvents(cfg, s.choice, l.events), l.requests))
  }

  function AfterPass(cfg: Config, s: State, l: Label): State
    requires Fits(cfg, s) && l.Pass? && Enabled(s, l)
  {
    if l.held then Woken(s, l).(shuttingDown := true) else StartApply(Absorbed(cfg, Woken(s, l), l))
  }

  function WakeShows(s: State, l: Label): seq<Observation>
    requires l.Pass? && Enabled(s, l)
  {
    if RebindDue(Receive(s, l.wake), l.now) then [PhaseTwo(l.now)] else []
  }

  function StartShows(s: State): seq<Observation> {
    if s.choice.modeChanged && !s.modeChanging then [Requested] else []
  }

  function PassShows(cfg: Config, s: State, l: Label): seq<Observation>
    requires Fits(cfg, s) && l.Pass? && Enabled(s, l)
  {
    WakeShows(s, l) + if l.held then [] else StartShows(Absorbed(cfg, Woken(s, l), l))
  }

  // ----- a goroutine segment -----

  /** `should_rollback`. */
  predicate ShouldRollback(cfg: Config, failed: Target, lastGood: Target) {
    |cfg.modes| > 1 && (failed.mode != lastGood.mode || failed.submode != lastGood.submode)
  }

  function Without(jobs: seq<Stage>, j: nat): seq<Stage>
    requires j < |jobs|
  {
    jobs[..j] + jobs[j + 1..]
  }

  /** `enable` reads the submode that is selected at that moment. */
  function Dispatch(cfg: Config, s: State, j: nat): State
    requires Fits(cfg, s) && j < |s.jobs| && InEnable(s.jobs[j])
  {
    assert StageFits(cfg, s.jobs[j]);
    s.(jobs := s.jobs[j := WithProgress(s.jobs[j], Running(s.choice.submodes[GadgetOf(s.jobs[j])]))])
  }

  /** `fallback_to_gateway_mode` resets the submode of the gadget being enabled. */
  function FallBack(cfg: Config, s: State, j: nat): State
    requires Fits(cfg, s) && j < |s.jobs| && InEnable(s.jobs[j])
  {
    assert StageFits(cfg, s.jobs[j]);
    s.(choice := s.choice.(submodes := s.choice.submodes[GadgetOf(s.jobs[j]) := GATEWAY]),
       jobs := s.jobs[j := WithProgress(s.jobs[j], FellBack)])
  }

  function Commit(s: State, j: nat, t: Target): State
    requires j < |s.jobs|
  {
    s.(lastGood := t, applyError := false, modeChanging := false, jobs := Without(s.jobs, j))
  }

  /** The end of `handle_apply_failure`: without a rollback the last good submode is put back in memory. */
  function Release(cfg: Config, s: State, j: nat, rolledBack: bool): State
    requires Fits(cfg, s) && j < |s.jobs|
  {
    var c := s.choice;
    s.(choice := if rolledBack then c else c.(submodes := c.submodes[s.lastGood.mode := s.lastGood.submode]),
       applyError := !rolledBack, modeChanging := false, jobs := Without(s.jobs, j))
  }

  /** The start of `handle_apply_failure`, up to the first USB call of a rollback. */
  function Fail(cfg: Config, s: State, j: nat, failed: Target, submodeOnly: bool): State
    requires Fits(cfg, s) && j < |s.jobs|
  {
    if ShouldRollback(cfg, failed, s.lastGood) then
      var m := s.lastGood.mode;
      s.(choice := s.choice.(current := m, submodes := s.choice.submodes[m := s.lastGood.submode]),
         jobs := s.jobs[j := if submodeOnly then UndoReconfiguring(m, Entered) else UndoRebuilding(m)])
    else
      Release(cfg, s, j, false)
  }

  function FailShows(cfg: Config, s: State, failed: Target): seq<Observation> {
    if ShouldRollback(cfg, failed, s.lastGood) then [Failed(failed)] else [Failed(failed), Released(false)]
  }

  /** The first segment of `apply_function`: the snapshot, then the first USB call. */
  function Begin(cfg: Config, s: State, j: nat): State
    requires Fits(cfg, s) && j < |s.jobs|
  {
    var t := Selected(cfg, s.choice);
    s.(choice := s.choice.(submodeChanged := false), modeChanging := true,
       jobs := s.jobs[j := if s.choice.submodeChanged then Reconfiguring(t, Entered) else Rebuilding(t)])
  }

  /** The return of phase one. */
  function AfterRebuild(cfg: Config, s: State, j: nat, t: Target, ok: bool): State
    requires Fits(cfg, s) && j < |s.jobs|
  {
    if ok then s.(pendingApply := t, jobs := s.jobs[j := Sending(t, s.clock + cfg.rebindDelay)])
    else Fail(cfg, s, j, t, false)
  }

  /** The return of `Enable` or `ReconfigureFunction`. */
  function AfterEnable(cfg: Config, s: State, j: nat, t: Target, ok: bool, submodeOnly: bool): State
    requires Fits(cfg, s) && j < |s.jobs|
  {
    if ok then Commit(s, j, t) else Fail(cfg, s, j, t, submodeOnly)
  }

  /** The return of the call that a goroutine is in. */
  function AfterReturn(cfg: Config, s: State, j: nat, ok: bool): State
    requires Fits(cfg, s) && j < |s.jobs|
  {
    match s.jobs[j]
    case Spawned => Begin(cfg, s, j)
    case Reconfiguring(t, _) => AfterEnable(cfg, s, j, t, ok, true)
    case Rebuilding(t) => AfterRebuild(cfg, s, j, t, ok)
    case Sending(_, deadline) => s.(rebindChan := s.rebindChan + [deadline], jobs := Without(s.jobs, j))
    case FinishSpawned => s.(jobs := s.jobs[j := Enabling(s.pendingApply, Entered)])
    case Enabling(t, _) => AfterEnable(cfg, s, j, t, ok, false)
    case UndoRebuilding(m) =>
      if ok then s.(jobs := s.jobs[j := UndoEnabling(m, s.clock + cfg.rebindDelay, Entered)])
      else Release(cfg, s, j, false)
    case UndoEnabling(_, _, _) => Release(cfg, s, j, ok)
    case UndoReconfiguring(_, _) => Release(cfg, s, j, ok)
  }

  function AfterSegment(cfg: Config, before: State, l: Label): State
    requires Fits(cfg, before) && l.Segment? && Enabled(before, l)
  {
    var s, j := before.(clock := l.now), l.job;
    match l.usb
    case Dispatches => Dispatch(cfg, s, j)
    case FallsBack => FallBack(cfg, s, j)
    case Returns(ok) => AfterReturn(cfg, s, j, ok)
  }

  function ReturnShows(cfg: Config, s: State, j: nat, now: int, ok: bool): seq<Observation>
    requires Fits(cfg, s) && j < |s.jobs|
  {
    match s.jobs[j]
    case Spawned => [Began(Selected(cfg, s.choice), s.choice.submodeChanged)]
    case Reconfiguring(t, _) => if ok then [Committed(t)] else FailShows(cfg, s, t)
    case Rebuilding(t) => if ok then [Built(t, now)] else FailShows(cfg, s, t)
    case Sending(_, _) => []
    case FinishSpawned => []
    case Enabling(t, _) => if ok then [Committed(t)] else FailShows(cfg, s, t)
    case UndoRebuilding(_) => if ok then [Rebuilt(now)] else [Released(false)]
    case UndoEnabling(_, _, _) => [Rebound(now), Released(ok)]
    case UndoReconfiguring(_, _) => [Released(ok)]
  }

  /** What a rollback's `enable` does on the way is not shown. */
  function SegmentShows(cfg: Config, s: State, l: Label): seq<Observation>
    requires Fits(cfg, s) && l.Segment? && Enabled(s, l)
  {
    var stage := s.jobs[l.job];
    assert StageFits(cfg, stage);
    match l.usb
    case Dispatches =>
      if stage.Reconfiguring? || stage.Enabling? then [Dispatched(s.choice.submodes[GadgetOf(stage)])] else []
    case FallsBack => if stage.Reconfiguring? || stage.Enabling? then [Fallback] else []
    case Returns(ok) => ReturnShows(cfg, s, l.job, l.now, ok)
  }

  // ----- runs -----

  function After(cfg: Config, s: State, l: Label): State
    requires Fits(cfg, s) && Enabled(s, l)
  {
    if l.Pass? then AfterPass(cfg, s, l) else AfterSegment(cfg, s, l)
  }

  function Shows(cfg: Config, s: State, l: Label): seq<Observation>
    requires Fits(cfg, s) && Enabled(s, l)
  {
    if l.Pass? then PassShows(cfg, s, l) else SegmentShows(cfg, s, l)
  }

  /** The state at which runs begin: the start-up apply has taken its snapshot and holds the lock. */
  predicate Initial(cfg: Config, s: State) {
    && |cfg.modes| > 0
    && ChoiceFits(cfg, s.choice)
    && s.choice.current == 0 && !s.choice.modeChanged && !s.choice.submodeChanged && !s.choice.selection
    && s.modeChanging
    && s.lastGood == Selected(cfg, s.choice) && !s.applyError
    && s.pendingApply == Target(0, 0)
    && !s.pendingEnable && s.rebindChan == []
    && s.jobs == [Rebuilding(s.lastGood)]
    && !s.shuttingDown
  }

  /** `shown[n]` is everything shown in the first `n` steps, the start-up apply's beginning included. */
  datatype Run = Run(states: seq<State>, labels: seq<Label>, shown: seq<seq<Observation>>)

  /** A step; leaving the bounds would stop the daemon with an index panic. */
  predicate Step(cfg: Config, s: State, l: Label, s': State) {
    Fits(cfg, s) && Enabled(s, l) && s' == After(cfg, s, l)
  }

  ghost predicate StepAt(cfg: Config, run: Run, i: nat) {
    && i < |run.labels| && i + 1 < |run.states| == |run.shown|
    && Step(cfg, run.states[i], run.labels[i], run.states[i + 1])
    && run.shown[i + 1] == run.shown[i] + Shows(cfg, run.states[i], run.labels[i])
  }

  ghost predicate IsRun(cfg: Config, run: Run) {
    && |run.states| == |run.shown| == |run.labels| + 1
    && Initial(cfg, run.states[0])
    && run.shown[0] == [Requested, Began(run.states[0].lastGood, false)]
    && forall i: nat :: i < |run.labels| ==> StepAt(cfg, run, i)
  }
}
