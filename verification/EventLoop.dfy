/**
 * The blocking side of the daemon's main loop: it arms one lazy timer, blocks on its channels and
 * handles a wake-up, while presses, injected events, IPC requests and applies go on around it.
 */
module EventLoop {
  import opened Text
  import Input = InputDevice
  import TapChains

  datatype Config = Config(input: TapChains.Config, shutdownThreshold: int)

  datatype Place = Arming | Blocked | Woken | Exited

  datatype State = State(
    input: Input.State,
    pendingEnable: bool,
    enableDeadline: int,
    rebindChan: seq<int>,
    requests: nat,            // queued in gadget_req_chan
    ipcSignals: nat,          // requests sent whose sender is still to signal
    ipcWake: bool,
    changePending: bool,      // mode_changed
    locked: bool,             // mode_changing
    working: bool,            // an apply or finish goroutine runs
    lazyTimer: Option<int>,   // when it is due; it stays readable from then on
    place: Place,
    clock: int)

  /** The size of `gadget_req_chan`. */
  const REQUEST_CAPACITY: nat := 4

  datatype Cause = InputWake | IpcWake | RebindMessage | TimerDue

  datatype Action =
    | DeviceStep(step: Input.Label)   // anything but the consumer's own steps
    | SendRequest
    | IpcSignal
    | SetSlot                         // signal_wake from elsewhere
    | PhaseOneDone(deadline: int)
    | ReleaseLock                     // the end of an apply, without a signal
    | Arm
    | Select(cause: Cause)
    | Handle(changes: bool)           // whether what it takes in selects anything anew

  datatype Label = At(now: int, action: Action)

  /** The earliest deadline in force, as `arm_lazy_wait` computes it. */
  function NextDeadline(cfg: Config, s: State, now: int): Option<int> {
    var rebind := if s.pendingEnable then Some(s.enableDeadline) else None;
    if cfg.shutdownThreshold > 0 && s.input.pressed then
      var start := if s.input.pressStart == Input.TIME_ZERO then now else s.input.pressStart;
      var held := now + (cfg.shutdownThreshold - (now - start));
      if rebind.None? || held < rebind.value then Some(held) else rebind
    else rebind
  }

  /** `arm_lazy_wait`: a deadline already passed arms the timer for right now. */
  function ArmedTimer(cfg: Config, s: State, now: int): Option<int> {
    match NextDeadline(cfg, s, now)
    case None => None
    case Some(deadline) => Some(if deadline < now then now else deadline)
  }

  /** A deadline that the loop has to keep: the armed rebind's, or that of the press going on. */
  predicate InForce(cfg: Config, s: State, now: int, d: int) {
    || (s.pendingEnable && d == s.enableDeadline)
    || (&& cfg.shutdownThreshold > 0 && s.input.pressed
        && d == (if s.input.pressStart == Input.TIME_ZERO then now else s.input.pressStart) + cfg.shutdownThreshold)
  }

  predicate Least(cfg: Config, s: State, now: int, d: int) {
    InForce(cfg, s, now, d) &&
    (s.pendingEnable ==> d <= s.enableDeadline) &&
    (cfg.shutdownThreshold > 0 && s.input.pressed ==>
       d <= (if s.input.pressStart == Input.TIME_ZERO then now else s.input.pressStart) + cfg.shutdownThreshold)
  }

  /**
   * The timer is armed exactly when there is a deadline to keep, for the least of them if that is
   * still to come, and for right now if it has passed: neither late nor early.
   */
  lemma {:induction false} ArmsForTheLeast(cfg: Config, s: State, now: int)
    ensures ArmedTimer(cfg, s, now) == None <==> forall d :: !InForce(cfg, s, now, d)
    ensures forall d :: Least(cfg, s, now, d) ==> ArmedTimer(cfg, s, now) == Some(if d < now then now else d)
    ensures forall d, d' :: Least(cfg, s, now, d) && InForce(cfg, s, now, d') ==> d <= d'
  {
    var press := (if s.input.pressStart == Input.TIME_ZERO then now else s.input.pressStart) + cfg.shutdownThreshold;
    if ArmedTimer(cfg, s, now) != None {
      assert InForce(cfg, s, now, if s.pendingEnable then s.enableDeadline else press);
    } else {
      assert forall d :: !InForce(cfg, s, now, d);
    }
  }

  /** The long press that ends the daemon. */
  predicate HeldLongEnough(cfg: Config, s: State, now: int) {
    cfg.shutdownThreshold > 0 && s.input.pressed &&
    now - (if s.input.pressStart == Input.TIME_ZERO then now else s.input.pressStart) >= cfg.shutdownThreshold
  }

  predicate Readable(s: State, cause: Cause, now: int) {
    match cause
    case InputWake => s.input.wake
    case IpcWake => s.ipcWake
    case RebindMessage => s.rebindChan != []
    case TimerDue => s.lazyTimer.Some? && s.lazyTimer.value <= now
  }

  predicate Enabled(cfg: Config, s: State, l: Label) {
    && s.clock <= l.now
    && match l.action
       case DeviceStep(step) => !step.WakeUp? && !step.DrainEvents? && Input.Enabled(cfg.input, s.input, step)
       case SendRequest => s.requests < REQUEST_CAPACITY
       case IpcSignal => s.ipcSignals > 0
       case SetSlot => true
       case PhaseOneDone(_) => s.working && s.rebindChan == []
       case ReleaseLock => s.working
       case Arm => s.place == Arming
       case Select(cause) => s.place == Blocked && Readable(s, cause, l.now)
       case Handle(changes) => s.place == Woken && (changes ==> s.requests > 0 || s.input.queue != [])
  }

  function OnSelect(cfg: Config, s: State, cause: Cause): State
    requires cause.RebindMessage? ==> s.rebindChan != []
  {
    var woken := s.(place := Woken, input := Input.After(cfg.input, s.input, Input.WakeUp(cause.InputWake?)));
    match cause
    case InputWake => woken
    case IpcWake => woken.(ipcWake := false)
    case RebindMessage =>
      woken.(enableDeadline := s.rebindChan[0], pendingEnable := true, rebindChan := s.rebindChan[1..])
    case TimerDue => woken
  }

  /** `handle_events` up to the shutdown check: a due rebind starts its finish goroutine. */
  function OnDeadline(s: State, now: int): State {
    if s.pendingEnable && s.enableDeadline <= now then s.(pendingEnable := false, working := true) else s
  }

  /** Its end: a pending change takes the lock, if that is free. */
  function OnChange(s: State): State {
    if s.changePending && !s.locked then s.(changePending := false, locked := true, working := true) else s
  }

  function OnHandle(cfg: Config, s: State, now: int, changes: bool): State {
    var s' := OnDeadline(s, now);
    if HeldLongEnough(cfg, s, now) then s'.(place := Exited)
    else
      OnChange(s'.(place := Arming, requests := 0, changePending := s.changePending || changes,
                   input := Input.After(cfg.input, s.input, Input.DrainEvents(now))))
  }

  function After(cfg: Config, before: State, l: Label): State
    requires Enabled(cfg, before, l)
  {
    var s := before.(clock := l.now);
    match l.action
    case DeviceStep(step) => s.(input := Input.After(cfg.input, s.input, step))
    case SendRequest => s.(requests := s.requests + 1, ipcSignals := s.ipcSignals + 1)
    case IpcSignal => if s.ipcSignals == 0 then s else s.(ipcSignals := s.ipcSignals - 1, ipcWake := true)
    case SetSlot => s.(ipcWake := true)
    case PhaseOneDone(deadline) => s.(rebindChan := [deadline], working := false)
    case ReleaseLock => s.(locked := false, working := false)
    case Arm => s.(place := Blocked, lazyTimer := ArmedTimer(cfg, s, l.now))
    case Select(cause) => OnSelect(cfg, s, cause)
    case Handle(changes) => OnHandle(cfg, s, l.now, changes)
  }

  /** The start-up apply holds the lock. */
  predicate Initial(s: State) {
    && Input.Initial(s.input) && !s.pendingEnable && s.rebindChan == []
    && s.requests == 0 && s.ipcSignals == 0 && !s.ipcWake
    && !s.changePending && s.locked && s.working
    && s.lazyTimer == None && s.place == Arming
  }

  datatype Run = Run(states: seq<State>, labels: seq<Label>)

  ghost predicate StepAt(cfg: Config, run: Run, i: nat) {
    && i < |run.labels| && i + 1 < |run.states|
    && Enabled(cfg, run.states[i], run.labels[i])
    && run.states[i + 1] == After(cfg, run.states[i], run.labels[i])
  }

  ghost predicate IsRun(cfg: Config, run: Run) {
    && |run.states| == |run.labels| + 1
    && Initial(run.states[0])
    && forall i: nat :: i < |run.labels| ==> StepAt(cfg, run, i)
  }

  // ----- coverage -----

  /** The timer is due by the deadline, or is already due now. */
  predicate TimerBy(s: State, deadline: int) {
    s.lazyTimer.Some? && (s.lazyTimer.value <= deadline || s.lazyTimer.value <= s.clock)
  }

  predicate InputStirs(s: State) {
    s.input.wake || s.input.signals > 0
  }

  /** A press that the shutdown check watches. */
  predicate Watched(cfg: Config, s: State) {
    cfg.shutdownThreshold > 0 && s.input.pressed && s.input.pressStart != Input.TIME_ZERO
  }

  predicate Covered(cfg: Config, s: State) {
    && (s.pendingEnable ==> TimerBy(s, s.enableDeadline))
    && (Watched(cfg, s) ==> TimerBy(s, s.input.pressStart + cfg.shutdownThreshold) || InputStirs(s))
    && (s.input.queue != [] ==> Input.WillWake(cfg.input, s.input))
    && RequestsHeard(s)
  }

  /** Queued requests have filled the wake slot, or one of their senders is about to. */
  predicate RequestsHeard(s: State) {
    s.requests > 0 ==> s.ipcWake || s.ipcSignals > 0
  }

  predicate Inv(cfg: Config, s: State) {
    && Input.Awake(cfg.input, s.input)
    && (s.place == Woken ==> s.input.consumer.Handling?)
    && (s.place == Arming || s.place == Blocked ==> s.input.consumer.AtSelect?)
    && (s.place == Arming ==> RequestsHeard(s))
    && (s.place == Blocked ==> Covered(cfg, s))
  }

  lemma {:induction false} DeviceStepKeeps(cfg: Config, s: State, step: Input.Label, now: int)
    requires Inv(cfg, s) && Enabled(cfg, s, At(now, DeviceStep(step)))
    ensures Inv(cfg, After(cfg, s, At(now, DeviceStep(step))))
  {
    Input.StepStaysAwake(cfg.input, s.input, step);
  }

  /** Applies do not bear on what wakes the loop. */
  lemma {:induction false} ChangeKeeps(cfg: Config, s: State)
    requires Inv(cfg, s)
    ensures Inv(cfg, OnChange(s))
  {
  }

  lemma {:induction false} HandleKeeps(cfg: Config, s: State, now: int, changes: bool)
    requires Inv(cfg, s) && Enabled(cfg, s, At(now, Handle(changes)))
    ensures Inv(cfg, After(cfg, s, At(now, Handle(changes))))
  {
    Input.StepStaysAwake(cfg.input, s.input, Input.DrainEvents(now));
    var s' := OnDeadline(s.(clock := now), now);
    var input := Input.After(cfg.input, s.input, Input.DrainEvents(now));
    assert input.consumer.AtSelect?;
    ChangeKeeps(cfg, s'.(place := Arming, requests := 0, changePending := s.changePending || changes, input := input));
  }

  /** Senders and signals only add to what is readable. */
  lemma {:induction false} SenderKeeps(cfg: Config, s: State, l: Label)
    requires Inv(cfg, s) && Enabled(cfg, s, l)
    requires l.action.SendRequest? || l.action.IpcSignal? || l.action.SetSlot?
    ensures Inv(cfg, After(cfg, s, l))
  {
  }

  lemma {:induction false} GoroutineKeeps(cfg: Config, s: State, l: Label)
    requires Inv(cfg, s) && Enabled(cfg, s, l) && (l.action.PhaseOneDone? || l.action.ReleaseLock?)
    ensures Inv(cfg, After(cfg, s, l))
  {
  }

  lemma {:induction false} ArmKeeps(cfg: Config, s: State, now: int)
    requires Inv(cfg, s) && Enabled(cfg, s, At(now, Arm))
    ensures Inv(cfg, After(cfg, s, At(now, Arm)))
  {
  }

  lemma {:induction false} SelectKeeps(cfg: Config, s: State, cause: Cause, now: int)
    requires Inv(cfg, s) && Enabled(cfg, s, At(now, Select(cause)))
    ensures Inv(cfg, After(cfg, s, At(now, Select(cause))))
  {
  }

  lemma {:induction false} StepKeeps(cfg: Config, s: State, l: Label)
    requires Inv(cfg, s) && Enabled(cfg, s, l)
    ensures Inv(cfg, After(cfg, s, l))
  {
    match l.action {
      case DeviceStep(step) => DeviceStepKeeps(cfg, s, step, l.now);
      case Handle(changes) => HandleKeeps(cfg, s, l.now, changes);
      case Arm => ArmKeeps(cfg, s, l.now);
      case Select(cause) => SelectKeeps(cfg, s, cause, l.now);
      case PhaseOneDone(_) => GoroutineKeeps(cfg, s, l);
      case ReleaseLock => GoroutineKeeps(cfg, s, l);
      case _ => SenderKeeps(cfg, s, l);
    }
  }

  lemma {:induction false} RunKeeps(cfg: Config, run: Run, n: nat)
    requires IsRun(cfg, run) && n <= |run.labels|
    ensures Inv(cfg, run.states[n])
  {
    if n > 0 {
      RunKeeps(cfg, run, n - 1);
      assert StepAt(cfg, run, n - 1);
      StepKeeps(cfg, run.states[n - 1], run.labels[n - 1]);
    }
  }

  /**
   * Whenever the main loop blocks, the armed rebind and a held button each have a timer due no
   * later than their deadline (or due already), the button possibly a pending wake-up instead; and
   * queued input events and queued requests have something that brings the loop back to them.
   */
  lemma {:induction false} BlockedIsCovered(cfg: Config, run: Run, n: nat)
    requires IsRun(cfg, run) && n <= |run.labels| && run.states[n].place == Blocked
    ensures Covered(cfg, run.states[n])
  {
    RunKeeps(cfg, run, n);
  }

  /** A deadline that has passed never leaves the loop asleep: a channel is readable or about to be. */
  lemma {:induction false} PassedDeadlineWakes(cfg: Config, run: Run, n: nat)
    requires IsRun(cfg, run) && n <= |run.labels| && run.states[n].place == Blocked
    requires var s := run.states[n];
             || (s.pendingEnable && s.enableDeadline <= s.clock)
             || (Watched(cfg, s) && s.input.pressStart + cfg.shutdownThreshold <= s.clock)
    ensures var s := run.states[n];
            || Enabled(cfg, s, At(s.clock, Select(TimerDue)))
            || Enabled(cfg, s, At(s.clock, Select(InputWake)))
            || Enabled(cfg, s, At(s.clock, DeviceStep(Input.Signal)))
  {
    RunKeeps(cfg, run, n);
  }

  /** Handling a wake-up ends the daemon exactly when a watched button has been down long enough. */
  lemma {:induction false} ShutdownIff(cfg: Config, s: State, now: int, changes: bool)
    requires Enabled(cfg, s, At(now, Handle(changes)))
    ensures After(cfg, s, At(now, Handle(changes))).place == Exited <==>
              Watched(cfg, s) && s.input.pressStart + cfg.shutdownThreshold <= now
  {
  }

  /** A handled wake-up leaves no rebind that was due: its finish goroutine runs. */
  lemma {:induction false} HandleStartsDue(cfg: Config, s: State, now: int, changes: bool)
    requires Enabled(cfg, s, At(now, Handle(changes))) && s.pendingEnable
    ensures var r := After(cfg, s, At(now, Handle(changes)));
            if s.enableDeadline <= now then !r.pendingEnable && r.working
            else r.pendingEnable && r.enableDeadline == s.enableDeadline
  {
  }

  /**
   * A simulated press that counts as held for the shutdown threshold: whenever the loop handles its
   * wake-up, at that time or later, the daemon ends.
   */
  lemma {:induction false} SimulatedShutdown(cfg: Config, s: State, d: int, now: int, later: int, changes: bool)
    requires s.place == Woken && s.clock <= now <= later && 0 < cfg.shutdownThreshold <= d && now - d != Input.TIME_ZERO
    requires var pressed := After(cfg, s, At(now, DeviceStep(Input.InjectPress(d, now))));
             Enabled(cfg, pressed, At(later, Handle(changes)))
    ensures var pressed := After(cfg, s, At(now, DeviceStep(Input.InjectPress(d, now))));
            After(cfg, pressed, At(later, Handle(changes))).place == Exited
  {
  }

  // ----- the loop object -----

  class LazyTimer {
    const shutdownThreshold: int
    var pendingEnable: bool
    var enableDeadline: int
    var due: Option<int>

    constructor (shutdownThreshold: int)
      ensures this.shutdownThreshold == shutdownThreshold && !pendingEnable && due == None
    {
      this.shutdownThreshold := shutdownThreshold;
      pendingEnable, enableDeadline, due := false, 0, None;
    }

    /** `arm_lazy_wait` in loop state `s`, given the press that the device reported at `now`. */
    method ArmLazyWait(press: Option<TapChains.Event>, now: int, ghost cfg: Config, ghost s: State)
      requires cfg.shutdownThreshold == shutdownThreshold
      requires s.pendingEnable == pendingEnable && s.enableDeadline == enableDeadline
      requires press.Some? == s.input.pressed
      requires press.Some? ==>
                 && press.value.time == now
                 && var start := if s.input.pressStart == Input.TIME_ZERO then now else s.input.pressStart;
                 && press.value.duration == now - start
      modifies `due
      ensures due == ArmedTimer(cfg, s, now)
    {
      var deadline: Option<int> := if pendingEnable then Some(enableDeadline) else None;
      if shutdownThreshold > 0 && press.Some? {
        var shutdownDeadline := press.value.time + (shutdownThreshold - press.value.duration);
        if deadline.None? || shutdownDeadline < deadline.value {
          deadline := Some(shutdownDeadline);
        }
      }
      if deadline.None? {
        due := None;
      } else {
        var wait := deadline.value - now;
        due := Some(now + if wait < 0 then 0 else wait);
      }
    }
  }
}
