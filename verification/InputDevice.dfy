/**
 * The button device: key presses, the long-tap timer and injected events fill a queue; a one-slot
 * wake channel and the multi-tap timer bring the consumer back to it.
 *
 * A producer changes the device under its lock and signals afterwards, so a step ends at each
 * unlock; `signals` counts the producers and timer callbacks that are still to signal.
 */
module InputDevice {
  import opened Text
  import opened TapChains

  /** The unset time. */
  const TIME_ZERO: int := 0

  datatype Consumer = AtSelect | Handling

  datatype State = State(
    pressed: bool,
    pressStart: int,
    reported: bool,             // long_tap_reported
    queue: seq<Event>,
    wake: bool,                 // the one slot of the wake channel
    signals: nat,
    multiTapTimer: Option<int>, // when it fires
    consumer: Consumer,
    starts: seq<int>,           // history: when each press so far began
    log: seq<Logged>)           // history: events queued by presses, with the press they belong to

  datatype Logged = Logged(press: int, event: Event)

  datatype Label =
    | KeyDown(time: int)
    | KeyUp(time: int)
    | LongTapFires(now: int)    // a long-tap timer callback, possibly one armed by an earlier press
    | InjectEvent(event: Event)
    | InjectPress(duration: int, now: int)
    | Signal                    // signal_wake after an unlock, or in a timer callback
    | MultiTapFires(now: int)
    | WakeUp(received: bool)    // the consumer leaves its select, by the wake slot or another channel
    | DrainEvents(now: int)

  predicate Enabled(cfg: Config, s: State, l: Label) {
    match l
    case LongTapFires(_) => cfg.longTapImmediately && cfg.longTapThreshold > 0
    case Signal => s.signals > 0
    case MultiTapFires(now) => s.multiTapTimer.Some? && s.multiTapTimer.value <= now
    case WakeUp(received) => s.consumer.AtSelect? && (received ==> s.wake)
    case DrainEvents(_) => s.consumer.Handling?
    case _ => true
  }

  /** An event queued by the press that is going on. */
  function Queued(s: State, e: Event): State {
    s.(queue := s.queue + [e], log := s.log + [Logged(|s.starts| - 1, e)])
  }

  function PressEvent(cfg: Config, duration: int, time: int): Event {
    Event(if duration >= cfg.longTapThreshold then LongTap else Tap, time, duration, 1, true)
  }

  function OnKeyDown(s: State, time: int): State {
    if s.pressed then s
    else
      s.(pressed := true, pressStart := time, reported := false, starts := s.starts + [time], signals := s.signals + 1)
  }

  /** A release: a press already reported only resets, any other queues its event. */
  function OnKeyUp(cfg: Config, s: State, time: int): State {
    if !s.pressed then s
    else
      var start := if s.pressStart == TIME_ZERO then time else s.pressStart;
      (if s.reported then s.(reported := false) else Queued(s, PressEvent(cfg, time - start, time)))
      .(pressed := false, pressStart := TIME_ZERO, signals := s.signals + 1)
  }

  function OnLongTap(cfg: Config, s: State, now: int): State {
    if !s.pressed || s.reported || now - s.pressStart < cfg.longTapThreshold then s
    else Queued(s, Event(LongTap, now, now - s.pressStart, 1, true)).(reported := true, wake := true)
  }

  /** Draining, and the timer that brings the consumer back when a chain is put back. */
  function OnDrain(cfg: Config, s: State, now: int): State {
    var d, s' := Drain(cfg, s.queue, now), s.(consumer := AtSelect);
    if s.queue == [] || cfg.multipleTapThreshold < 0 then s'.(queue := d.rest)
    else if d.rest == [] then s'.(queue := [], multiTapTimer := None)
    else
      var due := Last(d.rest).time + cfg.multipleTapThreshold;
      if due <= now then s'.(queue := d.rest, multiTapTimer := None, wake := true)
      else s'.(queue := d.rest, multiTapTimer := Some(due))
  }

  function After(cfg: Config, s: State, l: Label): State {
    match l
    case KeyDown(time) => OnKeyDown(s, time)
    case KeyUp(time) => OnKeyUp(cfg, s, time)
    case LongTapFires(now) => OnLongTap(cfg, s, now)
    case InjectEvent(e) => s.(queue := s.queue + [e], signals := s.signals + 1)
    case InjectPress(d, now) => s.(pressed := true, pressStart := now - d, reported := true, signals := s.signals + 1)
    case Signal => if s.signals == 0 then s else s.(signals := s.signals - 1, wake := true)
    case MultiTapFires(_) => s.(multiTapTimer := None, signals := s.signals + 1)
    case WakeUp(received) => s.(wake := s.wake && !received, consumer := Handling)
    case DrainEvents(now) => OnDrain(cfg, s, now)
  }

  predicate Initial(s: State) {
    s == State(false, TIME_ZERO, false, [], false, 0, None, AtSelect, [], [])
  }

  datatype Run = Run(states: seq<State>, labels: seq<Label>)

  ghost predicate StepAt(cfg: Config, run: Run, i: nat) {
    && i < |run.labels| && i + 1 < |run.states|
    && Enabled(cfg, run.states[i], run.labels[i])
    && run.states[i + 1] == After(cfg, run.states[i], run.labels[i])
  }

  ghost predicate IsRun(cfg: Config, run: Run) {
    && |run.states| == |run.labels| + 1
    && Initial(run.states[0])
    && forall i: nat :: i < |run.labels| ==> StepAt(cfg, run, i)
  }

  // ----- no lost wake-up -----

  /** Something will bring the consumer back: a signal, or the timer of the chain that was put back. */
  predicate WillWake(cfg: Config, s: State) {
    || s.wake
    || s.signals > 0
    || (&& s.queue != [] && IsChain(cfg, s.queue)
        && s.multiTapTimer == Some(Last(s.queue).time + cfg.multipleTapThreshold))
  }

  predicate Awake(cfg: Config, s: State) {
    s.consumer.AtSelect? && s.queue != [] ==> WillWake(cfg, s)
  }

  lemma {:induction false} StepStaysAwake(cfg: Config, s: State, l: Label)
    requires Awake(cfg, s) && Enabled(cfg, s, l)
    ensures Awake(cfg, After(cfg, s, l))
  {
    if l.DrainEvents? && cfg.multipleTapThreshold >= 0 {
      ScanKeepsChain(cfg, [], s.queue);
    }
  }

  /**
   * Whenever the consumer is about to block with events in the queue, the wake slot is full, a
   * producer is about to fill it, or the multi-tap timer stands at the last tap plus the threshold.
   */
  lemma {:induction false} NoLostWakeUp(cfg: Config, run: Run, n: nat)
    requires IsRun(cfg, run) && n <= |run.labels|
    ensures run.states[n].consumer.AtSelect? && run.states[n].queue != [] ==> WillWake(cfg, run.states[n])
  {
    if n > 0 {
      NoLostWakeUp(cfg, run, n - 1);
      assert StepAt(cfg, run, n - 1);
      StepStaysAwake(cfg, run.states[n - 1], run.labels[n - 1]);
    }
  }

  // ----- one event per press -----

  predicate KindFits(cfg: Config, e: Event) {
    match e.kind
    case LongTap => e.duration >= cfg.longTapThreshold
    case Tap => e.duration < cfg.longTapThreshold
    case _ => false
  }

  /** An event spans the press it belongs to, unless that began at the unset time. */
  predicate Spans(e: Event, start: int) {
    start != TIME_ZERO ==> e.time - e.duration == start
  }

  /** The log has exactly one entry for each completed press, and one for a press reported early. */
  predicate OnePerPress(cfg: Config, s: State) {
    && (s.pressed ==> s.starts != [] && s.pressStart == Last(s.starts))
    && (s.reported ==> s.pressed)
    && |s.log| == (if s.pressed && !s.reported then |s.starts| - 1 else |s.starts|)
    && forall i :: 0 <= i < |s.log| ==>
         s.log[i].press == i && KindFits(cfg, s.log[i].event) && Spans(s.log[i].event, s.starts[i])
  }

  // Injected presses are never released by anyone, so they meet real releases.

  /**
   * What a run has seen: releases, those among them that an injected press swallowed, injected
   * presses that came while nothing was pressed, whether the press going on was touched by an
   * injection, and whether it is `hollow`, that is, marked as reported by that and not by an event.
   */
  datatype Tally = Tally(releases: nat, swallowed: nat, phantoms: nat, touched: bool, hollow: bool)

  function Count(s: State, l: Label, t: Tally): Tally {
    match l
    case KeyUp(_) =>
      var lost := if t.hollow then 1 else 0;
      if s.pressed then Tally(t.releases + 1, t.swallowed + lost, t.phantoms, false, false) else t
    case InjectPress(_, _) =>
      var phantom, hollow := if s.pressed then 0 else 1, t.hollow || !(s.pressed && s.reported);
      t.(phantoms := t.phantoms + phantom, touched := true, hollow := hollow)
    case _ => t
  }

  ghost function TallyAt(cfg: Config, run: Run, n: nat): Tally
    requires IsRun(cfg, run) && n <= |run.labels|
  {
    if n == 0 then Tally(0, 0, 0, false, false)
    else Count(run.states[n - 1], run.labels[n - 1], TallyAt(cfg, run, n - 1))
  }

  /** A press whose event has been queued early. */
  predicate Early(s: State, t: Tally) {
    s.pressed && s.reported && !t.hollow
  }

  /** Every logged event belongs to a press of its own, in order, and spans it. */
  predicate LogFits(cfg: Config, log: seq<Logged>, starts: seq<int>) {
    && (forall i :: 0 <= i < |log| ==>
          0 <= log[i].press < |starts| && KindFits(cfg, log[i].event) && Spans(log[i].event, starts[log[i].press]))
    && (forall i, j :: 0 <= i < j < |log| ==> log[i].press < log[j].press)
  }

  predicate Accounted(cfg: Config, s: State, t: Tally) {
    && (s.reported ==> s.pressed)
    && (t.hollow ==> s.pressed && s.reported)
    && t.releases + (if Early(s, t) then 1 else 0) == |s.log| + t.swallowed
    && |s.starts| + t.phantoms == t.releases + (if s.pressed then 1 else 0)
    && LogFits(cfg, s.log, s.starts)
    && (t.touched ==> s.pressed && s.reported)
    && (s.pressed && !t.touched ==> s.starts != [] && s.pressStart == Last(s.starts))
    && (s.pressed && !s.reported ==> forall i :: 0 <= i < |s.log| ==> s.log[i].press < |s.starts| - 1)
  }

  lemma {:induction false} LogMore(cfg: Config, log: seq<Logged>, starts: seq<int>, e: Event)
    requires LogFits(cfg, log, starts) && starts != [] && forall i :: 0 <= i < |log| ==> log[i].press < |starts| - 1
    requires KindFits(cfg, e) && Spans(e, Last(starts))
    ensures LogFits(cfg, log + [Logged(|starts| - 1, e)], starts)
  {
  }

  lemma {:induction false} KeyUpAccounts(cfg: Config, s: State, t: Tally, time: int)
    requires Accounted(cfg, s, t)
    ensures Accounted(cfg, OnKeyUp(cfg, s, time), Count(s, KeyUp(time), t))
  {
    if s.pressed && !s.reported {
      var start := if s.pressStart == TIME_ZERO then time else s.pressStart;
      LogMore(cfg, s.log, s.starts, PressEvent(cfg, time - start, time));
    }
  }

  lemma {:induction false} LongTapAccounts(cfg: Config, s: State, t: Tally, now: int)
    requires Accounted(cfg, s, t)
    ensures Accounted(cfg, OnLongTap(cfg, s, now), t)
  {
    if s.pressed && !s.reported && now - s.pressStart >= cfg.longTapThreshold {
      LogMore(cfg, s.log, s.starts, Event(LongTap, now, now - s.pressStart, 1, true));
    }
  }

  lemma {:induction false} KeyDownAccounts(cfg: Config, s: State, t: Tally, time: int)
    requires Accounted(cfg, s, t)
    ensures Accounted(cfg, OnKeyDown(s, time), t)
  {
  }

  lemma {:induction false} InjectionAccounts(cfg: Config, s: State, t: Tally, d: int, now: int)
    requires Accounted(cfg, s, t)
    ensures Accounted(cfg, After(cfg, s, InjectPress(d, now)), Count(s, InjectPress(d, now), t))
  {
  }

  /** Nothing else touches the press or its record. */
  lemma {:induction false} OthersAccount(cfg: Config, s: State, l: Label, t: Tally)
    requires Accounted(cfg, s, t)
    requires !l.KeyDown? && !l.KeyUp? && !l.LongTapFires? && !l.InjectPress?
    ensures Accounted(cfg, After(cfg, s, l), Count(s, l, t))
  {
    var s' := After(cfg, s, l);
    assert s'.pressed == s.pressed && s'.pressStart == s.pressStart && s'.reported == s.reported;
    assert s'.starts == s.starts && s'.log == s.log;
  }

  lemma {:induction false} StepAccounts(cfg: Config, s: State, l: Label, t: Tally)
    requires Accounted(cfg, s, t) && Enabled(cfg, s, l)
    ensures Accounted(cfg, After(cfg, s, l), Count(s, l, t))
  {
    match l {
      case KeyDown(time) => KeyDownAccounts(cfg, s, t, time);
      case KeyUp(time) => KeyUpAccounts(cfg, s, t, time);
      case LongTapFires(now) => LongTapAccounts(cfg, s, t, now);
      case InjectPress(d, now) => InjectionAccounts(cfg, s, t, d, now);
      case _ => OthersAccount(cfg, s, l, t);
    }
  }

  /**
   * In every run, injected presses included and timer callbacks firing whenever they like, releases
   * are logged events plus releases that met a hollow press (one event ahead while a long tap has
   * been reported and its key is still down); and each event belongs to a press of its own, is a
   * long tap that lasted at least the threshold or a tap that lasted less, and ends that long after
   * its press began.
   */
  lemma {:induction false} ReleasesAccounted(cfg: Config, run: Run, n: nat)
    requires IsRun(cfg, run) && n <= |run.labels|
    ensures Accounted(cfg, run.states[n], TallyAt(cfg, run, n))
  {
    if n > 0 {
      ReleasesAccounted(cfg, run, n - 1);
      assert StepAt(cfg, run, n - 1);
      StepAccounts(cfg, run.states[n - 1], run.labels[n - 1], TallyAt(cfg, run, n - 1));
    }
  }

  lemma {:induction false} NoInjectionNoLoss(cfg: Config, run: Run, n: nat)
    requires IsRun(cfg, run) && n <= |run.labels|
    requires forall i :: 0 <= i < n ==> !run.labels[i].InjectPress?
    ensures var t := TallyAt(cfg, run, n); t.swallowed == 0 && t.phantoms == 0 && !t.touched && !t.hollow
  {
    if n > 0 {
      NoInjectionNoLoss(cfg, run, n - 1);
    }
  }

  lemma {:induction false} AtLeastIndex(log: seq<Logged>, i: nat)
    requires i < |log| && log[0].press >= 0 && forall i, j :: 0 <= i < j < |log| ==> log[i].press < log[j].press
    ensures log[i].press >= i
  {
    if i > 0 {
      AtLeastIndex(log, i - 1);
    }
  }

  lemma {:induction false} AtMostIndex(log: seq<Logged>, i: nat)
    requires i < |log| && Last(log).press < |log| && forall i, j :: 0 <= i < j < |log| ==> log[i].press < log[j].press
    ensures log[i].press <= i
    decreases |log| - i
  {
    if i < |log| - 1 {
      AtMostIndex(log, i + 1);
    }
  }

  /** Presses log what they queue and queue what they log. */
  lemma {:induction false} LogIsQueued(cfg: Config, s: State, l: Label)
    requires Enabled(cfg, s, l) && !l.InjectEvent? && !l.DrainEvents?
    ensures var s' := After(cfg, s, l);
            || (s'.queue == s.queue && s'.log == s.log)
            || exists e :: s'.queue == s.queue + [e] && s'.log == s.log + [Logged(|s.starts| - 1, e)]
  {
    var s' := After(cfg, s, l);
    if |s'.log| > |s.log| {
      var e := Last(s'.log).event;
      assert s'.queue == s.queue + [e] && s'.log == s.log + [Logged(|s.starts| - 1, e)];
    }
  }

  /**
   * In every run without injected presses, press number `i` has queued exactly one event once it is
   * over: nothing is swallowed, so the accounts leave one event for each press.
   */
  lemma {:induction false} OneEventPerPress(cfg: Config, run: Run, n: nat)
    requires IsRun(cfg, run) && n <= |run.labels|
    requires forall i :: 0 <= i < n ==> !run.labels[i].InjectPress?
    ensures OnePerPress(cfg, run.states[n])
  {
    ReleasesAccounted(cfg, run, n);
    NoInjectionNoLoss(cfg, run, n);
    var s := run.states[n];
    forall i | 0 <= i < |s.log| ensures s.log[i].press == i {
      AtLeastIndex(s.log, i);
      AtMostIndex(s.log, i);
    }
  }

  /**
   * A key down and a key up queue exactly one event unless they meet a press that is marked as
   * reported; then they queue nothing.
   */
  lemma {:induction false} PressQueuesIff(cfg: Config, s: State, down: int, up: int)
    ensures var s' := After(cfg, After(cfg, s, KeyDown(down)), KeyUp(up));
            && (|s'.queue| == |s.queue| + 1 <==> !(s.pressed && s.reported))
            && (s.pressed && s.reported ==> s'.queue == s.queue && s'.log == s.log)
            && (!(s.pressed && s.reported) ==> s'.queue[..|s.queue|] == s.queue)
  {
  }

  /** An injected press swallows the next real one, and one that is already going on. */
  lemma {:induction false} InjectedPressSwallows(cfg: Config, s: State, d: int, now: int, down: int, up: int)
    ensures var before := After(cfg, After(cfg, After(cfg, s, InjectPress(d, now)), KeyDown(down)), KeyUp(up));
            before.queue == s.queue && before.log == s.log && !before.pressed
    ensures var amid := After(cfg, After(cfg, After(cfg, s, KeyDown(down)), InjectPress(d, now)), KeyUp(up));
            amid.queue == s.queue && amid.log == s.log && !amid.pressed
  {
  }

  // ----- what arrives in the queue -----

  /** A long-tap callback that reports: the key is down, unreported, and has been down for the threshold. */
  predicate Reports(cfg: Config, s: State, now: int) {
    s.pressed && !s.reported && now - s.pressStart >= cfg.longTapThreshold
  }

  /**
   * A long-tap callback at `now` queues and records exactly the long tap of the press going on, marks
   * that press as reported and wakes the consumer, if the key is down, unreported, and has been down
   * for the threshold; otherwise it changes nothing.
   */
  lemma {:induction false} LongTapReportsIff(cfg: Config, s: State, now: int)
    ensures var r, e := After(cfg, s, LongTapFires(now)), Event(LongTap, now, now - s.pressStart, 1, true);
            if Reports(cfg, s, now) then
              && r.queue == s.queue + [e] && r.log == s.log + [Logged(|s.starts| - 1, e)]
              && r == s.(queue := r.queue, log := r.log, reported := true, wake := true)
            else r == s
  {
  }

  /** In every run such a callback's long tap belongs to the press that is still going on, and spans it. */
  lemma {:induction false} LongTapIsOfThePress(cfg: Config, run: Run, n: nat)
    requires IsRun(cfg, run) && n < |run.labels| && run.labels[n].LongTapFires?
    requires Reports(cfg, run.states[n], run.labels[n].now)
    ensures var s, r := run.states[n], run.states[n + 1];
            && r.pressed && r.reported && s.starts != [] && r.starts == s.starts
            && |r.log| == |s.log| + 1 && Last(r.log).press == |r.starts| - 1
            && Last(r.log).event.kind == LongTap && Last(r.log).event.time == run.labels[n].now
            && Last(r.log).event.time - Last(r.log).event.duration == Last(r.starts)
  {
    ReleasesAccounted(cfg, run, n);
    assert StepAt(cfg, run, n);
    LongTapReportsIff(cfg, run.states[n], run.labels[n].now);
  }

  /** What a step brings in: an injected event, the event of a release, or that of a long-tap callback. */
  function Arrives(cfg: Config, s: State, l: Label): seq<Event> {
    match l
    case InjectEvent(e) => [e]
    case KeyUp(time) =>
      if !s.pressed || s.reported then []
      else
        var duration := if s.pressStart == TIME_ZERO then 0 else time - s.pressStart;
        [Event(if duration >= cfg.longTapThreshold then LongTap else Tap, time, duration, 1, true)]
    case LongTapFires(now) => if Reports(cfg, s, now) then [Event(LongTap, now, now - s.pressStart, 1, true)] else []
    case _ => []
  }

  lemma {:induction false} QueueGrows(cfg: Config, s: State, l: Label)
    requires !l.DrainEvents?
    ensures After(cfg, s, l).queue == s.queue + Arrives(cfg, s, l)
  {
    if l.LongTapFires? {
      LongTapReportsIff(cfg, s, l.now);
    }
    assert s.queue + [] == s.queue;
  }

  /**
   * What a drain leaves to wake the consumer: no timer when nothing is put back; otherwise the timer
   * at the end of the last tap's window, or a full wake slot when that is no longer to come.
   */
  lemma {:induction false} DrainArms(cfg: Config, s: State, now: int)
    requires s.queue != [] && cfg.multipleTapThreshold >= 0
    ensures var r, rest := After(cfg, s, DrainEvents(now)), Drain(cfg, s.queue, now).rest;
            if rest == [] then r.multiTapTimer == None && r.wake == s.wake
            else
              var end := rest[|rest| - 1].time + cfg.multipleTapThreshold;
              if end > now then r.multiTapTimer == Some(end) && r.wake == s.wake else r.multiTapTimer == None && r.wake
  {
  }

  /** The drains of a run so far, each with what arrived before it, what arrived since, and what was given out. */
  datatype History = History(rounds: seq<Round>, since: seq<Event>, out: seq<Event>)

  function Recorded(cfg: Config, h: History, s: State, l: Label): History {
    if l.DrainEvents? then History(h.rounds + [Round(h.since, l.now)], [], h.out + Drain(cfg, s.queue, l.now).out)
    else h.(since := h.since + Arrives(cfg, s, l))
  }

  ghost predicate RecordedAt(cfg: Config, run: Run, hs: seq<History>, i: nat) {
    && i < |run.labels| && i < |run.states| && i + 1 < |hs|
    && hs[i + 1] == Recorded(cfg, hs[i], run.states[i], run.labels[i])
  }

  /** The histories along a run, one for each of its states. */
  ghost predicate IsHistory(cfg: Config, run: Run, hs: seq<History>) {
    && |hs| == |run.labels| + 1 && hs[0] == History([], [], [])
    && forall i: nat :: i < |run.labels| ==> RecordedAt(cfg, run, hs, i)
  }

  /** What was given out and what is queued are what the drains make of what arrived. */
  predicate Served(cfg: Config, h: History, queue: seq<Event>) {
    Serve(cfg, [], h.rounds).out == h.out && Serve(cfg, [], h.rounds).rest + h.since == queue
  }

  lemma {:induction false} ServeMore(cfg: Config, rounds: seq<Round>, r: Round)
    ensures var d := Serve(cfg, [], rounds);
            Serve(cfg, [], rounds + [r]) == Prepend(d.out, Drain(cfg, d.rest + r.batch, r.now))
  {
    assert (rounds + [r])[..|rounds|] == rounds;
  }

  lemma {:induction false} DrainLeaves(cfg: Config, s: State, now: int)
    ensures OnDrain(cfg, s, now).queue == Drain(cfg, s.queue, now).rest
  {
  }

  lemma {:induction false} DrainServes(cfg: Config, h: History, s: State, now: int)
    requires Served(cfg, h, s.queue)
    ensures Served(cfg, Recorded(cfg, h, s, DrainEvents(now)), OnDrain(cfg, s, now).queue)
  {
    ServeMore(cfg, h.rounds, Round(h.since, now));
    DrainLeaves(cfg, s, now);
    var rest := Drain(cfg, s.queue, now).rest;
    assert rest + [] == rest;
  }

  lemma {:induction false} ArrivalServes(cfg: Config, h: History, s: State, l: Label)
    requires Served(cfg, h, s.queue) && !l.DrainEvents?
    ensures Served(cfg, Recorded(cfg, h, s, l), After(cfg, s, l).queue)
  {
    QueueGrows(cfg, s, l);
    var rest, more := Serve(cfg, [], h.rounds).rest, Arrives(cfg, s, l);
    assert rest + (h.since + more) == rest + h.since + more;
  }

  lemma {:induction false} NothingServed(cfg: Config)
    ensures Served(cfg, History([], [], []), [])
  {
  }

  /**
   * In every run, what the consumer has been given and what is left is what the drains make of what
   * arrived, in the order of arrival: nothing else comes in, and nothing gets lost on the way.
   */
  lemma {:induction false} RunServes(cfg: Config, run: Run, hs: seq<History>, n: nat)
    requires IsRun(cfg, run) && IsHistory(cfg, run, hs) && n <= |run.labels|
    ensures Served(cfg, hs[n], run.states[n].queue)
  {
    if n == 0 {
      NothingServed(cfg);
    } else {
      RunServes(cfg, run, hs, n - 1);
      RunStepServes(cfg, run, hs, n - 1);
    }
  }

  lemma {:induction false} RunStepServes(cfg: Config, run: Run, hs: seq<History>, i: nat)
    requires IsRun(cfg, run) && IsHistory(cfg, run, hs) && i < |run.labels|
    requires Served(cfg, hs[i], run.states[i].queue)
    ensures Served(cfg, hs[i + 1], run.states[i + 1].queue)
  {
    assert StepAt(cfg, run, i) && RecordedAt(cfg, run, hs, i);
    StepServes(cfg, hs[i], run.states[i], run.labels[i]);
  }

  lemma {:induction false} StepServes(cfg: Config, h: History, s: State, l: Label)
    requires Served(cfg, h, s.queue)
    ensures Served(cfg, Recorded(cfg, h, s, l), After(cfg, s, l).queue)
  {
    if l.DrainEvents? {
      DrainServes(cfg, h, s, l.now);
    } else {
      ArrivalServes(cfg, h, s, l);
    }
  }

  // ----- the device object -----

  class Device {
    const cfg: Config

    var pressed: bool
    var pressStart: int
    var longTapReported: bool
    var eventQueue: seq<Event>
    var wake: bool
    var multiTapTimer: Option<int>
    ghost var signals: nat
    ghost var consumer: Consumer
    ghost var starts: seq<int>
    ghost var log: seq<Logged>

    ghost function Value(): State
      reads this
    {
      State(pressed, pressStart, longTapReported, eventQueue, wake, signals, multiTapTimer, consumer, starts, log)
    }

    constructor (raw: Config)
      ensures cfg == Normalize(raw) && Initial(Value())
    {
      cfg := Normalize(raw);
      pressed, pressStart, longTapReported, eventQueue := false, TIME_ZERO, false, [];
      wake, multiTapTimer, signals, consumer, starts, log := false, None, 0, AtSelect, [], [];
    }

    method PushPressEvent(e: Event)
      modifies `eventQueue, `log
      ensures Value() == Queued(old(Value()), e)
    {
      eventQueue := eventQueue + [e];
      log := log + [Logged(|starts| - 1, e)];
    }

    method ResetPress()
      modifies `pressed, `pressStart
      ensures !pressed && pressStart == TIME_ZERO
    {
      pressed, pressStart := false, TIME_ZERO;
    }

    method KeyDown(time: int)
      modifies this
      ensures Value() == After(cfg, old(Value()), Label.KeyDown(time))
    {
      if pressed { return; }
      pressed, pressStart, longTapReported := true, time, false;
      starts, signals := starts + [time], signals + 1;
    }

    method KeyUp(time: int)
      modifies this
      ensures Value() == After(cfg, old(Value()), Label.KeyUp(time))
    {
      if !pressed { return; }
      signals := signals + 1;
      if pressStart == TIME_ZERO {
        pressStart := time;
      }
      var duration := time - pressStart;
      if longTapReported {
        longTapReported := false;
        ResetPress();
        return;
      }
      var kind := if duration >= cfg.longTapThreshold then LongTap else Tap;
      ResetPress();
      PushPressEvent(Event(kind, time, duration, 1, true));
    }

    /** The callback of a long-tap timer. */
    method LongTapFired(now: int)
      modifies this
      ensures Value() == After(cfg, old(Value()), LongTapFires(now))
    {
      if !pressed || longTapReported { return; }
      var duration := now - pressStart;
      if duration < cfg.longTapThreshold { return; }
      longTapReported := true;
      PushPressEvent(Event(LongTap, now, duration, 1, true));
      wake := true;
    }

    method Inject(e: Event)
      modifies `eventQueue, `signals
      ensures Value() == After(cfg, old(Value()), InjectEvent(e))
    {
      eventQueue, signals := eventQueue + [e], signals + 1;
    }

    method SimulatePress(duration: int, now: int)
      modifies this
      ensures Value() == After(cfg, old(Value()), InjectPress(duration, now))
    {
      pressed, pressStart, longTapReported := true, now - duration, true;
      signals := signals + 1;
    }

    /** `State`: the press going on, if any, without changing anything. */
    method PressState(now: int) returns (st: Option<Event>)
      ensures st.Some? <==> pressed
      ensures st.Some? && pressStart != TIME_ZERO ==>
                st.value.time - st.value.duration == pressStart && KindFits(cfg, st.value) && st.value.time == now
      ensures st.Some? && pressStart == TIME_ZERO ==> st.value.time == now && st.value.duration == 0
    {
      if !pressed { return None; }
      var start := if pressStart == TIME_ZERO then now else pressStart;
      return Some(PressEvent(cfg, now - start, now));
    }

    /** The merging loop of `DrainEvents`. */
    method MergeEvents(events: seq<Event>) returns (result: seq<Event>, chain: seq<Event>)
      ensures Scanned(result, chain) == Scan(cfg, [], events)
    {
      result, chain := [], [];
      for i := 0 to |events|
        invariant Scanned(result, chain) == Scan(cfg, [], events[..i])
      {
        var event := events[i];
        assert events[..i + 1][..i] == events[..i];
        if event.kind != Tap
           || (|chain| > 0 && event.time - chain[|chain| - 1].time > cfg.multipleTapThreshold)
           || |chain| >= cfg.multipleTapMaxCount {
          if |chain| > 0 {
            result := result + [Merge(chain)];
            chain := [];
          }
          result := result + [event];
          continue;
        }
        chain := chain + [event];
      }
      assert events[..|events|] == events;
    }

    method ArmMultiTapTimer(now: int, wait: int)
      modifies `multiTapTimer, `wake
      ensures wait <= 0 ==> multiTapTimer == None && wake
      ensures wait > 0 ==> multiTapTimer == Some(now + wait) && wake == old(wake)
    {
      multiTapTimer := None;
      if wait <= 0 {
        wake := true;
      } else {
        multiTapTimer := Some(now + wait);
      }
    }

    method Drain(now: int) returns (out: seq<Event>)
      modifies `eventQueue, `multiTapTimer, `wake, `consumer
      ensures out == TapChains.Drain(cfg, old(eventQueue), now).out
      ensures Value() == After(cfg, old(Value()), DrainEvents(now))
    {
      consumer := AtSelect;
      if |eventQueue| == 0 {
        assert Scan(cfg, [], eventQueue) == Scanned([], []);
        return [];
      }
      var events := eventQueue;
      eventQueue := [];
      if cfg.multipleTapThreshold < 0 {
        return events;
      }
      var chain;
      out, chain := MergeEvents(events);
      multiTapTimer := None;
      if |chain| > 0 {
        var last := chain[|chain| - 1];
        if now - last.time > cfg.multipleTapThreshold {
          out := out + [Merge(chain)];
        } else {
          eventQueue := chain;
          ArmMultiTapTimer(now, cfg.multipleTapThreshold - (now - last.time));
        }
      }
    }
  }
}
