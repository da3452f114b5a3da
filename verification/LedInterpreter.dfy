/**
 * The LED interpreter: `SetMode`, `Start` and `Stop` cancel and replace the goroutine that plays
 * the current mode. Everything happens under one lock, so each locked section is a step.
 */
module LedInterpreter {
  import opened Text
  import opened LedProgram

  /** A goroutine started by `start_mode_loop_locked`; `era` is the SetMode it was started under. */
  datatype Loop = Loop(cancelled: bool, done: bool, era: nat)

  datatype State = State(
      program: Program, running: bool, modeCancel: Option<nat>, loops: seq<Loop>, era: nat, clock: int)

  datatype Label =
    | SetMode(mode: Mode)
    | Start
    | Stop
    | Tick(beat: Beat)
    | LoopRound(loop: nat, beat: Beat)   // the locked section of a goroutine's round
    | LoopLeaves(loop: nat)              // its wait ends because its context is cancelled

  predicate Enabled(s: State, l: Label) {
    match l
    case Tick(b) => s.clock <= b.now
    case LoopRound(k, b) => k < |s.loops| && !s.loops[k].done && s.clock <= b.now
    case LoopLeaves(k) => k < |s.loops| && !s.loops[k].done && s.loops[k].cancelled
    case _ => true
  }

  /** `mode_cancel()`, if set. */
  function Cancelled(s: State): State {
    if s.modeCancel.Some? && s.modeCancel.value < |s.loops| then
      var k := s.modeCancel.value;
      s.(modeCancel := None, loops := s.loops[k := s.loops[k].(cancelled := true)])
    else s.(modeCancel := None)
  }

  function StartLoop(s: State): State {
    s.(modeCancel := Some(|s.loops|), loops := s.loops + [Loop(false, false, s.era)])
  }

  /** A goroutine plays a beat unless the interpreter stopped or its context was cancelled. */
  predicate Plays(s: State, k: nat) {
    k < |s.loops| && s.running && !s.loops[k].cancelled && !s.loops[k].done
  }

  function After(s: State, l: Label): State
    requires Enabled(s, l)
  {
    match l
    case SetMode(mode) =>
      var replaced := Cancelled(s).(program := Fresh(mode, s.program.lit), era := s.era + 1);
      if s.running then StartLoop(replaced) else replaced
    case Start => if s.running then s else StartLoop(s.(running := true))
    case Stop => if s.running then Cancelled(s.(running := false)) else s
    case Tick(b) => s.(program := Play(s.program, b), clock := b.now)
    case LoopRound(k, b) =>
      if Plays(s, k) then s.(program := Play(s.program, b), clock := b.now)
      else s.(loops := s.loops[k := s.loops[k].(done := true)], clock := b.now)
    case LoopLeaves(k) => s.(loops := s.loops[k := s.loops[k].(done := true)])
  }

  predicate Initial(s: State) {
    s.program == Program([], false, 0, None, 0, s.program.lit) && !s.running && s.modeCancel == None && s.loops == []
  }

  datatype Run = Run(states: seq<State>, labels: seq<Label>)

  ghost predicate StepAt(run: Run, i: nat) {
    && i < |run.labels| && i + 1 < |run.states|
    && Enabled(run.states[i], run.labels[i])
    && run.states[i + 1] == After(run.states[i], run.labels[i])
  }

  ghost predicate IsRun(run: Run) {
    && |run.states| == |run.labels| + 1
    && Initial(run.states[0])
    && forall i: nat :: i < |run.labels| ==> StepAt(run, i)
  }

  // ----- one live loop -----

  /** The uncancelled loop, if any, is the one that `mode_cancel` cancels; it belongs to the current mode. */
  predicate Inv(s: State) {
    && (s.running <==> s.modeCancel.Some?)
    && (s.modeCancel.Some? ==> s.modeCancel.value < |s.loops|)
    && forall k :: 0 <= k < |s.loops| ==>
         && (!s.loops[k].cancelled <==> s.modeCancel == Some(k))
         && (!s.loops[k].cancelled ==> !s.loops[k].done && s.loops[k].era == s.era)
         && s.loops[k].era <= s.era
  }

  lemma {:induction false} StepKeeps(s: State, l: Label)
    requires Inv(s) && Enabled(s, l)
    ensures Inv(After(s, l))
  {
  }

  lemma {:induction false} RunKeeps(run: Run, n: nat)
    requires IsRun(run) && n <= |run.labels|
    ensures Inv(run.states[n])
  {
    if n > 0 {
      RunKeeps(run, n - 1);
      assert StepAt(run, n - 1);
      StepKeeps(run.states[n - 1], run.labels[n - 1]);
    }
  }

  function Live(s: State): set<nat> {
    set k: nat | k < |s.loops| && !s.loops[k].cancelled
  }

  lemma {:induction false} LiveCount(s: State)
    requires Inv(s)
    ensures |Live(s)| == if s.running then 1 else 0
  {
    if s.running {
      assert Live(s) == {s.modeCancel.value};
    } else {
      assert Live(s) == {};
    }
  }

  /** Exactly one uncancelled loop exists while the interpreter runs, none otherwise. */
  lemma {:induction false} OneLiveLoop(run: Run, n: nat)
    requires IsRun(run) && n <= |run.labels|
    ensures var s := run.states[n]; |Live(s)| == if s.running then 1 else 0
  {
    RunKeeps(run, n);
    LiveCount(run.states[n]);
  }

  /** A goroutine started under an earlier mode touches nothing once `SetMode` has returned. */
  lemma {:induction false} StaleLoopsAreMute(run: Run, n: nat, k: nat, b: Beat)
    requires IsRun(run) && n <= |run.labels|
    requires k < |run.states[n].loops| && run.states[n].loops[k].era < run.states[n].era
    requires Enabled(run.states[n], LoopRound(k, b))
    ensures !Plays(run.states[n], k)
    ensures After(run.states[n], LoopRound(k, b)).program == run.states[n].program
  {
    RunKeeps(run, n);
  }

  // ----- the program under concurrent loops -----

  predicate Succeeds(l: Label) {
    (l.Tick? || l.LoopRound?) ==> l.beat.ok
  }

  lemma {:induction false} AppendBeat(p: Program, beats: seq<Beat>, b: Beat)
    ensures PlayAll(p, beats + [b]) == Play(PlayAll(p, beats), b)
    ensures Actions(p, beats + [b]) == Actions(p, beats) + if Idles(PlayAll(p, beats), b.now) then 0 else 1
  {
    assert (beats + [b])[..|beats|] == beats;
  }

  /** Step `j` plays the beat `b`. */
  ghost predicate PlaysAt(run: Run, j: nat, b: Beat) {
    && StepAt(run, j)
    && (|| run.labels[j] == Tick(b)
        || (run.labels[j].LoopRound? && run.labels[j].beat == b && Plays(run.states[j], run.labels[j].loop)))
  }

  /** Step `j` plays a beat: a tick, or a goroutine's round that is allowed to play. */
  ghost predicate Beats(run: Run, j: nat)
    requires j < |run.labels| && j < |run.states|
  {
    run.labels[j].Tick? || (run.labels[j].LoopRound? && Plays(run.states[j], run.labels[j].loop))
  }

  ghost function BeatAt(run: Run, j: nat): seq<Beat>
    requires j < |run.labels| && j < |run.states|
  {
    if Beats(run, j) then [run.labels[j].beat] else []
  }

  ghost function ActionsAt(run: Run, j: nat): nat
    requires j < |run.labels| && j < |run.states|
  {
    if Beats(run, j) && !Idles(run.states[j].program, run.labels[j].beat.now) then 1 else 0
  }

  /** The actions executed in steps `k` to `n`, by ticks and by loops that were allowed to play. */
  ghost function ActionsIn(run: Run, k: nat, n: nat): nat
    requires IsRun(run) && k <= n <= |run.labels|
  {
    if k == n then 0 else ActionsIn(run, k, n - 1) + ActionsAt(run, n - 1)
  }

  /** A step without a mode change plays its beat or leaves the program alone. */
  lemma {:induction false} QuietStep(run: Run, j: nat)
    requires j < |run.labels| && j < |run.states| && StepAt(run, j) && !run.labels[j].SetMode?
    ensures var s, l, t := run.states[j], run.labels[j], run.states[j + 1];
            && s.clock <= t.clock
            && if Beats(run, j) then
                 PlaysAt(run, j, l.beat) && t.program == Play(s.program, l.beat) && t.clock == l.beat.now
               else t.program == s.program
  {
  }

  /** The beats played in steps `k` to `n`, by whichever loops were live. */
  ghost function BeatsIn(run: Run, k: nat, n: nat): seq<Beat>
    requires IsRun(run) && k <= n <= |run.labels|
  {
    if k == n then [] else BeatsIn(run, k, n - 1) + BeatAt(run, n - 1)
  }

  /** No mode change in steps `k` to `n`. */
  ghost predicate OneMode(run: Run, k: nat, n: nat)
    requires n <= |run.labels|
  {
    forall i :: k <= i < n ==> !run.labels[i].SetMode?
  }

  /** No mode change and no LED error in steps `k` to `n`. */
  ghost predicate Undisturbed(run: Run, k: nat, n: nat)
    requires n <= |run.labels|
  {
    OneMode(run, k, n) && forall i :: k <= i < n ==> Succeeds(run.labels[i])
  }

  lemma {:induction false} BeatsInOrder(run: Run, k: nat, n: nat)
    requires IsRun(run) && k <= n <= |run.labels| && OneMode(run, k, n)
    ensures var beats := BeatsIn(run, k, n);
            InOrder(beats) && forall i :: 0 <= i < |beats| ==> beats[i].now <= run.states[n].clock
  {
    if k < n {
      BeatsInOrder(run, k, n - 1);
      assert StepAt(run, n - 1);
      QuietStep(run, n - 1);
    }
  }

  lemma {:induction false} BeatsSucceed(run: Run, k: nat, n: nat)
    requires IsRun(run) && k <= n <= |run.labels| && Undisturbed(run, k, n)
    ensures NoErrors(BeatsIn(run, k, n))
  {
    if k < n {
      BeatsSucceed(run, k, n - 1);
    }
  }

  lemma {:induction false} NoBeats(run: Run, k: nat, n: nat)
    requires IsRun(run) && k <= n <= |run.labels| && OneMode(run, k, n) && BeatsIn(run, k, n) == []
    ensures run.states[n].program == run.states[k].program
  {
    if k < n {
      NoBeats(run, k, n - 1);
      assert StepAt(run, n - 1);
      QuietStep(run, n - 1);
    }
  }

  lemma {:induction false} FirstBeat(run: Run, k: nat, n: nat) returns (start: nat)
    requires IsRun(run) && k <= n <= |run.labels| && OneMode(run, k, n) && BeatsIn(run, k, n) != []
    ensures k <= start < n && PlaysAt(run, start, BeatsIn(run, k, n)[0]) &&
            run.states[start].program == run.states[k].program
  {
    if BeatsIn(run, k, n - 1) != [] {
      start := FirstBeat(run, k, n - 1);
    } else {
      start := n - 1;
      NoBeats(run, k, start);
      assert StepAt(run, start);
      QuietStep(run, start);
    }
  }

  lemma {:induction false} PlayedOn(run: Run, j: nat, p: Program, beats: seq<Beat>, more: seq<Beat>)
    requires j < |run.labels| && j < |run.states| && StepAt(run, j) && !run.labels[j].SetMode?
    requires run.states[j].program == PlayAll(p, beats) && more == beats + BeatAt(run, j)
    ensures run.states[j + 1].program == PlayAll(p, more)
    ensures Actions(p, more) == Actions(p, beats) + ActionsAt(run, j)
  {
    QuietStep(run, j);
    if Beats(run, j) {
      AppendBeat(p, beats, run.labels[j].beat);
    } else {
      assert beats + [] == beats;
    }
  }

  /**
   * Between two mode changes the program is what a single player would have made of it: the beats
   * of whichever loops were live, in the order of time.
   */
  lemma {:induction false} SinceSetMode(run: Run, k: nat, n: nat)
    requires IsRun(run) && k <= n <= |run.labels| && OneMode(run, k, n)
    ensures run.states[n].program == PlayAll(run.states[k].program, BeatsIn(run, k, n))
    ensures Actions(run.states[k].program, BeatsIn(run, k, n)) == ActionsIn(run, k, n)
  {
    if k < n {
      SinceSetMode(run, k, n - 1);
      assert StepAt(run, n - 1);
      PlayedOn(run, n - 1, run.states[k].program, BeatsIn(run, k, n - 1), BeatsIn(run, k, n));
    }
  }

  /**
   * Position and time in every run: after `SetMode` of a mode with at least two actions, with no
   * LED errors, the index, the counter and the LED are those of the number of actions executed, and a counter
   * of `k` means that `k` times the mode's waiting time has passed since its first action.
   */
  lemma {:induction false} RunPosition(run: Run, k: nat, n: nat) returns (start: nat)
    requires IsRun(run) && 0 < k <= n <= |run.labels|
    requires run.labels[k - 1].SetMode? && |run.labels[k - 1].mode| >= 2 && Undisturbed(run, k, n)
    ensures var p, mode, done := run.states[n].program, run.labels[k - 1].mode, ActionsIn(run, k, n);
            && p.mode == mode
            && p.index == done % |mode|
            && p.loopCount == Saturated(LoopsBegun(done, |mode|))
            && p.lit == Shown(mode, done, run.states[k - 1].program.lit)
            && (done > 0 ==> k <= start < n && run.states[start].program.loopCount == -1)
            && (done > 0 ==> exists b :: PlaysAt(run, start, b))
            && forall loops: nat :: loops <= p.loopCount ==>
                 done > 0 && run.labels[start].beat.now + loops * Waits(mode, |mode|) <= run.states[n].clock
  {
    var mode := run.labels[k - 1].mode;
    assert StepAt(run, k - 1);
    var lit := run.states[k - 1].program.lit;
    assert run.states[k].program == Fresh(mode, lit);
    var beats := BeatsIn(run, k, n);
    BeatsInOrder(run, k, n);
    BeatsSucceed(run, k, n);
    SinceSetMode(run, k, n);
    start := k;
    if beats != [] {
      start := FirstBeat(run, k, n);
    }
    var done, first, last := PlayAllExecutes(mode, lit, beats);
    LitIsLastSwitch(mode, lit, beats);
    var p := run.states[n].program;
    forall loops: nat | loops <= p.loopCount
      ensures done > 0 && run.labels[start].beat.now + loops * Waits(mode, |mode|) <= run.states[n].clock
    {
      LoopsTakeTime(p, done, first, last, loops);
    }
  }

  lemma {:induction false} StartsFresh(run: Run, k: nat)
    requires IsRun(run) && 0 < k <= |run.labels| && run.labels[k - 1].SetMode?
    ensures run.states[k].program == Fresh(run.labels[k - 1].mode, run.states[k - 1].program.lit)
  {
    assert StepAt(run, k - 1);
  }

  /**
   * Position in every run, LED errors included: since `SetMode` of a mode with at least two actions
   * the index is that of the successful actions, and the counter is ahead of the loops that these
   * began by one for every failed attempt at the first action.
   */
  lemma {:induction false} RunPositionWithErrors(run: Run, k: nat, n: nat)
    requires IsRun(run) && 0 < k <= n <= |run.labels|
    requires run.labels[k - 1].SetMode? && |run.labels[k - 1].mode| >= 2 && OneMode(run, k, n)
    ensures var mode, beats := run.labels[k - 1].mode, BeatsIn(run, k, n);
            var start, p := Fresh(mode, run.states[k - 1].program.lit), run.states[n].program;
            p.mode == mode && Attempted(p, Successes(start, beats), FailedStarts(start, beats))
  {
    StartsFresh(run, k);
    SinceSetMode(run, k, n);
    PositionWithErrors(run.labels[k - 1].mode, run.states[k - 1].program.lit, BeatsIn(run, k, n));
  }

  /** Modes of one action in every run: attempted until it succeeds, shown from then on, and counted. */
  lemma {:induction false} RunOneAction(run: Run, k: nat, n: nat, a: Action)
    requires IsRun(run) && 0 < k <= n <= |run.labels|
    requires run.labels[k - 1] == SetMode([a]) && OneMode(run, k, n)
    ensures var p, beats, before := run.states[n].program, BeatsIn(run, k, n), run.states[k - 1].program.lit;
            && p.lit == (if SuitsSome(a, beats) then Switched(a, before) else before)
            && p.loopCount == Saturated(Attempts(a, beats) - 1)
            && p.init == SuitsSome(a, beats)
  {
    StartsFresh(run, k);
    SinceSetMode(run, k, n);
    OneAction(a, run.states[k - 1].program.lit, BeatsIn(run, k, n));
  }

  // ----- the interpreter object -----

  class Interpreter {
    var mode: Mode
    var init: bool
    var modeActionIndex: int
    var nextActionTime: Option<int>
    var loopCount: int
    var lit: bool
    var running: bool
    var modeCancel: Option<nat>
    var loops: seq<Loop>
    var era: nat
    ghost var clock: int

    function Playing(): Program
      reads this
    {
      Program(mode, init, modeActionIndex, nextActionTime, loopCount, lit)
    }

    ghost function Value(): State
      reads this
    {
      State(Playing(), running, modeCancel, loops, era, clock)
    }

    /** One uncancelled loop, of the current mode, exactly while the interpreter runs. */
    ghost predicate Valid()
      reads this
    {
      Inv(Value())
    }

    constructor (lit: bool)
      ensures Initial(Value()) && Valid()
    {
      mode, init, modeActionIndex, nextActionTime, loopCount, this.lit := [], false, 0, None, 0, lit;
      running, modeCancel, loops, era, clock := false, None, [], 0, 0;
    }

    method CancelLoop()
      modifies `modeCancel, `loops
      ensures Value() == Cancelled(old(Value()))
    {
      if modeCancel.Some? && modeCancel.value < |loops| {
        loops := loops[modeCancel.value := loops[modeCancel.value].(cancelled := true)];
      }
      modeCancel := None;
    }

    method StartModeLoop()
      modifies `modeCancel, `loops
      ensures Value() == StartLoop(old(Value()))
    {
      modeCancel := Some(|loops|);
      loops := loops + [Loop(false, false, era)];
    }

    /** Afterwards no loop of an earlier mode is left uncancelled. */
    method SetMode(mode: Mode)
      requires Valid()
      modifies this
      ensures Value() == After(old(Value()), Label.SetMode(mode)) && Valid()
      ensures forall k :: 0 <= k < |old(loops)| ==> k < |loops| && loops[k].cancelled
    {
      StepKeeps(Value(), Label.SetMode(mode));
      CancelLoop();
      init, modeActionIndex, this.mode, nextActionTime, loopCount := false, 0, mode, None, -1;
      era := era + 1;
      if running {
        StartModeLoop();
      }
    }

    method Start()
      requires Valid()
      modifies `running, `modeCancel, `loops
      ensures Value() == After(old(Value()), Label.Start) && Valid() && |Live(Value())| == 1
    {
      StepKeeps(Value(), Label.Start);
      LiveCount(After(Value(), Label.Start));
      if running { return; }
      running := true;
      StartModeLoop();
    }

    method Stop()
      requires Valid()
      modifies `running, `modeCancel, `loops
      ensures Value() == After(old(Value()), Label.Stop) && Valid() && Live(Value()) == {}
    {
      StepKeeps(Value(), Label.Stop);
      LiveCount(After(Value(), Label.Stop));
      if !running { return; }
      running := false;
      CancelLoop();
    }

    method Act(now: int, ok: bool) returns (failed: bool)
      modifies `modeActionIndex, `nextActionTime, `loopCount, `lit
      ensures Playing() == LedProgram.Act(old(Playing()), now, ok)
      ensures failed <==> !ok && !Idles(old(Playing()), now) && !mode[old(modeActionIndex) % |mode|].Wait?
    {
      if |mode| == 0 || (|mode| == 1 && init) { return false; }
      if nextActionTime.Some? && now < nextActionTime.value { return false; }
      modeActionIndex := modeActionIndex % |mode|;
      loopCount := loopCount + if modeActionIndex == 0 then 1 else 0;
      if loopCount >= SATURATION {
        loopCount := RESTART;
      }
      match mode[modeActionIndex] {
        case On =>
          if !ok { return true; }
          lit := true;
        case Off =>
          if !ok { return true; }
          lit := false;
        case Wait(d) => nextActionTime := Some(now + d);
      }
      modeActionIndex := (modeActionIndex + 1) % |mode|;
      return false;
    }

    /** The part that `Tick` and a loop's round share. */
    method PlayBeat(b: Beat)
      modifies `modeActionIndex, `nextActionTime, `loopCount, `lit, `init
      ensures Playing() == Play(old(Playing()), b)
    {
      if init {
        var _ := Act(b.now, b.ok);
      } else {
        modeActionIndex := 0;
        var failed := Act(b.now, b.ok);
        if !failed {
          init := true;
        }
      }
    }

    /** The locked section of goroutine `k`: it ends, or it plays one beat. */
    method Round(k: nat, b: Beat) returns (leaves: bool)
      requires Valid() && Enabled(Value(), LoopRound(k, b))
      modifies this
      ensures Value() == After(old(Value()), LoopRound(k, b)) && Valid()
      ensures leaves <==> !Plays(old(Value()), k)
      ensures old(loops[k].era) < era ==> Playing() == old(Playing())
    {
      StepKeeps(Value(), LoopRound(k, b));
      clock := b.now;
      leaves := !running || loops[k].cancelled;
      if leaves {
        loops := loops[k := loops[k].(done := true)];
      } else {
        PlayBeat(b);
      }
    }
  }
}
