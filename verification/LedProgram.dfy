/** The cyclic action program of one LED: on, off and wait steps, a time gate and a loop counter. */
module LedProgram {
  import opened Text
  import opened Division

  datatype Action = Off | On | Wait(duration: int)

  type Mode = seq<Action>

  /** `LedMode`: its builders append in place. */
  class ModeBuilder {
    var actions: Mode

    constructor ()
      ensures actions == []
    {
      actions := [];
    }

    method Add(a: Action)
      modifies this
      ensures actions == old(actions) + [a]
    {
      actions := actions + [a];
    }

    method OnDuration(d: int)
      modifies this
      ensures actions == old(actions) + [On, Wait(d), Off]
    {
      Add(On);
      Add(Wait(d));
      Add(Off);
    }
  }

  /** Entering or leaving the submode selection: dark for `d`. */
  function EntryMode(d: int): Mode {
    [Off, Wait(d)]
  }

  const SATURATION: int := MAX_INT / 2
  const RESTART: int := MAX_INT / 4

  datatype Program = Program(mode: Mode, init: bool, index: int, next: Option<int>, loopCount: int, lit: bool)

  /** What `SetMode` leaves: nothing executed yet, no gate, the counter one below the first loop. */
  function Fresh(mode: Mode, lit: bool): Program {
    Program(mode, false, 0, None, -1, lit)
  }

  /** `act` has nothing to do: no actions, a finished one-action mode, or a wait that is not over. */
  predicate Idles(p: Program, now: int) {
    || |p.mode| == 0
    || (|p.mode| == 1 && p.init)
    || (p.next.Some? && now < p.next.value)
  }

  /** The loop counter, one further when a new loop begins, kept below the saturation bound. */
  function Counted(loopCount: int, begins: bool): int {
    var c := if begins then loopCount + 1 else loopCount;
    if c >= SATURATION then RESTART else c
  }

  /** `act`: one action, unless the program idles; a failing LED write keeps the position. */
  function Act(p: Program, now: int, ok: bool): Program {
    if Idles(p, now) then p
    else
      var i := p.index % |p.mode|;
      var counted := p.(index := i, loopCount := Counted(p.loopCount, i == 0));
      var next := (i + 1) % |p.mode|;
      match p.mode[i]
      case On => if ok then counted.(lit := true, index := next) else counted
      case Off => if ok then counted.(lit := false, index := next) else counted
      case Wait(d) => counted.(next := Some(now + d), index := next)
  }

  /** One call of `Tick`, or one round of the event loop. */
  datatype Beat = Beat(now: int, ok: bool)

  function Play(p: Program, b: Beat): Program {
    if p.init then Act(p, b.now, b.ok)
    else
      var first := p.(index := 0);
      var acted := Act(first, b.now, b.ok);
      if b.ok || Idles(first, b.now) || first.mode[0].Wait? then acted.(init := true) else acted
  }

  function PlayAll(p: Program, beats: seq<Beat>): Program {
    if beats == [] then p else Play(PlayAll(p, beats[..|beats| - 1]), beats[|beats| - 1])
  }

  predicate InOrder(beats: seq<Beat>) {
    forall i, j :: 0 <= i <= j < |beats| ==> beats[i].now <= beats[j].now
  }

  predicate NoErrors(beats: seq<Beat>) {
    forall i :: 0 <= i < |beats| ==> beats[i].ok
  }

  /** How many of the beats execute an action. */
  function Actions(p: Program, beats: seq<Beat>): nat {
    if beats == [] then 0
    else
      var init, b := beats[..|beats| - 1], beats[|beats| - 1];
      Actions(p, init) + if Idles(PlayAll(p, init), b.now) then 0 else 1
  }

  // ----- reference: what `n` executed actions amount to -----

  /** Loops begun by `n` actions of a mode of length `len`, counted from -1: ceil(n / len) - 1. */
  function LoopsBegun(n: nat, len: nat): int
    requires len > 0
  {
    if n == 0 then -1 else (n - 1) / len
  }

  /** The counter's value after `c` loops: it saturates and then cycles below the bound. */
  function Saturated(c: int): int {
    if c < SATURATION then c else RESTART + (c - SATURATION) % (SATURATION - RESTART)
  }

  function Hold(a: Action): nat {
    match a
    case Wait(d) => if d > 0 then d else 0
    case _ => 0
  }

  /** The waiting time in the first `n` actions. */
  function Waits(mode: Mode, n: nat): nat
    requires |mode| > 0
  {
    if n == 0 then 0 else Waits(mode, n - 1) + Hold(mode[(n - 1) % |mode|])
  }

  lemma {:induction false} Successor(n: int, len: int)
    requires len > 0
    ensures n % len + 1 < len ==> (n + 1) / len == n / len && (n + 1) % len == n % len + 1
    ensures n % len + 1 == len ==> (n + 1) / len == n / len + 1 && (n + 1) % len == 0
  {
    var q, r := n / len, n % len;
    assert n == q * len + r;
    if r + 1 < len {
      Quotient(n + 1, len, q, r + 1);
    } else {
      assert n + 1 == (q + 1) * len + 0;
      Quotient(n + 1, len, q + 1, 0);
    }
  }

  lemma {:induction false} DivStep(n: nat, len: nat)
    requires len > 0
    ensures LoopsBegun(n + 1, len) == LoopsBegun(n, len) + if n % len == 0 then 1 else 0
    ensures (n + 1) % len == (n % len + 1) % len
  {
    Successor(n, len);
    if n % len + 1 < len {
      Quotient(n % len + 1, len, 0, n % len + 1);
    } else {
      Quotient(len, len, 1, 0);
    }
    if n > 0 {
      Successor(n - 1, len);
    } else {
      Quotient(0, len, 0, 0);
    }
  }

  lemma {:induction false} SaturatedStep(c: int)
    requires c >= -1
    ensures Saturated(c) == Counted(Saturated(c), false)
    ensures Saturated(c + 1) == Counted(Saturated(c), true)
  {
    var period := SATURATION - RESTART;
    if c >= SATURATION {
      var m := (c - SATURATION) % period;
      var q := (c - SATURATION) / period;
      assert c - SATURATION == q * period + m;
      if m + 1 < period {
        Quotient(c + 1 - SATURATION, period, q, m + 1);
      } else {
        assert c + 1 - SATURATION == (q + 1) * period + 0;
        Quotient(c + 1 - SATURATION, period, q + 1, 0);
      }
    }
  }

  lemma {:induction false} SaturatedBelow(c: int)
    requires c >= -1
    ensures Saturated(c) <= c
  {
    if c >= SATURATION {
      assert (c - SATURATION) % (SATURATION - RESTART) <= c - SATURATION;
    }
  }

  lemma {:induction false} WaitsMonotone(mode: Mode, m: nat, n: nat)
    requires |mode| > 0 && m <= n
    ensures Waits(mode, m) <= Waits(mode, n)
  {
    if m < n {
      WaitsMonotone(mode, m, n - 1);
    }
  }

  lemma {:induction false} WaitsShift(mode: Mode, base: nat, r: nat)
    requires |mode| > 0 && base % |mode| == 0
    ensures Waits(mode, base + r) == Waits(mode, base) + Waits(mode, r)
  {
    if r > 0 {
      WaitsShift(mode, base, r - 1);
      WholeShift(base, r - 1, |mode|);
    }
  }

  /** Whole loops wait whole multiples of the mode's own waiting time. */
  lemma {:induction false} WaitsOfLoops(mode: Mode, k: nat)
    requires |mode| > 0
    ensures Waits(mode, k * |mode|) == k * Waits(mode, |mode|)
  {
    if k > 0 {
      var base := (k - 1) * |mode|;
      WaitsOfLoops(mode, k - 1);
      WholeMultiple(k - 1, |mode|);
      WaitsShift(mode, base, |mode|);
      assert k * |mode| == base + |mode|;
      assert k * Waits(mode, |mode|) == (k - 1) * Waits(mode, |mode|) + Waits(mode, |mode|);
    } else {
      assert k * |mode| == 0;
    }
  }

  // ----- the program against the reference -----

  /** Position, counter and clock after `n` executed actions, the first at `first`, the last at `last`. */
  ghost predicate Executed(p: Program, n: nat, first: int, last: int)
    requires |p.mode| >= 2
  {
    && p.index == n % |p.mode|
    && p.loopCount == Saturated(LoopsBegun(n, |p.mode|))
    && (n == 0 ==> p.next == None)
    && (n > 0 ==>
          && p.init
          && first + Waits(p.mode, n - 1) <= last
          && (if p.mode[(n - 1) % |p.mode|].Wait? then p.next == Some(last + p.mode[(n - 1) % |p.mode|].duration)
              else p.next == None || p.next.value <= last))
  }

  /** What `Act` does at a normalized position. */
  lemma {:induction false} ActAt(p: Program, now: int, i: int)
    requires 0 <= i < |p.mode| && p.index == i && !Idles(p, now)
    ensures var q := Act(p, now, true);
            && q.mode == p.mode && q.init == p.init && q.index == (i + 1) % |p.mode|
            && q.loopCount == Counted(p.loopCount, i == 0)
            && q.next == if p.mode[i].Wait? then Some(now + p.mode[i].duration) else p.next
  {
    Quotient(i, |p.mode|, 0, i);
  }

  lemma {:induction false} PlayExecutes(p: Program, b: Beat, n: nat, first: int, last: int)
    returns (n': nat, first': int, last': int)
    requires |p.mode| >= 2 && b.ok && Executed(p, n, first, last) && (n > 0 ==> last <= b.now)
    ensures Play(p, b).mode == p.mode && Executed(Play(p, b), n', first', last')
    ensures n' > 0 && last' <= b.now
    ensures n' == n + if Idles(p, b.now) then 0 else 1
    ensures first' == if n == 0 then b.now else first
  {
    if n > 0 && Idles(p, b.now) {
      return n, first, last;
    }
    var len := |p.mode|;
    n', last' := n + 1, b.now;
    first' := if n == 0 then b.now else first;
    DivStep(n, len);
    SaturatedStep(LoopsBegun(n, len));
    ActAt(if p.init then p else p.(index := 0), b.now, n % len);
    assert Waits(p.mode, n) == if n == 0 then 0 else Waits(p.mode, n - 1) + Hold(p.mode[(n - 1) % len]);
  }

  lemma {:induction false} PlayAllExecutes(mode: Mode, lit: bool, beats: seq<Beat>)
    returns (n: nat, first: int, last: int)
    requires |mode| >= 2 && InOrder(beats) && NoErrors(beats)
    ensures var p := PlayAll(Fresh(mode, lit), beats); p.mode == mode && Executed(p, n, first, last)
    ensures beats != [] ==> n > 0 && last <= beats[|beats| - 1].now && first == beats[0].now
    ensures n == Actions(Fresh(mode, lit), beats)
  {
    if beats == [] {
      n, first, last := 0, 0, 0;
    } else {
      var init, b := beats[..|beats| - 1], beats[|beats| - 1];
      n, first, last := PlayAllExecutes(mode, lit, init);
      assert init != [] ==> init[|init| - 1] == beats[|init| - 1] && init[0] == beats[0];
      n, first, last := PlayExecutes(PlayAll(Fresh(mode, lit), init), b, n, first, last);
    }
  }

  /** What the LED shows after `n` actions: what the last switching one said. */
  function Shown(mode: Mode, n: nat, before: bool): bool
    requires |mode| > 0
  {
    if n == 0 then before
    else match mode[(n - 1) % |mode|]
      case On => true
      case Off => false
      case Wait(_) => Shown(mode, n - 1, before)
  }

  lemma {:induction false} PlayShows(p: Program, b: Beat, n: nat, first: int, last: int, before: bool)
    requires |p.mode| >= 2 && b.ok && Executed(p, n, first, last)
    requires p.lit == Shown(p.mode, n, before)
    ensures Play(p, b).lit == Shown(p.mode, n + if Idles(p, b.now) then 0 else 1, before)
  {
    var i := n % |p.mode|;
    Quotient(i, |p.mode|, 0, i);
  }

  /** The LED follows the program: after the executed actions it shows what the last On or Off said. */
  lemma {:induction false} LitIsLastSwitch(mode: Mode, lit: bool, beats: seq<Beat>)
    requires |mode| >= 2 && InOrder(beats) && NoErrors(beats)
    ensures PlayAll(Fresh(mode, lit), beats).lit == Shown(mode, Actions(Fresh(mode, lit), beats), lit)
  {
    if beats != [] {
      var init := beats[..|beats| - 1];
      LitIsLastSwitch(mode, lit, init);
      var n, first, last := PlayAllExecutes(mode, lit, init);
      PlayShows(PlayAll(Fresh(mode, lit), init), beats[|beats| - 1], n, first, last, lit);
    }
  }

  /**
   * A mode that has come to its `k`-th loop again has let at least `k` times its waiting time pass
   * since its first action.
   */
  lemma {:induction false} LoopsTakeTime(p: Program, n: nat, first: int, last: int, k: nat)
    requires |p.mode| >= 2 && Executed(p, n, first, last) && p.loopCount >= k
    ensures n > 0 && first + k * Waits(p.mode, |p.mode|) <= last
  {
    var len := |p.mode|;
    SaturatedBelow(LoopsBegun(n, len));
    assert n > 0;
    AtLeastMultiple(n - 1, len, k);
    WaitsMonotone(p.mode, k * len, n - 1);
    WaitsOfLoops(p.mode, k);
  }

  /** The entry mode is dark from its first action on. */
  lemma {:induction false} EntryModeDark(d: int, lit: bool, beats: seq<Beat>)
    requires NoErrors(beats)
    ensures var p := PlayAll(Fresh(EntryMode(d), lit), beats);
            p.mode == EntryMode(d) && (p.init <==> beats != []) && (beats != [] ==> !p.lit)
  {
    if beats != [] {
      EntryModeDark(d, lit, beats[..|beats| - 1]);
    }
  }

  lemma {:induction false} EntryTakesTime(p: Program, d: int, n: nat, first: int, last: int)
    requires p.mode == EntryMode(d) && Executed(p, n, first, last) && p.loopCount >= 1
    ensures n > 0 && first + d <= last
  {
    LoopsTakeTime(p, n, first, last, 1);
    assert Waits(p.mode, 2) == Waits(p.mode, 1) + Hold(Wait(d));
  }

  /** By the time the entry mode counts its first full loop, the LED has been dark its full duration. */
  lemma {:induction false} EntryModeLasts(d: int, lit: bool, beats: seq<Beat>)
    requires InOrder(beats) && NoErrors(beats)
    requires PlayAll(Fresh(EntryMode(d), lit), beats).loopCount >= 1
    ensures beats != [] && beats[|beats| - 1].now - beats[0].now >= d
    ensures forall i :: 0 < i <= |beats| ==> !PlayAll(Fresh(EntryMode(d), lit), beats[..i]).lit
  {
    var p := PlayAll(Fresh(EntryMode(d), lit), beats);
    var n, first, last := PlayAllExecutes(EntryMode(d), lit, beats);
    EntryTakesTime(p, d, n, first, last);
    forall i | 0 < i <= |beats| ensures !PlayAll(Fresh(EntryMode(d), lit), beats[..i]).lit {
      EntryModeDark(d, lit, beats[..i]);
    }
  }

  // ----- LED errors -----

  /** The action that a beat attempts. */
  function Position(p: Program): int
    requires |p.mode| > 0
  {
    if p.init then p.index % |p.mode| else 0
  }

  /** A beat attempts an action whose LED write fails. */
  predicate Fails(p: Program, b: Beat)
    requires |p.mode| > 0
  {
    !Idles(p, b.now) && !b.ok && !p.mode[Position(p)].Wait?
  }

  /** Playing keeps the mode. */
  lemma {:induction false} SameMode(p: Program, beats: seq<Beat>)
    ensures PlayAll(p, beats).mode == p.mode
  {
    if beats != [] {
      SameMode(p, beats[..|beats| - 1]);
    }
  }

  /** How many of the beats execute an action successfully. */
  function Successes(p: Program, beats: seq<Beat>): nat
    requires |p.mode| > 0
  {
    if beats == [] then 0
    else
      var init, b := beats[..|beats| - 1], beats[|beats| - 1];
      SameMode(p, init);
      var q := PlayAll(p, init);
      Successes(p, init) + if !Idles(q, b.now) && !Fails(q, b) then 1 else 0
  }

  /** How many of the beats fail at the first action of the mode. */
  function FailedStarts(p: Program, beats: seq<Beat>): nat
    requires |p.mode| > 0
  {
    if beats == [] then 0
    else
      var init, b := beats[..|beats| - 1], beats[|beats| - 1];
      SameMode(p, init);
      var q := PlayAll(p, init);
      FailedStarts(p, init) + if Fails(q, b) && Position(q) == 0 then 1 else 0
  }

  /** Position and counter after `n` successful actions and `f` failed attempts at the first one. */
  ghost predicate Attempted(p: Program, n: nat, f: nat)
    requires |p.mode| >= 2
  {
    && p.index == n % |p.mode|
    && p.loopCount == Saturated(LoopsBegun(n, |p.mode|) + f)
    && (p.init <==> n > 0)
    && (!p.init ==> p.next == None)
  }

  lemma {:induction false} ActSucceeds(p: Program, b: Beat, n: nat, f: nat)
    requires |p.mode| >= 2 && Attempted(p, n, f) && !Idles(p, b.now) && !Fails(p, b)
    ensures Play(p, b).mode == p.mode && Attempted(Play(p, b), n + 1, f)
  {
    var len := |p.mode|;
    Quotient(n % len, len, 0, n % len);
    DivStep(n, len);
    SaturatedStep(LoopsBegun(n, len) + f);
  }

  /** What a failing `Act` does at a normalized position. */
  lemma {:induction false} FailAt(p: Program, now: int, i: int)
    requires 0 <= i < |p.mode| && p.index == i && !Idles(p, now) && !p.mode[i].Wait?
    ensures Act(p, now, false) == p.(loopCount := Counted(p.loopCount, i == 0))
  {
    Quotient(i, |p.mode|, 0, i);
  }

  lemma {:induction false} ActFails(p: Program, b: Beat, n: nat, f: nat)
    requires |p.mode| >= 2 && Attempted(p, n, f) && Fails(p, b)
    ensures Play(p, b).mode == p.mode
    ensures Attempted(Play(p, b), n, f + if Position(p) == 0 then 1 else 0)
  {
    var i := n % |p.mode|;
    Quotient(i, |p.mode|, 0, i);
    FailAt(if p.init then p else p.(index := 0), b.now, i);
    SaturatedStep(LoopsBegun(n, |p.mode|) + f);
  }

  lemma {:induction false} PlayAttempts(p: Program, b: Beat, n: nat, f: nat, q: Program, n': nat, f': nat)
    requires |p.mode| >= 2 && Attempted(p, n, f) && q == Play(p, b)
    requires n' == n + if !Idles(p, b.now) && !Fails(p, b) then 1 else 0
    requires f' == f + if Fails(p, b) && Position(p) == 0 then 1 else 0
    ensures q.mode == p.mode && Attempted(q, n', f')
  {
    if Fails(p, b) {
      ActFails(p, b, n, f);
    } else if !Idles(p, b.now) {
      ActSucceeds(p, b, n, f);
    }
  }

  /**
   * Position and counter, LED errors included: a failed write keeps the position, and each failed
   * attempt at the first action counts as a loop.
   */
  lemma {:induction false} PositionWithErrors(mode: Mode, lit: bool, beats: seq<Beat>)
    requires |mode| >= 2
    ensures var p := PlayAll(Fresh(mode, lit), beats);
            p.mode == mode && Attempted(p, Successes(Fresh(mode, lit), beats), FailedStarts(Fresh(mode, lit), beats))
  {
    var start := Fresh(mode, lit);
    if beats != [] {
      var init, b := beats[..|beats| - 1], beats[|beats| - 1];
      PositionWithErrors(mode, lit, init);
      PlayAttempts(PlayAll(start, init), b, Successes(start, init), FailedStarts(start, init),
                   PlayAll(start, beats), Successes(start, beats), FailedStarts(start, beats));
    }
  }

  lemma {:induction false} SaturatedAtLeastOne(c: int)
    requires c >= -1
    ensures Saturated(c) >= 1 <==> c >= 1
  {
  }

  /**
   * With LED errors the entry mode's counter reaches one exactly when its second loop has begun or
   * attempts at its `Off` have failed: once before a success, or twice.
   */
  lemma {:induction false} EntryCounterIff(d: int, lit: bool, beats: seq<Beat>)
    ensures var start := Fresh(EntryMode(d), lit);
            PlayAll(start, beats).loopCount >= 1 <==>
                LoopsBegun(Successes(start, beats), 2) + FailedStarts(start, beats) >= 1
  {
    var start := Fresh(EntryMode(d), lit);
    PositionWithErrors(EntryMode(d), lit, beats);
    SaturatedAtLeastOne(LoopsBegun(Successes(start, beats), 2) + FailedStarts(start, beats));
  }

  /** One failed `Off` and the counter reaches one at once, with no wait and before any darkness lasted. */
  lemma {:induction false} FailedOffSkipsTheWait(d: int, lit: bool, now: int)
    ensures var p := PlayAll(Fresh(EntryMode(d), lit), [Beat(now, false), Beat(now, true)]);
            p.loopCount == 1 && p.next == None
  {
    var start, beats := Fresh(EntryMode(d), lit), [Beat(now, false), Beat(now, true)];
    assert beats[..1] == [Beat(now, false)] && beats[..1][..0] == [];
    assert PlayAll(start, []) == start;
    assert PlayAll(start, beats[..1]) == start.(loopCount := 0);
  }

  // ----- when an action is due -----

  /** The wait, if any, that the last of `n` executed actions began at `last` is over. */
  predicate WaitOver(mode: Mode, n: nat, last: int, now: int)
    requires |mode| > 0
  {
    n > 0 && mode[(n - 1) % |mode|].Wait? ==> last + mode[(n - 1) % |mode|].duration <= now
  }

  /**
   * A further beat executes the next action exactly when the wait that the last action began, if it
   * was one, is over: never earlier, and at the first beat that comes by then.
   */
  lemma {:induction false} BeatActsIff(mode: Mode, lit: bool, beats: seq<Beat>, b: Beat) returns (n: nat, last: int)
    requires |mode| >= 2 && InOrder(beats + [b]) && NoErrors(beats + [b])
    ensures n == Actions(Fresh(mode, lit), beats) && (beats == [] || last <= beats[|beats| - 1].now)
    ensures Actions(Fresh(mode, lit), beats + [b]) == n + if WaitOver(mode, n, last, b.now) then 1 else 0
  {
    var all := beats + [b];
    assert all[..|beats|] == beats;
    assert forall i :: 0 <= i < |beats| ==> beats[i] == all[i];
    assert all[|beats|] == b && (beats != [] ==> all[|beats| - 1].now <= b.now);
    var first;
    n, first, last := PlayAllExecutes(mode, lit, beats);
    DueIff(PlayAll(Fresh(mode, lit), beats), n, first, last, b.now);
  }

  lemma {:induction false} DueIff(p: Program, n: nat, first: int, last: int, now: int)
    requires |p.mode| >= 2 && Executed(p, n, first, last) && (n > 0 ==> last <= now)
    ensures !Idles(p, now) <==> WaitOver(p.mode, n, last, now)
  {
  }

  // ----- modes of one action, and of none -----

  /** A beat at which an action `a` would succeed. */
  predicate Suits(a: Action, b: Beat) {
    b.ok || a.Wait?
  }

  predicate SuitsSome(a: Action, beats: seq<Beat>) {
    exists i :: 0 <= i < |beats| && Suits(a, beats[i])
  }

  /** The attempts at a mode's only action: every beat up to the first that suits. */
  function Attempts(a: Action, beats: seq<Beat>): nat {
    if beats == [] then 0
    else
      var init := beats[..|beats| - 1];
      Attempts(a, init) + if SuitsSome(a, init) then 0 else 1
  }

  lemma {:induction false} SuitsMore(a: Action, beats: seq<Beat>)
    requires beats != []
    ensures SuitsSome(a, beats) <==> SuitsSome(a, beats[..|beats| - 1]) || Suits(a, beats[|beats| - 1])
  {
    var init := beats[..|beats| - 1];
    assert forall i :: 0 <= i < |init| ==> init[i] == beats[i];
    if SuitsSome(a, init) {
      var i :| 0 <= i < |init| && Suits(a, init[i]);
      assert Suits(a, beats[i]);
    }
  }

  /** The LED after a mode's only action: switched, or as before for a wait. */
  function Switched(a: Action, before: bool): bool {
    match a
    case On => true
    case Off => false
    case Wait(_) => before
  }

  /** A program of one action after `attempts` at it, the last of which may have succeeded. */
  ghost predicate Tried(p: Program, a: Action, attempts: nat, done: bool, before: bool) {
    && p.mode == [a] && p.index == 0
    && p.init == done && (!done ==> p.next == None)
    && p.lit == (if done then Switched(a, before) else before)
    && p.loopCount == Saturated(attempts - 1)
  }

  lemma {:induction false} TryOnce(p: Program, b: Beat, a: Action, attempts: nat, before: bool)
    requires Tried(p, a, attempts, false, before)
    ensures Tried(Play(p, b), a, attempts + 1, Suits(a, b), before)
  {
    SaturatedStep(attempts - 1);
    assert p.mode[0] == a;
  }

  lemma {:induction false} DoneIsDone(p: Program, b: Beat, a: Action, attempts: nat, before: bool)
    requires Tried(p, a, attempts, true, before)
    ensures Play(p, b) == p
  {
  }

  /**
   * A mode of one action, such as plain on or plain off: it is attempted at every beat up to the
   * first that suits, and never again; from that beat on the LED shows the action and before it the
   * old state; the counter is the number of attempts minus one.
   */
  lemma {:induction false} OneAction(a: Action, lit: bool, beats: seq<Beat>)
    ensures Tried(PlayAll(Fresh([a], lit), beats), a, Attempts(a, beats), SuitsSome(a, beats), lit)
  {
    if beats != [] {
      var init, b := beats[..|beats| - 1], beats[|beats| - 1];
      var p := PlayAll(Fresh([a], lit), init);
      OneAction(a, lit, init);
      SuitsMore(a, beats);
      if SuitsSome(a, init) {
        DoneIsDone(p, b, a, Attempts(a, init), lit);
      } else {
        TryOnce(p, b, a, Attempts(a, init), lit);
      }
    }
  }

  /** A mode without actions does nothing. */
  lemma {:induction false} NoAction(lit: bool, beats: seq<Beat>)
    ensures PlayAll(Fresh([], lit), beats) == Fresh([], lit).(init := beats != [])
  {
    if beats != [] {
      NoAction(lit, beats[..|beats| - 1]);
    }
  }
}
