/**
 * How the input queue is drained: runs of quick taps are merged into one multiple tap, and the
 * last run is put back while its window is still open.
 */
module TapChains {
  datatype Kind = Tap | MultipleTap | LongTap | Error

  datatype Event = Event(kind: Kind, time: int, duration: int, tapCount: nat, normal: bool)

  datatype Config = Config(
      longTapImmediately: bool, longTapThreshold: int, multipleTapThreshold: int, multipleTapMaxCount: nat)

  const DEFAULT_THRESHOLD: int := 300_000_000

  /** The defaults that both device constructors fill in. */
  function Normalize(raw: Config): (cfg: Config)
    ensures cfg.longTapThreshold > 0 && cfg.multipleTapThreshold != 0 && cfg.multipleTapMaxCount >= 2
  {
    raw.(longTapThreshold := if raw.longTapThreshold <= 0 then DEFAULT_THRESHOLD else raw.longTapThreshold,
         multipleTapThreshold := if raw.multipleTapThreshold == 0 then DEFAULT_THRESHOLD else raw.multipleTapThreshold,
         multipleTapMaxCount := if raw.multipleTapMaxCount < 2 then 5 else raw.multipleTapMaxCount)
  }

  /** Values that are set are kept, and the others become 300 ms, 300 ms and five taps. */
  lemma {:induction false} NormalizeKeeps(raw: Config)
    ensures Normalize(Normalize(raw)) == Normalize(raw)
    ensures Normalize(raw) == raw <==>
            raw.longTapThreshold > 0 && raw.multipleTapThreshold != 0 && raw.multipleTapMaxCount >= 2
    ensures Normalize(Config(raw.longTapImmediately, 0, 0, 0)) ==
            Config(raw.longTapImmediately, 300_000_000, 300_000_000, 5)
    ensures var cfg := Normalize(raw);
            && (raw.longTapThreshold > 0 ==> cfg.longTapThreshold == raw.longTapThreshold)
            && (raw.multipleTapThreshold != 0 ==> cfg.multipleTapThreshold == raw.multipleTapThreshold)
            && (raw.multipleTapMaxCount >= 2 ==> cfg.multipleTapMaxCount == raw.multipleTapMaxCount)
  {
  }

  function Last<T>(s: seq<T>): T
    requires s != []
  {
    s[|s| - 1]
  }

  /** `merge_chain_events`: one event for a whole chain. */
  function Merge(chain: seq<Event>): Event
    requires chain != []
  {
    if |chain| == 1 then chain[0].(kind := Tap, tapCount := 1)
    else Last(chain).(kind := MultipleTap, tapCount := |chain|, duration := Last(chain).time - chain[0].time)
  }

  datatype Scanned = Scanned(out: seq<Event>, chain: seq<Event>)

  /** Whether `e` cannot extend the chain: not a tap, too late, or the chain is full. */
  predicate Breaks(cfg: Config, chain: seq<Event>, e: Event) {
    || e.kind != Tap
    || (chain != [] && e.time - Last(chain).time > cfg.multipleTapThreshold)
    || |chain| >= cfg.multipleTapMaxCount
  }

  function Flush(chain: seq<Event>): seq<Event> {
    if chain == [] then [] else [Merge(chain)]
  }

  function ScanOne(cfg: Config, p: Scanned, e: Event): Scanned {
    if Breaks(cfg, p.chain, e) then Scanned(p.out + Flush(p.chain) + [e], [])
    else Scanned(p.out, p.chain + [e])
  }

  /** The loop of `DrainEvents`, started with a chain. */
  function Scan(cfg: Config, chain: seq<Event>, events: seq<Event>): Scanned {
    if events == [] then Scanned([], chain)
    else ScanOne(cfg, Scan(cfg, chain, events[..|events| - 1]), Last(events))
  }

  /** The window of the chain's last tap is over. */
  predicate Expired(cfg: Config, chain: seq<Event>, now: int) {
    chain != [] && now - Last(chain).time > cfg.multipleTapThreshold
  }

  datatype Drained = Drained(out: seq<Event>, rest: seq<Event>)

  /** The end of `DrainEvents`: the last chain goes out when its window is over, else back. */
  function Close(cfg: Config, p: Scanned, now: int): Drained {
    if Expired(cfg, p.chain, now) then Drained(p.out + Flush(p.chain), []) else Drained(p.out, p.chain)
  }

  /** `DrainEvents` on the queue alone. */
  function Drain(cfg: Config, queue: seq<Event>, now: int): Drained {
    if cfg.multipleTapThreshold < 0 then Drained(queue, []) else Close(cfg, Scan(cfg, [], queue), now)
  }

  // ----- chains -----

  /** Taps only, no gap over the threshold, at most the maximum count. */
  predicate IsChain(cfg: Config, c: seq<Event>) {
    && |c| <= cfg.multipleTapMaxCount
    && (forall i :: 0 <= i < |c| ==> c[i].kind == Tap)
    && forall i :: 0 < i < |c| ==> c[i].time - c[i - 1].time <= cfg.multipleTapThreshold
  }

  lemma {:induction false} ScanKeepsChain(cfg: Config, chain: seq<Event>, events: seq<Event>)
    requires IsChain(cfg, chain)
    ensures IsChain(cfg, Scan(cfg, chain, events).chain)
  {
    if events != [] {
      ScanKeepsChain(cfg, chain, events[..|events| - 1]);
    }
  }

  /** Scanning a chain again only collects it. */
  lemma {:induction false} RescanChain(cfg: Config, c: seq<Event>)
    requires IsChain(cfg, c)
    ensures Scan(cfg, [], c) == Scanned([], c)
  {
    if c != [] {
      var init := c[..|c| - 1];
      assert forall i :: 0 <= i < |init| ==> init[i] == c[i];
      RescanChain(cfg, init);
      assert c == init + [Last(c)];
    }
  }

  lemma {:induction false} ScanOneShift(cfg: Config, out: seq<Event>, q: Scanned, e: Event)
    ensures var r := ScanOne(cfg, q, e); ScanOne(cfg, Scanned(out + q.out, q.chain), e) == Scanned(out + r.out, r.chain)
  {
    assert out + q.out + Flush(q.chain) + [e] == out + (q.out + Flush(q.chain) + [e]);
  }

  lemma {:induction false} ScanConcat(cfg: Config, chain: seq<Event>, xs: seq<Event>, ys: seq<Event>)
    ensures var p := Scan(cfg, chain, xs);
            var q := Scan(cfg, p.chain, ys);
            Scan(cfg, chain, xs + ys) == Scanned(p.out + q.out, q.chain)
  {
    if ys == [] {
      assert xs + ys == xs;
    } else {
      var init := ys[..|ys| - 1];
      ScanConcat(cfg, chain, xs, init);
      var p := Scan(cfg, chain, xs);
      ScanOneShift(cfg, p.out, Scan(cfg, p.chain, init), Last(ys));
      assert (xs + ys)[..|xs + ys| - 1] == xs + init;
    }
  }

  // ----- segmentation -----

  function Concat(parts: seq<seq<Event>>): seq<Event> {
    if parts == [] then [] else Concat(parts[..|parts| - 1]) + Last(parts)
  }

  /** What an output event stands for: itself, or a chain of two or more taps. */
  predicate StandsFor(cfg: Config, o: Event, part: seq<Event>) {
    || (|part| == 1 && (o == part[0] || (part[0].kind == Tap && o == part[0].(tapCount := 1))))
    || (&& |part| >= 2 && IsChain(cfg, part)
        && o.kind == MultipleTap && o.tapCount == |part|
        && o.time == Last(part).time && o.duration == Last(part).time - part[0].time && o.normal == Last(part).normal)
  }

  predicate Segments(cfg: Config, out: seq<Event>, parts: seq<seq<Event>>) {
    |parts| == |out| && forall i :: 0 <= i < |out| ==> StandsFor(cfg, out[i], parts[i])
  }

  lemma {:induction false} ConcatSnoc(parts: seq<seq<Event>>, part: seq<Event>)
    ensures Concat(parts + [part]) == Concat(parts) + part
  {
    assert (parts + [part])[..|parts|] == parts;
  }

  lemma {:induction false} FlushSegment(cfg: Config, out: seq<Event>, parts: seq<seq<Event>>, chain: seq<Event>)
    returns (parts': seq<seq<Event>>)
    requires Segments(cfg, out, parts) && IsChain(cfg, chain)
    ensures Segments(cfg, out + Flush(chain), parts') && Concat(parts') == Concat(parts) + chain
  {
    if chain == [] {
      parts' := parts;
    } else {
      parts' := parts + [chain];
      ConcatSnoc(parts, chain);
      assert StandsFor(cfg, Merge(chain), chain);
    }
  }

  lemma {:induction false} ScanOneSegments(cfg: Config, p: Scanned, e: Event, parts: seq<seq<Event>>)
    returns (parts': seq<seq<Event>>)
    requires Segments(cfg, p.out, parts) && IsChain(cfg, p.chain)
    ensures var q := ScanOne(cfg, p, e);
            Segments(cfg, q.out, parts') && Concat(parts') + q.chain == Concat(parts) + p.chain + [e]
  {
    if Breaks(cfg, p.chain, e) {
      var flushed := FlushSegment(cfg, p.out, parts, p.chain);
      ConcatSnoc(flushed, [e]);
      parts' := flushed + [[e]];
      assert StandsFor(cfg, e, [e]);
    } else {
      parts' := parts;
    }
  }

  lemma {:induction false} ScanSegments(cfg: Config, events: seq<Event>) returns (parts: seq<seq<Event>>)
    ensures var p := Scan(cfg, [], events);
            Segments(cfg, p.out, parts) && Concat(parts) + p.chain == events && IsChain(cfg, p.chain)
  {
    ScanKeepsChain(cfg, [], events);
    if events == [] {
      parts := [];
    } else {
      var init, e := events[..|events| - 1], Last(events);
      parts := ScanSegments(cfg, init);
      parts := ScanOneSegments(cfg, Scan(cfg, [], init), e, parts);
      assert events == init + [e];
    }
  }

  /**
   * Output followed by the remaining queue is the input, cut in order: every output event stands
   * for its own piece, and what remains is a chain whose window is still open.
   */
  lemma {:induction false} Segmentation(cfg: Config, queue: seq<Event>, now: int) returns (parts: seq<seq<Event>>)
    requires cfg.multipleTapThreshold >= 0
    ensures var d := Drain(cfg, queue, now);
            && Segments(cfg, d.out, parts)
            && Concat(parts) + d.rest == queue
            && IsChain(cfg, d.rest) && !Expired(cfg, d.rest, now)
  {
    parts := ScanSegments(cfg, queue);
    var p := Scan(cfg, [], queue);
    if Expired(cfg, p.chain, now) {
      parts := FlushSegment(cfg, p.out, parts, p.chain);
    }
  }

  /** The number of taps that an event stands for. */
  function Weight(e: Event): nat {
    match e.kind
    case Tap => 1
    case MultipleTap => e.tapCount
    case _ => 0
  }

  function Taps(events: seq<Event>): nat {
    if events == [] then 0 else Taps(events[..|events| - 1]) + Weight(Last(events))
  }

  lemma {:induction false} TapsSnoc(xs: seq<Event>, e: Event)
    ensures Taps(xs + [e]) == Taps(xs) + Weight(e)
  {
    assert (xs + [e])[..|xs|] == xs;
  }

  lemma {:induction false} TapsOfChain(c: seq<Event>)
    requires forall i :: 0 <= i < |c| ==> c[i].kind == Tap
    ensures Taps(c) == |c|
    ensures c != [] ==> Weight(Merge(c)) == |c|
  {
    if c != [] {
      TapsOfChain(c[..|c| - 1]);
    }
  }

  lemma {:induction false} FlushConserves(out: seq<Event>, chain: seq<Event>)
    requires forall i :: 0 <= i < |chain| ==> chain[i].kind == Tap
    ensures Taps(out + Flush(chain)) == Taps(out) + Taps(chain)
  {
    TapsOfChain(chain);
    if chain == [] {
      assert out + [] == out;
    } else {
      TapsSnoc(out, Merge(chain));
    }
  }

  lemma {:induction false} ScanOneConserves(cfg: Config, p: Scanned, e: Event)
    requires IsChain(cfg, p.chain)
    ensures var q := ScanOne(cfg, p, e); Taps(q.out) + Taps(q.chain) == Taps(p.out) + Taps(p.chain) + Weight(e)
  {
    if Breaks(cfg, p.chain, e) {
      FlushConserves(p.out, p.chain);
      TapsSnoc(p.out + Flush(p.chain), e);
    } else {
      TapsSnoc(p.chain, e);
    }
  }

  lemma {:induction false} ScanConserves(cfg: Config, events: seq<Event>)
    ensures var p := Scan(cfg, [], events); Taps(p.out) + Taps(p.chain) == Taps(events)
  {
    if events != [] {
      var init := events[..|events| - 1];
      ScanConserves(cfg, init);
      ScanKeepsChain(cfg, [], init);
      ScanOneConserves(cfg, Scan(cfg, [], init), Last(events));
    }
  }

  /** No tap is lost or invented: taps in are taps out plus taps put back. */
  lemma {:induction false} TapsConserved(cfg: Config, queue: seq<Event>, now: int)
    ensures var d := Drain(cfg, queue, now); Taps(queue) == Taps(d.out) + Taps(d.rest)
  {
    ScanConserves(cfg, queue);
    ScanKeepsChain(cfg, [], queue);
    FlushConserves(Scan(cfg, [], queue).out, Scan(cfg, [], queue).chain);
  }

  // ----- deferral -----

  /** One call of `DrainEvents` at `now`, after `batch` was queued. */
  datatype Round = Round(batch: seq<Event>, now: int)

  /** The outputs of a run of drains, one after the other, and the queue they leave. */
  function Serve(cfg: Config, queue: seq<Event>, rounds: seq<Round>): Drained {
    if rounds == [] then Drained([], queue)
    else
      var before := Serve(cfg, queue, rounds[..|rounds| - 1]);
      Prepend(before.out, Drain(cfg, before.rest + Last(rounds).batch, Last(rounds).now))
  }

  function Batches(rounds: seq<Round>): seq<Event> {
    if rounds == [] then [] else Batches(rounds[..|rounds| - 1]) + Last(rounds).batch
  }

  /** None of these drains finds the window of its last chain over. */
  predicate KeepsWindow(cfg: Config, queue: seq<Event>, rounds: seq<Round>) {
    rounds == [] ||
    (&& KeepsWindow(cfg, queue, rounds[..|rounds| - 1])
     && !Expired(cfg, Scan(cfg, [], Serve(cfg, queue, rounds[..|rounds| - 1]).rest + Last(rounds).batch).chain,
          Last(rounds).now))
  }

  /** Putting the last chain back and scanning on is the same as not having stopped. */
  lemma {:induction false} Resume(cfg: Config, xs: seq<Event>, batch: seq<Event>)
    ensures var p := Scan(cfg, [], xs);
            var q := Scan(cfg, [], p.chain + batch);
            Scan(cfg, [], xs + batch) == Scanned(p.out + q.out, q.chain)
  {
    var p := Scan(cfg, [], xs);
    ScanKeepsChain(cfg, [], xs);
    RescanChain(cfg, p.chain);
    ScanConcat(cfg, [], p.chain, batch);
    ScanConcat(cfg, [], xs, batch);
    var q := Scan(cfg, p.chain, batch);
    assert [] + q.out == q.out;
  }

  function Prepend(out: seq<Event>, d: Drained): Drained {
    Drained(out + d.out, d.rest)
  }

  lemma {:induction false} CloseShift(cfg: Config, out: seq<Event>, q: Scanned, now: int)
    ensures Close(cfg, Scanned(out + q.out, q.chain), now) == Prepend(out, Close(cfg, q, now))
  {
    assert out + (q.out + Flush(q.chain)) == out + q.out + Flush(q.chain);
  }

  lemma {:induction false} DrainResume(cfg: Config, xs: seq<Event>, batch: seq<Event>, now: int)
    requires cfg.multipleTapThreshold >= 0
    ensures var p := Scan(cfg, [], xs);
            Drain(cfg, xs + batch, now) == Prepend(p.out, Drain(cfg, p.chain + batch, now))
  {
    Resume(cfg, xs, batch);
    var p := Scan(cfg, [], xs);
    CloseShift(cfg, p.out, Scan(cfg, [], p.chain + batch), now);
  }

  function Open(p: Scanned): Drained {
    Drained(p.out, p.chain)
  }

  lemma {:induction false} OpenResume(cfg: Config, xs: seq<Event>, batch: seq<Event>, now: int)
    requires cfg.multipleTapThreshold >= 0
    requires !Expired(cfg, Scan(cfg, [], Scan(cfg, [], xs).chain + batch).chain, now)
    ensures var p := Scan(cfg, [], xs);
            Open(Scan(cfg, [], xs + batch)) == Prepend(p.out, Drain(cfg, p.chain + batch, now))
  {
    Resume(cfg, xs, batch);
  }

  /** What one more round adds to a run of drains. */
  lemma {:induction false} OneMore(cfg: Config, queue: seq<Event>, rounds: seq<Round>)
    requires rounds != []
    ensures var init, last := rounds[..|rounds| - 1], Last(rounds);
            var before := Serve(cfg, queue, init);
            && Serve(cfg, queue, rounds) == Prepend(before.out, Drain(cfg, before.rest + last.batch, last.now))
            && queue + Batches(rounds) == queue + Batches(init) + last.batch
            && (KeepsWindow(cfg, queue, rounds) <==>
                  KeepsWindow(cfg, queue, init) &&
                      !Expired(cfg, Scan(cfg, [], before.rest + last.batch).chain, last.now))
  {
  }

  /** As long as no window is over, draining in rounds has only scanned everything once. */
  lemma {:induction false} ServeScans(cfg: Config, queue: seq<Event>, rounds: seq<Round>)
    requires cfg.multipleTapThreshold >= 0 && IsChain(cfg, queue) && KeepsWindow(cfg, queue, rounds)
    ensures Serve(cfg, queue, rounds) == Open(Scan(cfg, [], queue + Batches(rounds)))
  {
    if rounds == [] {
      assert queue + Batches(rounds) == queue;
      RescanChain(cfg, queue);
    } else {
      var init, last := rounds[..|rounds| - 1], Last(rounds);
      OneMore(cfg, queue, rounds);
      ServeScans(cfg, queue, init);
      ServeScansStep(cfg, queue, rounds, queue + Batches(init), last);
    }
  }

  lemma {:induction false} ServeScansStep(
      cfg: Config, queue: seq<Event>, rounds: seq<Round>, xs: seq<Event>, last: Round)
    requires cfg.multipleTapThreshold >= 0
    requires var p := Scan(cfg, [], xs);
             && Serve(cfg, queue, rounds) == Prepend(p.out, Drain(cfg, p.chain + last.batch, last.now))
             && !Expired(cfg, Scan(cfg, [], p.chain + last.batch).chain, last.now)
    ensures Serve(cfg, queue, rounds) == Open(Scan(cfg, [], xs + last.batch))
  {
    OpenResume(cfg, xs, last.batch, last.now);
  }

  lemma {:induction false} ServeDisabled(cfg: Config, rounds: seq<Round>)
    requires cfg.multipleTapThreshold < 0
    ensures Serve(cfg, [], rounds) == Drained(Batches(rounds), [])
  {
    if rounds != [] {
      ServeDisabled(cfg, rounds[..|rounds| - 1]);
    }
  }

  /**
   * Deferral is invisible: draining in any number of rounds, none of which but the last finds its
   * window over, gives the outputs and the queue of one drain of everything at the end.
   */
  lemma {:induction false} DeferralInvisible(cfg: Config, queue: seq<Event>, rounds: seq<Round>)
    requires rounds != [] && IsChain(cfg, queue)
    requires cfg.multipleTapThreshold < 0 ==> queue == []
    requires KeepsWindow(cfg, queue, rounds[..|rounds| - 1])
    ensures Serve(cfg, queue, rounds) == Drain(cfg, queue + Batches(rounds), Last(rounds).now)
  {
    if cfg.multipleTapThreshold < 0 {
      ServeDisabled(cfg, rounds);
      assert queue + Batches(rounds) == Batches(rounds);
    } else {
      var init, last := rounds[..|rounds| - 1], Last(rounds);
      OneMore(cfg, queue, rounds);
      ServeScans(cfg, queue, init);
      LastRound(cfg, queue, rounds, queue + Batches(init), last);
    }
  }

  lemma {:induction false} LastRound(cfg: Config, queue: seq<Event>, rounds: seq<Round>, xs: seq<Event>, last: Round)
    requires cfg.multipleTapThreshold >= 0
    requires var p := Scan(cfg, [], xs);
             Serve(cfg, queue, rounds) == Prepend(p.out, Drain(cfg, p.chain + last.batch, last.now))
    ensures Serve(cfg, queue, rounds) == Drain(cfg, xs + last.batch, last.now)
  {
    DrainResume(cfg, xs, last.batch, last.now);
  }

  // ----- simulated taps -----

  predicate AllEqual(events: seq<Event>, e: Event) {
    forall i :: 0 <= i < |events| ==> events[i] == e
  }

  lemma {:induction false} PrefixOfEqual(rounds: seq<Round>, n: nat, e: Event)
    requires n <= |rounds| && AllEqual(Batches(rounds), e)
    ensures AllEqual(Batches(rounds[..n]), e) && |Batches(rounds[..n])| <= |Batches(rounds)|
  {
    if n < |rounds| {
      var init := rounds[..|rounds| - 1];
      assert forall i :: 0 <= i < |Batches(init)| ==> Batches(init)[i] == Batches(rounds)[i];
      PrefixOfEqual(init, n, e);
      assert init[..n] == rounds[..n];
    } else {
      assert rounds[..n] == rounds;
    }
  }

  lemma {:induction false} EqualTapsAreOneChain(cfg: Config, taps: seq<Event>, e: Event, now: int)
    requires cfg.multipleTapThreshold >= 0 && e.kind == Tap && now - e.time <= cfg.multipleTapThreshold
    requires AllEqual(taps, e) && |taps| <= cfg.multipleTapMaxCount
    ensures Scan(cfg, [], taps) == Scanned([], taps) && !Expired(cfg, taps, now)
  {
    RescanChain(cfg, taps);
  }

  lemma {:induction false} EqualTapsKeepWindow(cfg: Config, rounds: seq<Round>, e: Event)
    requires cfg.multipleTapThreshold >= 0 && e.kind == Tap
    requires AllEqual(Batches(rounds), e) && |Batches(rounds)| <= cfg.multipleTapMaxCount
    requires forall i :: 0 <= i < |rounds| ==> rounds[i].now - e.time <= cfg.multipleTapThreshold
    ensures KeepsWindow(cfg, [], rounds)
  {
    if rounds != [] {
      var init, last := rounds[..|rounds| - 1], Last(rounds);
      PrefixOfEqual(rounds, |rounds| - 1, e);
      EqualTapsKeepWindow(cfg, init, e);
      ServeScans(cfg, [], init);
      assert [] + Batches(init) == Batches(init);
      EqualTapsAreOneChain(cfg, Batches(init), e, last.now);
      EqualTapsAreOneChain(cfg, Batches(init) + last.batch, e, last.now);
      OneMore(cfg, [], rounds);
    }
  }

  /**
   * `n` simulated taps, drained at any moments within their window and once after it, come out as
   * exactly one multiple tap of count `n`.
   */
  lemma {:induction false} SimulatedTaps(cfg: Config, rounds: seq<Round>, e: Event)
    requires rounds != [] && cfg.multipleTapThreshold >= 0 && e.kind == Tap
    requires AllEqual(Batches(rounds), e) && 2 <= |Batches(rounds)| <= cfg.multipleTapMaxCount
    requires forall i :: 0 <= i < |rounds| - 1 ==> rounds[i].now - e.time <= cfg.multipleTapThreshold
    requires Last(rounds).now - e.time > cfg.multipleTapThreshold
    ensures Serve(cfg, [], rounds) ==
            Drained([e.(kind := MultipleTap, tapCount := |Batches(rounds)|, duration := 0)], [])
  {
    PrefixOfEqual(rounds, |rounds| - 1, e);
    EqualTapsKeepWindow(cfg, rounds[..|rounds| - 1], e);
    DeferralInvisible(cfg, [], rounds);
    assert [] + Batches(rounds) == Batches(rounds);
    EqualTapsMerge(cfg, Batches(rounds), Last(rounds).now, e);
  }

  lemma {:induction false} EqualTapsMerge(cfg: Config, all: seq<Event>, now: int, e: Event)
    requires cfg.multipleTapThreshold >= 0 && e.kind == Tap && now - e.time > cfg.multipleTapThreshold
    requires AllEqual(all, e) && 2 <= |all| <= cfg.multipleTapMaxCount
    ensures Drain(cfg, all, now) == Drained([e.(kind := MultipleTap, tapCount := |all|, duration := 0)], [])
  {
    RescanChain(cfg, all);
  }
}
