/**
 * Draining in rounds when a round in between finds the window of its last chain over: exactly when
 * that shows, compared with one drain of everything at the end.
 */
module TapExpiry {
  import opened TapChains

  // ----- the next event would have extended the chain -----

  /** The first thing that comes out of an open chain is the chain itself, as far as it grew. */
  lemma {:induction false} FirstFlush(cfg: Config, c: seq<Event>, ys: seq<Event>)
    requires c != []
    ensures var q := Scan(cfg, c, ys);
            if q.out == [] then |q.chain| >= |c| else q.out[0].tapCount >= |c|
  {
    if ys != [] {
      FirstFlush(cfg, c, ys[..|ys| - 1]);
    }
  }

  lemma {:induction false} GrowsOn(cfg: Config, c: seq<Event>, rest: seq<Event>)
    requires c != [] && rest != [] && !Breaks(cfg, c, rest[0])
    ensures var q := Scan(cfg, c, rest);
            if q.out == [] then |q.chain| > |c| else q.out[0].tapCount > |c|
  {
    var e, tail := rest[0], rest[1..];
    assert rest == [e] + tail;
    assert [e][..0] == [];
    assert Scan(cfg, c, []) == Scanned([], c);
    assert Scan(cfg, c, [e]) == Scanned([], c + [e]);
    ScanConcat(cfg, c, [e], tail);
    FirstFlush(cfg, c + [e], tail);
  }

  /** Drained at once, an unbroken chain is still open or comes out longer. */
  lemma {:induction false} AtOnce(cfg: Config, xs: seq<Event>, rest: seq<Event>, now: int)
    requires cfg.multipleTapThreshold >= 0 && rest != []
    requires var c := Scan(cfg, [], xs).chain; c != [] && !Breaks(cfg, c, rest[0])
    ensures var p, d := Scan(cfg, [], xs), Drain(cfg, xs + rest, now);
            |d.out| > |p.out| ==> d.out[|p.out|].tapCount > |p.chain|
  {
    var p := Scan(cfg, [], xs);
    ScanConcat(cfg, [], xs, rest);
    GrowsOn(cfg, p.chain, rest);
  }

  /** What has come out stays in front. */
  lemma {:induction false} ServedStays(cfg: Config, queue: seq<Event>, rounds: seq<Round>, k: nat)
    requires k <= |rounds|
    ensures var early, all := Serve(cfg, queue, rounds[..k]).out, Serve(cfg, queue, rounds).out;
            |early| <= |all| && all[..|early|] == early
  {
    if k == |rounds| {
      assert rounds[..k] == rounds;
    } else {
      var init := rounds[..|rounds| - 1];
      ServedStays(cfg, queue, init, k);
      assert init[..k] == rounds[..k];
    }
  }

  lemma {:induction false} BatchesConcat(xs: seq<Round>, ys: seq<Round>)
    ensures Batches(xs + ys) == Batches(xs) + Batches(ys)
  {
    if ys == [] {
      assert xs + ys == xs;
    } else {
      BatchesConcat(xs, ys[..|ys| - 1]);
      assert (xs + ys)[..|xs + ys| - 1] == xs + ys[..|ys| - 1];
    }
  }

  /** The chain that round `k` finds, and everything queued up to then. */
  function ChainAt(cfg: Config, queue: seq<Event>, rounds: seq<Round>, k: nat): seq<Event>
    requires k < |rounds|
  {
    Scan(cfg, [], Serve(cfg, queue, rounds[..k]).rest + rounds[k].batch).chain
  }

  lemma {:induction false} ExpiredRound(cfg: Config, queue: seq<Event>, rounds: seq<Round>, k: nat)
    requires cfg.multipleTapThreshold >= 0 && IsChain(cfg, queue)
    requires k < |rounds| && KeepsWindow(cfg, queue, rounds[..k])
    requires Expired(cfg, ChainAt(cfg, queue, rounds, k), rounds[k].now)
    ensures var p := Scan(cfg, [], queue + Batches(rounds[..k + 1]));
            && p.chain == ChainAt(cfg, queue, rounds, k)
            && Serve(cfg, queue, rounds[..k + 1]) == Drained(p.out + [Merge(p.chain)], [])
  {
    var upTo := rounds[..k + 1];
    assert upTo[..|upTo| - 1] == rounds[..k] && Last(upTo) == rounds[k];
    OneMore(cfg, queue, upTo);
    ServeScans(cfg, queue, rounds[..k]);
    Resume(cfg, queue + Batches(rounds[..k]), rounds[k].batch);
  }

  lemma {:induction false} ShownInRounds(cfg: Config, queue: seq<Event>, rounds: seq<Round>, k: nat)
    requires cfg.multipleTapThreshold >= 0 && IsChain(cfg, queue)
    requires k < |rounds| && KeepsWindow(cfg, queue, rounds[..k])
    requires Expired(cfg, ChainAt(cfg, queue, rounds, k), rounds[k].now)
    ensures var p, out := Scan(cfg, [], queue + Batches(rounds[..k + 1])), Serve(cfg, queue, rounds).out;
            && p.chain == ChainAt(cfg, queue, rounds, k)
            && |out| > |p.out| && out[..|p.out| + 1] == p.out + [Merge(p.chain)]
  {
    ExpiredRound(cfg, queue, rounds, k);
    ServedStays(cfg, queue, rounds, k + 1);
  }

  lemma {:induction false} SplitBatches(queue: seq<Event>, rounds: seq<Round>, k: nat)
    requires k <= |rounds|
    ensures queue + Batches(rounds) == queue + Batches(rounds[..k]) + Batches(rounds[k..])
  {
    assert rounds == rounds[..k] + rounds[k..];
    BatchesConcat(rounds[..k], rounds[k..]);
  }

  /**
   * Deferral always shows when a drain finds its window over and the next event would still have
   * extended its chain: the run of drains gives other outputs than one drain of everything.
   */
  lemma {:induction false} ExpiryAlwaysShows(cfg: Config, queue: seq<Event>, rounds: seq<Round>, k: nat)
    requires cfg.multipleTapThreshold >= 0 && IsChain(cfg, queue)
    requires k < |rounds| && KeepsWindow(cfg, queue, rounds[..k])
    requires Expired(cfg, ChainAt(cfg, queue, rounds, k), rounds[k].now)
    requires var rest := Batches(rounds[k + 1..]); rest != [] && !Breaks(cfg, ChainAt(cfg, queue, rounds, k), rest[0])
    ensures Serve(cfg, queue, rounds).out != Drain(cfg, queue + Batches(rounds), Last(rounds).now).out
  {
    var xs, rest := queue + Batches(rounds[..k + 1]), Batches(rounds[k + 1..]);
    ShownInRounds(cfg, queue, rounds, k);
    AtOnce(cfg, xs, rest, Last(rounds).now);
    SplitBatches(queue, rounds, k + 1);
    Apart(Scan(cfg, [], xs), Serve(cfg, queue, rounds).out, Drain(cfg, xs + rest, Last(rounds).now).out);
  }

  lemma {:induction false} Apart(p: Scanned, inRounds: seq<Event>, atOnce: seq<Event>)
    requires p.chain != [] && |inRounds| > |p.out| && inRounds[..|p.out| + 1] == p.out + [Merge(p.chain)]
    requires |atOnce| > |p.out| ==> atOnce[|p.out|].tapCount > |p.chain|
    ensures inRounds != atOnce
  {
    assert inRounds[..|p.out| + 1][|p.out|] == inRounds[|p.out|];
  }

  // ----- the next event breaks the chain anyway -----

  /**
   * Taps that stay apart, counted from the front: each is a plain tap, too far from the next one to
   * be merged with it, up to an event that is no tap or to a last one whose window is over.
   */
  predicate Loose(cfg: Config, ys: seq<Event>, now: int)
    requires ys != []
  {
    && ys[0].tapCount == 1
    && if |ys| == 1 then now - ys[0].time > cfg.multipleTapThreshold
       else ys[1].kind != Tap || (ys[1].time - ys[0].time > cfg.multipleTapThreshold && Loose(cfg, ys[1..], now))
  }

  /** Scanning from the front: an event breaks the chain and goes out with it, or joins it. */
  lemma {:induction false} ScanCons(cfg: Config, c: seq<Event>, ys: seq<Event>)
    requires ys != []
    ensures var tail := Scan(cfg, [], ys[1..]);
            Scan(cfg, c, ys) == if Breaks(cfg, c, ys[0]) then Scanned(Flush(c) + [ys[0]] + tail.out, tail.chain)
                                else Scan(cfg, c + [ys[0]], ys[1..])
  {
    var e := ys[0];
    assert ys == [e] + ys[1..];
    assert [e][..0] == [];
    assert Scan(cfg, c, []) == Scanned([], c);
    assert [] + Flush(c) + [e] == Flush(c) + [e];
    ScanConcat(cfg, c, [e], ys[1..]);
    if !Breaks(cfg, c, e) {
      var q := Scan(cfg, c + [e], ys[1..]);
      assert [] + q.out == q.out;
    }
  }

  /** After an event that breaks the chain, the rest is drained afresh. */
  lemma {:induction false} CloseBroken(cfg: Config, c: seq<Event>, ys: seq<Event>, now: int)
    requires cfg.multipleTapThreshold >= 0 && ys != [] && Breaks(cfg, c, ys[0])
    ensures Close(cfg, Scan(cfg, c, ys), now) == Prepend(Flush(c) + [ys[0]], Drain(cfg, ys[1..], now))
  {
    ScanCons(cfg, c, ys);
    CloseShift(cfg, Flush(c) + [ys[0]], Scan(cfg, [], ys[1..]), now);
  }

  lemma {:induction false} PrependTwice(xs: seq<Event>, ys: seq<Event>, d: Drained)
    ensures Prepend(xs + ys, d) == Prepend(xs, Prepend(ys, d))
  {
    assert xs + ys + d.out == xs + (ys + d.out);
  }

  lemma {:induction false} PrependIff(xs: seq<Event>, ys: seq<Event>, d: Drained, e: Drained)
    requires |xs| == |ys|
    ensures Prepend(xs, d) == Prepend(ys, e) <==> xs == ys && d == e
  {
    if Prepend(xs, d) == Prepend(ys, e) {
      assert xs == (xs + d.out)[..|xs|] && ys == (ys + e.out)[..|ys|];
      assert d.out == (xs + d.out)[|xs|..] && e.out == (ys + e.out)[|ys|..];
    }
  }

  /** One tap alone goes out as it came exactly when it counts one. */
  lemma {:induction false} MergeAlone(e: Event)
    requires e.kind == Tap
    ensures Merge([e]) == e <==> e.tapCount == 1
  {
  }

  lemma {:induction false} FirstFlushKind(cfg: Config, c: seq<Event>, ys: seq<Event>)
    requires |c| >= 2
    ensures var q := Scan(cfg, c, ys); if q.out == [] then |q.chain| >= 2 else q.out[0].kind == MultipleTap
  {
    if ys != [] {
      FirstFlushKind(cfg, c, ys[..|ys| - 1]);
    }
  }

  /** Two close taps are merged, so the first does not go out alone. */
  lemma {:induction false} CloseTapsMerge(cfg: Config, ys: seq<Event>, now: int)
    requires cfg.multipleTapThreshold >= 0 && cfg.multipleTapMaxCount >= 2 && |ys| >= 2
    requires ys[0].kind == Tap && ys[1].kind == Tap && ys[1].time - ys[0].time <= cfg.multipleTapThreshold
    ensures Drain(cfg, ys, now) != Prepend([ys[0]], Drain(cfg, ys[1..], now))
  {
    ScanCons(cfg, [], ys);
    assert [] + [ys[0]] == [ys[0]];
    ScanCons(cfg, [ys[0]], ys[1..]);
    assert [ys[0]] + [ys[1]] == [ys[0], ys[1]];
    FirstFlushKind(cfg, [ys[0], ys[1]], ys[1..][1..]);
    var d := Drain(cfg, ys, now);
    assert d.out != [] ==> d.out[0].kind == MultipleTap;
  }

  /** A tap followed by one that breaks with it, or by no tap: it goes out alone, and the rest is drained afresh. */
  lemma {:induction false} TapThenBreak(cfg: Config, ys: seq<Event>, now: int)
    requires cfg.multipleTapThreshold >= 0 && cfg.multipleTapMaxCount >= 2 && |ys| >= 2
    requires ys[0].kind == Tap && Breaks(cfg, [ys[0]], ys[1])
    ensures Drain(cfg, ys, now) == Prepend([Merge([ys[0]])], Prepend([ys[1]], Drain(cfg, ys[2..], now)))
  {
    ScanCons(cfg, [], ys);
    assert [] + [ys[0]] == [ys[0]];
    CloseBroken(cfg, [ys[0]], ys[1..], now);
    assert ys[1..][1..] == ys[2..];
    PrependTwice([Merge([ys[0]])], [ys[1]], Drain(cfg, ys[2..], now));
  }

  lemma {:induction false} NoTapFirst(cfg: Config, ys: seq<Event>, now: int)
    requires cfg.multipleTapThreshold >= 0 && ys != [] && ys[0].kind != Tap
    ensures Drain(cfg, ys, now) == Prepend([ys[0]], Drain(cfg, ys[1..], now))
  {
    CloseBroken(cfg, [], ys, now);
    assert Flush([]) + [ys[0]] == [ys[0]];
  }

  lemma {:induction false} LastTapIff(cfg: Config, e: Event, now: int)
    requires cfg.multipleTapThreshold >= 0 && cfg.multipleTapMaxCount >= 2 && e.kind == Tap
    ensures Drain(cfg, [e], now) == Prepend([e], Drain(cfg, [], now)) <==> Loose(cfg, [e], now)
  {
    RescanChain(cfg, [e]);
    MergeAlone(e);
    assert [] + [Merge([e])] == [Merge([e])] && [e] + [] == [e];
  }

  /** A tap in front goes out as it came, with the rest drained afresh, exactly when the taps stay apart. */
  lemma {:induction false} TapFirstIff(cfg: Config, ys: seq<Event>, now: int)
    requires cfg.multipleTapThreshold >= 0 && cfg.multipleTapMaxCount >= 2 && ys != [] && ys[0].kind == Tap
    ensures Drain(cfg, ys, now) == Prepend([ys[0]], Drain(cfg, ys[1..], now)) <==> Loose(cfg, ys, now)
  {
    if |ys| == 1 {
      assert ys == [ys[0]] && ys[1..] == [];
      LastTapIff(cfg, ys[0], now);
    } else if Breaks(cfg, [ys[0]], ys[1]) {
      TapThenBreak(cfg, ys, now);
      MergeAlone(ys[0]);
      PrependIff([Merge([ys[0]])], [ys[0]], Prepend([ys[1]], Drain(cfg, ys[2..], now)), Drain(cfg, ys[1..], now));
      assert ys[1..][1..] == ys[2..];
      if ys[1].kind == Tap {
        TapFirstIff(cfg, ys[1..], now);
      } else {
        NoTapFirst(cfg, ys[1..], now);
      }
    } else {
      CloseTapsMerge(cfg, ys, now);
    }
  }

  // ----- the exact condition -----

  /**
   * That the window of chain `c` was found over too early stays unseen: nothing came after it, or
   * what came would have broken it anyway and is no tap or a row of taps that stay apart.
   */
  predicate Unseen(cfg: Config, c: seq<Event>, rest: seq<Event>, now: int)
    requires c != []
  {
    if rest == [] then Expired(cfg, c, now)
    else Breaks(cfg, c, rest[0]) && (rest[0].kind != Tap || Loose(cfg, rest, now))
  }

  lemma {:induction false} BrokenAtOnce(cfg: Config, xs: seq<Event>, rest: seq<Event>, now: int)
    requires cfg.multipleTapThreshold >= 0 && rest != []
    requires var c := Scan(cfg, [], xs).chain; c != [] && Breaks(cfg, c, rest[0])
    ensures var p := Scan(cfg, [], xs);
            Drain(cfg, xs + rest, now) ==
                Prepend(p.out + [Merge(p.chain)], Prepend([rest[0]], Drain(cfg, rest[1..], now)))
  {
    var p, d := Scan(cfg, [], xs), Drain(cfg, rest[1..], now);
    ScanConcat(cfg, [], xs, rest);
    CloseShift(cfg, p.out, Scan(cfg, p.chain, rest), now);
    CloseBroken(cfg, p.chain, rest, now);
    PrependTwice([Merge(p.chain)], [rest[0]], d);
    PrependTwice(p.out, [Merge(p.chain)], Prepend([rest[0]], d));
  }

  lemma {:induction false} NothingAfter(cfg: Config, xs: seq<Event>, now: int)
    requires cfg.multipleTapThreshold >= 0 && Scan(cfg, [], xs).chain != []
    ensures var p := Scan(cfg, [], xs);
            Prepend(p.out + [Merge(p.chain)], Drain(cfg, [], now)) == Drain(cfg, xs, now) <==>
                Expired(cfg, p.chain, now)
  {
    var p := Scan(cfg, [], xs);
    assert p.out + [Merge(p.chain)] + [] == p.out + [Merge(p.chain)];
  }

  /** Putting out the chain early and going on afresh is one drain of everything exactly when it stays unseen. */
  lemma {:induction false} SplitIff(cfg: Config, xs: seq<Event>, rest: seq<Event>, now: int)
    requires cfg.multipleTapThreshold >= 0 && cfg.multipleTapMaxCount >= 2 && Scan(cfg, [], xs).chain != []
    ensures var p := Scan(cfg, [], xs);
            Prepend(p.out + [Merge(p.chain)], Drain(cfg, rest, now)) == Drain(cfg, xs + rest, now)
            <==> Unseen(cfg, p.chain, rest, now)
  {
    var p := Scan(cfg, [], xs);
    var early := p.out + [Merge(p.chain)];
    if rest == [] {
      assert xs + rest == xs;
      NothingAfter(cfg, xs, now);
    } else if Breaks(cfg, p.chain, rest[0]) {
      BrokenAtOnce(cfg, xs, rest, now);
      PrependIff(early, early, Drain(cfg, rest, now), Prepend([rest[0]], Drain(cfg, rest[1..], now)));
      if rest[0].kind == Tap {
        TapFirstIff(cfg, rest, now);
      } else {
        NoTapFirst(cfg, rest, now);
      }
    } else {
      AtOnce(cfg, xs, rest, now);
      var d := Drain(cfg, rest, now);
      assert (early + d.out)[..|p.out| + 1] == early;
      Apart(p, early + d.out, Drain(cfg, xs + rest, now).out);
    }
  }

  lemma {:induction false} ServeAfter(cfg: Config, queue: seq<Event>, before: seq<Round>, after: seq<Round>)
    ensures var d := Serve(cfg, queue, before);
            Serve(cfg, queue, before + after) == Prepend(d.out, Serve(cfg, d.rest, after))
  {
    var d := Serve(cfg, queue, before);
    if after == [] {
      assert before + after == before;
      assert d.out + [] == d.out;
    } else {
      var init, last := after[..|after| - 1], Last(after);
      ServeAfter(cfg, queue, before, init);
      assert (before + after)[..|before + after| - 1] == before + init;
      var m := Serve(cfg, d.rest, init);
      PrependTwice(d.out, m.out, Drain(cfg, m.rest + last.batch, last.now));
    }
  }

  lemma {:induction false} RestIsOneDrain(cfg: Config, after: seq<Round>, now: int)
    requires cfg.multipleTapThreshold >= 0
    requires after != [] ==> KeepsWindow(cfg, [], after[..|after| - 1]) && Last(after).now == now
    ensures Serve(cfg, [], after) == Drain(cfg, Batches(after), now)
  {
    if after == [] {
      NothingToDrain(cfg, now);
    } else {
      LastIsOneDrain(cfg, after);
    }
  }

  lemma {:induction false} NothingToDrain(cfg: Config, now: int)
    ensures Drain(cfg, [], now) == Drained([], [])
  {
    assert Scan(cfg, [], []) == Scanned([], []);
  }

  lemma {:induction false} LastIsOneDrain(cfg: Config, after: seq<Round>)
    requires cfg.multipleTapThreshold >= 0 && after != [] && KeepsWindow(cfg, [], after[..|after| - 1])
    ensures Serve(cfg, [], after) == Drain(cfg, Batches(after), Last(after).now)
  {
    assert IsChain(cfg, []);
    DeferralInvisible(cfg, [], after);
    assert [] + Batches(after) == Batches(after);
  }

  lemma {:induction false} ServedSplit(cfg: Config, queue: seq<Event>, rounds: seq<Round>, k: nat)
    requires cfg.multipleTapThreshold >= 0 && IsChain(cfg, queue) && k < |rounds|
    requires KeepsWindow(cfg, queue, rounds[..k]) && Expired(cfg, ChainAt(cfg, queue, rounds, k), rounds[k].now)
    requires k + 1 < |rounds| ==> KeepsWindow(cfg, [], rounds[k + 1..|rounds| - 1])
    ensures var p, rest := Scan(cfg, [], queue + Batches(rounds[..k + 1])), Batches(rounds[k + 1..]);
            && p.chain == ChainAt(cfg, queue, rounds, k) != []
            && Serve(cfg, queue, rounds) == Prepend(p.out + [Merge(p.chain)], Drain(cfg, rest, Last(rounds).now))
  {
    ExpiredRound(cfg, queue, rounds, k);
    LaterRounds(cfg, rounds, k);
    var p := Scan(cfg, [], queue + Batches(rounds[..k + 1]));
    GoOn(cfg, queue, rounds, k + 1, p.out + [Merge(p.chain)]);
  }

  lemma {:induction false} GoOn(cfg: Config, queue: seq<Event>, rounds: seq<Round>, k: nat, early: seq<Event>)
    requires k <= |rounds| && Serve(cfg, queue, rounds[..k]) == Drained(early, [])
    ensures Serve(cfg, queue, rounds) == Prepend(early, Serve(cfg, [], rounds[k..]))
  {
    assert rounds == rounds[..k] + rounds[k..];
    ServeAfter(cfg, queue, rounds[..k], rounds[k..]);
  }

  /**
   * Exactly when draining in rounds shows: one drain, the first to do so, finds its window over, the
   * later ones but the last do not; then the outputs and the queue are those of one drain of
   * everything at the end exactly when the early end of that chain stays unseen.
   */
  lemma {:induction false} ExpiryShowsIff(cfg: Config, queue: seq<Event>, rounds: seq<Round>, k: nat)
    requires cfg.multipleTapThreshold >= 0 && cfg.multipleTapMaxCount >= 2 && IsChain(cfg, queue) && k < |rounds|
    requires KeepsWindow(cfg, queue, rounds[..k]) && Expired(cfg, ChainAt(cfg, queue, rounds, k), rounds[k].now)
    requires k + 1 < |rounds| ==> KeepsWindow(cfg, [], rounds[k + 1..|rounds| - 1])
    ensures Serve(cfg, queue, rounds) == Drain(cfg, queue + Batches(rounds), Last(rounds).now) <==>
            Unseen(cfg, ChainAt(cfg, queue, rounds, k), Batches(rounds[k + 1..]), Last(rounds).now)
  {
    ServedSplit(cfg, queue, rounds, k);
    SplitBatches(queue, rounds, k + 1);
    SplitIff(cfg, queue + Batches(rounds[..k + 1]), Batches(rounds[k + 1..]), Last(rounds).now);
  }

  lemma {:induction false} LaterRounds(cfg: Config, rounds: seq<Round>, k: nat)
    requires cfg.multipleTapThreshold >= 0 && k < |rounds|
    requires k + 1 < |rounds| ==> KeepsWindow(cfg, [], rounds[k + 1..|rounds| - 1])
    ensures Serve(cfg, [], rounds[k + 1..]) == Drain(cfg, Batches(rounds[k + 1..]), Last(rounds).now)
  {
    var after := rounds[k + 1..];
    if after != [] {
      assert after[..|after| - 1] == rounds[k + 1..|rounds| - 1];
    }
    RestIsOneDrain(cfg, after, Last(rounds).now);
  }

  // ----- an example -----

  lemma {:induction false} OneTapServed(cfg: Config, e: Event, now: int)
    requires cfg.multipleTapThreshold >= 0 && cfg.multipleTapMaxCount >= 1
    requires e.kind == Tap && now - e.time > cfg.multipleTapThreshold
    ensures Drain(cfg, [e], now) == Drained([e.(tapCount := 1)], [])
  {
    RescanChain(cfg, [e]);
  }

  lemma {:induction false} TwoRounds(cfg: Config, first: Round, second: Round)
    ensures var d := Drain(cfg, first.batch, first.now);
            Serve(cfg, [], [first, second]) == Prepend(d.out, Drain(cfg, d.rest + second.batch, second.now))
  {
    var rounds := [first, second];
    assert rounds[..1] == [first] && rounds[..1][..0] == [];
    assert [] + first.batch == first.batch;
    assert Serve(cfg, [], []) == Drained([], []);
  }

  lemma {:induction false} TwoTapsInRounds(cfg: Config, first: Event, second: Event, amid: int, end: int)
    requires cfg.multipleTapThreshold >= 0 && cfg.multipleTapMaxCount >= 1 && first.kind == Tap && second.kind == Tap
    requires amid - first.time > cfg.multipleTapThreshold && end - second.time > cfg.multipleTapThreshold
    ensures Serve(cfg, [], [Round([first], amid), Round([second], end)]).out ==
            [first.(tapCount := 1), second.(tapCount := 1)]
  {
    TwoRounds(cfg, Round([first], amid), Round([second], end));
    OneTapServed(cfg, first, amid);
    assert [] + [second] == [second];
    OneTapServed(cfg, second, end);
  }

  lemma {:induction false} TwoTapsAtOnce(cfg: Config, first: Event, second: Event, end: int)
    requires 0 <= cfg.multipleTapThreshold < end - second.time && cfg.multipleTapMaxCount >= 2
    requires first.kind == Tap && second.kind == Tap && second.time - first.time <= cfg.multipleTapThreshold
    ensures Drain(cfg, [first, second], end).out ==
              [second.(kind := MultipleTap, tapCount := 2, duration := second.time - first.time)]
  {
    RescanChain(cfg, [first, second]);
  }

  /** A drain between two quick taps that finds the window over: two taps instead of a double tap. */
  lemma {:induction false} ExpiryShows(cfg: Config, first: Event, second: Event, amid: int, end: int)
    requires cfg.multipleTapThreshold >= 0 && cfg.multipleTapMaxCount >= 2
    requires first.kind == Tap && second.kind == Tap && first.tapCount == 1 && second.tapCount == 1
    requires second.time - first.time <= cfg.multipleTapThreshold
    requires amid - first.time > cfg.multipleTapThreshold && end - second.time > cfg.multipleTapThreshold
    ensures Serve(cfg, [], [Round([first], amid), Round([second], end)]).out == [first, second]
    ensures Drain(cfg, [first, second], end).out ==
              [second.(kind := MultipleTap, tapCount := 2, duration := second.time - first.time)]
  {
    TwoTapsInRounds(cfg, first, second, amid, end);
    TwoTapsAtOnce(cfg, first, second, end);
  }
}
