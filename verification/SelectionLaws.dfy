/** What button events and IPC requests amount to, over any sequence of them. */
module SelectionLaws {
  import opened Text
  import opened GadgetSpec
  import opened GadgetApply
  import opened Division

  // ----- taps -----

  predicate AllTaps(events: seq<Event>) {
    forall i :: 0 <= i < |events| ==> events[i] == Tap
  }

  lemma {:induction false} CycleStep(x: int, n: nat, d: int)
    requires d > 0
    ensures ((x + n) % d + 1) % d == (x + (n + 1)) % d
  {
    var q := (x + n) / d;
    assert x + n == q * d + (x + n) % d;
    WholeMultiple(q, d);
    WholeShift(q * d, (x + n) % d + 1, d);
  }

  /** `n` taps outside the submode selection move `n` gadgets on, cyclically, and leave all submodes alone. */
  lemma {:induction false} TapsCycleGadgets(cfg: Config, c: Choice, taps: seq<Event>)
    requires ChoiceFits(cfg, c) && AllTaps(taps) && taps != [] && !c.selection
    ensures OnEvents(cfg, c, taps) ==
              c.(current := (c.current + |taps|) % |cfg.modes|, modeChanged := true, submodeChanged := false)
  {
    var init := taps[..|taps| - 1];
    CycleStep(c.current, |init|, |cfg.modes|);
    if init != [] {
      TapsCycleGadgets(cfg, c, init);
    } else {
      Quotient(c.current, |cfg.modes|, 0, c.current);
      assert OnEvents(cfg, c, init) == c;
    }
  }

  /** `n` taps in the submode selection move `n` submodes on, cyclically, on the same gadget. */
  lemma {:induction false} TapsCycleSubmodes(cfg: Config, c: Choice, taps: seq<Event>)
    requires ChoiceFits(cfg, c) && AllTaps(taps) && taps != [] && c.selection
    ensures var m := c.current;
            OnEvents(cfg, c, taps) ==
              c.(submodes := c.submodes[m := (c.submodes[m] + |taps|) % (cfg.modes[m].MaxSubmode() + 1)],
                 modeChanged := true, submodeChanged := true)
  {
    var m, init := c.current, taps[..|taps| - 1];
    var count := cfg.modes[m].MaxSubmode() + 1;
    assert SubmodeFits(cfg, m, c.submodes[m]);
    CycleStep(c.submodes[m], |init|, count);
    if init != [] {
      TapsCycleSubmodes(cfg, c, init);
    } else {
      Quotient(c.submodes[m], count, 0, c.submodes[m]);
      assert OnEvents(cfg, c, init) == c;
    }
  }

  /** A full round of taps comes back to the same selection, marked for a new apply. */
  lemma {:induction false} FullRound(cfg: Config, c: Choice, taps: seq<Event>)
    requires ChoiceFits(cfg, c) && AllTaps(taps)
    requires |taps| == if c.selection then cfg.modes[c.current].MaxSubmode() + 1 else |cfg.modes|
    ensures OnEvents(cfg, c, taps) == c.(modeChanged := true, submodeChanged := c.selection)
  {
    assert SubmodeFits(cfg, c.current, c.submodes[c.current]);
    if c.selection {
      var x, d := c.submodes[c.current], |taps|;
      TapsCycleSubmodes(cfg, c, taps);
      Quotient(x + d, d, 1, x);
      assert c.submodes[c.current := x] == c.submodes;
    } else {
      TapsCycleGadgets(cfg, c, taps);
      Quotient(c.current + |taps|, |taps|, 1, c.current);
    }
  }

  // ----- which kind of apply is due -----

  /** What an event asks for: a rebuild, a reconfiguration, or nothing. */
  datatype Wish = Rebuild | Reconfigure | Nothing

  function WishOf(e: Event, selecting: bool): Wish {
    match e
    case Tap => if selecting then Reconfigure else Rebuild
    case MultipleTap => Rebuild
    case _ => Nothing
  }

  /** Whether the submode selection is on after these events: an odd number of long taps toggles it. */
  function SelectingAfter(selecting: bool, events: seq<Event>): bool {
    if events == [] then selecting
    else SelectingAfter(selecting, events[..|events| - 1]) != (events[|events| - 1] == LongTap)
  }

  /** The last wish wins. */
  function LastWish(selecting: bool, events: seq<Event>): Wish {
    if events == [] then Nothing
    else
      var init := events[..|events| - 1];
      var wish := WishOf(events[|events| - 1], SelectingAfter(selecting, init));
      if wish == Nothing then LastWish(selecting, init) else wish
  }

  /**
   * A change is marked exactly when some event wishes for one, and the last such event decides
   * between rebuilding and reconfiguring; long taps only toggle the selection.
   */
  lemma {:induction false} LastWishWins(cfg: Config, c: Choice, events: seq<Event>)
    requires ChoiceFits(cfg, c)
    ensures var r, wish := OnEvents(cfg, c, events), LastWish(c.selection, events);
            && r.selection == SelectingAfter(c.selection, events)
            && r.modeChanged == (c.modeChanged || wish != Nothing)
            && r.submodeChanged == (if wish == Nothing then c.submodeChanged else wish == Reconfigure)
  {
    if events != [] {
      LastWishWins(cfg, c, events[..|events| - 1]);
    }
  }

  // ----- requests -----

  /**
   * The printed form of any configured gadget, on a submode it supports, selects exactly that: the
   * first gadget of the name, on that submode. A submode beyond the maximum is refused.
   */
  lemma {:induction false} RequestReaches(cfg: Config, c: Choice, gadget: Gadget, submode: nat)
    requires ChoiceFits(cfg, c) && gadget in cfg.modes && submode <= MAX_INT
    ensures var (r, answer) := OnRequest(cfg, c, Print(gadget, submode));
            var first := FirstNamed(cfg.modes, gadget.Name());
            && first < |cfg.modes| && cfg.modes[first] == gadget
            && (submode <= gadget.MaxSubmode() ==>
                 Selected(cfg, r) == Target(first, submode) && answer == Answer(Print(gadget, submode)))
            && (submode > gadget.MaxSubmode() ==> r == c && answer == Refused)
  {
    ParsePrint(gadget, submode);
    var k :| 0 <= k < |cfg.modes| && cfg.modes[k] == gadget;
  }

  /** Asking twice for the same gadget is asking once. */
  lemma {:induction false} RequestIdempotent(cfg: Config, c: Choice, raw: string)
    requires ChoiceFits(cfg, c)
    ensures var r := OnRequest(cfg, c, raw).0; OnRequest(cfg, r, raw).0 == r
  {
  }
}
