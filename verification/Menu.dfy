/**
 * The front panel (User/main.c, User/headers/inputs.c): two buttons that turn seven menu pages, and four
 * potentiometers whose handlers write one parameter of the synthesizer to all of its channels.
 */
module Menu {
  import opened Arithmetic
  import opened History
  import opened Opl2
  import opened Options

  const PAGES := 7
  const POTS := 4
  const ADC_RESOLUTION := 4096
  const INTERRUPT_DIFFERENCE := 25

  type Page = n: nat | n < PAGES
  type Pot = n: nat | n < POTS
  type Reading = n: nat | n < ADC_RESOLUTION

  /** The parameter that a handler writes, and the number of levels it divides the potentiometer into. */
  datatype Binding = Binding(param: Param, levels: nat)

  /** The handlers installed by `Initialize_Menu_Pages`; a blank one writes nothing. */
  function Bound(page: Page, pot: Pot): Option<Binding> {
    match (page, pot)
    case (0, 0) => Some(Binding(Attack(0), 16))
    case (0, 1) => Some(Binding(Decay(0), 16))
    case (0, 2) => Some(Binding(Sustain(0), 16))
    case (0, 3) => Some(Binding(Release(0), 16))
    case (1, 0) => Some(Binding(Attack(1), 16))
    case (1, 1) => Some(Binding(Decay(1), 16))
    case (1, 2) => Some(Binding(Sustain(1), 16))
    case (1, 3) => Some(Binding(Release(1), 16))
    case (2, 0) => Some(Binding(Multiplier(0), 16))
    case (2, 1) => Some(Binding(ScalingLevel(0), 4))
    case (2, 2) => Some(Binding(MaintainSustain(0), 2))
    case (2, 3) => Some(Binding(WaveForm(0), 16))
    case (3, 0) => Some(Binding(Multiplier(1), 16))
    case (3, 1) => Some(Binding(ScalingLevel(1), 4))
    case (3, 2) => Some(Binding(MaintainSustain(1), 2))
    case (3, 3) => Some(Binding(WaveForm(1), 16))
    case (4, 0) => Some(Binding(Tremolo(0), 2))
    case (4, 1) => Some(Binding(Vibrato(0), 2))
    case (4, 2) => Some(Binding(EnvelopeScaling(0), 2))
    case (5, 0) => Some(Binding(Tremolo(1), 2))
    case (5, 1) => Some(Binding(Vibrato(1), 2))
    case (5, 2) => Some(Binding(EnvelopeScaling(1), 2))
    case (6, 0) => Some(Binding(DeepTremolo, 2))
    case (6, 1) => Some(Binding(DeepVibrato, 2))
    case (6, 2) => Some(Binding(SynthMode, 2))
    case (6, 3) => Some(Binding(Feedback, 8))
    case _ => None
  }

  /** No two handlers write the same parameter, and only the fourth ones of pages 5 and 6 write none. */
  lemma BindingsDiffer(page: Page, pot: Pot, page': Page, pot': Pot)
    ensures Bound(page, pot).None? <==> pot == 3 && (page == 4 || page == 5)
    ensures Bound(page, pot).Some? && Bound(page', pot').Some? ==>
              (Bound(page, pot).value.param == Bound(page', pot').value.param <==> page == page' && pot == pot')
  {}

  /** The parameters that the seven pages reach. */
  predicate OnPanel(p: Param) {
    || (OfOperator(p) && p.op < 2 && !p.Volume?)
    || p.Feedback? || p.SynthMode? || p.DeepTremolo? || p.DeepVibrato?
  }

  /** Where a parameter is on the panel. */
  function Place(p: Param): (Page, Pot)
    requires OnPanel(p)
  {
    match p
    case Attack(o) => (o, 0)
    case Decay(o) => (o, 1)
    case Sustain(o) => (o, 2)
    case Release(o) => (o, 3)
    case Multiplier(o) => (2 + o, 0)
    case ScalingLevel(o) => (2 + o, 1)
    case MaintainSustain(o) => (2 + o, 2)
    case WaveForm(o) => (2 + o, 3)
    case Tremolo(o) => (4 + o, 0)
    case Vibrato(o) => (4 + o, 1)
    case EnvelopeScaling(o) => (4 + o, 2)
    case DeepTremolo => (6, 0)
    case DeepVibrato => (6, 1)
    case SynthMode => (6, 2)
    case Feedback => (6, 3)
  }

  /** Each of those has its handler, and no handler writes anything else: not the output level, and no note. */
  lemma PanelReaches(page: Page, pot: Pot, p: Param)
    ensures OnPanel(p) ==> Bound(Place(p).0, Place(p).1).Some? && Bound(Place(p).0, Place(p).1).value.param == p
    ensures Bound(page, pot).Some? ==> OnPanel(Bound(page, pot).value.param)
  {}

  /** `Clamp(reading, ADC_RESOLUTION, levels)` */
  function Level(reading: Reading, levels: nat): nat {
    levels * reading / ADC_RESOLUTION
  }

  /** A handler divides the range of the potentiometer into equal bands. */
  lemma LevelBands(reading: Reading)
    ensures Level(reading, 2) == reading / 2048 && Level(reading, 4) == reading / 1024
    ensures Level(reading, 8) == reading / 512 && Level(reading, 16) == reading / 256
  {}

  lemma LevelBelow(reading: Reading, levels: nat)
    requires levels == 2 || levels == 4 || levels == 8 || levels == 16
    ensures Level(reading, levels) < levels
  {}

  /** A handler has as many levels as its field has values, except that a wave form has 16 levels and three bits. */
  lemma LevelsOfBinding(page: Page, pot: Pot)
    requires Bound(page, pot).Some?
    ensures var b := Bound(page, pot).value;
            && (b.levels == 2 || b.levels == 4 || b.levels == 8 || b.levels == 16)
            && (Flag(b.param) ==> b.levels == 2)
            && (!Flag(b.param) && !b.param.WaveForm? ==> b.levels == Pow2(Width(b.param)))
  {
    assert Pow2(1) == 2 && Pow2(2) == 4 && Pow2(3) == 8 && Pow2(4) == 16;
  }

  /** So the field holds every level, except that the upper eight of a wave form read back as the lower ones. */
  lemma LevelFits(page: Page, pot: Pot, reading: Reading)
    requires Bound(page, pot).Some?
    ensures var b := Bound(page, pot).value;
            var x := Level(reading, b.levels);
            x < b.levels && (Stored(b.param, x) == x <==> !(b.param.WaveForm? && x >= 8))
  {
    var b := Bound(page, pot).value;
    LevelsOfBinding(page, pot);
    LevelBelow(reading, b.levels);
    LowBitsOfSmall(Level(reading, b.levels), Width(b.param));
    assert Pow2(3) == 8;
  }

  /** A reading that is not held: half way up, the wave form of the first operator reads back as 0. */
  lemma WaveFormWraps()
    ensures Bound(2, 3) == Some(Binding(WaveForm(0), 16)) && Level(2048, 16) == 8 && Stored(WaveForm(0), 8) == 0
  {
    LowBitsIsMod(8, 3);
    assert Pow2(3) == 8;
  }

  // ---- runs ----

  datatype Event = Left | Right | Turn(pot: Pot, reading: Reading)

  /** Presses to the right minus presses to the left among the first `n` events. */
  function Moves(events: seq<Event>, n: nat): int
    requires n <= |events|
  {
    if n == 0 then 0
    else Moves(events, n - 1) + match events[n - 1] case Right => 1 case Left => -1 case Turn(_, _) => 0
  }

  /** The page after the first `n` events, from page 0. */
  function PageAt(events: seq<Event>, n: nat): Page
    requires n <= |events|
  {
    Moves(events, n) % PAGES
  }

  /** A button was pressed among the first `n` events; until then no page's handlers are installed. */
  ghost predicate Pressed(events: seq<Event>, n: nat)
    requires n <= |events|
  {
    exists k :: 0 <= k < n && !events[k].Turn?
  }

  /** Event `k` writes parameter `p`. */
  ghost predicate Writes(events: seq<Event>, k: nat, p: Param)
    requires k < |events|
  {
    && events[k].Turn? && Pressed(events, k)
    && Bound(PageAt(events, k), events[k].pot).Some?
    && Bound(PageAt(events, k), events[k].pot).value.param == p
  }

  /** The level that event `k` asks for. */
  function Asked(events: seq<Event>, k: nat): nat
    requires k < |events| && events[k].Turn? && Bound(PageAt(events, k), events[k].pot).Some?
  {
    Level(events[k].reading, Bound(PageAt(events, k), events[k].pot).value.levels)
  }

  ghost function WritesTo(events: seq<Event>, p: Param): nat -> bool {
    (k: nat) => k < |events| && Writes(events, k, p)
  }

  /** What a channel holds of `p` after a run: the level of the last write, or the initial value without one. */
  ghost predicate Holds(events: seq<Event>, p: Param, initial: nat, value: nat) {
    && (forall k :: LastAt(WritesTo(events, p), |events|, k) ==> value == Stored(p, Asked(events, k)))
    && (Untouched(events, p) ==> value == initial)
  }

  ghost predicate Untouched(events: seq<Event>, p: Param) {
    forall k :: 0 <= k < |events| ==> !Writes(events, k, p)
  }

  lemma {:induction false} MovesOfPrefix(events: seq<Event>, more: seq<Event>, n: nat)
    requires n <= |events|
    ensures Moves(events + more, n) == Moves(events, n)
  {
    if n > 0 { MovesOfPrefix(events, more, n - 1); }
  }

  /** One more event does not change what came before it. */
  lemma PrefixKept(events: seq<Event>, e: Event, k: nat, p: Param)
    requires k < |events|
    ensures PageAt(events + [e], k) == PageAt(events, k)
    ensures Writes(events + [e], k, p) == Writes(events, k, p)
  {
    MovesOfPrefix(events, [e], k);
    assert forall j :: 0 <= j < k ==> (events + [e])[j] == events[j];
    assert Pressed(events, k) == Pressed(events + [e], k);
  }

  /** The last write before one more event, if that event writes nothing of its own. */
  lemma LastWriteKept(events: seq<Event>, e: Event, p: Param, k: nat)
    requires LastAt(WritesTo(events + [e], p), |events| + 1, k) && !Writes(events + [e], |events|, p)
    ensures LastAt(WritesTo(events, p), |events|, k) && Asked(events + [e], k) == Asked(events, k)
  {
    var all := events + [e];
    LastAtStep(WritesTo(all, p), |events|, k);
    PrefixKept(events, e, k, p);
    forall j: nat | k < j < |events|
      ensures !WritesTo(events, p)(j)
    {
      PrefixKept(events, e, j, p);
      assert !WritesTo(all, p)(j);
    }
  }

  lemma UntouchedBefore(events: seq<Event>, e: Event, p: Param)
    requires Untouched(events + [e], p)
    ensures Untouched(events, p)
  {
    forall k | 0 <= k < |events|
      ensures !Writes(events, k, p)
    {
      PrefixKept(events, e, k, p);
    }
  }

  /** An event that does not write `p` leaves what is held. */
  lemma HoldsStill(events: seq<Event>, e: Event, p: Param, initial: nat, value: nat)
    requires Holds(events, p, initial, value) && !Writes(events + [e], |events|, p)
    ensures Holds(events + [e], p, initial, value)
  {
    forall k | LastAt(WritesTo(events + [e], p), |events| + 1, k)
      ensures value == Stored(p, Asked(events + [e], k))
    {
      LastWriteKept(events, e, p, k);
    }
    if Untouched(events + [e], p) { UntouchedBefore(events, e, p); }
  }

  /** One that does makes it the level asked for. */
  lemma HoldsNew(events: seq<Event>, e: Event, p: Param, initial: nat)
    requires Writes(events + [e], |events|, p)
    ensures Holds(events + [e], p, initial, Stored(p, Asked(events + [e], |events|)))
  {
    var all := events + [e];
    forall k | LastAt(WritesTo(all, p), |events| + 1, k)
      ensures Asked(all, k) == Asked(all, |events|)
    {
      LastAtStep(WritesTo(all, p), |events|, k);
      assert WritesTo(all, p)(|events|);
    }
  }

  // ---- the panel ----

  /** What a potentiometer's handler pointer points to. */
  datatype Handler = Generic | Slider(page: Page, pot: Pot)

  function PageHandlers(page: Page): seq<Handler> {
    [Slider(page, 0), Slider(page, 1), Slider(page, 2), Slider(page, 3)]
  }

  /** The handlers that ought to be installed after a run. */
  ghost function Installed(events: seq<Event>): seq<Handler> {
    if Pressed(events, |events|) then PageHandlers(PageAt(events, |events|)) else [Generic, Generic, Generic, Generic]
  }

  lemma StartsGeneric()
    ensures PageAt([], 0) == 0 && Installed([]) == [Generic, Generic, Generic, Generic]
    ensures forall p, value :: Holds([], p, value, value)
  {}

  /** Page arithmetic: a press moves one page, around the corner at the ends, and installs the new page. */
  lemma PressMoves(events: seq<Event>, e: Event)
    requires !e.Turn?
    ensures var page, all := PageAt(events, |events|), events + [e];
            && PageAt(all, |all|) == (if e.Left? then if page == 0 then PAGES - 1 else page - 1
                                      else if page == PAGES - 1 then 0 else page + 1)
            && Installed(all) == PageHandlers(PageAt(all, |all|))
  {
    MovesOfPrefix(events, [e], |events|);
    assert !(events + [e])[|events|].Turn?;
  }

  /** A turn moves nothing. */
  lemma TurnStays(events: seq<Event>, e: Event)
    requires e.Turn?
    ensures var all := events + [e];
            && PageAt(all, |all|) == PageAt(events, |events|) == PageAt(all, |events|)
            && Pressed(all, |events|) == Pressed(all, |all|) == Pressed(events, |events|)
  {
    MovesOfPrefix(events, [e], |events|);
    assert forall k :: 0 <= k < |events| ==> (events + [e])[k] == events[k];
  }

  /** What the handler writes. */
  function Reaches(h: Handler): Option<Binding> {
    match h
    case Generic => None
    case Slider(page, pot) => Bound(page, pot)
  }

  /** A turn writes what the installed handler writes. */
  lemma TurnReaches(events: seq<Event>, e: Event)
    requires e.Turn?
    ensures var all, bound := events + [e], Reaches(Installed(events)[e.pot]);
            && (forall p :: Writes(all, |events|, p) <==> bound.Some? && bound.value.param == p)
            && (bound.Some? ==> Bound(PageAt(all, |events|), e.pot) == bound && Cell(bound.value.param, 0))
            && PageAt(all, |all|) == PageAt(events, |events|) && Installed(all) == Installed(events)
  {
    TurnStays(events, e);
    var page := PageAt(events, |events|);
    if Bound(page, e.pot).Some? { BoundCell(page, e.pot); }
  }

  /** A reading that differs enough from the last one reported. */
  predicate Moved(prev: Reading, reading: Reading) {
    reading - prev > INTERRUPT_DIFFERENCE || prev - reading > INTERRUPT_DIFFERENCE
  }

  /** What a poll reports of the first `n` potentiometers, in their order. */
  function Turns(prev: seq<Reading>, readings: seq<Reading>, n: nat): seq<Event>
    requires |prev| == |readings| == POTS && n <= POTS
  {
    if n == 0 then []
    else
      Turns(prev, readings, n - 1)
      + if Moved(prev[n - 1], readings[n - 1]) then [Turn(n - 1, readings[n - 1])] else []
  }

  predicate Apart(a: int, b: int, difference: int) {
    a - b >= difference || b - a >= difference
  }

  /** A potentiometer is reported exactly when its reading is 26 or more above or below the last one reported. */
  lemma {:induction false} TurnsReported(prev: seq<Reading>, readings: seq<Reading>, n: nat)
    requires |prev| == |readings| == POTS && n <= POTS
    ensures forall e :: e in Turns(prev, readings, n) ==> e.Turn? && e.pot < n && e.reading == readings[e.pot]
    ensures forall k: Pot :: k < n ==>
              (Turn(k, readings[k]) in Turns(prev, readings, n) <==> Apart(prev[k], readings[k], 26))
  {
    if n > 0 { TurnsReported(prev, readings, n - 1); }
  }

  /** And of the buttons: a press is reported once, when it begins. */
  function Presses(leftPrev: bool, left: bool, rightPrev: bool, right: bool): seq<Event> {
    (if !leftPrev && left then [Left] else []) + (if !rightPrev && right then [Right] else [])
  }

  /** The turns among some events: one of each potentiometer that was moved by 26 or more, in either direction. */
  ghost predicate Reports(events: seq<Event>, prev: seq<Reading>, readings: seq<Reading>)
    requires |prev| == |readings| == POTS
  {
    forall k: Pot, r: Reading :: Turn(k, r) in events <==> r == readings[k] && Apart(prev[k], readings[k], 26)
  }

  predicate ReportsPresses(events: seq<Event>, leftPrev: bool, left: bool, rightPrev: bool, right: bool) {
    (Left in events <==> left && !leftPrev) && (Right in events <==> right && !rightPrev)
  }

  /** All readings are within 25 of the last ones reported. */
  predicate Settled(prev: seq<Reading>, readings: seq<Reading>)
    requires |prev| == |readings| == POTS
  {
    forall k: Pot :: !Apart(prev[k], readings[k], 26)
  }

  lemma NotMovedIsSettled(prev: seq<Reading>, readings: seq<Reading>)
    requires |prev| == |readings| == POTS && forall k :: 0 <= k < POTS ==> !Moved(prev[k], readings[k])
    ensures Settled(prev, readings)
  {}

  /** What a poll reports. */
  lemma PollReports(
      prev: seq<Reading>, readings: seq<Reading>, leftPrev: bool, left: bool, rightPrev: bool, right: bool)
    requires |prev| == |readings| == POTS
    ensures Reports(Turns(prev, readings, POTS), prev, readings)
    ensures ReportsPresses(Presses(leftPrev, left, rightPrev, right), leftPrev, left, rightPrev, right)
    ensures var reported := Turns(prev, readings, POTS) + Presses(leftPrev, left, rightPrev, right);
            Reports(reported, prev, readings) && ReportsPresses(reported, leftPrev, left, rightPrev, right)
  {
    TurnsReported(prev, readings, POTS);
  }

  lemma Appended(events: seq<Event>, more: seq<Event>)
    ensures (events + more)[|events|..] == more
  {}

  lemma BoundCell(page: Page, pot: Pot)
    requires Bound(page, pot).Some?
    ensures Cell(Bound(page, pot).value.param, 0)
  {}

  class Panel {
    const chip: Ym3812
    var menuIndex: Page
    var handlers: seq<Handler>
    var potVal: seq<Reading>
    var potPrevVal: seq<Reading>
    var leftPrev: bool
    var rightPrev: bool
    ghost var events: seq<Event>
    ghost var initial: imap<(Param, nat), nat>

    /** Page and handlers are those of the run so far. */
    ghost predicate Shows()
      reads this
    {
      && menuIndex == PageAt(events, |events|) && handlers == Installed(events)
      && |potVal| == POTS && |potPrevVal| == POTS
    }

    /** Every copy of every parameter holds what the run `events` makes it. */
    ghost predicate Plays(events: seq<Event>)
      reads this`initial, chip, chip.Repr()
    {
      && chip.Valid() && chip.Coherent()
      && forall p: Param, c: nat ::
        Cell(p, c) ==> (p, c) in initial && Holds(events, p, initial[(p, c)], chip.Value(p, c))
    }

    ghost predicate Valid()
      reads this, chip, chip.Repr()
    {
      Shows() && Plays(events)
    }

    /** After `Inputs_Init`: page 0, no page's handlers, buttons up. */
    constructor (chip: Ym3812, potVal: seq<Reading>)
      requires chip.Valid() && chip.Coherent() && |potVal| == POTS
      ensures Valid() && this.chip == chip && events == []
      ensures this.potVal == potPrevVal == potVal && !leftPrev && !rightPrev
      ensures forall p: Param, c: nat :: Cell(p, c) ==> initial[(p, c)] == chip.Value(p, c)
    {
      this.chip, menuIndex := chip, 0;
      handlers := [Generic, Generic, Generic, Generic];
      this.potVal, potPrevVal := potVal, potVal;
      leftPrev, rightPrev := false, false;
      events := [];
      initial := imap x: (Param, nat) | Cell(x.0, x.1) :: chip.Value(x.0, x.1);
      new;
      StartsGeneric();
    }

    /** A press writes no parameter. */
    lemma PressPlays(e: Event)
      requires Plays(events) && !e.Turn?
      ensures Plays(events + [e])
    {
      forall p: Param, c: nat | Cell(p, c)
        ensures Holds(events + [e], p, initial[(p, c)], chip.Value(p, c))
      {
        HoldsStill(events, e, p, initial[(p, c)], chip.Value(p, c));
      }
    }

    /** The four pointer assignments that end both button handlers. */
    method InstallPage()
      modifies this`handlers
      ensures handlers == PageHandlers(menuIndex)
    {
      handlers := [Slider(menuIndex, 0), Slider(menuIndex, 1), Slider(menuIndex, 2), Slider(menuIndex, 3)];
    }

    method HandleButtonLeft()
      requires Valid()
      modifies this`menuIndex, this`handlers, this`events
      ensures Valid() && events == old(events) + [Left]
    {
      PressMoves(events, Left);
      PressPlays(Left);
      if menuIndex == 0 {
        menuIndex := PAGES - 1;
      } else {
        menuIndex := menuIndex - 1;
      }
      InstallPage();
      events := events + [Left];
    }

    method HandleButtonRight()
      requires Valid()
      modifies this`menuIndex, this`handlers, this`events
      ensures Valid() && events == old(events) + [Right]
    {
      PressMoves(events, Right);
      PressPlays(Right);
      if menuIndex == PAGES - 1 {
        menuIndex := 0;
      } else {
        menuIndex := menuIndex + 1;
      }
      InstallPage();
      events := events + [Right];
    }

    /** A handler's loop over the channels; a chip-wide parameter is written once. */
    method Change(b: Binding, level: nat)
      requires chip.Valid() && Cell(b.param, 0)
      modifies chip.Repr()
      ensures forall p: Param, c: nat :: Cell(p, c) ==>
                chip.Value(p, c) == if p == b.param then Stored(p, level) else old(chip.Value(p, c))
      ensures old(chip.Coherent()) ==> chip.Coherent()
    {
      if OfChip(b.param) {
        chip.Set(b.param, 0, level);
        return;
      }
      var i := 0;
      while i < CHANNELS
        invariant 0 <= i <= CHANNELS
        invariant forall p: Param, c: nat :: Cell(p, c) ==>
                    chip.Value(p, c) == if p == b.param && c < i then Stored(p, level) else old(chip.Value(p, c))
        invariant old(chip.Coherent()) ==> chip.Coherent()
      {
        chip.Set(b.param, i, level);
        i := i + 1;
      }
    }

    /** What a turn that reaches `bound` makes of every parameter. */
    lemma TurnPlays(e: Event, bound: Option<Binding>)
      requires Plays(events) && e.Turn?
      requires forall p :: Writes(events + [e], |events|, p) <==> bound.Some? && bound.value.param == p
      requires bound.Some? ==> Bound(PageAt(events + [e], |events|), e.pot) == bound
      ensures forall p: Param, c: nat :: Cell(p, c) ==>
                Holds(events + [e], p, initial[(p, c)],
                      if bound.Some? && bound.value.param == p then Stored(p, Level(e.reading, bound.value.levels))
                      else chip.Value(p, c))
    {
      forall p: Param, c: nat | Cell(p, c)
        ensures Holds(events + [e], p, initial[(p, c)],
                      if bound.Some? && bound.value.param == p then Stored(p, Level(e.reading, bound.value.levels))
                      else chip.Value(p, c))
      {
        if bound.Some? && bound.value.param == p {
          HoldsNew(events, e, p, initial[(p, c)]);
        } else {
          HoldsStill(events, e, p, initial[(p, c)], chip.Value(p, c));
        }
      }
    }

    /** The call through the handler pointer of potentiometer `pot`. */
    method InvokePot(pot: Pot)
      requires Valid()
      modifies this`events, chip.Repr()
      ensures Valid() && events == old(events) + [Turn(pot, potVal[pot])]
    {
      ghost var e := Turn(pot, potVal[pot]);
      TurnReaches(events, e);
      var bound := Reaches(handlers[pot]);
      TurnPlays(e, bound);
      if bound.Some? {
        Change(bound.value, Level(potVal[pot], bound.value.levels));
      }
      events := events + [e];
    }

    /** One of the four checks of a poll. */
    method PollPot(pot: Pot)
      requires Valid()
      modifies this`events, this`potPrevVal, chip.Repr()
      ensures Valid()
      ensures events == old(events) + if Moved(old(potPrevVal)[pot], potVal[pot]) then [Turn(pot, potVal[pot])] else []
      ensures !Moved(potPrevVal[pot], potVal[pot])
      ensures forall k :: 0 <= k < POTS && k != pot ==> potPrevVal[k] == old(potPrevVal)[k]
    {
      if Moved(potPrevVal[pot], potVal[pot]) {
        InvokePot(pot);
        potPrevVal := potPrevVal[pot := potVal[pot]];
      }
    }

    /** The potentiometers of a poll. */
    method PollPots()
      requires Valid()
      modifies this`events, this`potPrevVal, chip.Repr()
      ensures Valid() && events == old(events) + Turns(old(potPrevVal), potVal, POTS)
      ensures forall k :: 0 <= k < POTS ==> !Moved(potPrevVal[k], potVal[k])
    {
      var pot := 0;
      while pot < POTS
        invariant 0 <= pot <= POTS && Valid()
        invariant events == old(events) + Turns(old(potPrevVal), potVal, pot)
        invariant forall k :: 0 <= k < pot ==> !Moved(potPrevVal[k], potVal[k])
        invariant forall k :: pot <= k < POTS ==> potPrevVal[k] == old(potPrevVal)[k]
      {
        PollPot(pot);
        pot := pot + 1;
      }
    }

    method ReadPotentiometers(readings: seq<Reading>)
      requires Valid() && |readings| == POTS
      modifies this`potVal
      ensures Valid() && potVal == readings
    {
      potVal := readings;
    }

    /** The buttons of a poll. */
    method PollButtons(left: bool, right: bool)
      requires Valid()
      modifies this`menuIndex, this`handlers, this`events, this`leftPrev, this`rightPrev
      ensures Valid() && leftPrev == left && rightPrev == right
      ensures events == old(events) + Presses(old(leftPrev), left, old(rightPrev), right)
    {
      PollLeft(left);
      PollRight(right);
      leftPrev, rightPrev := left, right;
    }

    method PollLeft(left: bool)
      requires Valid()
      modifies this`menuIndex, this`handlers, this`events
      ensures Valid() && events == old(events) + if !leftPrev && left then [Left] else []
    {
      if !leftPrev && left { HandleButtonLeft(); }
    }

    method PollRight(right: bool)
      requires Valid()
      modifies this`menuIndex, this`handlers, this`events
      ensures Valid() && events == old(events) + if !rightPrev && right then [Right] else []
    {
      if !rightPrev && right { HandleButtonRight(); }
    }

    /** The two parts of a poll; the run goes on by what they report. */
    method PollAll(readings: seq<Reading>, left: bool, right: bool)
      requires Valid() && |readings| == POTS
      modifies this, chip.Repr()
      ensures Valid() && initial == old(initial) && leftPrev == left && rightPrev == right
      ensures events == old(events) + (Turns(old(potPrevVal), readings, POTS)
                                       + Presses(old(leftPrev), left, old(rightPrev), right))
      ensures potVal == readings && forall k :: 0 <= k < POTS ==> !Moved(potPrevVal[k], potVal[k])
    {
      ReadPotentiometers(readings);
      PollPots();
      PollButtons(left, right);
    }

    /**
     * `Poll_Inputs`. The run goes on by exactly the turns and presses that this poll reports: the turns by 26 or more
     * and the presses that begin. Afterwards every potentiometer is within 25 of what was last reported of it.
     */
    method PollInputs(readings: seq<Reading>, left: bool, right: bool)
      requires Valid() && |readings| == POTS
      modifies this, chip.Repr()
      ensures Valid() && initial == old(initial)
      ensures events == old(events) + (Turns(old(potPrevVal), readings, POTS)
                                       + Presses(old(leftPrev), left, old(rightPrev), right))
      ensures Reports(events[|old(events)|..], old(potPrevVal), readings)
      ensures ReportsPresses(events[|old(events)|..], old(leftPrev), left, old(rightPrev), right)
      ensures potVal == readings && Settled(potPrevVal, readings)
      ensures leftPrev == left && rightPrev == right
    {
      ghost var prev, leftWas, rightWas := potPrevVal, leftPrev, rightPrev;
      PollAll(readings, left, right);
      NotMovedIsSettled(potPrevVal, readings);
      PollReports(prev, readings, leftWas, left, rightWas, right);
      Appended(old(events), Turns(prev, readings, POTS) + Presses(leftWas, left, rightWas, right));
    }

    /**
     * The slider is drawn from channel 0, and speaks for all channels: once a parameter was written, or if the
     * channels agreed on it from the start, they agree on it.
     */
    lemma ChannelZeroSpeaks(p: Param, c: nat)
      requires Valid() && Cell(p, c) && Cell(p, 0)
      requires Untouched(events, p) ==> initial[(p, c)] == initial[(p, 0)]
      ensures chip.Value(p, c) == chip.Value(p, 0)
    {
      if !Untouched(events, p) {
        var k := SomeLastWrite(events, p, |events|);
      }
    }

    /** What the panel does not reach, no run of panel events touches: output levels, and the notes that sound. */
    lemma NotesUndisturbed(p: Param, c: nat)
      requires Valid() && Cell(p, c) && !OnPanel(p)
      ensures chip.Value(p, c) == initial[(p, c)]
    {
      UnreachedUntouched(events, p);
    }
  }

  lemma UnreachedUntouched(events: seq<Event>, p: Param)
    requires !OnPanel(p)
    ensures Untouched(events, p)
  {}

  /** A parameter that was written was written a last time. */
  lemma {:induction false} SomeLastWrite(events: seq<Event>, p: Param, n: nat) returns (k: nat)
    requires n <= |events| && exists j :: 0 <= j < n && Writes(events, j, p)
    ensures LastAt(WritesTo(events, p), n, k)
  {
    if Writes(events, n - 1, p) {
      k := n - 1;
    } else {
      k := SomeLastWrite(events, p, n - 1);
      LastAtStep(WritesTo(events, p), n - 1, k);
    }
  }
}
