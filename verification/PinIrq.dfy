/**
 * What the pin interrupt calls do, as functions on the driver's state, and what any sequence of
 * calls leaves behind (drivers/drv_gpio.c).
 */
module PinIrq {
  import opened History
  import opened Options
  import opened Pins

  /** Return codes; the source returns the bare RT-Thread constants. */
  datatype Err = EOK | ENOSYS | EBUSY

  /** `struct rt_pin_irq_hdr`: a 16-bit pin number, a 16-bit mode, a function pointer and its argument (0 is null). */
  datatype Slot = Slot(pin: int, mode: nat, hdr: nat, args: nat)

  const FREE := Slot(-1, 0, 0, 0)

  const EMPTY_TABLE := [FREE, FREE, FREE, FREE, FREE, FREE, FREE, FREE,
                        FREE, FREE, FREE, FREE, FREE, FREE, FREE, FREE]

  type Table = t: seq<Slot> | |t| == 16 witness EMPTY_TABLE

  /** Conversion of a 32-bit value to `rt_int16_t` and to `rt_uint16_t`. */
  function Int16(x: int): int {
    (x + 0x8000) % 0x1_0000 - 0x8000
  }

  function UInt16(x: int): nat {
    x % 0x1_0000
  }

  /** Both conversions keep the low 16 bits. */
  lemma Narrowing(x: int)
    ensures -0x8000 <= Int16(x) < 0x8000 && 0 <= UInt16(x) < 0x1_0000
    ensures Int16(x) % 0x1_0000 == UInt16(x) == x % 0x1_0000
  {}

  datatype Trigger = Rising | Falling | Both

  /**
   * A call of one of the three operations. `stale` is what the uninitialised `EXTI_Trigger` field of
   * the enable call's stack structure happens to hold; it matters only for modes the switch does not handle.
   */
  datatype Call =
    | Attach(pin: int, mode: nat, hdr: nat, args: nat)
    | Detach(pin: int)
    | IrqEnable(pin: int, enabled: nat, stale: Trigger)

  /**
   * The handler table, the enabled IRQ numbers, the unmasked EXTI lines, and the port and trigger
   * selected for each line this driver has configured.
   */
  datatype Driver = Driver(
    tab: Table, irqs: set<nat>, lines: set<nat>, ports: map<nat, Port>, triggers: map<nat, Trigger>)

  /** Reset: nothing attached, nothing enabled, no line configured by this driver. */
  const RESET := Driver(EMPTY_TABLE, {}, {}, map[], map[])

  /** What attach stores: pin number and mode are narrowed to 16 bits. */
  function Stored(c: Call): Slot
    requires c.Attach?
  {
    Slot(Int16(c.pin), UInt16(c.mode), c.hdr, c.args)
  }

  /** The comparison at the top of attach is made with the caller's values before narrowing. */
  predicate Identical(s: Slot, c: Call)
    requires c.Attach?
  {
    s == Slot(c.pin, c.mode, c.hdr, c.args)
  }

  /** The switch over the slot's mode. */
  function TriggerOf(mode: nat, stale: Trigger): Trigger {
    if mode == 0 then Rising else if mode == 1 then Falling else if mode == 2 then Both else stale
  }

  /** Attach and detach on the table, for a pin of line `i`. */
  function AttachStep(t: Table, i: LineNo, c: Call): (Table, Err)
    requires c.Attach?
  {
    if Identical(t[i], c) then (t, EOK)
    else if t[i].pin != -1 then (t, EBUSY)
    else (t[i := Stored(c)], EOK)
  }

  function DetachStep(t: Table, i: LineNo): (Table, Err) {
    if t[i].pin == -1 then (t, EOK) else (t[i := FREE], EOK)
  }

  function EnableStep(pins: Board, d: Driver, i: LineNo, c: Call): (Driver, Err)
    requires c.IrqEnable? && GetPin(pins, c.pin).Some?
  {
    if d.tab[i].pin == -1 then (d, ENOSYS)
    else
      (Driver(d.tab, d.irqs + {IrqOf(i)}, d.lines + {i}, d.ports[i := GetPin(pins, c.pin).value.port],
              d.triggers[i := TriggerOf(d.tab[i].mode, c.stale)]),
       EOK)
  }

  /** One whole call: the new state and the return code. */
  function Step(pins: Board, d: Driver, c: Call): (Driver, Err) {
    if Line(pins, c.pin).None? then (d, ENOSYS)
    else
      var i := Line(pins, c.pin).value;
      match c
      case Attach(_, _, _, _) =>
        var (tab, err) := AttachStep(d.tab, i, c);
        (d.(tab := tab), err)
      case Detach(_) =>
        var (tab, err) := DetachStep(d.tab, i);
        (d.(tab := tab), err)
      case IrqEnable(_, enabled, _) =>
        if enabled == 1 then EnableStep(pins, d, i, c)
        else if enabled == 0 then (d.(irqs := d.irqs - {IrqOf(i)}), EOK)
        else (d, ENOSYS)
  }

  /** The state after the first `n` calls. */
  function After(pins: Board, calls: seq<Call>, n: nat): Driver
    requires n <= |calls|
  {
    if n == 0 then RESET else Step(pins, After(pins, calls, n - 1), calls[n - 1]).0
  }

  function Run(pins: Board, calls: seq<Call>): Driver {
    After(pins, calls, |calls|)
  }

  /** The return code of the call at position `k`. */
  function ResultAt(pins: Board, calls: seq<Call>, k: nat): Err
    requires k < |calls|
  {
    Step(pins, After(pins, calls, k), calls[k]).1
  }

  /** Later calls do not change what the earlier ones did. */
  lemma {:induction false} AfterPrefix(pins: Board, calls: seq<Call>, more: seq<Call>, n: nat)
    requires n <= |calls|
    ensures After(pins, calls + more, n) == After(pins, calls, n)
  {
    if n > 0 {
      AfterPrefix(pins, calls, more, n - 1);
    }
  }

  // ---- well-formed slots ----

  /** A slot is free, with nothing left of an earlier registration, or holds a valid pin of its own line. */
  predicate WellFormedSlot(pins: Board, s: Slot, i: LineNo) {
    s == FREE || (s.pin != -1 && Line(pins, s.pin) == Some(i) && -0x8000 <= s.pin < 0x8000 && s.mode < 0x1_0000)
  }

  predicate WellFormed(pins: Board, t: Table) {
    forall i: LineNo :: WellFormedSlot(pins, t[i], i)
  }

  lemma NarrowingKeepsLowByte(pin: int)
    ensures Int16(pin) % 256 == pin % 256
    ensures Int16(pin) == -1 ==> pin % 256 == 255
  {
    var q := (pin + 0x8000) / 0x1_0000;
    assert pin == Int16(pin) + 256 * (256 * q);
    LowByteOfSum(Int16(pin), 256 * q);
  }

  lemma LowByteOfSum(x: int, k: int)
    ensures (x + 256 * k) % 256 == x % 256
  {}

  /**
   * The narrowed pin number of a valid pin is on the same line and is never the free marker -1:
   * the table has fewer than 255 rows, so 0xFF in the low byte is no pin.
   */
  lemma NarrowedPin(pins: Board, pin: int)
    requires Line(pins, pin).Some?
    ensures Int16(pin) != -1
    ensures Line(pins, Int16(pin)) == Line(pins, pin)
  {
    NarrowingKeepsLowByte(pin);
  }

  lemma StepKeepsWellFormed(pins: Board, d: Driver, c: Call)
    requires WellFormed(pins, d.tab)
    ensures WellFormed(pins, Step(pins, d, c).0.tab)
  {
    if c.Attach? && Line(pins, c.pin).Some? {
      NarrowedPin(pins, c.pin);
    }
  }

  /** Every reachable table is well formed, for all 32-bit pin numbers and modes passed in. */
  lemma {:induction false} ReachableIsWellFormed(pins: Board, calls: seq<Call>, n: nat)
    requires n <= |calls|
    ensures WellFormed(pins, After(pins, calls, n).tab)
  {
    if n > 0 {
      ReachableIsWellFormed(pins, calls, n - 1);
      StepKeepsWellFormed(pins, After(pins, calls, n - 1), calls[n - 1]);
    }
  }

  /** A registered pin sits in one slot only, and the pins that share a line share its one slot. */
  lemma OneOwnerPerLine(pins: Board, calls: seq<Call>, i: LineNo, j: LineNo)
    requires Run(pins, calls).tab[i].pin != -1 && Run(pins, calls).tab[j].pin != -1
    ensures Run(pins, calls).tab[i].pin == Run(pins, calls).tab[j].pin ==> i == j
    ensures Line(pins, Run(pins, calls).tab[i].pin) == Line(pins, Run(pins, calls).tab[j].pin) ==> i == j
  {
    ReachableIsWellFormed(pins, calls, |calls|);
    assert WellFormedSlot(pins, Run(pins, calls).tab[i], i) && WellFormedSlot(pins, Run(pins, calls).tab[j], j);
  }

  // ---- the slot as a function of the history ----

  predicate AttachesTo(pins: Board, c: Call, i: LineNo) {
    c.Attach? && Line(pins, c.pin) == Some(i)
  }

  predicate DetachesFrom(pins: Board, c: Call, i: LineNo) {
    c.Detach? && Line(pins, c.pin) == Some(i)
  }

  /** Some call in positions `lo .. hi` detaches a pin of line `i`; ownership is not checked. */
  predicate DetachBetween(pins: Board, calls: seq<Call>, i: LineNo, lo: nat, hi: nat)
    requires hi <= |calls|
  {
    exists j :: lo <= j < hi && DetachesFrom(pins, calls[j], i)
  }

  /** Among the first `n` calls, position `a` is the first attach on line `i` since the last detach on it. */
  predicate FirstAttachSinceDetach(pins: Board, calls: seq<Call>, n: nat, i: LineNo, a: nat)
    requires n <= |calls|
  {
    && a < n
    && AttachesTo(pins, calls[a], i)
    && !DetachBetween(pins, calls, i, a, n)
    && forall b :: 0 <= b < a && AttachesTo(pins, calls[b], i) ==> DetachBetween(pins, calls, i, b, a)
  }

  /** Among the first `n` calls, every attach on line `i` is followed by a detach on it. */
  predicate NoneSinceDetach(pins: Board, calls: seq<Call>, n: nat, i: LineNo)
    requires n <= |calls|
  {
    forall a :: 0 <= a < n && AttachesTo(pins, calls[a], i) ==> DetachBetween(pins, calls, i, a, n)
  }

  /** How one call changes slot `i`: only a first attach or a detach on its own line does. */
  lemma SlotStep(pins: Board, d: Driver, c: Call, i: LineNo)
    requires WellFormed(pins, d.tab)
    ensures Step(pins, d, c).0.tab[i] ==
            if DetachesFrom(pins, c, i) then FREE
            else if AttachesTo(pins, c, i) && d.tab[i] == FREE then Stored(c)
            else d.tab[i]
  {}

  lemma HistoryStep(pins: Board, calls: seq<Call>, n: nat, i: LineNo)
    requires 0 < n <= |calls|
    ensures NoneSinceDetach(pins, calls, n, i) <==>
            || DetachesFrom(pins, calls[n - 1], i)
            || (NoneSinceDetach(pins, calls, n - 1, i) && !AttachesTo(pins, calls[n - 1], i))
    ensures forall a: nat :: FirstAttachSinceDetach(pins, calls, n, i, a) <==>
                             if a == n - 1 then NoneSinceDetach(pins, calls, n - 1, i) && AttachesTo(pins, calls[a], i)
                             else
                               && FirstAttachSinceDetach(pins, calls, n - 1, i, a)
                               && !DetachesFrom(pins, calls[n - 1], i)
  {}

  lemma {:induction false} FirstAttach(pins: Board, calls: seq<Call>, n: nat, i: LineNo) returns (a: nat)
    requires n <= |calls| && !NoneSinceDetach(pins, calls, n, i)
    ensures FirstAttachSinceDetach(pins, calls, n, i, a)
  {
    HistoryStep(pins, calls, n, i);
    if NoneSinceDetach(pins, calls, n - 1, i) {
      a := n - 1;
    } else {
      a := FirstAttach(pins, calls, n - 1, i);
    }
  }

  /** A slot is free exactly when no attach on its line follows the last detach on it. */
  lemma {:induction false} SlotFreeWhenNoneSinceDetach(pins: Board, calls: seq<Call>, n: nat, i: LineNo)
    requires n <= |calls|
    ensures After(pins, calls, n).tab[i] == FREE <==> NoneSinceDetach(pins, calls, n, i)
  {
    if n > 0 {
      SlotFreeWhenNoneSinceDetach(pins, calls, n - 1, i);
      ReachableIsWellFormed(pins, calls, n - 1);
      SlotStep(pins, After(pins, calls, n - 1), calls[n - 1], i);
      HistoryStep(pins, calls, n, i);
      if AttachesTo(pins, calls[n - 1], i) {
        NarrowedPin(pins, calls[n - 1].pin);
      }
    }
  }

  /** Otherwise the slot holds the arguments of the first attach on its line since that detach. */
  lemma {:induction false} SlotIsFirstAttachSinceDetach(pins: Board, calls: seq<Call>, n: nat, i: LineNo, a: nat)
    requires n <= |calls| && FirstAttachSinceDetach(pins, calls, n, i, a)
    ensures After(pins, calls, n).tab[i] == Stored(calls[a]) != FREE
  {
    ReachableIsWellFormed(pins, calls, n - 1);
    SlotStep(pins, After(pins, calls, n - 1), calls[n - 1], i);
    HistoryStep(pins, calls, n, i);
    NarrowedPin(pins, calls[a].pin);
    if a == n - 1 {
      SlotFreeWhenNoneSinceDetach(pins, calls, n - 1, i);
    } else {
      SlotIsFirstAttachSinceDetach(pins, calls, n - 1, i, a);
    }
  }

  /** A detach by a pin that does not own the slot: pins 30 and 91 are the fifth of ports A and B. */
  lemma ForeignDetach()
    ensures var calls := [Attach(30, 0, 1, 1), Detach(91)];
            && After(PINS_100, calls, 1).tab[5] == Slot(30, 0, 1, 1)
            && ResultAt(PINS_100, calls, 1) == EOK && After(PINS_100, calls, 2).tab[5] == FREE
  {
    BoardRows();
    OwnerLosesSlot(PINS_100, 30, 91);
  }

  lemma OwnerLosesSlot(pins: Board, owner: int, other: int)
    requires 0 <= owner < 255 && Line(pins, owner) == Line(pins, other) == Some(5)
    ensures var calls := [Attach(owner, 0, 1, 1), Detach(other)];
            && After(pins, calls, 1).tab[5] == Slot(owner, 0, 1, 1)
            && ResultAt(pins, calls, 1) == EOK && After(pins, calls, 2).tab[5] == FREE
  {
    var calls := [Attach(owner, 0, 1, 1), Detach(other)];
    assert After(pins, calls, 1) == Step(pins, After(pins, calls, 0), calls[0]).0;
    assert After(pins, calls, 2) == Step(pins, After(pins, calls, 1), calls[1]).0;
  }

  // ---- attach on an occupied slot ----

  /** Once a line is taken, attach changes nothing; it reports success only for the registration already there. */
  lemma AttachOnTakenLine(pins: Board, calls: seq<Call>, c: Call, i: LineNo)
    requires AttachesTo(pins, c, i) && Run(pins, calls).tab[i] != FREE
    ensures var d := Run(pins, calls);
            Step(pins, d, c) == (d, if Identical(d.tab[i], c) then EOK else EBUSY)
  {
    ReachableIsWellFormed(pins, calls, |calls|);
    assert WellFormedSlot(pins, Run(pins, calls).tab[i], i);
  }

  /** The call's pin number and mode survive the 16-bit fields of the slot. */
  predicate Fits(c: Call)
    requires c.Attach?
  {
    -0x8000 <= c.pin < 0x8000 && c.mode < 0x1_0000
  }

  /**
   * Repeating a successful attach, on a line that was free, is accepted exactly when the pin number and
   * the mode fit the slot's 16-bit fields: the narrowed copy is compared with the caller's wide values.
   */
  lemma RepeatedAttach(pins: Board, d: Driver, c: Call, i: LineNo)
    requires AttachesTo(pins, c, i) && d.tab[i] == FREE
    ensures Step(pins, d, c).1 == EOK
    ensures Step(pins, Step(pins, d, c).0, c).1 == if Fits(c) then EOK else EBUSY
  {}

  /** A registration that is refused when repeated: mode 0x10000 is stored as 0. */
  lemma RepeatedAttachRefused()
    ensures var c := Attach(98, 0x1_0000, 1, 1);
            Step(PINS_100, RESET, c).1 == EOK && Step(PINS_100, Step(PINS_100, RESET, c).0, c).1 == EBUSY
  {
    BoardRows();
    RepeatedAttach(PINS_100, RESET, Attach(98, 0x1_0000, 1, 1), 1);
  }

  // ---- enable and disable ----

  /** The call at position `k` enables line `i` and succeeds. */
  predicate Enables(pins: Board, calls: seq<Call>, k: nat, i: LineNo)
    requires k < |calls|
  {
    && calls[k].IrqEnable? && calls[k].enabled == 1 && Line(pins, calls[k].pin) == Some(i)
    && ResultAt(pins, calls, k) == EOK
  }

  /** The call at position `k` disables a pin of line `i`; nothing else is required for that to succeed. */
  predicate Disables(pins: Board, c: Call, i: LineNo) {
    c.IrqEnable? && c.enabled == 0 && Line(pins, c.pin) == Some(i)
  }

  /** The positions of successful enables on any line of an IRQ's group. */
  ghost function EnablesOf(pins: Board, calls: seq<Call>, irq: nat): nat -> bool {
    (k: nat) => k < |calls| && exists i: LineNo :: IrqOf(i) == irq && Enables(pins, calls, k, i)
  }

  /** The positions of disables on any line of an IRQ's group. */
  ghost function DisablesOf(pins: Board, calls: seq<Call>, irq: nat): nat -> bool {
    (k: nat) => k < |calls| && exists i: LineNo :: IrqOf(i) == irq && Disables(pins, calls[k], i)
  }

  /** The positions of successful enables on one line. */
  ghost function EnablesLine(pins: Board, calls: seq<Call>, i: LineNo): nat -> bool {
    (k: nat) => k < |calls| && Enables(pins, calls, k, i)
  }

  lemma SwitchStep(pins: Board, calls: seq<Call>, k: nat, irq: nat)
    requires k < |calls|
    ensures irq in After(pins, calls, k + 1).irqs <==>
            EnablesOf(pins, calls, irq)(k) || (irq in After(pins, calls, k).irqs && !DisablesOf(pins, calls, irq)(k))
  {}

  /**
   * The IRQ of a group is enabled exactly when the last successful enable or disable on any pin of the
   * group was an enable: disabling one pin switches the whole group off.
   */
  lemma {:induction false} GroupFollowsLastSwitch(pins: Board, calls: seq<Call>, n: nat, irq: nat)
    requires n <= |calls|
    ensures irq in After(pins, calls, n).irqs <==> LastOn(EnablesOf(pins, calls, irq), DisablesOf(pins, calls, irq), n)
  {
    if n > 0 {
      GroupFollowsLastSwitch(pins, calls, n - 1, irq);
      SwitchStep(pins, calls, n - 1, irq);
      LastOnStep(EnablesOf(pins, calls, irq), DisablesOf(pins, calls, irq), n - 1);
    }
  }

  /** Disabling pin 31 (line 6) switches off the interrupt that was enabled for pin 30 (line 5). */
  lemma NeighbourDisables()
    ensures var calls := [Attach(30, 0, 1, 1), IrqEnable(30, 1, Rising), IrqEnable(31, 0, Rising)];
            && 39 in After(PINS_100, calls, 2).irqs
            && ResultAt(PINS_100, calls, 2) == EOK && 39 !in After(PINS_100, calls, 3).irqs
  {
    BoardRows();
    OtherPinDisables(PINS_100, 30, 31);
  }

  lemma OtherPinDisables(pins: Board, pin: int, other: int)
    requires 0 <= pin < 255 && Line(pins, pin) == Some(5) && Line(pins, other) == Some(6)
    ensures var calls := [Attach(pin, 0, 1, 1), IrqEnable(pin, 1, Rising), IrqEnable(other, 0, Rising)];
            && 39 in After(pins, calls, 2).irqs
            && ResultAt(pins, calls, 2) == EOK && 39 !in After(pins, calls, 3).irqs
  {
    var calls := [Attach(pin, 0, 1, 1), IrqEnable(pin, 1, Rising), IrqEnable(other, 0, Rising)];
    assert After(pins, calls, 1) == Step(pins, After(pins, calls, 0), calls[0]).0;
    assert After(pins, calls, 2) == Step(pins, After(pins, calls, 1), calls[1]).0;
    assert After(pins, calls, 3) == Step(pins, After(pins, calls, 2), calls[2]).0;
  }

  lemma ConfigStep(pins: Board, calls: seq<Call>, k: nat, i: LineNo)
    requires k < |calls|
    ensures var d, d', c := After(pins, calls, k), After(pins, calls, k + 1), calls[k];
            if Enables(pins, calls, k, i) then
              && GetPin(pins, c.pin).Some?
              && i in d'.lines
              && d'.ports == d.ports[i := GetPin(pins, c.pin).value.port]
              && d'.triggers == d.triggers[i := TriggerOf(d.tab[i].mode, c.stale)]
            else
              && (i in d'.lines <==> i in d.lines)
              && (i in d'.ports <==> i in d.ports) && (i in d'.triggers <==> i in d.triggers)
              && (i in d.ports ==> d'.ports[i] == d.ports[i])
              && (i in d.triggers ==> d'.triggers[i] == d.triggers[i])
  {}

  /** What the last successful enable on line `i`, at position `k`, left behind. */
  ghost predicate ConfiguredBy(pins: Board, calls: seq<Call>, n: nat, i: LineNo, k: nat)
    requires n <= |calls|
  {
    && k < n && calls[k].IrqEnable? && GetPin(pins, calls[k].pin).Some?
    && i in After(pins, calls, n).ports && After(pins, calls, n).ports[i] == GetPin(pins, calls[k].pin).value.port
    && i in After(pins, calls, n).triggers
    && After(pins, calls, n).triggers[i] == TriggerOf(After(pins, calls, k).tab[i].mode, calls[k].stale)
  }

  lemma ConfiguredStep(pins: Board, calls: seq<Call>, n: nat, i: LineNo, k: nat)
    requires 0 < n <= |calls|
    requires if k == n - 1 then Enables(pins, calls, k, i)
             else ConfiguredBy(pins, calls, n - 1, i, k) && !Enables(pins, calls, n - 1, i)
    ensures ConfiguredBy(pins, calls, n, i, k)
  {}

  /**
   * A line has the port of the pin in the last successful enable on it, and the trigger for the mode
   * its slot held at that call.
   */
  lemma {:induction false} LineFollowsLastEnable(pins: Board, calls: seq<Call>, n: nat, i: LineNo, k: nat)
    requires n <= |calls| && LastAt(EnablesLine(pins, calls, i), n, k)
    ensures ConfiguredBy(pins, calls, n, i, k)
    ensures var mode := After(pins, calls, k).tab[i].mode;
            mode < 3 ==> After(pins, calls, n).triggers[i] == [Rising, Falling, Both][mode]
  {
    LastAtStep(EnablesLine(pins, calls, i), n - 1, k);
    if k < n - 1 {
      LineFollowsLastEnable(pins, calls, n - 1, i, k);
    }
    ConfiguredStep(pins, calls, n, i, k);
  }

  /** A line is unmasked exactly when some enable on it has succeeded: no call ever masks it again. */
  lemma {:induction false} LineUnmaskedByEnable(pins: Board, calls: seq<Call>, n: nat, i: LineNo)
    requires n <= |calls|
    ensures i in After(pins, calls, n).lines <==> LastOn(EnablesLine(pins, calls, i), Never(), n)
  {
    if n > 0 {
      LineUnmaskedByEnable(pins, calls, n - 1, i);
      ConfigStep(pins, calls, n - 1, i);
      LastOnStep(EnablesLine(pins, calls, i), Never(), n - 1);
    }
  }
}
