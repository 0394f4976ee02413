/**
 * The pin interrupt driver over its registers (drivers/drv_gpio.c): the handler table, the EXTI
 * registers, the port selections and the interrupt controller, all updated in place. Every operation
 * is proved against the step functions of `PinIrq` and `Dispatch`.
 */
module PinDriver {
  import opened BitWords
  import opened Options
  import opened Pins
  import opened PinIrq
  import opened Dispatch
  import NvicWords

  /** The trigger a line's two edge-enable bits stand for; lines in use have at least one of them set. */
  function TriggerBits(rising: bool, falling: bool): Trigger {
    if rising && falling then Both else if rising then Rising else Falling
  }

  /** `5 << 4` */
  const PRIORITY := 80

  class Driver {
    const pins: Board
    const tab: array<Slot>
    const exticr: array<Port>
    const nvic: NvicWords.Nvic
    var intenr: Word
    var rtenr: Word
    var ftenr: Word
    var evenr: Word
    var intfr: Word
    var mstatus: Word
    var calls: seq<Invocation>

    ghost predicate Valid()
      reads this`intenr, this`rtenr, this`ftenr, nvic
    {
      && tab.Length == 16 && exticr.Length == 16 && nvic.Valid()
      && forall i: LineNo :: intenr[i] ==> rtenr[i] || ftenr[i]
    }

    ghost function Lines(): set<nat>
      reads this`intenr
    {
      set i: nat | i < 16 && intenr[i]
    }

    ghost function Ports(): map<nat, Port>
      requires exticr.Length == 16
      reads this`intenr, exticr
    {
      map i: nat | i < 16 && intenr[i] :: exticr[i]
    }

    ghost function Triggers(): map<nat, Trigger>
      reads this`intenr, this`rtenr, this`ftenr
    {
      map i: nat | i < 16 && intenr[i] :: TriggerBits(rtenr[i], ftenr[i])
    }

    ghost function Irqs(): set<nat>
      requires nvic.Valid()
      reads nvic, nvic.isr
    {
      nvic.Enabled()
    }

    /** The driver's state as `PinIrq` sees it. */
    ghost function View(): PinIrq.Driver
      requires Valid()
      reads this`intenr, this`rtenr, this`ftenr, tab, exticr, nvic, nvic.isr
    {
      PinIrq.Driver(tab[..], Irqs(), Lines(), Ports(), Triggers())
    }

    /** The lines whose pending flag is set, unmasked or not. */
    ghost function Pending(): set<LineNo>
      reads this`intfr
    {
      set i: LineNo | i < 16 && intfr[i]
    }

    /** Reset: an empty table and clear registers. */
    constructor (pins: Board)
      ensures this.pins == pins && Valid() && fresh(tab) && fresh(exticr)
      ensures fresh(nvic) && fresh(nvic.isr) && fresh(nvic.iprior)
      ensures View() == RESET && Pending() == {} && !Masked() && calls == []
    {
      this.pins := pins;
      tab := new Slot[16](_ => FREE);
      exticr := new Port[16](_ => A);
      nvic := new NvicWords.Nvic();
      intenr, evenr, rtenr, ftenr, intfr := ZERO, ZERO, ZERO, ZERO, ZERO;
      mstatus := Or(ZERO, Mask(3));
      calls := [];
      new;
      forall i: nat | i < 16
        ensures !ZERO[i]
      {
        ZeroBit(i);
      }
      assert tab[..] == EMPTY_TABLE;
    }

    // ---- interrupt masking ----

    /** The interrupt enable bit of the machine status is clear. */
    ghost predicate Masked()
      reads this`mstatus
    {
      !mstatus[3]
    }

    /** `rt_hw_interrupt_disable`: mask, returning the status word found. */
    method InterruptDisable() returns (level: Word)
      modifies this`mstatus
      ensures level == old(mstatus) && mstatus == Hex("00007800") && Masked()
    {
      level := mstatus;
      mstatus := Hex("00007800");
    }

    /** `rt_hw_interrupt_enable`: put a saved status word back. */
    method InterruptEnable(level: Word)
      modifies this`mstatus
      ensures mstatus == level
    {
      mstatus := level;
    }

    /** A store to one slot; the table may be written only while interrupts are masked. */
    method Store(i: LineNo, s: Slot)
      requires tab.Length == 16 && Masked()
      modifies tab
      ensures tab[..] == old(tab[..])[i := s]
    {
      tab[i] := s;
    }

    // ---- the three operations ----

    /** `get_pin`, then `bit2bitno` with its range check: the slot index of a pin. */
    method SlotIndex(pin: int) returns (r: Option<LineNo>)
      ensures r == Line(pins, pin)
    {
      var index := GetPin(pins, pin);
      if index.None? {
        return None;
      }
      var irqindex := Bit2BitNo(index.value.PinBit());
      BitNoOfRow(index.value);
      if irqindex < 0 || irqindex >= 16 {
        return None;
      }
      return Some(irqindex);
    }

    /** The masked part of attach. */
    method AttachMasked(i: LineNo, pin: int, mode: nat, hdr: nat, args: nat) returns (err: Err)
      requires tab.Length == 16 && Masked()
      modifies tab
      ensures (tab[..], err) == AttachStep(old(tab[..]), i, Attach(pin, mode, hdr, args))
    {
      if tab[i].pin == pin && tab[i].hdr == hdr && tab[i].mode == mode && tab[i].args == args {
        return EOK;
      }
      if tab[i].pin != -1 {
        return EBUSY;
      }
      Store(i, tab[i].(pin := Int16(pin)));
      Store(i, tab[i].(hdr := hdr));
      Store(i, tab[i].(mode := UInt16(mode)));
      Store(i, tab[i].(args := args));
      assert tab[..] == old(tab[..])[i := Stored(Attach(pin, mode, hdr, args))];
      return EOK;
    }

    /** The masked part of detach. */
    method DetachMasked(i: LineNo) returns (err: Err)
      requires tab.Length == 16 && Masked()
      modifies tab
      ensures (tab[..], err) == DetachStep(old(tab[..]), i)
    {
      if tab[i].pin == -1 {
        return EOK;
      }
      Store(i, tab[i].(pin := -1));
      Store(i, tab[i].(hdr := 0));
      Store(i, tab[i].(mode := 0));
      Store(i, tab[i].(args := 0));
      assert tab[..] == old(tab[..])[i := FREE];
      return EOK;
    }

    method AttachIrq(pin: int, mode: nat, hdr: nat, args: nat) returns (err: Err)
      requires Valid()
      modifies tab, this`mstatus
      ensures Valid() && mstatus == old(mstatus)
      ensures (View(), err) == Step(pins, old(View()), Attach(pin, mode, hdr, args))
    {
      var irqindex := SlotIndex(pin);
      if irqindex.None? {
        return ENOSYS;
      }
      var level := InterruptDisable();
      err := AttachMasked(irqindex.value, pin, mode, hdr, args);
      InterruptEnable(level);
    }

    method DetachIrq(pin: int) returns (err: Err)
      requires Valid()
      modifies tab, this`mstatus
      ensures Valid() && mstatus == old(mstatus)
      ensures (View(), err) == Step(pins, old(View()), Detach(pin))
    {
      var irqindex := SlotIndex(pin);
      if irqindex.None? {
        return ENOSYS;
      }
      var level := InterruptDisable();
      err := DetachMasked(irqindex.value);
      InterruptEnable(level);
    }

    /** `EXTI_Init` for one line in interrupt mode: unmask it and set exactly the chosen edge bits. */
    method ExtiInit(i: LineNo, trigger: Trigger)
      requires Valid()
      modifies this`intenr, this`evenr, this`rtenr, this`ftenr
      ensures Valid()
      ensures Lines() == old(Lines()) + {i}
      ensures Triggers() == old(Triggers())[i := trigger]
      ensures evenr == AndNot(old(evenr), Mask(i))
      ensures intenr[i] && (rtenr[i] <==> trigger != Falling) && (ftenr[i] <==> trigger != Rising)
    {
      ExtiWrites(i, trigger);
      assert Lines() == old(Lines()) + {i};
    }

    /** The register writes of `EXTI_Init`, bit by bit. */
    method ExtiWrites(i: LineNo, trigger: Trigger)
      modifies this`intenr, this`evenr, this`rtenr, this`ftenr
      ensures forall j: LineNo :: intenr[j] <==> j == i || old(intenr[j])
      ensures evenr == AndNot(old(evenr), Mask(i))
      ensures TriggerBits(rtenr[i], ftenr[i]) == trigger
      ensures (rtenr[i] <==> trigger != Falling) && (ftenr[i] <==> trigger != Rising)
      ensures forall j: LineNo :: j != i ==> rtenr[j] == old(rtenr[j]) && ftenr[j] == old(ftenr[j])
    {
      intenr := AndNot(intenr, Mask(i));
      evenr := AndNot(evenr, Mask(i));
      intenr := Or(intenr, Mask(i));
      rtenr := AndNot(rtenr, Mask(i));
      ftenr := AndNot(ftenr, Mask(i));
      if trigger == Both {
        rtenr := Or(rtenr, Mask(i));
        ftenr := Or(ftenr, Mask(i));
      } else if trigger == Rising {
        rtenr := Or(rtenr, Mask(i));
      } else {
        ftenr := Or(ftenr, Mask(i));
      }
    }

    /** `get_pin_irq_map` followed by the IRQ number of the row found. */
    method IrqMap(bit: Word) returns (irq: Option<nat>)
      ensures irq == if 0 <= BitNo(bit) < 16 then Some(IrqOf(BitNo(bit))) else None
    {
      var mapindex := Bit2BitNo(bit);
      if mapindex < 0 || mapindex >= 16 {
        return None;
      }
      return Some(IrqOf(mapindex));
    }

    /** Select the port and set up the edge detection of a line. */
    method ConnectLine(i: LineNo, port: Port, trigger: Trigger)
      requires Valid()
      modifies exticr, this`intenr, this`evenr, this`rtenr, this`ftenr
      ensures Valid() && Lines() == old(Lines()) + {i}
      ensures Ports() == old(Ports())[i := port] && Triggers() == old(Triggers())[i := trigger]
      ensures intenr[i] && (rtenr[i] <==> trigger != Falling) && (ftenr[i] <==> trigger != Rising)
      ensures exticr[i] == port
    {
      exticr[i] := port;
      ExtiInit(i, trigger);
    }

    /** That, and the priority and the interrupt of the line. */
    method EnableLine(i: LineNo, port: Port, trigger: Trigger)
      requires Valid() && Masked()
      modifies exticr, nvic.isr, nvic.iprior, this`intenr, this`evenr, this`rtenr, this`ftenr
      ensures Valid()
      ensures Irqs() == old(Irqs()) + {IrqOf(i)} && Lines() == old(Lines()) + {i}
      ensures Ports() == old(Ports())[i := port] && Triggers() == old(Triggers())[i := trigger]
      ensures nvic.iprior[..] == old(nvic.iprior[..])[IrqOf(i) := 80]
      ensures intenr[i] && (rtenr[i] <==> trigger != Falling) && (ftenr[i] <==> trigger != Rising)
      ensures exticr[i] == port
    {
      ConnectLine(i, port, trigger);
      nvic.SetPriority(IrqOf(i), PRIORITY);
      nvic.EnableIRQ(IrqOf(i));
    }

    /** Line `i` is unmasked and connected to a port, and the edges that mode 0, 1 or 2 stands for are enabled. */
    ghost predicate Listens(i: LineNo, port: Port, mode: nat)
      requires exticr.Length == 16
      reads this`intenr, this`rtenr, this`ftenr, exticr
    {
      && intenr[i] && exticr[i] == port
      && (mode < 3 ==> (rtenr[i] <==> mode == 0 || mode == 2) && (ftenr[i] <==> mode == 1 || mode == 2))
    }

    /** The masked part of enable. */
    method EnableMasked(i: LineNo, pin: int, stale: Trigger) returns (err: Err)
      requires Valid() && Masked() && GetPin(pins, pin).Some?
      modifies exticr, nvic.isr, nvic.iprior, this`intenr, this`evenr, this`rtenr, this`ftenr
      ensures Valid()
      ensures (View(), err) == EnableStep(pins, old(View()), i, PinIrq.IrqEnable(pin, 1, stale))
      ensures nvic.iprior[..] == if err == EOK then old(nvic.iprior[..])[IrqOf(i) := 80] else old(nvic.iprior[..])
      ensures err == EOK ==> Listens(i, GetPin(pins, pin).value.port, tab[i].mode)
    {
      if tab[i].pin == -1 {
        return ENOSYS;
      }
      EnableLine(i, GetPin(pins, pin).value.port, TriggerOf(tab[i].mode, stale));
      return EOK;
    }

    /** Disable is one store to the interrupt controller; line and edge detection stay as they are. */
    method DisableLine(irq: NvicWords.Irq)
      requires Valid()
      modifies nvic.isr
      ensures Valid()
      ensures View() == old(View()).(irqs := old(View()).irqs - {irq})
    {
      nvic.DisableIRQ(irq);
    }

    /** The `PIN_IRQ_ENABLE` branch, for a pin the table knows. */
    method EnablePin(pin: int, stale: Trigger) returns (err: Err)
      requires Valid() && GetPin(pins, pin).Some?
      modifies exticr, nvic.isr, nvic.iprior, this`intenr, this`evenr, this`rtenr, this`ftenr, this`mstatus
      ensures Valid() && mstatus == old(mstatus)
      ensures (View(), err) ==
              EnableStep(pins, old(View()), Line(pins, pin).value, PinIrq.IrqEnable(pin, 1, stale))
      ensures nvic.iprior[..] ==
              if err == EOK
              then old(nvic.iprior[..])[IrqOf(Line(pins, pin).value) := 80] else old(nvic.iprior[..])
      ensures err == EOK ==>
                var i := Line(pins, pin).value; Listens(i, GetPin(pins, pin).value.port, tab[i].mode)
    {
      var irqindex := SlotIndex(pin);
      if irqindex.None? {
        return ENOSYS;
      }
      var level := InterruptDisable();
      err := EnableMasked(irqindex.value, pin, stale);
      InterruptEnable(level);
    }

    /** The `PIN_IRQ_DISABLE` branch, for a pin the table knows. */
    method DisablePin(pin: int) returns (err: Err)
      requires Valid() && GetPin(pins, pin).Some?
      modifies nvic.isr
      ensures Valid() && err == EOK
      ensures View() == old(View()).(irqs := old(View()).irqs - {IrqOf(Line(pins, pin).value)})
    {
      var index := GetPin(pins, pin).value;
      BitNoOfRow(index);
      var irq := IrqMap(index.PinBit());
      if irq.None? {
        return ENOSYS;
      }
      DisableLine(irq.value);
      return EOK;
    }

    method IrqEnable(pin: int, enabled: nat, stale: Trigger) returns (err: Err)
      requires Valid()
      modifies exticr, nvic.isr, nvic.iprior, this`intenr, this`evenr, this`rtenr, this`ftenr, this`mstatus
      ensures Valid() && mstatus == old(mstatus)
      ensures (View(), err) == Step(pins, old(View()), PinIrq.IrqEnable(pin, enabled, stale))
      ensures nvic.iprior[..] ==
              if enabled == 1 && err == EOK && Line(pins, pin).Some?
              then old(nvic.iprior[..])[IrqOf(Line(pins, pin).value) := 80] else old(nvic.iprior[..])
      ensures enabled == 1 && err == EOK ==>
                && GetPin(pins, pin).Some?
                && var i := Line(pins, pin).value; Listens(i, GetPin(pins, pin).value.port, tab[i].mode)
    {
      var index := GetPin(pins, pin);
      if index.None? {
        return ENOSYS;
      }
      if enabled == 1 {
        err := EnablePin(pin, stale);
      } else if enabled == 0 {
        err := DisablePin(pin);
      } else {
        return ENOSYS;
      }
    }

    // ---- the interrupt handlers ----

    /** `EXTI_GetITStatus`: the line is pending and unmasked. */
    method GetItStatus(line: LineNo) returns (set_: bool)
      ensures set_ <==> line in Pending() && line in Lines()
    {
      TestIsBit(intfr, line);
      TestIsBit(intenr, line);
      set_ := And(intfr, Mask(line)) != ZERO && And(intenr, Mask(line)) != ZERO;
    }

    /** `HAL_GPIO_EXTI_Callback`: call the attached handler, if there is one. */
    method Callback(line: LineNo)
      requires tab.Length == 16
      modifies this`calls
      ensures calls == old(calls) + CallOn(tab[..], line)
    {
      var irqno := Bit2BitNo(Mask(line));
      MaskInjective(line, irqno);
      if tab[irqno].hdr != 0 {
        calls := calls + [Invocation(irqno, tab[irqno].hdr, tab[irqno].args)];
      }
    }

    /** `EXTI_ClearITPendingBit`: the flag register is write-1-to-clear. */
    method ClearItPendingBit(lines: Word)
      modifies this`intfr
      ensures forall i: LineNo :: intfr[i] <==> old(intfr[i]) && !lines[i]
    {
      intfr := AndNot(intfr, lines);
    }

    /** The handlers of lines 0 to 4, which differ only in the line. */
    method SingleLineHandler(line: LineNo)
      requires Valid() && line < 5
      modifies this`calls, this`intfr
      ensures Valid()
      ensures var (rest, made) := Serve(tab[..], Lines(), old(Pending()), IrqOf(line));
              Pending() == rest && calls == old(calls) + made
    {
      var status := GetItStatus(line);
      assert Group(IrqOf(line)) == [line];
      assert CallsFrom(tab[..], IrqOf(line), 1) == [];
      if status {
        Callback(line);
        ClearItPendingBit(Mask(line));
      }
    }

    method Exti9To5Handler()
      requires Valid()
      modifies this`calls, this`intfr
      ensures Valid()
      ensures var (rest, made) := Serve(tab[..], Lines(), old(Pending()), 39);
              Pending() == rest && calls == old(calls) + made
    {
      var status := Exti9To5Status();
      if status {
        Exti9To5Calls();
        Exti9To5Clear();
      }
    }

    method Exti9To5Status() returns (any: bool)
      ensures any <==> AnyPending(39, Pending(), Lines())
    {
      var s5 := GetItStatus(5);
      var s6 := GetItStatus(6);
      var s7 := GetItStatus(7);
      var s8 := GetItStatus(8);
      var s9 := GetItStatus(9);
      any := s5 || s6 || s7 || s8 || s9;
      PendingInGroup(39, Pending(), Lines());
    }

    method Exti9To5Clear()
      modifies this`intfr
      ensures Pending() == Cleared(old(Pending()), 39)
    {
      ClearItPendingBit(LINES_9_5);
      ghost var was := old(Pending());
      forall i: LineNo
        ensures i in Pending() <==> i in was && i !in Group(39)
      {
        GroupMaskBits(i);
        GroupIsPreimage(39, i);
      }
    }

    method Exti15To10Handler()
      requires Valid()
      modifies this`calls, this`intfr
      ensures Valid()
      ensures var (rest, made) := Serve(tab[..], Lines(), old(Pending()), 56);
              Pending() == rest && calls == old(calls) + made
    {
      var status := Exti15To10Status();
      if status {
        Exti15To10Calls();
        Exti15To10Clear();
      }
    }

    method Exti15To10Status() returns (any: bool)
      ensures any <==> AnyPending(56, Pending(), Lines())
    {
      var s10 := GetItStatus(10);
      var s11 := GetItStatus(11);
      var s12 := GetItStatus(12);
      var s13 := GetItStatus(13);
      var s14 := GetItStatus(14);
      var s15 := GetItStatus(15);
      any := s10 || s11 || s12 || s13 || s14 || s15;
      PendingInGroup(56, Pending(), Lines());
    }

    method Exti15To10Clear()
      modifies this`intfr
      ensures Pending() == Cleared(old(Pending()), 56)
    {
      ClearItPendingBit(LINES_15_10);
      ghost var was := old(Pending());
      forall i: LineNo
        ensures i in Pending() <==> i in was && i !in Group(56)
      {
        GroupMaskBits(i);
        GroupIsPreimage(56, i);
      }
    }

    /** The callbacks in the body of the lines 5 to 9 handler. */
    method Exti9To5Calls()
      requires tab.Length == 16
      modifies this`calls
      ensures calls == old(calls) + CallsFrom(tab[..], 39, 0)
    {
      CallMoves(calls, tab[..], 39, 0);
      Callback(5);
      CallMoves(calls, tab[..], 39, 1);
      Callback(6);
      CallMoves(calls, tab[..], 39, 2);
      Callback(7);
      CallMoves(calls, tab[..], 39, 3);
      Callback(8);
      CallMoves(calls, tab[..], 39, 4);
      Callback(9);
      assert calls + [] == calls;
    }

    /** The callbacks in the body of the lines 10 to 15 handler. */
    method Exti15To10Calls()
      requires tab.Length == 16
      modifies this`calls
      ensures calls == old(calls) + CallsFrom(tab[..], 56, 0)
    {
      CallMoves(calls, tab[..], 56, 0);
      Callback(10);
      CallMoves(calls, tab[..], 56, 1);
      Callback(11);
      CallMoves(calls, tab[..], 56, 2);
      Callback(12);
      CallMoves(calls, tab[..], 56, 3);
      Callback(13);
      CallMoves(calls, tab[..], 56, 4);
      Callback(14);
      CallMoves(calls, tab[..], 56, 5);
      Callback(15);
      assert calls + [] == calls;
    }
  }

  /** Attach and enable of pin 30 on this board, from reset: mode 0 listens to rising edges, 1 to falling, 2 to both. */
  method EnableWithMode(mode: nat, stale: Trigger) returns (err: Err, rising: bool, falling: bool)
    requires mode < 3
    ensures err == EOK && (rising <==> mode == 0 || mode == 2) && (falling <==> mode == 1 || mode == 2)
  {
    var driver := new Driver(PINS_100);
    BoardRows();
    err := driver.AttachIrq(30, mode, 1, 1);
    err := driver.IrqEnable(30, 1, stale);
    rising, falling := driver.rtenr[5], driver.ftenr[5];
  }

  /** The status test of a shared handler, as a test of a range of lines. */
  lemma PendingInGroup(irq: nat, pending: set<LineNo>, lines: set<nat>)
    requires irq == 39 || irq == 56
    ensures var first := if irq == 39 then 5 else 10; var last := if irq == 39 then 9 else 15;
            AnyPending(irq, pending, lines) <==> exists i: LineNo :: first <= i <= last && i in pending && i in lines
  {}

  /** `EXTI_Line5 | .. | EXTI_Line9` and `EXTI_Line10 | .. | EXTI_Line15` */
  const LINES_9_5: Word := Or(Or(Or(Or(Mask(5), Mask(6)), Mask(7)), Mask(8)), Mask(9))

  const LINES_15_10: Word := Or(Or(Or(Or(Or(Mask(10), Mask(11)), Mask(12)), Mask(13)), Mask(14)), Mask(15))

  lemma GroupMaskBits(i: LineNo)
    ensures LINES_9_5[i] <==> IrqOf(i) == 39
    ensures LINES_15_10[i] <==> IrqOf(i) == 56
  {}
}
