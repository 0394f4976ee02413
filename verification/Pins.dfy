/**
 * The board's pin table, the EXTI line of a pin and the IRQ of a line
 * (drivers/drv_gpio.c, 100-pin package).
 */
module Pins {
  import opened BitWords
  import opened Options

  datatype Port = A | B | C | D | E

  type LineNo = n: nat | n < 16

  /** One row of `pins[]`; `NoPin` is the default row, whose index field is -1. */
  datatype PinIndex = NoPin | Pin(port: Port, line: LineNo)
  {
    /** The `pin` field: `GPIO_Pin_n`. */
    function PinBit(): Word
      requires Pin?
    {
      Mask(line)
    }
  }

  /** A package's pin table; each of the four the source defines has at most 101 rows. */
  type Board = rows: seq<PinIndex> | |rows| <= 255 witness []

  type Rows = rows: seq<PinIndex> | |rows| <= 11 witness []

  const ROWS_0: Rows := [
    NoPin, Pin(E, 2), Pin(E, 3), Pin(E, 4), Pin(E, 5),
    Pin(E, 6), NoPin, Pin(C, 13), Pin(C, 14), Pin(C, 15)
  ]
  const ROWS_1: Rows := [
    NoPin, NoPin, NoPin, NoPin, NoPin,
    Pin(C, 0), Pin(C, 1), Pin(C, 2), Pin(C, 3), NoPin
  ]
  const ROWS_2: Rows := [
    NoPin, NoPin, NoPin, Pin(A, 0), Pin(A, 1),
    Pin(A, 2), Pin(A, 3), NoPin, NoPin, Pin(A, 4)
  ]
  const ROWS_3: Rows := [
    Pin(A, 5), Pin(A, 6), Pin(A, 7), Pin(C, 4), Pin(C, 5),
    Pin(B, 0), Pin(B, 1), Pin(B, 2), Pin(E, 7), Pin(E, 8)
  ]
  const ROWS_4: Rows := [
    Pin(E, 9), Pin(E, 10), Pin(E, 11), Pin(E, 12), Pin(E, 13),
    Pin(E, 14), Pin(E, 15), Pin(B, 10), Pin(B, 11), NoPin
  ]
  const ROWS_5: Rows := [
    NoPin, Pin(B, 12), Pin(B, 13), Pin(B, 14), Pin(B, 15),
    Pin(D, 8), Pin(D, 9), Pin(D, 10), Pin(D, 11), Pin(D, 12)
  ]
  const ROWS_6: Rows := [
    Pin(D, 13), Pin(D, 14), Pin(D, 15), Pin(C, 6), Pin(C, 7),
    Pin(C, 8), Pin(C, 9), Pin(A, 8), Pin(A, 9), Pin(A, 10)
  ]
  const ROWS_7: Rows := [
    Pin(A, 11), Pin(A, 12), Pin(A, 13), NoPin, NoPin,
    NoPin, Pin(A, 14), Pin(A, 15), Pin(C, 10), Pin(C, 11)
  ]
  const ROWS_8: Rows := [
    Pin(C, 12), Pin(D, 0), Pin(D, 1), Pin(D, 2), Pin(D, 3),
    Pin(D, 4), Pin(D, 5), Pin(D, 6), Pin(D, 7), Pin(B, 3)
  ]
  const ROWS_9: Rows := [
    Pin(B, 4), Pin(B, 5), Pin(B, 6), Pin(B, 7), NoPin, Pin(B, 8),
    Pin(B, 9), Pin(E, 0), Pin(E, 1), NoPin, NoPin
  ]

  /** The table of the 100-pin package, which this board uses. */
  const PINS_100: Board :=
    ((ROWS_0 + ROWS_1) + (ROWS_2 + ROWS_3)) + (((ROWS_4 + ROWS_5) + (ROWS_6 + ROWS_7)) + (ROWS_8 + ROWS_9))

  /** The pin number of each port bit. */
  function PinOf(port: Port, line: LineNo): (pin: nat)
    ensures pin < 101
  {
    match port
    case A => if line < 4 then 23 + line else if line < 8 then 25 + line else if line < 14 then 59 + line else 62 + line
    case B => if line < 3 then 35 + line else if line < 8 then 86 + line else if line < 10 then 87 + line
              else if line < 12 then 37 + line else 39 + line
    case C => if line < 4 then 15 + line else if line < 6 then 29 + line else if line < 10 then 57 + line
              else if line < 13 then 68 + line else line - 6
    case D => if line < 8 then 81 + line else 47 + line
    case E => if line < 2 then 97 + line else if line < 7 then line - 1 else 31 + line
  }

  /** The port bit of each pin number. */
  function RowOf(pin: nat): PinIndex {
    if 1 <= pin < 6 then Pin(E, pin + 1)
    else if 7 <= pin < 10 then Pin(C, pin + 6)
    else if 15 <= pin < 19 then Pin(C, pin - 15)
    else if 23 <= pin < 27 then Pin(A, pin - 23)
    else if 29 <= pin < 33 then Pin(A, pin - 25)
    else if 33 <= pin < 35 then Pin(C, pin - 29)
    else if 35 <= pin < 38 then Pin(B, pin - 35)
    else if 38 <= pin < 47 then Pin(E, pin - 31)
    else if 47 <= pin < 49 then Pin(B, pin - 37)
    else if 51 <= pin < 55 then Pin(B, pin - 39)
    else if 55 <= pin < 63 then Pin(D, pin - 47)
    else if 63 <= pin < 67 then Pin(C, pin - 57)
    else if 67 <= pin < 73 then Pin(A, pin - 59)
    else if 76 <= pin < 78 then Pin(A, pin - 62)
    else if 78 <= pin < 81 then Pin(C, pin - 68)
    else if 81 <= pin < 89 then Pin(D, pin - 81)
    else if 89 <= pin < 94 then Pin(B, pin - 86)
    else if 95 <= pin < 97 then Pin(B, pin - 87)
    else if 97 <= pin < 99 then Pin(E, pin - 97)
    else NoPin
  }

  lemma RowsDiffer(pin: nat, port: Port, line: LineNo)
    ensures RowOf(pin) == Pin(port, line) <==> pin == PinOf(port, line)
  {}

  /** The rows of one part of the table are where they belong. */
  predicate InPlace(rows: seq<PinIndex>, first: nat) {
    forall k :: 0 <= k < |rows| ==> rows[k] == RowOf(first + k)
  }

  lemma LowRowsInPlace()
    ensures InPlace(ROWS_0, 0) && InPlace(ROWS_1, 10) && InPlace(ROWS_2, 20) && InPlace(ROWS_3, 30)
  {}

  lemma MiddleRowsInPlace()
    ensures InPlace(ROWS_4, 40) && InPlace(ROWS_5, 50) && InPlace(ROWS_6, 60)
  {}

  lemma HighRowsInPlace()
    ensures InPlace(ROWS_7, 70) && InPlace(ROWS_8, 80) && InPlace(ROWS_9, 90)
  {}

  lemma BothInPlace(a: seq<PinIndex>, b: seq<PinIndex>, first: nat)
    requires InPlace(a, first) && InPlace(b, first + |a|)
    ensures InPlace(a + b, first)
  {}

  lemma BoardInPlace()
    ensures InPlace(PINS_100, 0)
  {
    LowRowsInPlace();
    MiddleRowsInPlace();
    HighRowsInPlace();
    BothInPlace(ROWS_0, ROWS_1, 0);
    BothInPlace(ROWS_2, ROWS_3, 20);
    BothInPlace(ROWS_4, ROWS_5, 40);
    BothInPlace(ROWS_6, ROWS_7, 60);
    BothInPlace(ROWS_8, ROWS_9, 80);
    BothInPlace(ROWS_0 + ROWS_1, ROWS_2 + ROWS_3, 0);
    BothInPlace(ROWS_4 + ROWS_5, ROWS_6 + ROWS_7, 40);
    BothInPlace((ROWS_4 + ROWS_5) + (ROWS_6 + ROWS_7), ROWS_8 + ROWS_9, 40);
    BothInPlace((ROWS_0 + ROWS_1) + (ROWS_2 + ROWS_3),
                ((ROWS_4 + ROWS_5) + (ROWS_6 + ROWS_7)) + (ROWS_8 + ROWS_9), 0);
  }

  /** Every port bit has one pin number, and no other. */
  lemma PinNumbers(pin: int, port: Port, line: LineNo)
    ensures GetPin(PINS_100, pin) == Some(Pin(port, line)) <==> pin % 256 == PinOf(port, line)
  {
    BoardInPlace();
    RowsDiffer(pin % 256, port, line);
  }

  /** The rows of a table of which only the places are known. */
  lemma RowAt(rows: Board, pin: nat)
    requires InPlace(rows, 0) && pin < |rows| && RowOf(pin).Pin?
    ensures GetPin(rows, pin) == Some(RowOf(pin))
  {
    assert rows[pin] == RowOf(0 + pin);
  }

  /** Pins 30 and 91 share line 5, and pin 31 is on its neighbour. */
  lemma BoardRows()
    ensures GetPin(PINS_100, 30) == Some(Pin(A, 5)) && GetPin(PINS_100, 31) == Some(Pin(A, 6))
    ensures GetPin(PINS_100, 91) == Some(Pin(B, 5)) && GetPin(PINS_100, 98) == Some(Pin(E, 1))
  {
    BoardInPlace();
    RowAt(PINS_100, 30);
    RowAt(PINS_100, 31);
    RowAt(PINS_100, 91);
    RowAt(PINS_100, 98);
  }

  /** `get_pin`: the argument is converted to `uint8_t` before the table is consulted. */
  function GetPin(pins: Board, pin: int): Option<PinIndex> {
    var index := pin % 256;
    if index < |pins| && pins[index].Pin? then Some(pins[index]) else None
  }

  function BitNoFrom(bit: Word, i: nat): (r: int)
    requires i <= 32
    decreases 32 - i
  {
    if i == 32 then -1 else if Mask(i) == bit then i else BitNoFrom(bit, i + 1)
  }

  /** The number of the first mask equal to `bit`, or -1. */
  function BitNo(bit: Word): int {
    BitNoFrom(bit, 0)
  }

  /** `bit2bitno`: the counted loop. */
  method Bit2BitNo(bit: Word) returns (r: int)
    ensures -1 <= r < 32
    ensures forall i: nat :: i < 32 ==> (r == i <==> bit == Mask(i))
    ensures r == BitNo(bit)
  {
    for i := 0 to 32
      invariant forall k: nat :: k < i ==> Mask(k) != bit
      invariant BitNo(bit) == BitNoFrom(bit, i)
    {
      if Mask(i) == bit {
        MasksInjective(i);
        return i;
      }
    }
    return -1;
  }

  lemma MasksInjective(i: nat)
    requires i < 32
    ensures forall k: nat :: k < 32 && Mask(k) == Mask(i) ==> k == i
  {
    forall k: nat | k < 32 && Mask(k) == Mask(i)
      ensures k == i
    {
      MaskInjective(i, k);
    }
  }

  lemma {:induction false} BitNoFromMask(n: nat, i: nat)
    requires i <= n < 32
    ensures BitNoFrom(Mask(n), i) == n
    decreases n - i
  {
    if i < n {
      MasksInjective(n);
      BitNoFromMask(n, i + 1);
    }
  }

  /** The EXTI line of a pin, if the table knows the pin. */
  function Line(pins: Board, pin: int): Option<LineNo> {
    match GetPin(pins, pin)
    case None => None
    case Some(index) => Some(index.line)
  }

  /** `bit2bitno` of a row's pin bit is the row's line, and always in range of the IRQ map. */
  lemma BitNoOfRow(index: PinIndex)
    requires index.Pin?
    ensures BitNo(index.PinBit()) == index.line
  {
    BitNoFromMask(index.line, 0);
  }

  /** `pin_irq_map[line].irqno`: EXTI0..EXTI4 have an IRQ of their own, EXTI5..9 and EXTI10..15 share one. */
  function IrqOf(line: LineNo): (irq: nat)
    ensures irq < 256
  {
    if line < 5 then 22 + line else if line < 10 then 39 else 56
  }

  /** The map, row by row. */
  lemma IrqNumbers(line: LineNo)
    ensures IrqOf(line) == [22, 23, 24, 25, 26, 39, 39, 39, 39, 39, 56, 56, 56, 56, 56, 56][line]
  {}

  /** The lines served by the handler installed for an IRQ. */
  function Group(irq: nat): seq<LineNo> {
    if 22 <= irq < 27 then [irq - 22]
    else if irq == 39 then [5, 6, 7, 8, 9]
    else if irq == 56 then [10, 11, 12, 13, 14, 15]
    else []
  }

  /** Each handler serves exactly the lines that the IRQ map sends to it, each of them once. */
  lemma GroupIsPreimage(irq: nat, line: LineNo)
    ensures line in Group(irq) <==> IrqOf(line) == irq
    ensures forall a, b :: 0 <= a < b < |Group(irq)| ==> Group(irq)[a] < Group(irq)[b]
  {}
}
