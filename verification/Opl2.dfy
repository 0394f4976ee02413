/**
 * The YM3812's registers and their shadow copies (User/headers/YM3812/OPL2.c): 120 bytes that the chip keeps at
 * scattered addresses and the library in three arrays, and the fields packed into them.
 */
module Opl2 {
  import opened Arithmetic

  const NO_BITS := [false, false, false, false, false, false, false, false]

  /** A byte as its eight bits, bit 0 first. */
  type Byte = b: seq<bool> | |b| == 8 witness NO_BITS

  const CHANNELS := 9

  // ---- fields of a byte ----

  /** Bit `i` of a number. */
  predicate BitOf(x: nat, i: nat) {
    if i == 0 then x % 2 == 1 else BitOf(x / 2, i - 1)
  }

  /** The number in the `width` bits from `low` on. */
  function Field(b: Byte, low: nat, width: nat): nat
    requires low + width <= 8
    decreases width
  {
    if width == 0 then 0 else One(b[low]) + 2 * Field(b, low + 1, width - 1)
  }

  /** The byte with the lowest `width` bits of `x` put in the place of those from `low` on. */
  function Insert(b: Byte, low: nat, width: nat, x: nat): Byte
    requires low + width <= 8
  {
    seq(8, i requires 0 <= i < 8 => if low <= i < low + width then BitOf(x, i - low) else b[i])
  }

  /** Get after set: what the field can hold of the number. */
  lemma {:induction false} FieldOfInsert(b: Byte, low: nat, width: nat, x: nat)
    requires low + width <= 8
    ensures Field(Insert(b, low, width, x), low, width) == LowBits(x, width)
  {
    FieldOfBits(Insert(b, low, width, x), low, width, x);
  }

  lemma {:induction false} FieldOfBits(b: Byte, low: nat, width: nat, x: nat)
    requires low + width <= 8
    requires forall i :: low <= i < low + width ==> b[i] == BitOf(x, i - low)
    ensures Field(b, low, width) == LowBits(x, width)
    decreases width
  {
    if width > 0 {
      forall i | low + 1 <= i < low + width
        ensures b[i] == BitOf(x / 2, i - (low + 1))
      {}
      FieldOfBits(b, low + 1, width - 1, x / 2);
    }
  }

  /** Set leaves every other field alone. */
  lemma {:induction false} FieldKept(b: Byte, low: nat, width: nat, x: nat, low': nat, width': nat)
    requires low + width <= 8 && low' + width' <= 8
    requires low + width <= low' || low' + width' <= low
    ensures Field(Insert(b, low, width, x), low', width') == Field(b, low', width')
  {
    FieldByBits(Insert(b, low, width, x), b, low', width');
  }

  lemma {:induction false} FieldByBits(b: Byte, c: Byte, low: nat, width: nat)
    requires low + width <= 8 && forall i :: low <= i < low + width ==> b[i] == c[i]
    ensures Field(b, low, width) == Field(c, low, width)
    decreases width
  {
    if width > 0 { FieldByBits(b, c, low + 1, width - 1); }
  }

  lemma {:induction false} NoLowBits(width: nat)
    ensures LowBits(0, width) == 0
  {
    if width > 0 { NoLowBits(width - 1); }
  }

  /** Bytes that agree above a field differ from there on by as much as the fields do, */
  lemma {:induction false} DifferenceAt(c: Byte, d: Byte, low: nat, width: nat, n: nat)
    requires width <= n && low + n <= 8 && forall i :: low + width <= i < low + n ==> c[i] == d[i]
    ensures Field(c, low, n) - Field(d, low, n) == Field(c, low, width) - Field(d, low, width)
    decreases width
  {
    if width > 0 {
      DifferenceAt(c, d, low + 1, width - 1, n - 1);
    } else {
      FieldByBits(c, d, low, n);
    }
  }

  /** and bytes that also agree in the `k` bits below it differ by that much, shifted. */
  lemma {:induction false} DifferenceShifts(c: Byte, d: Byte, low: nat, k: nat, n: nat, m: nat)
    requires low + k + n <= 8 && forall i :: low <= i < low + k ==> c[i] == d[i]
    requires Field(c, low + k, n) == Field(d, low + k, n) + m
    ensures Field(c, low, k + n) == Field(d, low, k + n) + ShiftLeft(m, k)
    decreases k
  {
    if k > 0 {
      DifferenceShifts(c, d, low + 1, k - 1, n, m);
      ShiftOnce(m, k);
      DifferenceDoubles(c, d, low, k - 1 + n, ShiftLeft(m, k - 1));
    }
  }

  lemma ShiftOnce(m: nat, n: nat)
    requires n > 0
    ensures ShiftLeft(m, n) == 2 * ShiftLeft(m, n - 1)
  {}

  lemma DifferenceDoubles(c: Byte, d: Byte, low: nat, width: nat, m: nat)
    requires low + 1 + width <= 8 && c[low] == d[low]
    requires Field(c, low + 1, width) == Field(d, low + 1, width) + m
    ensures Field(c, low, width + 1) == Field(d, low, width + 1) + 2 * m
  {}

  /** The setters' arithmetic: clear the field by a mask, then add the shifted value; the sum never carries. */
  lemma InsertIsMaskAndAdd(b: Byte, low: nat, width: nat, x: nat)
    requires low + width <= 8
    ensures Field(Insert(b, low, width, x), 0, 8) ==
            Field(Insert(b, low, width, 0), 0, 8) + ShiftLeft(LowBits(x, width), low)
  {
    var c, d := Insert(b, low, width, x), Insert(b, low, width, 0);
    FieldOfInsert(b, low, width, x);
    FieldOfInsert(b, low, width, 0);
    NoLowBits(width);
    DifferenceAt(c, d, low, width, 8 - low);
    DifferenceShifts(c, d, 0, low, 8 - low, LowBits(x, width));
  }

  // ---- registers ----

  datatype Register = Chip(address: nat) | Channel(base: nat, channel: nat) | Operator(base: nat, channel: nat, op: nat)

  predicate Exists(r: Register) {
    match r
    case Chip(a) => a == 0x01 || a == 0x08 || a == 0xBD
    case Channel(b, c) => (b == 0xA0 || b == 0xB0 || b == 0xC0) && c < CHANNELS
    case Operator(b, c, o) => (b == 0x20 || b == 0x40 || b == 0x60 || b == 0x80 || b == 0xE0) && c < CHANNELS && o < 2
  }

  const REGISTER_OFFSETS := [
    [0x00, 0x01, 0x02, 0x08, 0x09, 0x0A, 0x10, 0x11, 0x12],
    [0x03, 0x04, 0x05, 0x0B, 0x0C, 0x0D, 0x13, 0x14, 0x15]
  ]

  /** The register's address in the chip. */
  function Address(r: Register): (a: nat)
    requires Exists(r)
    ensures a < 256
  {
    match r
    case Chip(a) => a
    case Channel(b, c) => b + c
    case Operator(b, c, o) => b + REGISTER_OFFSETS[o][c]
  }

  /** The register's place in its shadow array. */
  function ShadowIndex(r: Register): nat
    requires Exists(r)
  {
    match r
    case Chip(a) => if a == 0x08 then 1 else if a == 0xBD then 2 else 0
    case Channel(b, c) => 3 * c + if b == 0xB0 then 1 else if b == 0xC0 then 2 else 0
    case Operator(b, c, o) =>
      10 * c + 5 * o
      + if b == 0x40 then 1 else if b == 0x60 then 2 else if b == 0x80 then 3 else if b == 0xE0 then 4 else 0
  }

  /** The chip has a separate address for each of the 120 registers. */
  lemma AddressesDiffer(r: Register, s: Register)
    requires Exists(r) && Exists(s) && Address(r) == Address(s)
    ensures r == s
  {}

  /** And the library a separate shadow byte. */
  lemma ShadowsDiffer(r: Register, s: Register)
    requires Exists(r) && Exists(s) && ShadowIndex(r) == ShadowIndex(s)
    requires (r.Chip? && s.Chip?) || (r.Channel? && s.Channel?) || (r.Operator? && s.Operator?)
    ensures r == s
  {}

  /** The corners of the three shadow arrays. */
  lemma ShadowCorners()
    ensures ShadowIndex(Chip(0x01)) == 0 && ShadowIndex(Chip(0x08)) == 1 && ShadowIndex(Chip(0xBD)) == 2
    ensures ShadowIndex(Channel(0xA0, 0)) == 0 && ShadowIndex(Channel(0xB0, 0)) == 1
    ensures ShadowIndex(Channel(0xC0, 8)) == 26
    ensures ShadowIndex(Operator(0x20, 0, 0)) == 0 && ShadowIndex(Operator(0x40, 0, 0)) == 1
    ensures ShadowIndex(Operator(0x60, 0, 1)) == 7 && ShadowIndex(Operator(0x80, 1, 0)) == 13
    ensures ShadowIndex(Operator(0xE0, 8, 1)) == 89
  {}

  // ---- parameters ----

  /** The fields the library names, per operator, per channel and for the whole chip. */
  datatype Param =
    | Tremolo(op: nat) | Vibrato(op: nat) | MaintainSustain(op: nat) | EnvelopeScaling(op: nat) | Multiplier(op: nat)
    | ScalingLevel(op: nat) | Volume(op: nat) | Attack(op: nat) | Decay(op: nat) | Sustain(op: nat) | Release(op: nat)
    | WaveForm(op: nat)
    | KeyOn | Block | FNumberHigh | FNumberLow | Feedback | SynthMode
    | DeepTremolo | DeepVibrato | Percussion | Drums | WaveFormSelect

  predicate OfOperator(p: Param) {
    || p.Tremolo? || p.Vibrato? || p.MaintainSustain? || p.EnvelopeScaling? || p.Multiplier? || p.ScalingLevel?
    || p.Volume? || p.Attack? || p.Decay? || p.Sustain? || p.Release? || p.WaveForm?
  }

  predicate OfChip(p: Param) {
    p.DeepTremolo? || p.DeepVibrato? || p.Percussion? || p.Drums? || p.WaveFormSelect?
  }

  /** One copy of a parameter: chip-wide ones have a single copy, kept under channel 0. */
  predicate Cell(p: Param, channel: nat) {
    && channel < CHANNELS
    && (OfOperator(p) ==> p.op < 2)
    && (OfChip(p) ==> channel == 0)
  }

  function RegisterOf(p: Param, channel: nat): (r: Register)
    requires Cell(p, channel)
    ensures Exists(r)
  {
    match p
    case Tremolo(o) => Operator(0x20, channel, o)
    case Vibrato(o) => Operator(0x20, channel, o)
    case MaintainSustain(o) => Operator(0x20, channel, o)
    case EnvelopeScaling(o) => Operator(0x20, channel, o)
    case Multiplier(o) => Operator(0x20, channel, o)
    case ScalingLevel(o) => Operator(0x40, channel, o)
    case Volume(o) => Operator(0x40, channel, o)
    case Attack(o) => Operator(0x60, channel, o)
    case Decay(o) => Operator(0x60, channel, o)
    case Sustain(o) => Operator(0x80, channel, o)
    case Release(o) => Operator(0x80, channel, o)
    case WaveForm(o) => Operator(0xE0, channel, o)
    case KeyOn => Channel(0xB0, channel)
    case Block => Channel(0xB0, channel)
    case FNumberHigh => Channel(0xB0, channel)
    case FNumberLow => Channel(0xA0, channel)
    case Feedback => Channel(0xC0, channel)
    case SynthMode => Channel(0xC0, channel)
    case DeepTremolo => Chip(0xBD)
    case DeepVibrato => Chip(0xBD)
    case Percussion => Chip(0xBD)
    case Drums => Chip(0xBD)
    case WaveFormSelect => Chip(0x01)
  }

  /** Where in its register a parameter lies. */
  function Low(p: Param): nat {
    match p
    case Tremolo(_) => 7
    case Vibrato(_) => 6
    case MaintainSustain(_) => 5
    case EnvelopeScaling(_) => 4
    case ScalingLevel(_) => 6
    case Attack(_) => 4
    case Sustain(_) => 4
    case KeyOn => 5
    case Block => 2
    case Feedback => 1
    case DeepTremolo => 7
    case DeepVibrato => 6
    case Percussion => 5
    case WaveFormSelect => 5
    case _ => 0
  }

  function Width(p: Param): (w: nat)
    ensures Low(p) + w <= 8
  {
    match p
    case Multiplier(_) => 4
    case ScalingLevel(_) => 2
    case Volume(_) => 6
    case Attack(_) => 4
    case Decay(_) => 4
    case Sustain(_) => 4
    case Release(_) => 4
    case WaveForm(_) => 3
    case Block => 3
    case FNumberHigh => 2
    case FNumberLow => 8
    case Feedback => 3
    case Drums => 5
    case _ => 1
  }

  /** The setters that take a `bool`. */
  predicate Flag(p: Param) {
    || p.Tremolo? || p.Vibrato? || p.MaintainSustain? || p.EnvelopeScaling? || p.KeyOn?
    || (OfChip(p) && !p.Drums?)
  }

  /** What a setter stores of its argument. */
  function Stored(p: Param, x: nat): nat {
    if Flag(p) then One(x != 0) else LowBits(x, Width(p))
  }

  /** No two parameters share a bit. */
  lemma FieldsAreDisjoint(p: Param, c: nat, q: Param, d: nat)
    requires Cell(p, c) && Cell(q, d) && (p != q || c != d)
    requires RegisterOf(p, c) == RegisterOf(q, d)
    ensures Low(p) + Width(p) <= Low(q) || Low(q) + Width(q) <= Low(p)
  {}

  /** The byte a setter writes: the old one with its field replaced. */
  function Packed(p: Param, b: Byte, x: nat): Byte {
    Insert(b, Low(p), Width(p), if Flag(p) then One(x != 0) else x)
  }

  function Unpacked(p: Param, b: Byte): nat {
    Field(b, Low(p), Width(p))
  }

  lemma UnpackedPacked(p: Param, b: Byte, x: nat)
    ensures Unpacked(p, Packed(p, b, x)) == Stored(p, x)
  {
    FieldOfInsert(b, Low(p), Width(p), if Flag(p) then One(x != 0) else x);
  }

  lemma PackedKeeps(p: Param, c: nat, q: Param, d: nat, b: Byte, x: nat)
    requires Cell(p, c) && Cell(q, d) && (p != q || c != d)
    requires RegisterOf(p, c) == RegisterOf(q, d)
    ensures Unpacked(q, Packed(p, b, x)) == Unpacked(q, b)
  {
    FieldsAreDisjoint(p, c, q, d);
    FieldKept(b, Low(p), Width(p), if Flag(p) then One(x != 0) else x, Low(q), Width(q));
  }

  // ---- the bytes of the setters, in the numbers of their masks and shifts ----

  /** The byte `b` with the bits from `low` up to `high` replaced by the lowest ones of `x`. */
  predicate Replaced(b: Byte, w: Byte, low: nat, high: nat, x: nat) {
    forall k :: 0 <= k < 8 ==> w[k] == if low <= k < high then BitOf(x, k - low) else b[k]
  }

  /** The byte `b` with one bit set or cleared. */
  predicate Switched(b: Byte, w: Byte, bit: nat, on: bool) {
    forall k :: 0 <= k < 8 ==> w[k] == if k == bit then on else b[k]
  }

  /** Three channels have consecutive registers, then five addresses are skipped or belong to the other operator. */
  function OperatorOffset(channel: nat, op: nat): nat {
    8 * (channel / 3) + channel % 3 + 3 * op
  }

  /** The address that the setter of `p` writes. */
  function AddressSent(p: Param, c: nat): nat {
    match p
    case Tremolo(o) => 0x20 + OperatorOffset(c, o)
    case Vibrato(o) => 0x20 + OperatorOffset(c, o)
    case MaintainSustain(o) => 0x20 + OperatorOffset(c, o)
    case EnvelopeScaling(o) => 0x20 + OperatorOffset(c, o)
    case Multiplier(o) => 0x20 + OperatorOffset(c, o)
    case ScalingLevel(o) => 0x40 + OperatorOffset(c, o)
    case Volume(o) => 0x40 + OperatorOffset(c, o)
    case Attack(o) => 0x60 + OperatorOffset(c, o)
    case Decay(o) => 0x60 + OperatorOffset(c, o)
    case Sustain(o) => 0x80 + OperatorOffset(c, o)
    case Release(o) => 0x80 + OperatorOffset(c, o)
    case WaveForm(o) => 0xE0 + OperatorOffset(c, o)
    case FNumberLow => 0xA0 + c
    case FNumberHigh => 0xB0 + c
    case Block => 0xB0 + c
    case KeyOn => 0xB0 + c
    case Feedback => 0xC0 + c
    case SynthMode => 0xC0 + c
    case WaveFormSelect => 0x01
    case _ => 0xBD
  }

  /** The byte it sends there, over the byte `b` that the register held. */
  predicate ByteSent(p: Param, x: nat, b: Byte, w: Byte) {
    match p
    case Tremolo(_) => Switched(b, w, 7, x != 0)
    case Vibrato(_) => Switched(b, w, 6, x != 0)
    case MaintainSustain(_) => Switched(b, w, 5, x != 0)
    case EnvelopeScaling(_) => Switched(b, w, 4, x != 0)
    case Multiplier(_) => Replaced(b, w, 0, 4, x)
    case ScalingLevel(_) => Replaced(b, w, 6, 8, x)
    case Volume(_) => Replaced(b, w, 0, 6, x)
    case Attack(_) => Replaced(b, w, 4, 8, x)
    case Decay(_) => Replaced(b, w, 0, 4, x)
    case Sustain(_) => Replaced(b, w, 4, 8, x)
    case Release(_) => Replaced(b, w, 0, 4, x)
    case WaveForm(_) => Replaced(b, w, 0, 3, x)
    case FNumberLow => Replaced(b, w, 0, 8, x)
    case FNumberHigh => Replaced(b, w, 0, 2, x)
    case Block => Replaced(b, w, 2, 5, x)
    case KeyOn => Switched(b, w, 5, x != 0)
    case Feedback => Replaced(b, w, 1, 4, x)
    case SynthMode => Replaced(b, w, 0, 1, x)
    case DeepTremolo => Switched(b, w, 7, x != 0)
    case DeepVibrato => Switched(b, w, 6, x != 0)
    case Percussion => Switched(b, w, 5, x != 0)
    case Drums => Replaced(b, w, 0, 5, x)
    case WaveFormSelect => Switched(b, w, 5, x != 0)
  }

  /** What a setter does to the chip: one byte goes to one address, over what the register held. */
  ghost predicate SetterSends(p: Param, c: nat, x: nat, chip: seq<Byte>, chip': seq<Byte>,
                              sent: seq<(nat, Byte)>, sent': seq<(nat, Byte)>)
  {
    var a := AddressSent(p, c);
    && a < |chip|
    && exists w :: ByteSent(p, x, chip[a], w) && chip' == chip[a := w] && sent' == sent + [(a, w)]
  }

  lemma OffsetsAre(channel: nat, op: nat)
    requires channel < CHANNELS && op < 2
    ensures REGISTER_OFFSETS[op][channel] == OperatorOffset(channel, op)
  {}

  /** The table of registers agrees with those addresses, */
  lemma AddressesAre(p: Param, c: nat)
    requires Cell(p, c)
    ensures Address(RegisterOf(p, c)) == AddressSent(p, c)
  {
    if OfOperator(p) { OffsetsAre(c, p.op); }
  }

  /** the tables of fields with those bits, */
  lemma BytesAre(p: Param, b: Byte, x: nat)
    ensures ByteSent(p, x, b, Packed(p, b, x))
  {
    var y := if Flag(p) then One(x != 0) else x;
    assert BitOf(y, 0) == if Flag(p) then x != 0 else BitOf(x, 0);
  }

  /** and the copies of a parameter are one for each operator of nine channels, or one for each, or one. */
  lemma CellsAre(p: Param, c: nat)
    ensures Cell(p, c) <==>
            match p
            case Tremolo(o) => c < 9 && o < 2
            case Vibrato(o) => c < 9 && o < 2
            case MaintainSustain(o) => c < 9 && o < 2
            case EnvelopeScaling(o) => c < 9 && o < 2
            case Multiplier(o) => c < 9 && o < 2
            case ScalingLevel(o) => c < 9 && o < 2
            case Volume(o) => c < 9 && o < 2
            case Attack(o) => c < 9 && o < 2
            case Decay(o) => c < 9 && o < 2
            case Sustain(o) => c < 9 && o < 2
            case Release(o) => c < 9 && o < 2
            case WaveForm(o) => c < 9 && o < 2
            case DeepTremolo => c == 0
            case DeepVibrato => c == 0
            case Percussion => c == 0
            case Drums => c == 0
            case WaveFormSelect => c == 0
            case _ => c < 9
  {}

  /** The drum register with all drums off, and the other fields as they were. */
  predicate DrumsOff(b: Byte, off: Byte) {
    Unpacked(Drums, off) == 0 && forall i :: 5 <= i < 8 ==> off[i] == b[i]
  }

  lemma PackedOff(b: Byte)
    ensures DrumsOff(b, Packed(Drums, b, 0))
  {
    UnpackedPacked(Drums, b, 0);
  }

  // ---- the library's state ----

  /** The wires to the chip: the bytes sent, each to an address. */
  class Bus {
    ghost var sent: seq<(nat, Byte)>

    constructor ()
      ensures sent == []
    {
      sent := [];
    }
  }

  class Ym3812 {
    const bus: Bus
    const chipRegisters: array<Byte>
    const channelRegisters: array<Byte>
    const operatorRegisters: array<Byte>
    /** The registers inside the chip. */
    const chip: array<Byte>

    ghost predicate Valid()
      reads this
    {
      && chipRegisters.Length == 3 && channelRegisters.Length == 27 && operatorRegisters.Length == 90
      && chip.Length == 256
      && chipRegisters != channelRegisters && chipRegisters != operatorRegisters && chipRegisters != chip
      && channelRegisters != operatorRegisters && channelRegisters != chip && operatorRegisters != chip
    }

    ghost function Repr(): set<object>
      reads this
    {
      {chipRegisters, channelRegisters, operatorRegisters, chip, bus}
    }

    /** The shadow of a register. */
    ghost function Shadow(r: Register): Byte
      requires Valid() && Exists(r)
      reads this, Repr()
    {
      match r
      case Chip(_) => chipRegisters[ShadowIndex(r)]
      case Channel(_, _) => channelRegisters[ShadowIndex(r)]
      case Operator(_, _, _) => operatorRegisters[ShadowIndex(r)]
    }

    /** Every register of the chip holds what the library believes. */
    ghost predicate Coherent()
      requires Valid()
      reads this, Repr()
    {
      forall r :: Exists(r) ==> chip[Address(r)] == Shadow(r)
    }

    /** The value of one copy of a parameter. */
    ghost function Value(p: Param, channel: nat): nat
      requires Valid() && Cell(p, channel)
      reads this, Repr()
    {
      Unpacked(p, Shadow(RegisterOf(p, channel)))
    }

    /** After a reset of the chip, with the zero-initialised shadows. */
    constructor ()
      ensures Valid() && fresh(Repr()) && Coherent() && bus.sent == []
    {
      bus := new Bus();
      chipRegisters := new Byte[3](_ => NO_BITS);
      channelRegisters := new Byte[27](_ => NO_BITS);
      operatorRegisters := new Byte[90](_ => NO_BITS);
      chip := new Byte[256](_ => NO_BITS);
      new;
      ResetIsCoherent();
    }

    lemma ResetIsCoherent()
      requires Valid()
      requires forall i :: 0 <= i < 3 ==> chipRegisters[i] == NO_BITS
      requires forall i :: 0 <= i < 27 ==> channelRegisters[i] == NO_BITS
      requires forall i :: 0 <= i < 90 ==> operatorRegisters[i] == NO_BITS
      requires forall i :: 0 <= i < 256 ==> chip[i] == NO_BITS
      ensures Coherent()
    {}

    method GetRegister(r: Register) returns (b: Byte)
      requires Valid() && Exists(r)
      ensures b == Shadow(r)
    {
      match r
      case Chip(_) => b := chipRegisters[ShadowIndex(r)];
      case Channel(_, _) => b := channelRegisters[ShadowIndex(r)];
      case Operator(_, _, _) => b := operatorRegisters[ShadowIndex(r)];
    }

    method SetShadow(r: Register, b: Byte)
      requires Valid() && Exists(r)
      modifies chipRegisters, channelRegisters, operatorRegisters
      ensures Shadow(r) == b
      ensures forall s :: Exists(s) && s != r ==> Shadow(s) == old(Shadow(s))
    {
      forall s | Exists(s) && s != r && ShadowIndex(s) == ShadowIndex(r)
        ensures s.Chip? != r.Chip? || s.Channel? != r.Channel?
      {
        if s.Chip? == r.Chip? && s.Channel? == r.Channel? { ShadowsDiffer(s, r); }
      }
      match r
      case Chip(_) => chipRegisters[ShadowIndex(r)] := b;
      case Channel(_, _) => channelRegisters[ShadowIndex(r)] := b;
      case Operator(_, _, _) => operatorRegisters[ShadowIndex(r)] := b;
    }

    /** The three register setters: shadow first, then one byte to the chip. */
    method SetRegister(r: Register, b: Byte)
      requires Valid() && Exists(r)
      modifies Repr()
      ensures Shadow(r) == b
      ensures forall s :: Exists(s) && s != r ==> Shadow(s) == old(Shadow(s))
      ensures bus.sent == old(bus.sent) + [(Address(r), b)] && chip[..] == old(chip[..])[Address(r) := b]
      ensures old(Coherent()) ==> Coherent()
    {
      SetShadow(r, b);
      chip[Address(r)] := b;
      bus.sent := bus.sent + [(Address(r), b)];
      forall s | Exists(s) && old(Coherent())
        ensures chip[Address(s)] == Shadow(s)
      {
        if Address(s) == Address(r) { AddressesDiffer(s, r); }
      }
    }

    /** A getter of the library. */
    method Get(p: Param, channel: nat) returns (x: nat)
      requires Valid() && Cell(p, channel)
      ensures x == Value(p, channel)
    {
      var b := GetRegister(RegisterOf(p, channel));
      x := Unpacked(p, b);
    }

    /** A setter of the library: this copy takes the value, every other copy of every parameter stays. */
    method Set(p: Param, channel: nat, x: nat)
      requires Valid() && Cell(p, channel)
      modifies Repr()
      ensures Value(p, channel) == Stored(p, x)
      ensures forall q, c :: Cell(q, c) && (q != p || c != channel) ==> Value(q, c) == old(Value(q, c))
      ensures var r := RegisterOf(p, channel);
              && Shadow(r) == Packed(p, old(Shadow(r)), x)
              && bus.sent == old(bus.sent) + [(Address(r), Shadow(r))]
      ensures old(Coherent()) ==> SetterSends(p, channel, x, old(chip[..]), chip[..], old(bus.sent), bus.sent)
      ensures old(Coherent()) ==> Coherent()
    {
      var r := RegisterOf(p, channel);
      var b := GetRegister(r);
      AddressesAre(p, channel);
      BytesAre(p, b, x);
      assert old(Coherent()) ==> old(chip[Address(r)]) == b;
      SetRegister(r, Packed(p, b, x));
      UnpackedPacked(p, b, x);
      forall q, c | Cell(q, c) && (q != p || c != channel)
        ensures Value(q, c) == old(Value(q, c))
      {
        if RegisterOf(q, c) == r { PackedKeeps(p, channel, q, c, b, x); }
      }
    }

    /**
     * `setDrums`: two writes to the drum register. The first turns all drums off, so that the second strikes those it
     * turns on, also where they were on before; neither touches the other fields.
     */
    method SetDrums(x: nat)
      requires Valid()
      modifies Repr()
      ensures Value(Drums, 0) == Stored(Drums, x)
      ensures forall q, c :: Cell(q, c) && q != Drums ==> Value(q, c) == old(Value(q, c))
      ensures exists off :: DrumsOff(old(Shadow(Chip(0xBD))), off) &&
                bus.sent == old(bus.sent) + [(0xBD, off), (0xBD, Shadow(Chip(0xBD)))]
      ensures old(Coherent()) ==> Coherent()
    {
      ghost var b := Shadow(Chip(0xBD));
      Set(Drums, 0, 0);
      ghost var off := Shadow(Chip(0xBD));
      assert DrumsOff(b, off) by { PackedOff(b); }
      Set(Drums, 0, x);
      assert bus.sent == old(bus.sent) + [(0xBD, off), (0xBD, Shadow(Chip(0xBD)))];
    }

    /** `setNoteSelect`, which overwrites its whole register. */
    method SetNoteSelect(enable: bool)
      requires Valid()
      modifies Repr()
      ensures Shadow(Chip(0x08)) == NO_BITS[6 := enable]
      ensures bus.sent == old(bus.sent) + [(0x08, NO_BITS[6 := enable])]
      ensures forall q, c :: Cell(q, c) ==> Value(q, c) == old(Value(q, c))
      ensures old(Coherent()) ==> Coherent()
    {
      SetRegister(Chip(0x08), NO_BITS[6 := enable]);
    }

    method GetNoteSelect() returns (enabled: bool)
      requires Valid()
      ensures enabled == Shadow(Chip(0x08))[6]
    {
      var b := GetRegister(Chip(0x08));
      enabled := b[6];
    }
  }
}
