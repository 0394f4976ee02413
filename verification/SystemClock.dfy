/**
 * Bringing up the system clock and reading it back (User/system_ch32v30x.c), for both device lines and every
 * frequency option of the file, against hardware that takes any time it likes.
 */
module SystemClock {
  import opened BitWords
  import opened ClockDecode
  import opened RccHardware

  /** The `SYSCLK_FREQ_...` options; `Hsi` when none is defined, and the PLL options by their multiplier of HSE. */
  datatype Target = Hsi | Hse | Pll(times: Multiplier)

  datatype Multiplier = X3 | X6 | X7 | X9 | X12 | X15 | X18

  function Times(m: Multiplier): nat {
    match m
    case X3 => 3
    case X6 => 6
    case X7 => 7
    case X9 => 9
    case X12 => 12
    case X15 => 15
    case X18 => 18
  }

  /** The frequency an option promises. */
  function Frequency(t: Target): nat {
    match t
    case Hsi => HSI_VALUE
    case Hse => 8_000_000
    case Pll(m) => 8_000_000 * Times(m)
  }

  /** The code in the `RCC_PLLMULL` constant for a multiplier; the D8C parts use the `_EXTEN` set. */
  function MullCode(v: Variant, m: Multiplier): (code: nat)
    ensures code < 16
  {
    match m
    case X3 => 1
    case X6 => 4
    case X7 => 5
    case X9 => 7
    case X12 => 10
    case X15 => if v == D8 then 13 else 14
    case X18 => if v == D8 then 15 else 0
  }

  /** The constant itself: the code, shifted into its field. */
  function Mull(v: Variant, m: Multiplier): Word {
    ShiftedCode(MullCode(v, m))
  }

  function ShiftedCode(code: nat): Word {
    seq(32, k requires 0 <= k < 32 => 18 <= k < 22 && DigitBit(code, k - 18))
  }

  /** The `RCC_PPRE1` constant: the slow bus is halved above 24 MHz. */
  function SlowBus(t: Target): Word {
    if t.Pll? && t.times != X3 then Mask(10) else ZERO
  }

  /** What `SystemInit` makes of CFGR0 before it selects a clock: bit 23 and the top four or five bits are kept. */
  ghost predicate ResetCfgr0(v: Variant, before: Word, after: Word) {
    forall k :: 0 <= k < 32 && k != 2 && k != 3 ==>
      after[k] == (before[k] && (k == 23 || k >= 28 || (k == 27 && v == D8C)))
  }

  /** The same with the status field at `sws`. */
  function ResetWord(v: Variant, before: Word, sws: nat): Word {
    seq(32, k requires 0 <= k < 32 =>
      if k == 2 then sws % 2 == 1
      else if k == 3 then sws / 2 == 1
      else before[k] && (k == 23 || k >= 28 || (k == 27 && v == D8C)))
  }

  /** What it makes of CTLR: HSI on; crystal, its bypass, the security system and every PLL off. */
  ghost predicate ResetCtlr(v: Variant, before: Word, after: Word) {
    && after[HSION]
    && (forall k :: 1 <= k < 32 && k != HSIRDY && k != HSERDY && k != PLLRDY ==>
      after[k] == (before[k] && k != 16 && k != 18 && k != 19 && k != 24 && (v == D8C ==> k != 26 && k != 28)))
  }

  /** The hardware ticks in the register accesses of the reset. */
  function ResetTicks(v: Variant): nat {
    if v == D8C then 12 else 10
  }

  // ---- the masks, bit by bit ----

  lemma MaskF8FF()
    ensures forall k :: 0 <= k < 32 ==> (Hex("F8FF0000")[k] <==> 16 <= k < 24 || 27 <= k)
  {}

  lemma MaskF0FF()
    ensures forall k :: 0 <= k < 32 ==> (Hex("F0FF0000")[k] <==> 16 <= k < 24 || 28 <= k)
  {}

  lemma MaskFF80()
    ensures forall k :: 0 <= k < 32 ==> (Hex("FF80FFFF")[k] <==> k < 16 || 23 <= k)
  {}

  lemma MaskFFC0()
    ensures forall k :: 0 <= k < 32 ==> (Hex("FFC0FFFF")[k] <==> k < 16 || 22 <= k)
  {}

  lemma MaskFEF6()
    ensures forall k :: 0 <= k < 32 ==> (Hex("FEF6FFFF")[k] <==> k != 16 && k != 19 && k != 24)
  {}

  lemma MaskFFFB()
    ensures forall k :: 0 <= k < 32 ==> (Hex("FFFBFFFF")[k] <==> k != 18)
  {}

  lemma MaskEBFF()
    ensures forall k :: 0 <= k < 32 ==> (Hex("EBFFFFFF")[k] <==> k != 26 && k != 28)
  {}

  predicate Cleared(c: Word) {
    && Sw(c) == 0 && Hpre(c) == 0 && Ppre1(c) == 0 && Ppre2(c) == 0
    && PllMull(c) == 0 && !c[PLLSRC] && !c[PLLXTPRE]
  }

  /** The first mask of the reset, for either device line. */
  function LowMask(v: Variant): Word {
    if v == D8C then Hex("F8FF0000") else Hex("F0FF0000")
  }

  lemma LowMaskBits(v: Variant)
    ensures forall k :: 0 <= k < 32 ==> (LowMask(v)[k] <==> 16 <= k < 24 || k >= 28 || (k == 27 && v == D8C))
  {
    MaskF8FF();
    MaskF0FF();
  }

  /** The masks of the reset, applied one after the other. */
  lemma ResetMasked(v: Variant, c: Word, c': Word, d: Word, d': Word, low: Word, off: Word, bypass: Word, pll: Word)
    requires forall k :: 0 <= k < 32 ==> (low[k] <==> 16 <= k < 24 || k >= 28 || (k == 27 && v == D8C))
    requires forall k :: 0 <= k < 32 ==> (off[k] <==> k != 16 && k != 19 && k != 24)
    requires forall k :: 0 <= k < 32 ==> (bypass[k] <==> k != 18)
    requires forall k :: 0 <= k < 32 ==> (pll[k] <==> k < 16 || 23 <= k)
    requires SameCtlr(c', And(And(Or(c, Mask(HSION)), off), bypass)) && SameCfgr0(d', And(And(d, low), pll))
    ensures ResetCtlr(D8, c, c') && ResetCfgr0(v, d, d')
  {}

  lemma ResetClears(v: Variant, before: Word, after: Word)
    requires ResetCfgr0(v, before, after)
    ensures Cleared(after)
  {}

  lemma ShiftedCodeIs(code: nat)
    requires code < 16
    ensures PllMull(ShiftedCode(code)) == code
    ensures forall k :: 0 <= k < 32 && !(18 <= k < 22) ==> !ShiftedCode(code)[k]
  {
    var w := ShiftedCode(code);
    assert w[18] == DigitBit(code, 0) && w[19] == DigitBit(code, 1);
    assert w[20] == DigitBit(code, 2) && w[21] == DigitBit(code, 3);
  }

  /** The constant decodes to its multiplier, on either device line. */
  lemma MullSelects(v: Variant, m: Multiplier)
    ensures TwiceMultiplier(v, PllMull(Mull(v, m))) == 2 * Times(m)
    ensures forall k :: 0 <= k < 32 && !(18 <= k < 22) ==> !Mull(v, m)[k]
  {
    ShiftedCodeIs(MullCode(v, m));
  }

  /** The PLL is set up to multiply the crystal's frequency. */
  predicate HseTimes(v: Variant, m: Multiplier, c: Word) {
    c[PLLSRC] && !c[PLLXTPRE] && TwiceMultiplier(v, PllMull(c)) == 2 * Times(m)
  }

  /** The multiplier, source and predivider fields after they are cleared and set for HSE times `m`. */
  lemma PllFields(v: Variant, m: Multiplier, c: Word, d: Word)
    requires SameCfgr0(d, Or(And(c, Hex("FFC0FFFF")), Or(Mask(PLLSRC), Mull(v, m))))
    ensures HseTimes(v, m, d)
    ensures forall k :: 0 <= k < 32 && k != 2 && k != 3 && !(16 <= k < 22) ==> d[k] == c[k]
  {
    MaskFFC0();
    MullSelects(v, m);
    Inserted(c, d, Hex("FFC0FFFF"), Mull(v, m));
  }

  /** The PLL constants leave the switch alone. */
  lemma ClearedSw(c: Word, v: Variant, m: Multiplier)
    ensures Sw(And(c, Hex("FFC0FFFF"))) == Sw(c)
    ensures Sw(Or(c, Or(Mask(PLLSRC), Mull(v, m)))) == Sw(c)
  {
    MaskFFC0();
    MullSelects(v, m);
    SwKept(c, Hex("FFC0FFFF"), Or(Mask(PLLSRC), Mull(v, m)));
  }

  lemma SwKept(c: Word, mask: Word, bits: Word)
    requires mask[0] && mask[1] && !bits[0] && !bits[1]
    ensures Sw(And(c, mask)) == Sw(c) && Sw(Or(c, bits)) == Sw(c)
  {}

  /** Clearing the switch and setting it anew touches nothing else. */
  lemma SwitchBits(c: Word, source: nat)
    requires source == 1 || source == 2
    ensures Sw(And(c, Hex("FFFFFFFC"))) == 0
    ensures forall k :: 2 <= k < 32 ==> And(c, Hex("FFFFFFFC"))[k] == c[k]
    ensures Sw(c) == 0 ==> Sw(Or(c, Mask(source - 1))) == source
    ensures forall k :: 2 <= k < 32 ==> Or(c, Mask(source - 1))[k] == c[k]
  {}

  lemma Inserted(c: Word, d: Word, cleared: Word, mull: Word)
    requires forall k :: 0 <= k < 32 ==> (cleared[k] <==> k < 16 || 22 <= k)
    requires forall k :: 0 <= k < 32 && !(18 <= k < 22) ==> !mull[k]
    requires SameCfgr0(d, Or(And(c, cleared), Or(Mask(PLLSRC), mull)))
    ensures d[PLLSRC] && !d[PLLXTPRE] && PllMull(d) == PllMull(mull)
    ensures forall k :: 0 <= k < 32 && k != 2 && k != 3 && !(16 <= k < 22) ==> d[k] == c[k]
  {}

  // ---- what a configured register says ----

  /** The clock and bus settings that an option asks for, as changes to what CFGR0 held before. */
  ghost predicate Configured(v: Variant, t: Target, before: Word, after: Word) {
    && (t.Hse? ==> Sw(after) == Sws(after) == 1 && forall k :: 16 <= k < 22 ==> after[k] == before[k])
    && (t.Pll? ==> Sw(after) == Sws(after) == 2 && HseTimes(v, t.times, after))
    && after[10] == (before[10] || SlowBus(t)[10])
    && (forall k :: 4 <= k < 32 && k != 10 && !(16 <= k < 22) ==> after[k] == before[k])
  }

  /** The configured clock is the promised one divided by whatever the AHB prescaler held before. */
  lemma ConfiguredClock(v: Variant, t: Target, before: Word, after: Word)
    requires Configured(v, t, before, after) && !t.Hsi?
    ensures CoreClock(v, after) == Frequency(t) / AhbDivisor(Hpre(before))
  {
    assert Hpre(after) == Hpre(before);
    assert SysClock(v, after) == Frequency(t);
  }

  /** The slow bus stays within 72 MHz, whatever its prescaler held before; the fast bus prescaler is kept. */
  lemma ConfiguredBuses(v: Variant, t: Target, before: Word, after: Word)
    requires Configured(v, t, before, after)
    ensures Frequency(t) / ApbDivisor(Ppre1(after)) <= 72_000_000
    ensures Ppre2(after) == Ppre2(before)
    ensures Ppre1(before) == 0 ==> ApbDivisor(Ppre1(after)) == if Frequency(t) > 24_000_000 then 2 else 1
  {}

  /** The prescaler is only ever or-ed to, so it is right afterwards exactly when its top bit was clear before. */
  lemma PrescalerMustBeClear(v: Variant, t: Target, before: Word, after: Word)
    requires Configured(v, t, before, after) && !t.Hsi?
    ensures CoreClock(v, after) == Frequency(t) <==> !before[7]
  {
    ConfiguredClock(v, t, before, after);
  }

  /** An input that fails: with the prescaler at 2 before, this board's 144 MHz come out as 72 MHz. */
  lemma PrescalerWasSet() returns (after: Word)
    ensures Configured(D8C, Pll(X18), Mask(7), after) && CoreClock(D8C, after) == 72_000_000
  {
    after := ConfiguredOverPrescaler();
    ConfiguredClock(D8C, Pll(X18), Mask(7), after);
  }

  lemma ConfiguredOverPrescaler() returns (after: Word)
    ensures Configured(D8C, Pll(X18), Mask(7), after)
  {
    after := seq(32, k => k == 1 || k == 3 || k == 7 || k == 10 || k == PLLSRC);
  }

  /** The four parts of a PLL routine together: prescalers, PLL fields, and the switch. */
  lemma ConfiguredBy(v: Variant, m: Multiplier, before: Word, scaled: Word, pll: Word, after: Word)
    requires SameCfgr0(scaled, Or(before, SlowBus(Pll(m))))
    requires HseTimes(v, m, pll)
    requires forall k :: 0 <= k < 32 && k != 2 && k != 3 && !(16 <= k < 22) ==> pll[k] == scaled[k]
    requires Sw(after) == Sws(after) == 2 && forall k :: 4 <= k < 32 ==> after[k] == pll[k]
    ensures Configured(v, Pll(m), before, after)
  {}

  lemma ConfiguredFrom(v: Variant, t: Target, before: Word, started: Word, after: Word)
    requires SameCfgr0(started, before) && Configured(v, t, started, after)
    ensures Configured(v, t, before, after)
  {}

  /** Everything `SystemInit` promises of a clock it could select, whatever the register held before. */
  ghost predicate AsPromised(v: Variant, t: Target, c: Word) {
    && CoreClock(v, c) == Frequency(t)
    && Sw(c) == Sws(c) && Hpre(c) == 0 && Ppre2(c) == 0
    && Frequency(t) / ApbDivisor(Ppre1(c)) <= 72_000_000
  }

  /** The low bits of CFGR0 that an option asks for: switch, status, prescalers and PLL fields. */
  function Settings(v: Variant, t: Target): string
    ensures |Settings(v, t)| == 8
  {
    match t
    case Hsi => "00000000"
    case Hse => "00000005"
    case Pll(X3) => "0005000A"
    case Pll(X6) => "0011040A"
    case Pll(X7) => "0015040A"
    case Pll(X9) => "001D040A"
    case Pll(X12) => "0029040A"
    case Pll(X15) => if v == D8 then "0035040A" else "0039040A"
    case Pll(X18) => if v == D8 then "003D040A" else "0001040A"
  }

  ghost predicate LowBitsOf(c: Word, digits: string)
    requires |digits| == 8
  {
    forall k :: 0 <= k < 23 ==> c[k] == Hex(digits)[k]
  }

  /** Over a register cleared by the reset, an option gives exactly its settings. */
  lemma SettingsOver(v: Variant, t: Target, start: Word, before: Word, after: Word)
    requires ResetCfgr0(v, start, before) && Configured(v, t, before, after) && !t.Hsi?
    ensures LowBitsOf(after, Settings(v, t))
  {
    LowSettings(v, t);
    HighSettings(v, t);
    CodeOf(v, t, after);
    SwitchOf(after);
    SettingsIn(v, t, start, before, after, Hex(Settings(v, t)));
  }

  lemma SettingsIn(v: Variant, t: Target, start: Word, before: Word, after: Word, w: Word)
    requires ResetCfgr0(v, start, before) && Configured(v, t, before, after) && !t.Hsi?
    requires w[0] == w[2] == t.Hse? && w[1] == w[3] == w[16] == t.Pll?
    requires after[0] == after[2] == t.Hse? && after[1] == after[3] == t.Pll?
    requires w[10] == (t.Pll? && t.times != X3) && !w[17] && !w[22]
    requires forall k :: 4 <= k < 16 && k != 10 ==> !w[k]
    requires forall k :: 18 <= k < 22 ==> if t.Pll? then w[k] == after[k] else !w[k]
    ensures forall k :: 0 <= k < 23 ==> after[k] == w[k]
  {}

  lemma LowSettings(v: Variant, t: Target)
    requires !t.Hsi?
    ensures var w := Hex(Settings(v, t));
            && w[0] == w[2] == t.Hse? && w[1] == w[3] == t.Pll? && w[10] == (t.Pll? && t.times != X3)
            && forall k :: 4 <= k < 16 && k != 10 ==> !w[k]
  {
    MiddleSettings(v, t);
  }

  lemma MiddleSettings(v: Variant, t: Target)
    requires !t.Hsi?
    ensures var w := Hex(Settings(v, t));
            w[10] == (t.Pll? && t.times != X3) && forall k :: 4 <= k < 16 && k != 10 ==> !w[k]
  {}

  lemma HighSettings(v: Variant, t: Target)
    requires !t.Hsi?
    ensures var w := Hex(Settings(v, t));
            && w[16] == t.Pll? && !w[17] && !w[22] && (t.Hse? ==> forall k :: 18 <= k < 22 ==> !w[k])
  {}

  lemma SwitchOf(c: Word)
    ensures Sw(c) == 1 <==> c[0] && !c[1]
    ensures Sw(c) == 2 <==> !c[0] && c[1]
    ensures Sws(c) == 1 <==> c[2] && !c[3]
    ensures Sws(c) == 2 <==> !c[2] && c[3]
  {}

  /** The multiplier field, if it is right, is that of the settings: no other code gives the multiplier. */
  lemma CodeOf(v: Variant, t: Target, after: Word)
    requires t.Pll? ==> HseTimes(v, t.times, after)
    ensures t.Pll? ==> forall k :: 18 <= k < 22 ==> after[k] == Hex(Settings(v, t))[k]
  {}

  /** With the prescalers cleared beforehand, a configured clock is the promised one. */
  lemma ClearedThenConfigured(v: Variant, t: Target, before: Word, after: Word)
    requires Cleared(before) && Configured(v, t, before, after) && !t.Hsi?
    ensures AsPromised(v, t, after)
  {}

  /**
   * Without a new clock, the decoded clock is that of HSI, except on a D8C part whose switch still reports
   * the PLL: there the cleared multiplier field does not mean 2 but 18.
   */
  lemma ClearedOnly(v: Variant, c: Word)
    requires Cleared(c)
    ensures CoreClock(v, c) == HSI_VALUE <==> v == D8 || Sws(c) != 2
    ensures v == D8C && Sws(c) == 2 ==> CoreClock(v, c) == 72_000_000
  {}

  /** Both ends of a clock routine after the reset of a register that held `start`. */
  lemma Selected(v: Variant, t: Target, start: Word, before: Word, after: Word, ready: bool)
    requires ResetCfgr0(v, start, before)
    requires if ready then Configured(v, t, before, after) && !t.Hsi? else SameCfgr0(after, before)
    ensures ready ==> AsPromised(v, t, after) && LowBitsOf(after, Settings(v, t))
    ensures !ready ==>
              && ResetCfgr0(v, start, after)
              && CoreClock(v, after) == if v == D8C && Sws(after) == 2 then 72_000_000 else HSI_VALUE
    ensures CoreClock(v, after) == Frequency(t) <==>
              ready || (if v == D8C && Sws(after) == 2 then t == Pll(X9) else !t.Pll?)
  {
    ResetClears(v, start, before);
    if ready {
      ClearedThenConfigured(v, t, before, after);
      SettingsOver(v, t, start, before, after);
    } else {
      ResetClears(v, start, after);
      ClearedOnly(v, after);
    }
  }

  /** A register that fails: all else cleared, the switch of a D8C part reports the PLL, at 72 MHz. */
  lemma ClearedOnPll()
    ensures Cleared(Mask(3)) && Sws(Mask(3)) == 2 && CoreClock(D8C, Mask(3)) == 72_000_000
  {}

  /** Once the switch has arrived, the hardware changes the clock no more. */
  lemma SettledClock(v: Variant, h: Hw, r: Regs)
    requires Sw(r.cfgr0) == Sws(r.cfgr0)
    ensures CoreClock(v, Advance(h, r).cfgr0) == CoreClock(v, r.cfgr0)
  {}

  /** One tick after a reset without a new clock, the decoded clock goes by the status field of that tick. */
  lemma StillReset(v: Variant, h: Hw, before: Word, r: Regs)
    requires ResetCfgr0(v, before, r.cfgr0)
    ensures var c := Advance(h, r).cfgr0;
            && Sws(c) == (if h.switches then 0 else Sws(r.cfgr0))
            && CoreClock(v, c) == if v == D8C && Sws(c) == 2 then 72_000_000 else HSI_VALUE
  {
    ResetClears(v, before, r.cfgr0);
    AdvanceKeeps(h, r);
    ResetClears(v, before, Advance(h, r).cfgr0);
    ClearedOnly(v, Advance(h, r).cfgr0);
  }
}
