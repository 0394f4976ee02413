/**
 * What the clock configuration register means, and the code that decodes it
 * (User/system_ch32v30x.c, with the field encodings of Peripheral/inc/ch32v30x.h).
 */
module ClockDecode {
  import opened Arithmetic
  import opened BitWords

  /** The two device lines the sources distinguish; they encode the PLL multiplier differently. */
  datatype Variant = D8 | D8C

  const HSI_VALUE := 8_000_000
  const HSE_VALUE := 8_000_000

  // ---- the meaning of the fields ----

  /** Twice the PLL multiplier that a four-bit code selects, per the `RCC_PLLMULL` definitions; one factor is 6.5. */
  function TwiceMultiplier(v: Variant, code: nat): nat
    requires code < 16
  {
    match v
    case D8 => if code == 15 then 36 else 2 * (code + 2)
    case D8C =>
      if code == 0 then 36
      else if code == 13 then 13
      else if code == 14 then 30
      else if code == 15 then 32
      else 2 * (code + 2)
  }

  /** The divisor that a four-bit code selects, per the `RCC_HPRE` definitions; there is no division by 32. */
  function AhbDivisor(code: nat): nat
    requires code < 16
  {
    if code < 8 then 1 else [2, 4, 8, 16, 64, 128, 256, 512][code - 8]
  }

  // The fields of CFGR0.

  function Sw(cfgr0: Word): nat { Field2(cfgr0, 0) }

  function Sws(cfgr0: Word): nat { Field2(cfgr0, 2) }

  function Hpre(cfgr0: Word): nat { Field4(cfgr0, 4) }

  function Ppre1(cfgr0: Word): nat { Field3(cfgr0, 8) }

  function Ppre2(cfgr0: Word): nat { Field3(cfgr0, 11) }

  const PLLSRC := 16
  const PLLXTPRE := 17

  function PllMull(cfgr0: Word): nat { Field4(cfgr0, 18) }

  /** The PLL input: half of HSI, or HSE, or half of HSE. */
  function PllInput(fromHse: bool, halved: bool): nat {
    if !fromHse then HSI_VALUE / 2 else if halved then HSE_VALUE / 2 else HSE_VALUE
  }

  function PllClock(v: Variant, fromHse: bool, halved: bool, code: nat): nat
    requires code < 16
  {
    PllInput(fromHse, halved) * TwiceMultiplier(v, code) / 2
  }

  /** The system clock that the status field SWS reports. */
  function SysClock(v: Variant, cfgr0: Word): nat {
    if Sws(cfgr0) == 2 then PllClock(v, cfgr0[PLLSRC], cfgr0[PLLXTPRE], PllMull(cfgr0))
    else if Sws(cfgr0) == 1 then HSE_VALUE
    else HSI_VALUE
  }

  /** The core clock. */
  function CoreClock(v: Variant, cfgr0: Word): nat {
    SysClock(v, cfgr0) / AhbDivisor(Hpre(cfgr0))
  }

  /** The divisor that a three-bit code selects, per the `RCC_PPRE1` and `RCC_PPRE2` definitions. */
  function ApbDivisor(code: nat): nat
    requires code < 8
  {
    if code < 4 then 1 else [2, 4, 8, 16][code - 4]
  }

  /** The fields of one register value, all of them different. */
  lemma FieldsOf()
    ensures var c := Hex("003535B9");
            && Sw(c) == 1 && Sws(c) == 2 && Hpre(c) == 11 && Ppre1(c) == 5 && Ppre2(c) == 6
            && c[PLLSRC] && !c[PLLXTPRE] && PllMull(c) == 13
  {}

  /** In MHz: HSI, halved, times 2 and 18; HSE and half of it times 9; HSE times 6.5, 15 and 18. */
  lemma KnownPllClocks()
    ensures PllClock(D8, false, false, 0) == 8_000_000 && PllClock(D8C, false, true, 0) == 72_000_000
    ensures PllClock(D8, true, false, 7) == 72_000_000 && PllClock(D8, true, true, 7) == 36_000_000
    ensures PllClock(D8C, true, false, 13) == 52_000_000 && PllClock(D8, true, false, 13) == 120_000_000
    ensures PllClock(D8C, true, false, 0) == PllClock(D8, true, false, 15) == 144_000_000
  {}

  /** All divisors, by code. */
  lemma KnownDivisors(code: nat)
    ensures code < 16 ==> AhbDivisor(code) == [1, 1, 1, 1, 1, 1, 1, 1, 2, 4, 8, 16, 64, 128, 256, 512][code]
    ensures code < 8 ==> ApbDivisor(code) == [1, 1, 1, 1, 2, 4, 8, 16][code]
  {}

  // ---- the code ----

  const AHB_PRESC_TABLE := [0, 0, 0, 0, 0, 0, 0, 0, 1, 2, 3, 4, 6, 7, 8, 9]

  /** `x >> n` on unsigned values, one bit at a time. */
  function ShiftRight(x: nat, n: nat): nat {
    if n == 0 then x else ShiftRight(x / 2, n - 1)
  }

  lemma {:induction false} ShiftDivides(x: nat, n: nat)
    ensures ShiftRight(x, n) == x / Pow2(n)
  {
    if n > 0 {
      ShiftDivides(x / 2, n - 1);
      DivideTwice(x, Pow2(n - 1));
    }
  }

  lemma DivideTwice(x: nat, p: nat)
    requires p > 0
    ensures x / 2 / p == x / (2 * p)
  {
    var q := x / 2 / p;
    var r := x / 2 - p * q;
    assert x == (2 * p) * q + (2 * r + x % 2);
    DivisionIs(x, 2 * p, q, 2 * r + x % 2);
  }

  /** The AHB shift is a division by the divisor that the header gives for the code. */
  lemma AhbShift(x: nat, code: nat)
    requires code < 16
    ensures 0 <= AHB_PRESC_TABLE[code] < 10
    ensures ShiftRight(x, AHB_PRESC_TABLE[code]) == x / AhbDivisor(code)
  {
    ShiftDivides(x, AHB_PRESC_TABLE[code]);
    assert Pow2(4) == 16 && Pow2(6) == 4 * Pow2(4) && Pow2(8) == 4 * Pow2(6) && Pow2(9) == 2 * Pow2(8);
  }

  lemma DividedRange(x: nat, code: nat)
    requires code < 16 && 8_000_000 <= x <= 144_000_000
    ensures 15_625 <= x / AhbDivisor(code) <= 144_000_000
  {}

  /**
   * The PLL branch: the sequence of remappings of the multiplier code, in which the steps 16 to 15 and
   * 17 to 16 must not feed each other, gives the multiplier the header defines. No product leaves 32 bits.
   */
  method DecodePll(v: Variant, fromHse: bool, halved: bool, code: nat) returns (clock: nat)
    requires code < 16
    ensures clock == PllClock(v, fromHse, halved, code)
    ensures 8_000_000 <= clock <= 144_000_000
  {
    var pllmull := code + 2;
    var pll65 := false;
    if v == D8 {
      if pllmull == 17 { pllmull := 18; }
    } else {
      if pllmull == 2 { pllmull := 18; }
      if pllmull == 15 {
        pllmull := 13;
        pll65 := true;
      }
      if pllmull == 16 { pllmull := 15; }
      if pllmull == 17 { pllmull := 16; }
    }
    if !fromHse {
      clock := HSI_VALUE / 2 * pllmull;
    } else if halved {
      clock := HSE_VALUE / 2 * pllmull;
    } else {
      clock := HSE_VALUE * pllmull;
    }
    assert clock < 0x1_0000_0000;
    if pll65 { clock := clock / 2; }
  }

  /** The last step: the shift by the table entry for the prescaler code. */
  method ApplyPrescaler(clock: nat, code: nat) returns (core: nat)
    requires code < 16 && 8_000_000 <= clock <= 144_000_000
    ensures core == clock / AhbDivisor(code)
    ensures 15_625 <= core <= 144_000_000
  {
    DividedRange(clock, code);
    AhbShift(clock, code);
    core := ShiftRight(clock, AHB_PRESC_TABLE[code]);
  }
}
