/** The users of the decoded clock value: busy-wait delays (Debug/debug.c) and the system tick (rtthread/board.c). */
module ClockUsers {
  import opened BitWords
  import opened NvicWords

  const U8 := 0x100
  const U16 := 0x1_0000
  const U32 := 0x1_0000_0000

  const SYSTICK_IRQ: Irq := 12
  const SOFTWARE_IRQ: Irq := 14

  type Uint32 = n: nat | n < U32

  /** The clock values that `SystemCoreClockUpdate` can produce. */
  predicate Producible(clk: Uint32) {
    15_625 <= clk <= 144_000_000
  }

  /** The factors as `Delay_Init` stores them, cut to 8 and 16 bits. */
  function FactorUs(clk: Uint32): nat {
    clk / 8_000_000 % U8
  }

  function FactorMs(clk: Uint32): nat {
    FactorUs(clk) * 1000 % U16
  }

  /** The compare values the delays program. */
  function CompareUs(clk: Uint32, n: Uint32): Uint32 {
    n * FactorUs(clk) % U32
  }

  function CompareMs(clk: Uint32, n: Uint32): Uint32 {
    n * FactorMs(clk) % U32
  }

  /** The reload value of the tick for a number of clock cycles. */
  function Reload(ticks: Uint32): Uint32 {
    (ticks - 1) % U32
  }

  // ---- arithmetic ----

  lemma ModOfProduct(a: nat, b: nat)
    ensures a * b % U32 == a % U32 * b % U32
  {
    var q := a / U32;
    assert a * b == (a % U32) * b + (q * b) * U32 by {
      assert a == q * U32 + a % U32;
    }
    DropMultiples((a % U32) * b, q * b);
  }

  lemma DropMultiples(x: nat, k: nat)
    ensures (x + k * U32) % U32 == x % U32
  {}

  // ---- what the values mean ----

  /** No factor is cut exactly when the clock is below 528 MHz, as every clock of the decoder is. */
  lemma FactorsFit(clk: Uint32)
    ensures FactorMs(clk) == clk / 8_000_000 * 1000 && FactorUs(clk) == clk / 8_000_000 <==> clk < 528_000_000
    ensures Producible(clk) ==> FactorUs(clk) <= 18 && FactorMs(clk) <= 18_000
  {}

  /** A millisecond is a thousand microseconds, also when the 32-bit products wrap. */
  lemma MillisAreMicros(clk: Uint32, n: Uint32)
    requires clk < 528_000_000
    ensures CompareMs(clk, n) == CompareUs(clk, 1000 * n % U32)
  {
    FactorsFit(clk);
    var f := FactorUs(clk);
    ModOfProduct(1000 * n, f);
    assert n * (f * 1000) == 1000 * n * f;
  }

  /** While the product fits 32 bits, what a delay falls short by is what the division by 8 MHz loses. */
  lemma ShortfallIs(clk: Uint32, n: Uint32)
    requires clk < 528_000_000 && n * FactorMs(clk) < U32
    ensures 8000 * CompareMs(clk, n) == n * clk - n * (clk % 8_000_000)
  {
    ClockSplit(clk);
    CompareMsIs(clk, n);
    SplitProduct(n, FactorMs(clk), clk % 8_000_000, clk);
  }

  lemma CompareMsIs(clk: Uint32, n: Uint32)
    requires n * FactorMs(clk) < U32
    ensures CompareMs(clk, n) == n * FactorMs(clk)
  {
    SmallMod(n * FactorMs(clk));
  }

  lemma SmallMod(x: nat)
    requires x < U32
    ensures x % U32 == x
  {}

  lemma ClockSplit(clk: Uint32)
    requires clk < 528_000_000
    ensures clk == 8000 * FactorMs(clk) + clk % 8_000_000
  {
    FactorsFit(clk);
  }

  lemma SplitProduct(n: nat, f: nat, lost: nat, clk: nat)
    requires clk == 8000 * f + lost
    ensures 8000 * (n * f) == n * clk - n * lost
  {}

  /**
   * A delay never programs more counts, of eight clock cycles each, than it stands for; it falls short by less
   * than 1000 counts a millisecond, and not at all for a multiple of 8 MHz.
   */
  lemma Shortfall(clk: Uint32, n: Uint32)
    requires clk < 528_000_000 && n * FactorMs(clk) < U32
    ensures 0 <= n * clk - 8000 * CompareMs(clk, n)
    ensures n > 0 ==> n * clk - 8000 * CompareMs(clk, n) < 8000 * (1000 * n)
    ensures n * clk == 8000 * CompareMs(clk, n) <==> n == 0 || clk % 8_000_000 == 0
  {
    ShortfallIs(clk, n);
    MulBounds(n, clk % 8_000_000, 8_000_000);
  }

  lemma MulBounds(n: nat, x: nat, bound: nat)
    requires x < bound
    ensures 0 <= n * x
    ensures n > 0 ==> n * x < n * bound
    ensures n * x == 0 <==> n == 0 || x == 0
  {}

  /**
   * The reload does not underflow exactly from 1 kHz up; then a thousand periods miss a second by less than 1000
   * cycles.
   */
  lemma TickPeriod(clk: Uint32)
    ensures Reload(clk / 1000) + 1 == clk / 1000 <==> clk >= 1000
    ensures Producible(clk) ==> 14 <= Reload(clk / 1000) < 144_000
    ensures clk >= 1000 ==> 0 <= clk - 1000 * (Reload(clk / 1000) + 1) < 1000
  {}

  lemma TickControl()
    ensures forall k :: 0 <= k < 32 ==> (Hex("0000000F")[k] <==> k < 4)
  {}

  /** The core timer; when its count reaches the compare value is up to the hardware. */
  class SysTick {
    const reaches: nat -> bool

    var now: nat
    var ctlr: Word
    var sr: Word
    var cnt: nat
    var cmp: nat
    var pUs: nat
    var pMs: nat

    constructor (reaches: nat -> bool, ctlr: Word, sr: Word)
      ensures this.reaches == reaches && now == 0 && this.ctlr == ctlr && this.sr == sr
      ensures cnt == cmp == pUs == pMs == 0
    {
      this.reaches, now, this.ctlr, this.sr := reaches, 0, ctlr, sr;
      cnt, cmp, pUs, pMs := 0, 0, 0, 0;
    }

    ghost predicate Reaches() {
      forall t: nat :: ReachesAfter(t)
    }

    ghost predicate ReachesAfter(t: nat) {
      exists u: nat :: t <= u && reaches(u)
    }

    /** The factors in use are those of the clock value `clk`. */
    ghost predicate SetFor(clk: Uint32)
      reads this`pUs, this`pMs
    {
      pUs == FactorUs(clk) && pMs == FactorMs(clk)
    }

    method DelayInit(systemCoreClock: Uint32)
      modifies this`pUs, this`pMs
      ensures SetFor(systemCoreClock)
      ensures pUs == systemCoreClock / 8_000_000 % 256 && pMs == pUs * 1000 % 65_536
    {
      pUs := systemCoreClock / 8_000_000 % U8;
      pMs := pUs * 1000 % U16;
    }

    /** The first tick from `from` on at which the count is there was the one before `now`. */
    ghost predicate Waited(from: nat, now: nat) {
      from < now && reaches(now - 1) && forall t: nat :: from <= t < now - 1 ==> !reaches(t)
    }

    /** What the hardware does to the status flag in one tick: it needs a running timer. */
    method Tick()
      modifies this`now, this`sr
      ensures now == old(now) + 1
      ensures sr == if old(ctlr[0] && reaches(now)) then old(sr)[0 := true] else old(sr)
    {
      if ctlr[0] && reaches(now) { sr := sr[0 := true]; }
      now := now + 1;
    }

    /**
     * Both delays, with the product already formed: program, start, wait, stop. A flag left over from before does not
     * end the wait; it ends with the first tick at which the count is there.
     */
    method Wait(i: Uint32)
      requires Reaches()
      modifies this`now, this`ctlr, this`sr, this`cmp
      ensures cmp == i && sr == old(sr)[0 := true] && Waited(old(now), now)
      ensures !ctlr[0] && ctlr[4] && ctlr[5]
      ensures forall k :: 0 < k < 32 && k != 4 && k != 5 ==> ctlr[k] == old(ctlr)[k]
    {
      sr := AndNot(sr, Mask(0));
      cmp := i;
      ctlr := Or(ctlr, Or(Or(Mask(4), Mask(5)), Mask(0)));
      ghost var started := ctlr;
      assert ReachesAfter(now);
      ghost var u: nat :| now <= u && reaches(u);
      while !sr[0]
        invariant old(now) <= now <= u + 1 && (now == u + 1 ==> sr[0])
        invariant forall k :: 0 < k < 32 ==> sr[k] == old(sr)[k]
        invariant if sr[0] then Waited(old(now), now) else forall t: nat :: old(now) <= t < now ==> !reaches(t)
        invariant ctlr == started && ctlr[0] && cmp == i
        decreases u + 1 - now
      {
        Tick();
      }
      ctlr := AndNot(ctlr, Mask(0));
    }

    method DelayUs(n: Uint32, ghost clk: Uint32)
      requires SetFor(clk) && Reaches()
      modifies this`now, this`ctlr, this`sr, this`cmp
      ensures SetFor(clk) && cmp == CompareUs(clk, n) == n * pUs % 0x1_0000_0000
      ensures sr == old(sr)[0 := true] && Waited(old(now), now)
      ensures !ctlr[0] && ctlr[4] && ctlr[5]
      ensures forall k :: 0 < k < 32 && k != 4 && k != 5 ==> ctlr[k] == old(ctlr)[k]
    {
      Wait(n * pUs % U32);
    }

    method DelayMs(n: Uint32, ghost clk: Uint32)
      requires SetFor(clk) && Reaches()
      modifies this`now, this`ctlr, this`sr, this`cmp
      ensures SetFor(clk) && cmp == CompareMs(clk, n) == n * pMs % 0x1_0000_0000
      ensures sr == old(sr)[0 := true] && Waited(old(now), now)
      ensures !ctlr[0] && ctlr[4] && ctlr[5]
      ensures forall k :: 0 < k < 32 && k != 4 && k != 5 ==> ctlr[k] == old(ctlr)[k]
    {
      Wait(n * pMs % U32);
    }

    /** `_SysTick_Config` */
    method SysTickConfig(nvic: Nvic, ticks: Uint32)
      requires nvic.Valid()
      modifies this`ctlr, this`sr, this`cnt, this`cmp, nvic.isr, nvic.iprior
      ensures nvic.Valid() && nvic.Enabled() == old(nvic.Enabled()) + {12, 14}
      ensures nvic.iprior[..] == old(nvic.iprior[..])[12 := 0xF0][14 := 0xF0]
      ensures (forall k :: 0 <= k < 32 ==> (ctlr[k] <==> k < 4)) && sr == ZERO && cnt == 0
      ensures cmp == Reload(ticks) && (ticks > 0 ==> cmp == ticks - 1) && (ticks == 0 ==> cmp == 0xFFFF_FFFF)
    {
      TickControl();
      EnableIrqs(nvic);
      ctlr := ZERO;
      sr := ZERO;
      cnt := 0;
      cmp := (ticks - 1) % U32;
      ctlr := Hex("0000000F");
    }

    /** The four calls with which it begins. */
    method EnableIrqs(nvic: Nvic)
      requires nvic.Valid()
      modifies nvic.isr, nvic.iprior
      ensures nvic.Valid() && nvic.Enabled() == old(nvic.Enabled()) + {12, 14}
      ensures nvic.iprior[..] == old(nvic.iprior[..])[12 := 0xF0][14 := 0xF0]
    {
      nvic.SetPriority(SYSTICK_IRQ, 0xF0);
      nvic.SetPriority(SOFTWARE_IRQ, 0xF0);
      nvic.EnableIRQ(SYSTICK_IRQ);
      nvic.EnableIRQ(SOFTWARE_IRQ);
    }
  }
}
