/** The clock code of User/system_ch32v30x.c, running beside the hardware. */
module Rcc {
  import opened BitWords
  import opened ClockDecode
  import opened RccHardware
  import opened SystemClock

  /** Every moment was safe, and every step to the next one careful. */
  ghost predicate SafeRun(log: seq<Regs>) {
    && (forall k :: 0 <= k < |log| ==> Safe(log[k]))
    && (forall k :: 0 < k < |log| ==> Careful(log[k - 1], log[k]))
  }

  lemma SafeRunExtends(log: seq<Regs>, r: Regs)
    requires |log| > 0 && SafeRun(log) && Safe(r) && Careful(log[|log| - 1], r)
    ensures SafeRun(log + [r])
  {}

  const HSE_STARTUP_TIMEOUT := 0x1000

  // ---- what the hardware's schedule decides ----

  ghost predicate PllAnswersAfter(hw: nat -> Hw, t: nat) {
    exists u: nat :: t <= u && hw(u).pll
  }

  ghost predicate SwitchesAfter(hw: nat -> Hw, t: nat) {
    exists u: nat :: t <= u && hw(u).switches
  }

  /** The assumption that ends the two waits the code does not bound: the hardware never stops working. */
  ghost predicate Progress(hw: nat -> Hw) {
    forall t: nat :: PllAnswersAfter(hw, t) && SwitchesAfter(hw, t)
  }

  /**
   * The crystal will be found ready by a routine that starts at tick `t` with the given flags: its flag is still up
   * when it is switched on, or it answers while the routine looks.
   */
  ghost predicate CrystalComes(hw: nat -> Hw, on: bool, flag: bool, t: nat) {
    FlagAfter(hw, on, flag, t, t + 2) || HseAnswers(hw, t + 2, t + HSE_STARTUP_TIMEOUT + 3)
  }

  /** The crystal will be found ready by a start-up at tick `t` from the given CTLR. */
  ghost predicate CrystalStarts(hw: nat -> Hw, v: Variant, c: Word, t: nat) {
    CrystalComes(hw, false, FlagSinceReset(hw, c, t, t + ResetTicks(v)), t + ResetTicks(v))
  }

  /**
   * In numbers: a crystal whose flag was down is found exactly if it answers at one of the 4097 ticks at which the
   * routine looks, from the 14th of the start-up, or the 12th on the shorter line; a flag that was up, or came up
   * before the reset had switched the crystal off, counts if no answer takes it down again.
   */
  lemma CrystalStartsIs(hw: nat -> Hw, v: Variant, c: Word, t: nat)
    ensures var first := t + if v == D8C then 14 else 12;
            CrystalStarts(hw, v, c, t) <==>
              || (exists u: nat :: first <= u < first + 4097 && hw(u).hse)
              || ((if c[16] then c[17] || exists u: nat :: t <= u < t + 6 && hw(u).hse
                   else c[17] && forall u: nat :: t <= u < t + 6 ==> !hw(u).hse)
                  && forall u: nat :: t + 6 <= u < first ==> !hw(u).hse)
  {
    AnswersSplit(hw, t + 6, t + ResetTicks(v), t + ResetTicks(v) + 2);
  }

  /** How long a routine that finds no crystal takes. */
  function FailTicks(target: Target): nat {
    if target.Hsi? then 0 else HSE_STARTUP_TIMEOUT + 3
  }

  /** The tick at which a start-up from tick `t` gives up. */
  function GivesUp(v: Variant, target: Target, t: nat): nat {
    t + ResetTicks(v) + FailTicks(target)
  }

  /** The status field at the first read that follows a failed start-up at tick `t`: the source the system runs on. */
  ghost function FailedSource(hw: nat -> Hw, v: Variant, target: Target, c: Word, t: nat): nat {
    SwsSinceReset(hw, c, t, GivesUp(v, target, t) + 1)
  }

  /** The clock that is read back then. */
  ghost function FailedClock(hw: nat -> Hw, v: Variant, target: Target, c: Word, t: nat): nat {
    CoreClock(v, ResetWord(v, c, FailedSource(hw, v, target, c, t)))
  }

  /** When the initial value of `SystemCoreClock` describes the clock although no new one was selected. */
  ghost predicate StaysRight(hw: nat -> Hw, v: Variant, target: Target, c: Word, t: nat) {
    if v == D8C && SwsSinceReset(hw, c, t, GivesUp(v, target, t)) == 2 then target == Pll(X9) else !target.Pll?
  }

  class Rcc {
    const variant: Variant
    const target: Target
    const hw: nat -> Hw

    var now: nat
    var ctlr: Word
    var cfgr0: Word
    var intr: Word
    var cfgr2: Word
    var systemCoreClock: nat
    ghost var log: seq<Regs>

    ghost function View(): Regs
      reads this`ctlr, this`cfgr0
    {
      Regs(ctlr, cfgr0)
    }

    /** The log ends with the present, and shows a safe run. */
    ghost predicate Sound()
      reads this`ctlr, this`cfgr0, this`log
    {
      |log| > 0 && log[|log| - 1] == View() && SafeRun(log)
    }

    constructor (variant: Variant, target: Target, hw: nat -> Hw, ctlr: Word, cfgr0: Word, intr: Word, cfgr2: Word)
      ensures this.variant == variant && this.target == target && this.hw == hw && now == 0
      ensures View() == Regs(ctlr, cfgr0) && this.intr == intr && this.cfgr2 == cfgr2
      ensures systemCoreClock == Frequency(target)
      ensures Sound() <==> Safe(View())
    {
      this.variant, this.target, this.hw, this.now := variant, target, hw, 0;
      this.ctlr, this.cfgr0, this.intr, this.cfgr2 := ctlr, cfgr0, intr, cfgr2;
      systemCoreClock := Frequency(target);
      log := [Regs(ctlr, cfgr0)];
    }

    // ---- register accesses ----

    /** One tick of the hardware. */
    method Tick()
      modifies this`now, this`ctlr, this`cfgr0, this`log
      ensures now == old(now) + 1
      ensures View() == Advance(hw(old(now)), old(View()))
      ensures Quiet(old(View()), View()) && Follows(hw, old(View()), old(now), View(), now)
      ensures old(Sound()) ==> Sound()
    {
      FollowsTick(hw, View(), now);
      AdvanceIsQuiet(hw(now), View());
      AdvanceIsSafe(hw(now), View());
      var r := Advance(hw(now), Regs(ctlr, cfgr0));
      ctlr, cfgr0, now := r.ctlr, r.cfgr0, now + 1;
      log := log + [r];
      if old(Sound()) { SafeRunExtends(old(log), r); }
    }

    /** The store to CTLR of a value computed from what was read at the moment `before`. */
    method StoreCtlr(stored: Word, ghost before: Regs, ghost value: Word)
      requires Quiet(before, View()) && SameCtlr(stored, value)
      modifies this`ctlr, this`log
      ensures SameCtlr(ctlr, value) && ctlr[HSERDY] == old(ctlr)[HSERDY] && Drifts(before, View())
      ensures old(Sound()) && Safe(before) && KeepsSources(before, value) ==> Sound()
    {
      StoreCtlrIsSafe(View(), stored);
      StoresDrift(before, View(), stored);
      ctlr := RccHardware.StoreCtlr(Regs(ctlr, cfgr0), stored).ctlr;
      log := log + [View()];
      if old(Sound()) && Safe(before) && KeepsSources(before, value) {
        LateStoreIsSafe(before, old(View()), value, stored);
        SafeRunExtends(old(log), View());
      }
    }

    /** The store to CFGR0 of a value computed from what was read at the moment `before`. */
    method StoreCfgr0(stored: Word, ghost before: Regs, ghost value: Word)
      requires Quiet(before, View()) && SameCfgr0(stored, value)
      modifies this`cfgr0, this`log
      ensures SameCfgr0(cfgr0, value) && Sws(cfgr0) == old(Sws(cfgr0)) && Drifts(before, View())
      ensures old(Sound()) && Safe(before) && SelectsRunning(before, value) ==> Sound()
    {
      StoreCfgr0IsSafe(View(), stored);
      StoresDrift(before, View(), stored);
      cfgr0 := RccHardware.StoreCfgr0(Regs(ctlr, cfgr0), stored).cfgr0;
      log := log + [View()];
      if old(Sound()) && Safe(before) && SelectsRunning(before, value) {
        LateStoreIsSafe(before, old(View()), value, stored);
        SafeRunExtends(old(log), View());
      }
    }

    /** Two ticks, with the registers as they read after the first. */
    method LoadAndTick() returns (w: Regs)
      modifies this`now, this`ctlr, this`cfgr0, this`log
      ensures now == old(now) + 2
      ensures Quiet(old(View()), w) && Quiet(old(View()), View()) && Follows(hw, old(View()), old(now), View(), now)
      ensures old(Sound()) ==> Sound() && Safe(old(View()))
    {
      Tick();
      w := Regs(ctlr, cfgr0);
      Tick();
      QuietTwice(old(View()), w, View());
      FollowsTwice(hw, old(View()), old(now), w, old(now) + 1, View(), now);
    }

    /** `RCC->CTLR |= bits` */
    method OrCtlr(bits: Word)
      modifies this`now, this`ctlr, this`cfgr0, this`log
      ensures now == old(now) + 2
      ensures SameCtlr(ctlr, Or(old(ctlr), bits)) && SameCfgr0(cfgr0, old(cfgr0))
      ensures Drifts(old(View()), View()) && Follows(hw, old(View()), old(now), View(), now)
      ensures old(Sound()) && KeepsSources(old(View()), Or(old(ctlr), bits)) ==> Sound()
    {
      var w := LoadAndTick();
      SameMasked(w.ctlr, old(ctlr), bits);
      StoreCtlr(Or(w.ctlr, bits), old(View()), Or(old(ctlr), bits));
    }

    /** `RCC->CTLR &= mask` */
    method AndCtlr(mask: Word)
      modifies this`now, this`ctlr, this`cfgr0, this`log
      ensures now == old(now) + 2
      ensures SameCtlr(ctlr, And(old(ctlr), mask)) && SameCfgr0(cfgr0, old(cfgr0))
      ensures Drifts(old(View()), View()) && Follows(hw, old(View()), old(now), View(), now)
      ensures old(Sound()) && KeepsSources(old(View()), And(old(ctlr), mask)) ==> Sound()
    {
      var w := LoadAndTick();
      SameMasked(w.ctlr, old(ctlr), mask);
      StoreCtlr(And(w.ctlr, mask), old(View()), And(old(ctlr), mask));
    }

    /** `RCC->CFGR0 |= bits` */
    method OrCfgr0(bits: Word)
      modifies this`now, this`ctlr, this`cfgr0, this`log
      ensures now == old(now) + 2
      ensures SameCtlr(ctlr, old(ctlr)) && SameCfgr0(cfgr0, Or(old(cfgr0), bits))
      ensures Drifts(old(View()), View()) && Follows(hw, old(View()), old(now), View(), now)
      ensures old(Sound()) && SelectsRunning(old(View()), Or(old(cfgr0), bits)) ==> Sound()
    {
      var w := LoadAndTick();
      SameMasked(w.cfgr0, old(cfgr0), bits);
      StoreCfgr0(Or(w.cfgr0, bits), old(View()), Or(old(cfgr0), bits));
    }

    /** `RCC->CFGR0 &= mask` */
    method AndCfgr0(mask: Word)
      modifies this`now, this`ctlr, this`cfgr0, this`log
      ensures now == old(now) + 2
      ensures SameCtlr(ctlr, old(ctlr)) && SameCfgr0(cfgr0, And(old(cfgr0), mask))
      ensures Drifts(old(View()), View()) && Follows(hw, old(View()), old(now), View(), now)
      ensures old(Sound()) && SelectsRunning(old(View()), And(old(cfgr0), mask)) ==> Sound()
    {
      var w := LoadAndTick();
      SameMasked(w.cfgr0, old(cfgr0), mask);
      StoreCfgr0(And(w.cfgr0, mask), old(View()), And(old(cfgr0), mask));
    }

    // ---- the waits ----

    /** One look at the registers in a loop that began at `start`. */
    method Poll(ghost start: Regs)
      requires Quiet(start, View())
      modifies this`now, this`ctlr, this`cfgr0, this`log
      ensures Quiet(start, View()) && now == old(now) + 1
      ensures start.ctlr[PLLON] && hw(old(now)).pll ==> ctlr[PLLRDY]
      ensures hw(old(now)).switches ==> Sws(cfgr0) == Sw(start.cfgr0)
      ensures old(Sound()) ==> Sound()
    {
      ghost var seen := View();
      AdvanceKeeps(hw(now), View());
      Tick();
      QuietTwice(start, seen, View());
    }

    /** The same, keeping exact account of the crystal's flag and of the switch. */
    method Watch(ghost start: Regs, ghost from: nat)
      requires Quiet(start, View()) && Follows(hw, start, from, View(), now)
      modifies this`now, this`ctlr, this`cfgr0, this`log
      ensures Quiet(start, View()) && Follows(hw, start, from, View(), now) && now == old(now) + 1
      ensures start.ctlr[HSEON] && old(ctlr)[HSERDY] ==> ctlr[HSERDY]
      ensures old(Sound()) ==> Sound()
    {
      ghost var seen := View();
      Tick();
      QuietTwice(start, seen, View());
      FollowsTwice(hw, start, from, seen, old(now), View(), now);
    }

    /**
     * The wait for the crystal, with its time-out, and the second look after it: at most 4097 reads, whatever the
     * hardware does, and success exactly when the flag was up or the crystal answered meanwhile.
     */
    method AwaitHse() returns (ready: bool)
      requires ctlr[16]
      modifies this`now, this`ctlr, this`cfgr0, this`log
      ensures Quiet(old(View()), View()) && Follows(hw, old(View()), old(now), View(), now)
      ensures now <= old(now) + 4097 && (!ready ==> now == old(now) + 4097)
      ensures ready <==> old(ctlr)[17] || exists u: nat :: old(now) <= u < old(now) + 4097 && hw(u).hse
      ensures ready == ctlr[17]
      ensures old(Sound()) ==> Sound()
    {
      ghost var start, from := View(), now;
      FollowsStart(hw, start, from);
      Watch(start, from);
      var startUpCounter := 1;
      var hseStatus := ctlr[HSERDY];
      while !hseStatus && startUpCounter != HSE_STARTUP_TIMEOUT
        invariant 1 <= startUpCounter <= HSE_STARTUP_TIMEOUT && now == from + startUpCounter
        invariant Quiet(start, View()) && Follows(hw, start, from, View(), now)
        invariant hseStatus == ctlr[HSERDY]
        invariant old(Sound()) ==> Sound()
        decreases HSE_STARTUP_TIMEOUT - startUpCounter
      {
        Watch(start, from);
        startUpCounter := startUpCounter + 1;
        hseStatus := ctlr[HSERDY];
      }
      Watch(start, from);
      ready := ctlr[HSERDY];
      AnswersSplit(hw, from, now, from + HSE_STARTUP_TIMEOUT + 1);
    }

    /** The wait for the PLL. */
    method AwaitPll()
      requires ctlr[PLLON] && Progress(hw)
      modifies this`now, this`ctlr, this`cfgr0, this`log
      ensures now > old(now)
      ensures Quiet(old(View()), View()) && ctlr[PLLRDY]
      ensures old(Sound()) ==> Sound()
    {
      assert PllAnswersAfter(hw, now);
      ghost var u: nat :| now <= u && hw(u).pll;
      ghost var start := View();
      Poll(start);
      while !ctlr[PLLRDY]
        invariant now <= u + 1 && (now == u + 1 ==> ctlr[PLLRDY])
        invariant Quiet(start, View())
        invariant old(Sound()) ==> Sound()
        decreases u + 1 - now
      {
        Poll(start);
      }
    }

    /** The wait for the switch to reach the selected source. */
    method AwaitSwitch(source: nat)
      requires Sw(cfgr0) == source && Progress(hw)
      modifies this`now, this`ctlr, this`cfgr0, this`log
      ensures now > old(now)
      ensures Quiet(old(View()), View()) && Sws(cfgr0) == source
      ensures old(Sound()) ==> Sound()
    {
      assert SwitchesAfter(hw, now);
      ghost var u: nat :| now <= u && hw(u).switches;
      ghost var start := View();
      Poll(start);
      while Sws(cfgr0) != source
        invariant now <= u + 1 && (now == u + 1 ==> Sws(cfgr0) == source)
        invariant Quiet(start, View())
        invariant old(Sound()) ==> Sound()
        decreases u + 1 - now
      {
        Poll(start);
      }
    }

    // ---- selecting a clock ----

    /** The start of every routine: switch the crystal on and wait for it. */
    method StartHse() returns (ready: bool)
      modifies this`now, this`ctlr, this`cfgr0, this`log
      ensures SameCtlr(ctlr, Or(old(ctlr), Mask(HSEON))) && SameCfgr0(cfgr0, old(cfgr0))
      ensures KeepsRunning(old(ctlr), ctlr)
      ensures Sws(cfgr0) == SwsAfter(hw, old(cfgr0), old(now), now)
      ensures ready == ctlr[HSERDY] == CrystalComes(hw, old(ctlr)[HSEON], old(ctlr)[HSERDY], old(now))
      ensures !ready ==> now == old(now) + HSE_STARTUP_TIMEOUT + 3
      ensures old(Sound()) ==> Sound()
    {
      OrCtlr(Mask(HSEON));
      ghost var t := now;
      ready := AwaitHse();
      AnswersSplit(hw, old(now), t, now);
    }

    /** A prescaler write whose constant is zero. */
    method AddNothing(ghost start: Regs)
      requires Quiet(start, View())
      modifies this`now, this`ctlr, this`cfgr0, this`log
      ensures now == old(now) + 2
      ensures Quiet(start, View())
      ensures old(Sound()) ==> Sound()
    {
      OrZero(cfgr0);
      if Sound() { OrSelects(View(), ZERO); }
      OrCfgr0(ZERO);
      QuietTwice(start, old(View()), View());
    }

    /** The three prescaler writes; two of them add nothing. */
    method SetPrescalers(t: Target)
      modifies this`now, this`ctlr, this`cfgr0, this`log
      ensures now == old(now) + 6
      ensures SameCtlr(ctlr, old(ctlr)) && KeepsRunning(old(ctlr), ctlr)
      ensures SameCfgr0(cfgr0, Or(old(cfgr0), SlowBus(t)))
      ensures old(Sound()) ==> Sound()
    {
      ghost var start := View();
      AddNothing(start);
      AddNothing(start);
      SameMasked(cfgr0, start.cfgr0, SlowBus(t));
      AddSlowBus(t);
    }

    method AddSlowBus(t: Target)
      modifies this`now, this`ctlr, this`cfgr0, this`log
      ensures now == old(now) + 2
      ensures SameCtlr(ctlr, old(ctlr)) && KeepsRunning(old(ctlr), ctlr)
      ensures SameCfgr0(cfgr0, Or(old(cfgr0), SlowBus(t)))
      ensures old(Sound()) ==> Sound()
    {
      if Sound() { OrSelects(View(), SlowBus(t)); }
      OrCfgr0(SlowBus(t));
    }

    /** Source, predivider and multiplier of the PLL, which is still off. */
    method ConfigurePll(m: Multiplier)
      modifies this`now, this`ctlr, this`cfgr0, this`log
      ensures SameCtlr(ctlr, old(ctlr)) && KeepsRunning(old(ctlr), ctlr)
      ensures HseTimes(variant, m, cfgr0)
      ensures forall k :: 0 <= k < 32 && k != 2 && k != 3 && !(16 <= k < 22) ==> cfgr0[k] == old(cfgr0)[k]
      ensures old(Sound()) && !old(ctlr)[PLLON] ==> Sound()
    {
      var cleared, config := Hex("FFC0FFFF"), Or(Mask(PLLSRC), Mull(variant, m));
      ClearedSw(cfgr0, variant, m);
      if old(Sound()) && !ctlr[PLLON] { ConfigureSelects(View(), And(cfgr0, cleared)); }
      AndCfgr0(cleared);
      SameMasked(cfgr0, And(old(cfgr0), cleared), config);
      ClearedSw(cfgr0, variant, m);
      if Sound() && !ctlr[PLLON] { ConfigureSelects(View(), Or(cfgr0, config)); }
      OrCfgr0(config);
      PllFields(variant, m, old(cfgr0), cfgr0);
    }

    /** Clear the switch, set it to the new source, and wait for the hardware to follow. */
    method Select(source: nat)
      requires (source == 1 || source == 2) && Progress(hw)
      modifies this`now, this`ctlr, this`cfgr0, this`log
      ensures now >= old(now) + 5
      ensures SameCtlr(ctlr, old(ctlr)) && KeepsRunning(old(ctlr), ctlr)
      ensures Sw(cfgr0) == Sws(cfgr0) == source
      ensures forall k :: 4 <= k < 32 ==> cfgr0[k] == old(cfgr0)[k]
      ensures old(Sound()) && Alive(old(View()), source) ==> Sound()
    {
      ClearSwitch();
      SetSwitch(source);
      AwaitSwitch(source);
    }

    method ClearSwitch()
      modifies this`now, this`ctlr, this`cfgr0, this`log
      ensures now == old(now) + 2
      ensures SameCtlr(ctlr, old(ctlr)) && KeepsRunning(old(ctlr), ctlr)
      ensures Sw(cfgr0) == 0 && forall k :: 4 <= k < 32 ==> cfgr0[k] == old(cfgr0)[k]
      ensures old(Sound()) ==> Sound()
    {
      SwitchBits(cfgr0, 1);
      if Sound() { SwitchSelects(View(), And(cfgr0, Hex("FFFFFFFC"))); }
      AndCfgr0(Hex("FFFFFFFC"));
    }

    method SetSwitch(source: nat)
      requires (source == 1 || source == 2) && Sw(cfgr0) == 0
      modifies this`now, this`ctlr, this`cfgr0, this`log
      ensures now == old(now) + 2
      ensures SameCtlr(ctlr, old(ctlr)) && KeepsRunning(old(ctlr), ctlr)
      ensures Sw(cfgr0) == source && forall k :: 4 <= k < 32 ==> cfgr0[k] == old(cfgr0)[k]
      ensures old(Sound()) && Alive(old(View()), source) ==> Sound()
    {
      SwitchBits(cfgr0, source);
      if Sound() && Alive(View(), source) { SwitchSelects(View(), Or(cfgr0, Mask(source - 1))); }
      OrCfgr0(Mask(source - 1));
    }

    /** The clock registers as the routines below need them to be safe: on HSI, with the PLL off. */
    ghost predicate OnHsi()
      reads this`ctlr, this`cfgr0
    {
      Sw(cfgr0) == 0 && Sws(cfgr0) == 0 && !ctlr[PLLON]
    }

    /** What the HSE routine does once the crystal is ready. */
    method UseHse()
      requires Progress(hw)
      modifies this`now, this`ctlr, this`cfgr0, this`log
      ensures now >= old(now) + 11
      ensures Configured(variant, Hse, old(cfgr0), cfgr0)
      ensures old(ctlr[16] && ctlr[17]) ==> ctlr[16] && ctlr[17]
      ensures old(Sound() && Running(ctlr, HSEON, HSERDY)) ==> Sound()
    {
      SetPrescalers(Hse);
      Select(1);
    }

    /** `SetSysClockToHSE` */
    method SetSysClockToHse() returns (ready: bool)
      requires Progress(hw)
      modifies this`now, this`ctlr, this`cfgr0, this`log
      ensures ready ==> Configured(variant, Hse, old(cfgr0), cfgr0) && ctlr[16] && ctlr[17]
      ensures !ready ==>
                && SameCfgr0(cfgr0, old(cfgr0)) && Sws(cfgr0) == SwsAfter(hw, old(cfgr0), old(now), now)
                && now == old(now) + HSE_STARTUP_TIMEOUT + 3
      ensures !ready && !old(ctlr)[PLLON] ==> OnlyHsi(ctlr)
      ensures ready <==> CrystalComes(hw, old(ctlr)[HSEON], old(ctlr)[HSERDY], old(now))
      ensures old(Sound() && OnHsi()) ==> Sound()
    {
      ready := StartHse();
      if ready {
        ghost var started := cfgr0;
        UseHse();
        ConfiguredFrom(variant, Hse, old(cfgr0), started, cfgr0);
      }
    }

    /** Switch the PLL on and wait for it. */
    method StartPll()
      requires Progress(hw)
      modifies this`now, this`ctlr, this`cfgr0, this`log
      ensures SameCtlr(ctlr, Or(old(ctlr), Mask(PLLON))) && KeepsRunning(old(ctlr), ctlr)
      ensures SameCfgr0(cfgr0, old(cfgr0)) && Running(ctlr, PLLON, PLLRDY)
      ensures old(Sound()) ==> Sound()
    {
      OrCtlr(Mask(PLLON));
      AwaitPll();
    }

    /** What the PLL routines do once the crystal is ready. */
    method UsePll(m: Multiplier)
      requires Progress(hw)
      modifies this`now, this`ctlr, this`cfgr0, this`log
      ensures Configured(variant, Pll(m), old(cfgr0), cfgr0)
      ensures ctlr[24] && ctlr[25] && (old(ctlr[16] && ctlr[17]) ==> ctlr[16] && ctlr[17])
      ensures old(Sound() && Running(ctlr, HSEON, HSERDY) && !ctlr[PLLON]) ==> Sound()
    {
      SetPrescalers(Pll(m));
      ghost var scaled := cfgr0;
      ConfigurePll(m);
      ghost var pll := cfgr0;
      StartPll();
      Select(2);
      ConfiguredBy(variant, m, old(cfgr0), scaled, pll, cfgr0);
    }

    /** `SetSysClockTo24` to `SetSysClockTo144`, which differ only in two constants. */
    method SetSysClockToPll(m: Multiplier) returns (ready: bool)
      requires Progress(hw)
      modifies this`now, this`ctlr, this`cfgr0, this`log
      ensures ready ==> Configured(variant, Pll(m), old(cfgr0), cfgr0)
      ensures ready ==> ctlr[16] && ctlr[17] && ctlr[24] && ctlr[25]
      ensures !ready ==>
                && SameCfgr0(cfgr0, old(cfgr0)) && Sws(cfgr0) == SwsAfter(hw, old(cfgr0), old(now), now)
                && now == old(now) + HSE_STARTUP_TIMEOUT + 3
      ensures !ready && !old(ctlr)[PLLON] ==> OnlyHsi(ctlr)
      ensures ready <==> CrystalComes(hw, old(ctlr)[HSEON], old(ctlr)[HSERDY], old(now))
      ensures old(Sound() && OnHsi()) ==> Sound()
    {
      ready := StartHse();
      if ready {
        ghost var started := cfgr0;
        UsePll(m);
        ConfiguredFrom(variant, Pll(m), old(cfgr0), started, cfgr0);
      }
    }

    /** `SetSysClock`: one routine or none, by the option. Without one, `ready` stays false. */
    method SetSysClock() returns (ready: bool)
      requires Progress(hw)
      modifies this`now, this`ctlr, this`cfgr0, this`log
      ensures ready ==> Configured(variant, target, old(cfgr0), cfgr0)
      ensures ready ==> ctlr[16] && ctlr[17] && (target.Pll? ==> ctlr[24] && ctlr[25])
      ensures !ready ==>
                && SameCfgr0(cfgr0, old(cfgr0)) && Sws(cfgr0) == SwsAfter(hw, old(cfgr0), old(now), now)
                && now == old(now) + FailTicks(target)
      ensures !ready && !old(ctlr)[PLLON] && !(target.Hsi? && old(ctlr)[HSEON]) ==> OnlyHsi(ctlr)
      ensures ready <==> !target.Hsi? && CrystalComes(hw, old(ctlr)[HSEON], old(ctlr)[HSERDY], old(now))
      ensures old(Sound() && OnHsi()) ==> Sound()
    {
      match target
      case Hsi => ready := false;
      case Hse => ready := SetSysClockToHse();
      case Pll(m) => ready := SetSysClockToPll(m);
    }

    // ---- start-up ----

    /** HSI drives the system and stays selected. */
    ghost predicate Idle()
      reads this`cfgr0
    {
      Sw(cfgr0) == 0 && Sws(cfgr0) == 0
    }

    /** `RCC->CTLR &= mask`, where the program's bits read as in `base`. */
    method MaskCtlr(mask: Word, ghost base: Word)
      requires mask[HSION] && SameCtlr(ctlr, base)
      modifies this`now, this`ctlr, this`cfgr0, this`log
      ensures now == old(now) + 2 && SameCfgr0(cfgr0, old(cfgr0)) && SameCtlr(ctlr, And(base, mask))
      ensures Follows(hw, old(View()), old(now), View(), now)
      ensures old(Idle()) ==> Idle() && (old(Sound()) ==> Sound())
    {
      SameMasked(ctlr, base, mask);
      AndCtlr(mask);
    }

    /** `RCC->CFGR0 &= mask`, where the program's bits read as in `base`. */
    method MaskCfgr0(mask: Word, ghost base: Word)
      requires SameCfgr0(cfgr0, base)
      modifies this`now, this`ctlr, this`cfgr0, this`log
      ensures now == old(now) + 2 && SameCtlr(ctlr, old(ctlr)) && SameCfgr0(cfgr0, And(base, mask))
      ensures Follows(hw, old(View()), old(now), View(), now)
      ensures old(Idle()) ==> Idle()
      ensures old(Sound() && Idle()) && ((forall k :: PLLSRC <= k < 22 ==> mask[k]) || !old(ctlr)[PLLON]) ==> Sound()
    {
      SameMasked(cfgr0, base, mask);
      AndCfgr0(mask);
    }

    /** The first two resets: HSI on, prescalers and switch cleared. */
    method SwitchToHsi(low: Word)
      requires !low[0] && !low[1] && forall k :: PLLSRC <= k < 22 ==> low[k]
      modifies this`now, this`ctlr, this`cfgr0, this`log
      ensures now == old(now) + 4
      ensures SameCtlr(ctlr, Or(old(ctlr), Mask(HSION))) && SameCfgr0(cfgr0, And(old(cfgr0), low))
      ensures Follows(hw, old(View()), old(now), View(), now) && Sw(cfgr0) == 0
      ensures old(Idle()) ==> Idle() && (old(Sound()) ==> Sound())
    {
      ghost var start, t := View(), now;
      OrCtlr(Mask(HSION));
      ghost var first := View();
      MaskCfgr0(low, start.cfgr0);
      FollowsTwice(hw, start, t, first, t + 2, View(), now);
    }

    /** The first three: then crystal and PLL off. */
    method SwitchOff(low: Word, off: Word)
      requires off[HSION] && !off[HSEON] && !off[PLLON]
      requires !low[0] && !low[1] && forall k :: PLLSRC <= k < 22 ==> low[k]
      modifies this`now, this`ctlr, this`cfgr0, this`log
      ensures now == old(now) + 6
      ensures SameCtlr(ctlr, And(Or(old(ctlr), Mask(HSION)), off)) && SameCfgr0(cfgr0, And(old(cfgr0), low))
      ensures SinceReset(hw, old(View()), old(now), View(), now)
      ensures old(Idle()) ==> Idle() && (old(Sound()) ==> Sound())
    {
      ghost var start, t := View(), now;
      SwitchToHsi(low);
      ghost var first := View();
      MaskCtlr(off, Or(start.ctlr, Mask(HSION)));
      SinceResetStarts(hw, start, t, first, View());
    }

    /** The resets that both device lines share: those, then the crystal's bypass and the PLL configuration. */
    method ResetStores(low: Word, off: Word, bypass: Word, pll: Word)
      requires off[HSION] && !off[HSEON] && !off[PLLON] && bypass[HSION]
      requires !low[0] && !low[1] && forall k :: PLLSRC <= k < 22 ==> low[k]
      modifies this`now, this`ctlr, this`cfgr0, this`log
      ensures now == old(now) + 10
      ensures SameCtlr(ctlr, And(And(Or(old(ctlr), Mask(HSION)), off), bypass))
      ensures SameCfgr0(cfgr0, And(And(old(cfgr0), low), pll))
      ensures SinceReset(hw, old(View()), old(now), View(), now)
      ensures old(Idle()) ==> Idle() && (old(Sound()) ==> Sound())
    {
      ghost var start, t := View(), now;
      SwitchOff(low, off);
      ghost var first := View();
      MaskCtlr(bypass, And(Or(start.ctlr, Mask(HSION)), off));
      ghost var second := View();
      SinceResetGoesOn(hw, start, t, first, t + 6, second, t + 8);
      MaskCfgr0(pll, And(start.cfgr0, low));
      SinceResetGoesOn(hw, start, t, second, t + 8, View(), now);
    }

    /** What those resets leave behind, bit by bit. */
    method ResetWith(low: Word, off: Word, bypass: Word, pll: Word)
      requires forall k :: 0 <= k < 32 ==> (low[k] <==> 16 <= k < 24 || k >= 28 || (k == 27 && variant == D8C))
      requires forall k :: 0 <= k < 32 ==> (off[k] <==> k != 16 && k != 19 && k != 24)
      requires forall k :: 0 <= k < 32 ==> (bypass[k] <==> k != 18)
      requires forall k :: 0 <= k < 32 ==> (pll[k] <==> k < 16 || 23 <= k)
      modifies this`now, this`ctlr, this`cfgr0, this`log
      ensures now == old(now) + 10
      ensures ResetCtlr(D8, old(ctlr), ctlr) && ResetCfgr0(variant, old(cfgr0), cfgr0)
      ensures SinceReset(hw, old(View()), old(now), View(), now)
      ensures old(Idle()) ==> Idle() && (old(Sound()) ==> Sound())
    {
      ResetStores(low, off, bypass, pll);
      ResetMasked(variant, old(ctlr), ctlr, old(cfgr0), cfgr0, low, off, bypass, pll);
    }

    /** The D8C part of the reset: the two extra PLLs off, and their configuration cleared. */
    method ResetExtra(extra: Word, ghost start: Regs, ghost t: nat)
      requires ResetCtlr(D8, start.ctlr, ctlr) && SinceReset(hw, start, t, View(), now)
      requires forall k :: 0 <= k < 32 ==> (extra[k] <==> k != 26 && k != 28)
      modifies this`now, this`ctlr, this`cfgr0, this`log, this`intr, this`cfgr2
      ensures now == old(now) + 2
      ensures ResetCtlr(D8C, start.ctlr, ctlr) && SameCfgr0(cfgr0, old(cfgr0))
      ensures intr == Hex("00FF0000") && cfgr2 == ZERO
      ensures SinceReset(hw, start, t, View(), now)
      ensures old(Idle()) ==> Idle() && (old(Sound()) ==> Sound())
    {
      MaskCtlr(extra, ctlr);
      SinceResetGoesOn(hw, start, t, old(View()), old(now), View(), now);
      intr := Hex("00FF0000");
      cfgr2 := ZERO;
    }

    /** The resets of `SystemInit`, before a clock is selected. */
    method ResetConfiguration()
      modifies this`now, this`ctlr, this`cfgr0, this`log, this`intr, this`cfgr2
      ensures now == old(now) + ResetTicks(variant)
      ensures ResetCtlr(variant, old(ctlr), ctlr) && ResetCfgr0(variant, old(cfgr0), cfgr0)
      ensures intr == Hex(if variant == D8C then "00FF0000" else "009F0000")
      ensures cfgr2 == if variant == D8C then ZERO else old(cfgr2)
      ensures SinceReset(hw, old(View()), old(now), View(), now)
      ensures old(Idle()) ==> Idle() && (old(Sound()) ==> Sound())
    {
      LowMaskBits(variant);
      MaskFEF6();
      MaskFFFB();
      MaskFF80();
      ResetWith(LowMask(variant), Hex("FEF6FFFF"), Hex("FFFBFFFF"), Hex("FF80FFFF"));
      if variant == D8C {
        MaskEBFF();
        ResetExtra(Hex("EBFFFFFF"), old(View()), old(now));
      } else {
        intr := Hex("009F0000");
      }
    }

    /** `SetSysClock` after a reset that began at tick `t` in state `start`. */
    method SelectClock(ghost start: Regs, ghost t: nat) returns (ready: bool)
      requires Progress(hw) && ResetCfgr0(variant, start.cfgr0, cfgr0) && SinceReset(hw, start, t, View(), now)
      requires now == t + ResetTicks(variant) && !ctlr[PLLON]
      modifies this`now, this`ctlr, this`cfgr0, this`log
      ensures ready <==> !target.Hsi? && CrystalStarts(hw, variant, start.ctlr, t)
      ensures ready ==> AsPromised(variant, target, cfgr0) && LowBitsOf(cfgr0, Settings(variant, target))
      ensures ready ==> ctlr[16] && ctlr[17] && (target.Pll? ==> ctlr[24] && ctlr[25])
      ensures !ready ==>
                && ResetCfgr0(variant, start.cfgr0, cfgr0) && now == GivesUp(variant, target, t)
                && Sws(cfgr0) == SwsSinceReset(hw, start.cfgr0, t, now)
                && CoreClock(variant, cfgr0) == (if variant == D8C && Sws(cfgr0) == 2 then 72_000_000 else HSI_VALUE)
                && OnlyHsi(ctlr)
      ensures CoreClock(variant, cfgr0) == Frequency(target) <==>
                ready || StaysRight(hw, variant, target, start.cfgr0, t)
      ensures old(Sound() && OnHsi()) ==> Sound()
    {
      ghost var before := cfgr0;
      ready := SetSysClock();
      Selected(variant, target, start.cfgr0, before, cfgr0, ready);
      if !ready { AnswersSplit(hw, t + 4, old(now), now); }
    }

    /**
     * `SystemInit`. It finds the crystal ready exactly as `CrystalStarts` says, and then gives the promised clock from
     * every initial register value. Otherwise it leaves the reset configuration, with the status field as the hardware
     * made it and no source but HSI alive. Starting on HSI, every moment on the way is safe. `SystemCoreClock` keeps
     * its initial value: that is right after a success, and otherwise for the options that promise what is decoded.
     */
    method SystemInit() returns (ready: bool)
      requires Progress(hw)
      modifies this`now, this`ctlr, this`cfgr0, this`log, this`intr, this`cfgr2
      ensures ready <==> !target.Hsi? && CrystalStarts(hw, variant, old(ctlr), old(now))
      ensures ready ==> AsPromised(variant, target, cfgr0) && LowBitsOf(cfgr0, Settings(variant, target))
      ensures ready ==> ctlr[16] && ctlr[17] && (target.Pll? ==> ctlr[24] && ctlr[25])
      ensures !ready ==>
                && ResetCfgr0(variant, old(cfgr0), cfgr0) && now == GivesUp(variant, target, old(now))
                && Sws(cfgr0) == SwsSinceReset(hw, old(cfgr0), old(now), now)
                && CoreClock(variant, cfgr0) == (if variant == D8C && Sws(cfgr0) == 2 then 72_000_000 else HSI_VALUE)
                && OnlyHsi(ctlr)
      ensures intr == Hex(if variant == D8C then "00FF0000" else "009F0000")
      ensures cfgr2 == if variant == D8C then ZERO else old(cfgr2)
      ensures old(Sound() && Idle()) ==> Sound()
      ensures systemCoreClock == Frequency(target) ==>
                (systemCoreClock == CoreClock(variant, cfgr0) <==>
                 ready || StaysRight(hw, variant, target, old(cfgr0), old(now)))
    {
      ResetConfiguration();
      ready := SelectClock(old(View()), old(now));
    }

    // ---- reading the clock back ----

    /** One more read of CFGR0: only its status field can differ from the first one. */
    method ReadCfgr0(ghost start: Regs) returns (c: Word)
      requires Quiet(start, View())
      modifies this`now, this`ctlr, this`cfgr0, this`log
      ensures now == old(now) + 1
      ensures Quiet(start, View()) && PllMull(c) == PllMull(start.cfgr0) && Hpre(c) == Hpre(start.cfgr0)
      ensures c[PLLSRC] == start.cfgr0[PLLSRC] && c[PLLXTPRE] == start.cfgr0[PLLXTPRE]
      ensures old(Sound()) ==> Sound()
    {
      Poll(start);
      SameFields(cfgr0, start.cfgr0);
      c := cfgr0;
    }

    /**
     * `SystemCoreClockUpdate`. The register is read two, four or five times while the hardware goes on; the result is
     * the clock that it described at the first of them.
     */
    method SystemCoreClockUpdate()
      modifies this`now, this`ctlr, this`cfgr0, this`log, this`systemCoreClock
      ensures var c := Advance(hw(old(now)), old(View())).cfgr0;
              now == old(now) + if Sws(c) != 2 then 2 else if c[PLLSRC] then 5 else 4
      ensures Quiet(old(View()), View())
      ensures systemCoreClock == CoreClock(variant, Advance(hw(old(now)), old(View())).cfgr0)
      ensures 15_625 <= systemCoreClock <= 144_000_000
      ensures old(Sound()) ==> Sound()
    {
      Tick();
      ghost var first := View();
      var clock := ReadSysClock(first);
      var c := ReadCfgr0(first);
      QuietTwice(old(View()), first, View());
      systemCoreClock := ApplyPrescaler(clock, Hpre(c));
    }

    /** The switch over the status field as first read. */
    method ReadSysClock(ghost first: Regs) returns (clock: nat)
      requires View() == first
      modifies this`now, this`ctlr, this`cfgr0, this`log
      ensures now == old(now) + if Sws(first.cfgr0) != 2 then 0 else if first.cfgr0[PLLSRC] then 3 else 2
      ensures Quiet(first, View())
      ensures clock == SysClock(variant, first.cfgr0) && 8_000_000 <= clock <= 144_000_000
      ensures old(Sound()) ==> Sound()
    {
      clock := HSI_VALUE;
      if Sws(cfgr0) == 1 {
        clock := HSE_VALUE;
      } else if Sws(cfgr0) == 2 {
        clock := ReadPllClock(first);
      }
    }

    /** The PLL case, with a read for each field. */
    method ReadPllClock(ghost first: Regs) returns (clock: nat)
      requires Quiet(first, View())
      modifies this`now, this`ctlr, this`cfgr0, this`log
      ensures now == old(now) + if first.cfgr0[PLLSRC] then 3 else 2
      ensures Quiet(first, View())
      ensures clock == PllClock(variant, first.cfgr0[PLLSRC], first.cfgr0[PLLXTPRE], PllMull(first.cfgr0))
      ensures 8_000_000 <= clock <= 144_000_000
      ensures old(Sound()) ==> Sound()
    {
      var c := ReadCfgr0(first);
      var code := PllMull(c);
      c := ReadCfgr0(first);
      var fromHse, halved := c[PLLSRC], false;
      if fromHse {
        c := ReadCfgr0(first);
        halved := c[PLLXTPRE];
      }
      clock := DecodePll(variant, fromHse, halved, code);
    }

    /**
     * Start-up, then reading the clock back. With the crystal ready: the promised frequency, from every initial value
     * of the registers. Without it: the clock decoded from what the reset left, which is 8 MHz whatever source drives
     * the system, except on a D8C part that still reports the PLL at the first read.
     */
    method StartUp() returns (ready: bool)
      requires Progress(hw)
      modifies this`now, this`ctlr, this`cfgr0, this`log, this`intr, this`cfgr2, this`systemCoreClock
      ensures ready <==> !target.Hsi? && CrystalStarts(hw, variant, old(ctlr), old(now))
      ensures ready ==> systemCoreClock == Frequency(target)
      ensures !ready ==> systemCoreClock == FailedClock(hw, variant, target, old(cfgr0), old(now))
      ensures !ready && (variant == D8 || old(Sw(cfgr0) != 2 && Sws(cfgr0) != 2)) ==> systemCoreClock == HSI_VALUE
      ensures old(Sound() && Idle()) ==> Sound()
    {
      ready := SystemInit();
      if ready {
        SettledClock(variant, hw(now), View());
      } else {
        SwsNextTick(hw, old(cfgr0), old(now), now);
        StillReset(variant, hw(now), old(cfgr0), View());
        FailedClockIs(hw, variant, target, old(cfgr0), old(now));
        SwsOrigin(hw, old(cfgr0), old(now), now + 1);
      }
      SystemCoreClockUpdate();
    }
  }

  // ---- where a start-up without a new clock ends ----

  /** The clock read back, in numbers. */
  lemma FailedClockIs(hw: nat -> Hw, v: Variant, target: Target, c: Word, t: nat)
    ensures FailedClock(hw, v, target, c, t) ==
            if v == D8C && FailedSource(hw, v, target, c, t) == 2 then 72_000_000 else HSI_VALUE
  {
    var sws := FailedSource(hw, v, target, c, t);
    var w := ResetWord(v, c, sws);
    assert Sws(w) == sws;
    ResetClears(v, c, w);
    ClearedOnly(v, w);
  }

  /** No new clock is selected: the option asks for none, or the crystal does not come. */
  ghost predicate NoNewClock(hw: nat -> Hw, v: Variant, target: Target, ctlr: Word) {
    Progress(hw) && (target.Hsi? || !CrystalStarts(hw, v, ctlr, 0))
  }

  /** Whatever the hardware does, a start-up without a new clock ends with HSI driving the system. */
  ghost predicate FailsToHsi(v: Variant, target: Target, ctlr: Word, cfgr0: Word) {
    forall hw: nat -> Hw :: NoNewClock(hw, v, target, ctlr) ==> FailedSource(hw, v, target, cfgr0, 0) == 0
  }

  /** Whatever the hardware does, such a start-up ends with the frequency of HSI read back. */
  ghost predicate ReadsBackHsi(v: Variant, target: Target, ctlr: Word, cfgr0: Word) {
    forall hw: nat -> Hw :: NoNewClock(hw, v, target, ctlr) ==> FailedClock(hw, v, target, cfgr0, 0) == HSI_VALUE
  }

  /** Hardware whose crystal does not answer in time, and which switches at tick 0 or not until then. */
  function LateHardware(first: bool): nat -> Hw {
    (u: nat) => Hw(true, u == 6 || u >= 5000, u >= 5000, (first && u == 0) || u >= 5000)
  }

  lemma LateFails(v: Variant, target: Target, ctlr: Word, cfgr0: Word, first: bool)
    ensures NoNewClock(LateHardware(first), v, target, ctlr)
    ensures forall u: nat :: 4 <= u < 5000 ==>
              SwsSinceReset(LateHardware(first), cfgr0, 0, u) == if first then Sw(cfgr0) else Sws(cfgr0)
  {
    var hw := LateHardware(first);
    forall t: nat
      ensures PllAnswersAfter(hw, t) && SwitchesAfter(hw, t)
    {
      var h := hw(t + 5000);
      assert h.pll && h.switches;
    }
    assert hw(6).hse;
    assert hw(0).switches <==> first;
  }

  /** Hardware whose crystal answers at one tick only. */
  function CrystalAt(tick: nat): nat -> Hw {
    (u: nat) => Hw(true, u == tick, true, true)
  }

  /**
   * A start-up with a crystal that answers once, after the reset has switched it off: it is found at any of the 4097
   * ticks at which the code looks, the last of them included, and missed one tick before and one tick later.
   */
  method FoundWhenLooking(v: Variant, target: Target, ctlr: Word, cfgr0: Word, tick: nat)
      returns (ready: bool, clock: nat)
    requires !target.Hsi? && !ctlr[17] && tick >= 6
    ensures var first := if v == D8C then 14 else 12; ready <==> first <= tick < first + 4097
    ensures ready ==> clock == Frequency(target)
  {
    var hw := CrystalAt(tick);
    var rcc := new Rcc(v, target, hw, ctlr, cfgr0, ZERO, ZERO);
    forall t: nat
      ensures PllAnswersAfter(hw, t) && SwitchesAfter(hw, t)
    {
      assert hw(t).pll && hw(t).switches;
    }
    CrystalStartsIs(hw, v, ctlr, 0);
    assert hw(tick).hse;
    ready := rcc.StartUp();
    clock := rcc.systemCoreClock;
  }

  /** With all registers clear, this board finds a crystal that first answers at tick 4110, and not one at 4111. */
  method LastRead() returns (last: bool, late: bool)
    ensures last && !late
  {
    var clock: nat;
    last, clock := FoundWhenLooking(D8C, Pll(X18), ZERO, ZERO, 4110);
    late, clock := FoundWhenLooking(D8C, Pll(X18), ZERO, ZERO, 4111);
  }

  /** HSI drives the system after every such start-up exactly if it did, and stayed selected, before. */
  lemma FailsToHsiExactly(v: Variant, target: Target, ctlr: Word, cfgr0: Word)
    ensures FailsToHsi(v, target, ctlr, cfgr0) <==> Sw(cfgr0) == 0 && Sws(cfgr0) == 0
  {
    LateFails(v, target, ctlr, cfgr0, true);
    LateFails(v, target, ctlr, cfgr0, false);
    forall hw: nat -> Hw {
      SwsOrigin(hw, cfgr0, 0, GivesUp(v, target, 0) + 1);
    }
  }

  /** Its frequency is read back on D8 parts, and where neither switch field showed the PLL; 8 MHz is also HSE's. */
  lemma ReadsBackHsiExactly(v: Variant, target: Target, ctlr: Word, cfgr0: Word)
    ensures ReadsBackHsi(v, target, ctlr, cfgr0) <==> v == D8 || (Sw(cfgr0) != 2 && Sws(cfgr0) != 2)
  {
    LateFails(v, target, ctlr, cfgr0, true);
    LateFails(v, target, ctlr, cfgr0, false);
    forall hw: nat -> Hw
      ensures FailedClock(hw, v, target, cfgr0, 0) ==
              if v == D8C && FailedSource(hw, v, target, cfgr0, 0) == 2 then 72_000_000 else HSI_VALUE
      ensures FailedSource(hw, v, target, cfgr0, 0) in {0, Sw(cfgr0), Sws(cfgr0)}
    {
      FailedClockIs(hw, v, target, cfgr0, 0);
      SwsOrigin(hw, cfgr0, 0, GivesUp(v, target, 0) + 1);
    }
  }

  /** `SystemInit` from any register not wholly on HSI, on such hardware: it leaves a source selected that is dead. */
  method FailsOnDeadSource(v: Variant, target: Target, ctlr: Word, cfgr0: Word) returns (ready: bool, after: Regs)
    requires Sw(cfgr0) != 0 || Sws(cfgr0) != 0
    ensures !ready && Sws(after.cfgr0) == (if Sw(cfgr0) != 0 then Sw(cfgr0) else Sws(cfgr0))
    ensures OnlyHsi(after.ctlr) && !Safe(after)
  {
    var first := Sw(cfgr0) != 0;
    var rcc := new Rcc(v, target, LateHardware(first), ctlr, cfgr0, ZERO, ZERO);
    LateFails(v, target, ctlr, cfgr0, first);
    ready := rcc.SystemInit();
    after := Regs(rcc.ctlr, rcc.cfgr0);
    if Safe(after) { OnlyHsiIsAlive(after, Sws(after.cfgr0)); }
  }

  /** The start-up of a D8C part that selects or reports the PLL: it fails, and reads back 72 MHz. */
  method FailsOnPll(target: Target, ctlr: Word, cfgr0: Word) returns (ready: bool, clock: nat)
    requires Sw(cfgr0) == 2 || Sws(cfgr0) == 2
    ensures !ready && clock == 72_000_000
  {
    var first := Sw(cfgr0) == 2;
    var rcc := new Rcc(D8C, target, LateHardware(first), ctlr, cfgr0, ZERO, ZERO);
    LateFails(D8C, target, ctlr, cfgr0, first);
    FailedClockIs(LateHardware(first), D8C, target, cfgr0, 0);
    ready := rcc.StartUp();
    clock := rcc.systemCoreClock;
  }

  /** A start on HSI without a crystal: `SystemCoreClock` keeps the option's frequency, the register says 8 MHz. */
  method StaleAfterFailure(v: Variant, m: Multiplier, ctlr: Word, cfgr0: Word) returns (variable: nat, clock: nat)
    requires Sw(cfgr0) == 0 && Sws(cfgr0) == 0
    ensures variable == Frequency(Pll(m)) && clock == HSI_VALUE && variable != clock
  {
    var rcc := new Rcc(v, Pll(m), LateHardware(false), ctlr, cfgr0, ZERO, ZERO);
    LateFails(v, Pll(m), ctlr, cfgr0, false);
    var ready := rcc.SystemInit();
    variable, clock := rcc.systemCoreClock, CoreClock(v, rcc.cfgr0);
  }
}
