/**
 * The clock registers RCC_CTLR and RCC_CFGR0 and the hardware that shares them with the program.
 *
 * Ready flags and the status field SWS belong to the hardware; a store leaves them alone. Every register access
 * gives the hardware one tick before it, and what the hardware does in a tick is chosen freely: a source that is
 * switched on becomes ready in any tick it likes and then stays ready, a source switched off loses its flag in any
 * later tick, and SWS follows SW in any tick it likes, even towards a source that is not running.
 */
module RccHardware {
  import opened BitWords
  import opened ClockDecode

  // Bits of CTLR.
  const HSION := 0
  const HSIRDY := 1
  const HSEON := 16
  const HSERDY := 17
  const PLLON := 24
  const PLLRDY := 25

  /** What the hardware does in one tick: which sources answer, and whether the switch moves. */
  datatype Hw = Hw(hsi: bool, hse: bool, pll: bool, switches: bool)

  datatype Regs = Regs(ctlr: Word, cfgr0: Word)

  function Flag(ctlr: Word, on: nat, ready: nat, answers: bool): Word
    requires on < 32 && ready < 32
  {
    if answers then ctlr[ready := ctlr[on]] else ctlr
  }

  function Advance(h: Hw, r: Regs): Regs {
    Regs(Flag(Flag(Flag(r.ctlr, HSION, HSIRDY, h.hsi), HSEON, HSERDY, h.hse), PLLON, PLLRDY, h.pll),
         if h.switches then r.cfgr0[2 := r.cfgr0[0]][3 := r.cfgr0[1]] else r.cfgr0)
  }

  /** Stores: the bits the hardware owns keep their value. */
  function StoreCtlr(r: Regs, value: Word): Regs {
    r.(ctlr := value[HSIRDY := r.ctlr[HSIRDY]][HSERDY := r.ctlr[HSERDY]][PLLRDY := r.ctlr[PLLRDY]])
  }

  function StoreCfgr0(r: Regs, value: Word): Regs {
    r.(cfgr0 := value[2 := r.cfgr0[2]][3 := r.cfgr0[3]])
  }

  /** When all sources answer, bits 1, 17 and 25 show which of 0, 16 and 24 are on; the status follows the switch. */
  lemma AllAnswer(r: Regs)
    ensures var after := Advance(Hw(true, true, true, true), r);
            && after.ctlr[1] == r.ctlr[0] && after.ctlr[17] == r.ctlr[16] && after.ctlr[25] == r.ctlr[24]
            && (forall k :: 0 <= k < 32 && k != 1 && k != 17 && k != 25 ==> after.ctlr[k] == r.ctlr[k])
            && after.cfgr0[2] == r.cfgr0[0] && after.cfgr0[3] == r.cfgr0[1]
            && forall k :: 0 <= k < 32 && k != 2 && k != 3 ==> after.cfgr0[k] == r.cfgr0[k]
  {}

  // ---- what must hold at every step ----

  predicate Running(ctlr: Word, on: nat, ready: nat)
    requires on < 32 && ready < 32
  {
    ctlr[on] && ctlr[ready]
  }

  /** The source with selector `s` is on and ready, and so is what it is derived from; HSI always is. */
  predicate Alive(r: Regs, s: nat) {
    && Running(r.ctlr, HSION, HSIRDY)
    && (s == 1 ==> Running(r.ctlr, HSEON, HSERDY))
    && (s == 2 ==> Running(r.ctlr, PLLON, PLLRDY) && (r.cfgr0[PLLSRC] ==> Running(r.ctlr, HSEON, HSERDY)))
    && s != 3
  }

  /** The source that drives the system clock is on and ready, and so is the one that the switch will move to. */
  predicate Safe(r: Regs) {
    Alive(r, Sws(r.cfgr0)) && Alive(r, Sw(r.cfgr0))
  }

  /** Neither the crystal nor the PLL could drive the system. */
  predicate OnlyHsi(ctlr: Word) {
    !Running(ctlr, HSEON, HSERDY) && !ctlr[PLLON]
  }

  lemma OnlyHsiIsAlive(r: Regs, s: nat)
    requires OnlyHsi(r.ctlr) && Alive(r, s) && s < 4
    ensures s == 0
  {}

  /** From one moment to the next: the PLL is reconfigured only while off, and a source selected only once ready. */
  predicate Careful(before: Regs, after: Regs) {
    && ((exists k :: PLLSRC <= k < 22 && before.cfgr0[k] != after.cfgr0[k]) ==> !before.ctlr[PLLON])
    && (Sw(before.cfgr0) != 2 && Sw(after.cfgr0) == 2 ==> before.ctlr[PLLRDY])
    && (Sw(before.cfgr0) != 1 && Sw(after.cfgr0) == 1 ==> before.ctlr[HSERDY])
  }

  // ---- one tick and one store ----

  /** Equal in the bits that belong to the program. */
  ghost predicate SameCtlr(v: Word, w: Word) {
    forall k :: 0 <= k < 32 && k != HSIRDY && k != HSERDY && k != PLLRDY ==> v[k] == w[k]
  }

  ghost predicate SameCfgr0(v: Word, w: Word) {
    forall k :: 0 <= k < 32 && k != 2 && k != 3 ==> v[k] == w[k]
  }

  /** Whatever was running keeps running, as long as it is on. */
  predicate KeepsRunning(before: Word, after: Word) {
    && (Running(before, HSION, HSIRDY) && after[HSION] ==> after[HSIRDY])
    && (Running(before, HSEON, HSERDY) && after[HSEON] ==> after[HSERDY])
    && (Running(before, PLLON, PLLRDY) && after[PLLON] ==> after[PLLRDY])
  }

  lemma AdvanceKeeps(h: Hw, r: Regs)
    ensures SameCtlr(Advance(h, r).ctlr, r.ctlr) && SameCfgr0(Advance(h, r).cfgr0, r.cfgr0)
    ensures KeepsRunning(r.ctlr, Advance(h, r).ctlr)
    ensures Sws(Advance(h, r).cfgr0) == if h.switches then Sw(r.cfgr0) else Sws(r.cfgr0)
  {}

  lemma AdvanceIsSafe(h: Hw, r: Regs)
    ensures Safe(r) ==> Safe(Advance(h, r))
    ensures Careful(r, Advance(h, r))
  {}

  /** A store to CTLR that leaves every source in use switched on. */
  predicate KeepsSources(r: Regs, value: Word) {
    && value[HSION]
    && (value[HSEON] || !r.ctlr[HSEON] || (Sw(r.cfgr0) == 0 && Sws(r.cfgr0) == 0))
    && (value[PLLON] || (Sw(r.cfgr0) != 2 && Sws(r.cfgr0) != 2))
  }

  lemma StoreCtlrIsSafe(r: Regs, value: Word)
    ensures SameCtlr(StoreCtlr(r, value).ctlr, value)
    ensures KeepsRunning(r.ctlr, StoreCtlr(r, value).ctlr)
    ensures Careful(r, StoreCtlr(r, value))
    ensures Safe(r) && KeepsSources(r, value) ==> Safe(StoreCtlr(r, value))
  {}

  /** A store to CFGR0 that reconfigures the PLL only while it is off, and selects only a running source. */
  predicate SelectsRunning(r: Regs, value: Word) {
    && (r.ctlr[PLLON] ==> forall k :: PLLSRC <= k < 22 ==> value[k] == r.cfgr0[k])
    && (Sw(value) == Sw(r.cfgr0) || Alive(r.(cfgr0 := value), Sw(value)))
  }

  lemma StoreCfgr0IsSafe(r: Regs, value: Word)
    ensures SameCfgr0(StoreCfgr0(r, value).cfgr0, value)
    ensures Sws(StoreCfgr0(r, value).cfgr0) == Sws(r.cfgr0)
    ensures Safe(r) && SelectsRunning(r, value) ==> Safe(StoreCfgr0(r, value)) && Careful(r, StoreCfgr0(r, value))
  {}

  lemma SameFields(v: Word, w: Word)
    requires SameCfgr0(v, w)
    ensures PllMull(v) == PllMull(w) && Hpre(v) == Hpre(w)
    ensures v[PLLSRC] == w[PLLSRC] && v[PLLXTPRE] == w[PLLXTPRE]
  {}

  // ---- several ticks ----

  /** What the hardware may do on its own: the switch stays or follows, and running sources go on running. */
  ghost predicate Drifts(before: Regs, after: Regs) {
    && KeepsRunning(before.ctlr, after.ctlr)
    && (Sws(after.cfgr0) == Sws(before.cfgr0) || Sws(after.cfgr0) == Sw(before.cfgr0))
  }

  /** What any number of ticks without a store leaves as it was. */
  ghost predicate Quiet(before: Regs, after: Regs) {
    SameCtlr(after.ctlr, before.ctlr) && SameCfgr0(after.cfgr0, before.cfgr0) && Drifts(before, after)
  }

  lemma AdvanceIsQuiet(h: Hw, r: Regs)
    ensures Quiet(r, Advance(h, r))
  {}

  lemma QuietTwice(a: Regs, b: Regs, c: Regs)
    requires Quiet(a, b) && Quiet(b, c)
    ensures Quiet(a, c)
  {}

  /** A store after some ticks: the flags and the status are the hardware's. */
  lemma StoresDrift(before: Regs, after: Regs, value: Word)
    requires Quiet(before, after)
    ensures Drifts(before, StoreCfgr0(after, value))
    ensures Drifts(before, StoreCtlr(after, value))
  {}

  /** Ticks between load and store do not make a store unsafe, and neither does a stale copy of a hardware bit. */
  lemma LateStoreIsSafe(before: Regs, after: Regs, value: Word, stored: Word)
    requires Quiet(before, after) && Safe(before)
    ensures KeepsSources(before, value) && SameCtlr(stored, value) ==> KeepsSources(after, stored)
    ensures SelectsRunning(before, value) && SameCfgr0(stored, value) ==> SelectsRunning(after, stored)
  {}

  lemma SameMasked(v: Word, w: Word, m: Word)
    ensures SameCtlr(v, w) ==> SameCtlr(Or(v, m), Or(w, m)) && SameCtlr(And(v, m), And(w, m))
    ensures SameCfgr0(v, w) ==> SameCfgr0(Or(v, m), Or(w, m)) && SameCfgr0(And(v, m), And(w, m))
  {}

  /** Setting bits outside the switch and the PLL configuration is always safe. */
  lemma OrSelects(r: Regs, bits: Word)
    requires Safe(r) && !bits[0] && !bits[1] && (forall k :: PLLSRC <= k < 22 ==> !bits[k])
    ensures SelectsRunning(r, Or(r.cfgr0, bits))
  {}

  /** So is any store while the PLL is off that leaves the switch alone. */
  lemma ConfigureSelects(r: Regs, value: Word)
    requires Safe(r) && !r.ctlr[PLLON] && Sw(value) == Sw(r.cfgr0)
    ensures SelectsRunning(r, value)
  {}

  /** So is a store that only moves the switch to a running source. */
  lemma SwitchSelects(r: Regs, value: Word)
    requires Safe(r) && Alive(r, Sw(value)) && (forall k :: 4 <= k < 32 ==> value[k] == r.cfgr0[k])
    ensures SelectsRunning(r, value)
  {}

  // ---- the flag and the switch, tick by tick ----

  /** The crystal answers at some tick from `from` up to `to`. */
  ghost predicate HseAnswers(hw: nat -> Hw, from: nat, to: nat) {
    exists u: nat :: from <= u < to && hw(u).hse
  }

  /** The switch moves at some tick from `from` up to `to`. */
  ghost predicate Switches(hw: nat -> Hw, from: nat, to: nat) {
    exists u: nat :: from <= u < to && hw(u).switches
  }

  /** The crystal's flag after those ticks, with the crystal on or off throughout. */
  ghost predicate FlagAfter(hw: nat -> Hw, on: bool, flag: bool, from: nat, to: nat) {
    if on then flag || HseAnswers(hw, from, to) else flag && !HseAnswers(hw, from, to)
  }

  /** The status field after those ticks, with the same selection throughout. */
  ghost function SwsAfter(hw: nat -> Hw, c: Word, from: nat, to: nat): nat {
    if Switches(hw, from, to) then Sw(c) else Sws(c)
  }

  /** Flag and status are exactly what the hardware made of them from tick `from` up to `to`. */
  ghost predicate Follows(hw: nat -> Hw, before: Regs, from: nat, after: Regs, to: nat) {
    && from <= to
    && after.ctlr[HSERDY] == FlagAfter(hw, before.ctlr[HSEON], before.ctlr[HSERDY], from, to)
    && Sws(after.cfgr0) == SwsAfter(hw, before.cfgr0, from, to)
  }

  lemma AnswersSplit(hw: nat -> Hw, i: nat, j: nat, k: nat)
    requires i <= j <= k
    ensures HseAnswers(hw, i, k) <==> HseAnswers(hw, i, j) || HseAnswers(hw, j, k)
    ensures Switches(hw, i, k) <==> Switches(hw, i, j) || Switches(hw, j, k)
  {}

  lemma FollowsStart(hw: nat -> Hw, r: Regs, i: nat)
    ensures Follows(hw, r, i, r, i)
  {}

  lemma FollowsTick(hw: nat -> Hw, r: Regs, i: nat)
    ensures Follows(hw, r, i, Advance(hw(i), r), i + 1)
  {}

  lemma FollowsTwice(hw: nat -> Hw, a: Regs, i: nat, b: Regs, j: nat, c: Regs, k: nat)
    requires Follows(hw, a, i, b, j) && Follows(hw, b, j, c, k)
    requires b.ctlr[HSEON] == a.ctlr[HSEON] && Sw(b.cfgr0) == Sw(a.cfgr0)
    ensures Follows(hw, a, i, c, k)
  {
    AnswersSplit(hw, i, j, k);
  }

  /**
   * Flag and status at tick `now`, after a reset that began at tick `t` in state `before`: it clears the selection
   * four ticks later and switches the crystal off after two more.
   */
  ghost predicate SinceReset(hw: nat -> Hw, before: Regs, t: nat, after: Regs, now: nat) {
    && t + 6 <= now && !after.ctlr[HSEON] && Sw(after.cfgr0) == 0
    && after.ctlr[HSERDY] == FlagSinceReset(hw, before.ctlr, t, now)
    && Sws(after.cfgr0) == SwsSinceReset(hw, before.cfgr0, t, now)
  }

  ghost predicate FlagSinceReset(hw: nat -> Hw, c: Word, t: nat, now: nat) {
    FlagAfter(hw, false, FlagAfter(hw, c[HSEON], c[HSERDY], t, t + 6), t + 6, now)
  }

  ghost function SwsSinceReset(hw: nat -> Hw, c: Word, t: nat, now: nat): nat {
    if Switches(hw, t + 4, now) then 0 else SwsAfter(hw, c, t, t + 4)
  }

  lemma SinceResetStarts(hw: nat -> Hw, before: Regs, t: nat, a: Regs, b: Regs)
    requires Follows(hw, before, t, a, t + 4) && Follows(hw, a, t + 4, b, t + 6)
    requires a.ctlr[HSEON] == before.ctlr[HSEON] && Sw(a.cfgr0) == Sw(b.cfgr0) == 0 && !b.ctlr[HSEON]
    ensures SinceReset(hw, before, t, b, t + 6)
  {
    AnswersSplit(hw, t, t + 4, t + 6);
    assert !HseAnswers(hw, t + 6, t + 6);
  }

  lemma SinceResetGoesOn(hw: nat -> Hw, before: Regs, t: nat, a: Regs, j: nat, b: Regs, k: nat)
    requires SinceReset(hw, before, t, a, j) && Follows(hw, a, j, b, k) && !b.ctlr[HSEON] && Sw(b.cfgr0) == 0
    ensures SinceReset(hw, before, t, b, k)
  {
    AnswersSplit(hw, t + 6, j, k);
    AnswersSplit(hw, t + 4, j, k);
  }

  lemma SwsNextTick(hw: nat -> Hw, c: Word, t: nat, now: nat)
    requires t + 4 <= now
    ensures SwsSinceReset(hw, c, t, now + 1) == if hw(now).switches then 0 else SwsSinceReset(hw, c, t, now)
  {
    AnswersSplit(hw, t + 4, now, now + 1);
  }

  /** Where the status field comes from: what the switch was asked for, or where it stood, or the reset. */
  lemma SwsOrigin(hw: nat -> Hw, c: Word, t: nat, now: nat)
    ensures SwsSinceReset(hw, c, t, now) in {0, Sw(c), Sws(c)}
  {}
}
