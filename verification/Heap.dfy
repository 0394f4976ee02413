/** The program break (`_sbrk` in Debug/debug.c), with the wrap-around of 32-bit pointers. */
module Heap {

  const U32 := 0x1_0000_0000

  type Address = n: nat | n < U32

  /** `ptrdiff_t` */
  type Increment = n: int | -0x8000_0000 <= n < 0x8000_0000

  /** `NULL - 1` */
  const FAILED: Address := 0xFFFF_FFFF

  /** The heap lies between the linker symbols `_end` and `_heap_end`. */
  datatype Bounds = Bounds(end: Address, limit: Address)

  predicate Ordered(h: Bounds) {
    h.end <= h.limit
  }

  /** Smaller than half the address space. */
  predicate Small(h: Bounds) {
    h.limit - h.end < 0x8000_0000
  }

  predicate Within(h: Bounds, a: int) {
    h.end <= a <= h.limit
  }

  /** `p + incr` on 32-bit pointers. */
  function Moved(p: Address, incr: Increment): Address {
    (p + incr) % U32
  }

  /** The break after one call. */
  function Next(h: Bounds, brk: Address, incr: Increment): Address {
    if Within(h, Moved(brk, incr)) then Moved(brk, incr) else brk
  }

  /** A call is accepted when the exact sum stays in the heap. */
  predicate Fits(h: Bounds, brk: Address, incr: Increment) {
    Within(h, brk + incr)
  }

  /** The code tests the wrapped sum, and takes it for the exact one. */
  ghost predicate TestIsExact(h: Bounds) {
    forall brk: Address, incr: Increment :: Within(h, brk) ==> (Within(h, Moved(brk, incr)) <==> Fits(h, brk, incr))
  }

  lemma SmallIsExact(h: Bounds, brk: Address, incr: Increment)
    requires Within(h, brk) && Small(h)
    ensures Within(h, Moved(brk, incr)) <==> Fits(h, brk, incr)
    ensures Fits(h, brk, incr) ==> Moved(brk, incr) == brk + incr
  {}

  /** Stepping back gives the start of the block, wrapped or not. */
  lemma StepBack(brk: Address, incr: Increment)
    ensures (Moved(brk, incr) - incr) % U32 == brk
  {}

  /** That is right exactly for heaps smaller than half the address space. */
  lemma ExactForSmallHeaps(h: Bounds)
    requires Ordered(h)
    ensures TestIsExact(h) <==> Small(h)
  {
    if !Small(h) {
      assert Within(h, h.end) && Within(h, Moved(h.end, -0x8000_0000)) && !Fits(h, h.end, -0x8000_0000);
    }
  }

  // ---- runs ----

  /** The break after the first `n` calls. */
  function Brk(h: Bounds, calls: seq<Increment>, n: nat): Address
    requires n <= |calls|
  {
    if n == 0 then h.end else Next(h, Brk(h, calls, n - 1), calls[n - 1])
  }

  /** Call `i` was accepted and moved the break up from the start of a new block, or down. */
  predicate Accepted(h: Bounds, calls: seq<Increment>, i: nat)
    requires i < |calls|
  {
    Fits(h, Brk(h, calls, i), calls[i])
  }

  /** The sum of the accepted increments. */
  function Granted(h: Bounds, calls: seq<Increment>, n: nat): int
    requires n <= |calls|
  {
    if n == 0 then 0
    else Granted(h, calls, n - 1) + if Accepted(h, calls, n - 1) then calls[n - 1] else 0
  }

  lemma {:induction false} BrkStaysWithin(h: Bounds, calls: seq<Increment>, n: nat)
    requires Ordered(h) && n <= |calls|
    ensures Within(h, Brk(h, calls, n))
  {
    if n > 0 { BrkStaysWithin(h, calls, n - 1); }
  }

  /** One call: accepted and exact, or refused and without effect. */
  lemma OneCall(h: Bounds, calls: seq<Increment>, i: nat)
    requires Ordered(h) && Small(h) && i < |calls|
    ensures Brk(h, calls, i + 1) == Brk(h, calls, i) + if Accepted(h, calls, i) then calls[i] else 0
  {
    BrkStaysWithin(h, calls, i);
    SmallIsExact(h, Brk(h, calls, i), calls[i]);
  }

  /** The heap in use is exactly what was granted. */
  lemma {:induction false} BrkIsGranted(h: Bounds, calls: seq<Increment>, n: nat)
    requires Ordered(h) && Small(h) && n <= |calls|
    ensures Brk(h, calls, n) - h.end == Granted(h, calls, n)
  {
    if n > 0 {
      BrkIsGranted(h, calls, n - 1);
      OneCall(h, calls, n - 1);
    }
  }

  /** Call `i` granted a block that contains `a`. */
  predicate Grants(h: Bounds, calls: seq<Increment>, i: nat, a: int) {
    i < |calls| && Accepted(h, calls, i) && Brk(h, calls, i) <= a < Brk(h, calls, i) + calls[i]
  }

  /** Call `i` moved the break down over `a`. */
  predicate Releases(h: Bounds, calls: seq<Increment>, i: nat, a: int) {
    i < |calls| && Accepted(h, calls, i) && Brk(h, calls, i) + calls[i] <= a < Brk(h, calls, i)
  }

  /** A break that falls from above `a` to `a` or below is moved there by one call. */
  lemma {:induction false} Falls(h: Bounds, calls: seq<Increment>, i: nat, j: nat, a: int) returns (k: nat)
    requires Ordered(h) && Small(h) && i <= j <= |calls|
    requires Brk(h, calls, j) <= a < Brk(h, calls, i)
    ensures i <= k < j && Releases(h, calls, k, a)
  {
    OneCall(h, calls, j - 1);
    if Brk(h, calls, j - 1) <= a {
      k := Falls(h, calls, i, j - 1, a);
    } else {
      k := j - 1;
    }
  }

  /** Two blocks share an address only if a call between them released it. */
  lemma SharedOnlyIfReleased(h: Bounds, calls: seq<Increment>, i: nat, j: nat, a: int) returns (k: nat)
    requires Ordered(h) && Small(h) && i < j
    requires Grants(h, calls, i, a) && Grants(h, calls, j, a)
    ensures i < k < j && Releases(h, calls, k, a)
  {
    OneCall(h, calls, i);
    k := Falls(h, calls, i + 1, j, a);
  }

  /** Every address below the break lies in a block. */
  lemma {:induction false} Covered(h: Bounds, calls: seq<Increment>, n: nat, a: int) returns (i: nat)
    requires Ordered(h) && Small(h) && n <= |calls|
    requires h.end <= a < Brk(h, calls, n)
    ensures i < n && Grants(h, calls, i, a)
  {
    OneCall(h, calls, n - 1);
    if a < Brk(h, calls, n - 1) {
      i := Covered(h, calls, n - 1, a);
    } else {
      i := n - 1;
    }
  }

  lemma NothingReleased(h: Bounds, calls: seq<Increment>, a: int)
    requires forall c :: c in calls ==> c >= 0
    ensures forall k :: 0 <= k < |calls| ==> !Releases(h, calls, k, a)
  {
    forall k | 0 <= k < |calls|
      ensures calls[k] >= 0
    {
      assert calls[k] in calls;
    }
  }

  /** Without negative increments the granted blocks tile the heap in use: each address is in exactly one. */
  lemma GrantsTile(h: Bounds, calls: seq<Increment>, n: nat, a: int)
    requires Ordered(h) && Small(h) && n <= |calls|
    requires forall c :: c in calls ==> c >= 0
    ensures h.end <= a < Brk(h, calls, n) <==> exists i :: 0 <= i < n && Grants(h, calls, i, a)
    ensures forall i, j :: 0 <= i < j < n && Grants(h, calls, i, a) ==> !Grants(h, calls, j, a)
  {
    NothingReleased(h, calls, a);
    forall i, j | 0 <= i < j < n && Grants(h, calls, i, a)
      ensures !Grants(h, calls, j, a)
    {
      if Grants(h, calls, j, a) {
        var k := SharedOnlyIfReleased(h, calls, i, j, a);
        assert false;
      }
    }
    if h.end <= a < Brk(h, calls, n) {
      var i := Covered(h, calls, n, a);
    }
    forall i | 0 <= i < n && Grants(h, calls, i, a)
      ensures h.end <= a < Brk(h, calls, n)
    {
      BrkStaysWithin(h, calls, i);
      OneCall(h, calls, i);
      if Brk(h, calls, n) <= a {
        var k := Falls(h, calls, i + 1, n, a);
        assert false;
      }
    }
  }

  /** The allocator: one static variable. */
  class Heap {
    const bounds: Bounds
    var curbrk: Address
    ghost var calls: seq<Increment>

    /** The break is what the calls so far make it. */
    ghost predicate Valid()
      reads this
    {
      Ordered(bounds) && curbrk == Brk(bounds, calls, |calls|)
    }

    constructor (bounds: Bounds)
      requires Ordered(bounds)
      ensures Valid() && this.bounds == bounds && calls == []
    {
      this.bounds, curbrk, calls := bounds, bounds.end, [];
    }

    method Sbrk(incr: Increment) returns (r: Address)
      requires Valid()
      modifies this
      ensures Valid() && calls == old(calls) + [incr]
      ensures curbrk == Next(bounds, old(curbrk), incr)
      ensures r == if Within(bounds, Moved(old(curbrk), incr)) then old(curbrk) else FAILED
      ensures Small(bounds) ==>
                r == if Fits(bounds, old(curbrk), incr) then old(curbrk) else FAILED
      ensures var sum := (old(curbrk) + incr) % 0x1_0000_0000;
              var refused := sum < bounds.end || bounds.limit < sum;
              && (refused ==> r == 0xFFFF_FFFF && curbrk == old(curbrk))
              && (!refused ==> r == old(curbrk) && curbrk == sum && bounds.end <= r <= bounds.limit)
              && (bounds.limit < 0xFFFF_FFFF ==> (r == 0xFFFF_FFFF <==> refused))
    {
      BrkStaysWithin(bounds, calls, |calls|);
      if Small(bounds) { SmallIsExact(bounds, curbrk, incr); }
      StepBack(curbrk, incr);
      BrkOfPrefix(bounds, calls, [incr], |calls|);
      calls := calls + [incr];
      if Moved(curbrk, incr) < bounds.end || Moved(curbrk, incr) > bounds.limit {
        return FAILED;
      }
      curbrk := Moved(curbrk, incr);
      return (curbrk - incr) % U32;
    }
  }

  lemma {:induction false} BrkOfPrefix(h: Bounds, calls: seq<Increment>, more: seq<Increment>, n: nat)
    requires n <= |calls|
    ensures Brk(h, calls + more, n) == Brk(h, calls, n)
  {
    if n > 0 { BrkOfPrefix(h, calls, more, n - 1); }
  }
}
