/**
 * The interrupt controller's enable and pending registers (Core/core_riscv.h): eight words for
 * 256 IRQ numbers, changed through write-1-to-set and write-1-to-clear ports.
 */
module NvicWords {
  import opened BitWords
  import opened History

  const NONE := [ZERO, ZERO, ZERO, ZERO, ZERO, ZERO, ZERO, ZERO]

  type Words = w: seq<Word> | |w| == 8 witness NONE

  type Irq = n: nat | n < 256

  /** The bit of an IRQ: word `irq >> 5`, bit `irq & 0x1F`. */
  predicate On(w: Words, irq: Irq) {
    w[irq / 32][irq % 32]
  }

  /** What a write of `value` to a write-1-to-set port does to the status word behind it. */
  function WriteSet(w: Words, k: nat, value: Word): Words
    requires k < 8
  {
    w[k := Or(w[k], value)]
  }

  /** What a write of `value` to a write-1-to-clear port does to the status word behind it. */
  function WriteClear(w: Words, k: nat, value: Word): Words
    requires k < 8
  {
    w[k := AndNot(w[k], value)]
  }

  /** The set of IRQ numbers the eight words stand for. */
  ghost function Members(w: Words): set<Irq> {
    set n: Irq | n < 256 && On(w, n)
  }

  /** A set write adds one IRQ number to the set and leaves the other 255 alone. */
  lemma WriteSetAdds(w: Words, irq: Irq)
    ensures Members(WriteSet(w, irq / 32, Mask(irq % 32))) == Members(w) + {irq}
  {}

  /** A clear write removes one IRQ number from the set and leaves the other 255 alone. */
  lemma WriteClearRemoves(w: Words, irq: Irq)
    ensures Members(WriteClear(w, irq / 32, Mask(irq % 32))) == Members(w) - {irq}
  {}

  lemma NoneIsEmpty()
    ensures Members(NONE) == {}
  {
    forall n: Irq
      ensures !On(NONE, n)
    {
      assert NONE[n / 32] == ZERO;
      ZeroBit(n % 32);
    }
  }

  datatype Op = Enable(irq: Irq) | Disable(irq: Irq)

  function Apply(w: Words, op: Op): Words {
    match op
    case Enable(irq) => WriteSet(w, irq / 32, Mask(irq % 32))
    case Disable(irq) => WriteClear(w, irq / 32, Mask(irq % 32))
  }

  /** The words after the first `n` calls on registers that start clear. */
  function After(ops: seq<Op>, n: nat): Words
    requires n <= |ops|
  {
    if n == 0 then NONE else Apply(After(ops, n - 1), ops[n - 1])
  }

  ghost function EnablesOf(ops: seq<Op>, irq: Irq): nat -> bool {
    (k: nat) => k < |ops| && ops[k] == Enable(irq)
  }

  ghost function DisablesOf(ops: seq<Op>, irq: Irq): nat -> bool {
    (k: nat) => k < |ops| && ops[k] == Disable(irq)
  }

  /**
   * After any run, the words represent exactly the IRQ numbers that some call enabled and no later
   * call disabled.
   */
  lemma {:induction false} WordsRefineSet(ops: seq<Op>, n: nat, irq: Irq)
    requires n <= |ops|
    ensures irq in Members(After(ops, n)) <==> LastOn(EnablesOf(ops, irq), DisablesOf(ops, irq), n)
  {
    if n == 0 {
      NoneIsEmpty();
    } else {
      WordsRefineSet(ops, n - 1, irq);
      WriteSetAdds(After(ops, n - 1), ops[n - 1].irq);
      WriteClearRemoves(After(ops, n - 1), ops[n - 1].irq);
      LastOnStep(EnablesOf(ops, irq), DisablesOf(ops, irq), n - 1);
    }
  }

  /** The controller: `isr` and `ipr` are what the read-only status ports show. */
  class Nvic {
    const isr: array<Word>
    const ipr: array<Word>
    /** The priority byte of each IRQ. */
    const iprior: array<nat>

    ghost predicate Valid()
      reads this
    {
      isr.Length == 8 && ipr.Length == 8 && isr != ipr && iprior.Length == 256
    }

    ghost function Enabled(): set<Irq>
      requires Valid()
      reads this, isr
    {
      Members(isr[..])
    }

    ghost function Pending(): set<Irq>
      requires Valid()
      reads this, ipr
    {
      Members(ipr[..])
    }

    /** Reset state: nothing enabled, nothing pending. */
    constructor ()
      ensures Valid() && fresh(isr) && fresh(ipr) && fresh(iprior)
      ensures isr[..] == NONE && ipr[..] == NONE
      ensures Enabled() == {} && Pending() == {} && forall k :: 0 <= k < 256 ==> iprior[k] == 0
    {
      isr := new Word[8](_ => ZERO);
      ipr := new Word[8](_ => ZERO);
      iprior := new nat[256](_ => 0);
      new;
      assert isr[..] == NONE && ipr[..] == NONE;
    }

    method EnableIRQ(irq: Irq)
      requires Valid()
      modifies isr
      ensures Valid()
      ensures isr[..] == Apply(old(isr[..]), Enable(irq))
      ensures Enabled() == old(Enabled()) + {irq}
    {
      WriteSetAdds(isr[..], irq);
      isr[irq / 32] := Or(isr[irq / 32], Mask(irq % 32));
    }

    method DisableIRQ(irq: Irq)
      requires Valid()
      modifies isr
      ensures Valid()
      ensures isr[..] == Apply(old(isr[..]), Disable(irq))
      ensures Enabled() == old(Enabled()) - {irq}
    {
      WriteClearRemoves(isr[..], irq);
      isr[irq / 32] := AndNot(isr[irq / 32], Mask(irq % 32));
    }

    method SetPriority(irq: Irq, priority: nat)
      requires Valid()
      modifies iprior
      ensures Valid() && iprior[..] == old(iprior[..])[irq := priority]
    {
      iprior[irq] := priority;
    }

    method GetStatusIRQ(irq: Irq) returns (r: nat)
      requires Valid()
      ensures r == if irq in Enabled() then 1 else 0
    {
      r := if And(isr[irq / 32], Mask(irq % 32)) != ZERO then 1 else 0;
      TestIsBit(isr[irq / 32], irq % 32);
    }

    method SetPendingIRQ(irq: Irq)
      requires Valid()
      modifies ipr
      ensures Valid()
      ensures Pending() == old(Pending()) + {irq}
    {
      WriteSetAdds(ipr[..], irq);
      ipr[irq / 32] := Or(ipr[irq / 32], Mask(irq % 32));
    }

    method ClearPendingIRQ(irq: Irq)
      requires Valid()
      modifies ipr
      ensures Valid()
      ensures Pending() == old(Pending()) - {irq}
    {
      WriteClearRemoves(ipr[..], irq);
      ipr[irq / 32] := AndNot(ipr[irq / 32], Mask(irq % 32));
    }

    method GetPendingIRQ(irq: Irq) returns (r: nat)
      requires Valid()
      ensures r == if irq in Pending() then 1 else 0
    {
      r := if And(ipr[irq / 32], Mask(irq % 32)) != ZERO then 1 else 0;
      TestIsBit(ipr[irq / 32], irq % 32);
    }
  }
}
