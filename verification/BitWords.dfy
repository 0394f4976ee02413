/** 32-bit register words as their 32 bits, bit 0 first; the bitwise operators act on each bit. */
module BitWords {
  import opened Arithmetic

  const ZERO := [
    false, false, false, false, false, false, false, false, false, false, false, false, false, false, false, false,
    false, false, false, false, false, false, false, false, false, false, false, false, false, false, false, false
  ]

  type Word = w: seq<bool> | |w| == 32 witness ZERO

  /** `1 << i` */
  function Mask(i: nat): Word
    requires i < 32
  {
    seq(32, k => k == i)
  }

  /** `a | b` */
  function Or(a: Word, b: Word): Word {
    seq(32, k requires 0 <= k < 32 => a[k] || b[k])
  }

  /** `a & b` */
  function And(a: Word, b: Word): Word {
    seq(32, k requires 0 <= k < 32 => a[k] && b[k])
  }

  /** `a & ~b` */
  function AndNot(a: Word, b: Word): Word {
    seq(32, k requires 0 <= k < 32 => a[k] && !b[k])
  }

  /** The value of a hexadecimal digit. */
  function Digit(c: char): int {
    if '0' <= c <= '9' then c as int - '0' as int else c as int - 'A' as int + 10
  }

  predicate DigitBit(d: int, j: nat) {
    if j == 0 then d % 2 == 1 else if j == 1 then d / 2 % 2 == 1 else if j == 2 then d / 4 % 2 == 1 else d / 8 % 2 == 1
  }

  /** The word written with eight hexadecimal digits. */
  function Hex(s: string): Word
    requires |s| == 8
  {
    seq(32, k requires 0 <= k < 32 => DigitBit(Digit(s[7 - k / 4]), k % 4))
  }

  /** The two-, three- and four-bit fields whose lowest bit is `i`. */
  function Field2(w: Word, i: nat): (n: nat)
    requires i < 31
    ensures n < 4
  {
    One(w[i]) + 2 * One(w[i + 1])
  }

  function Field3(w: Word, i: nat): (n: nat)
    requires i < 30
    ensures n < 8
  {
    Field2(w, i) + 4 * One(w[i + 2])
  }

  function Field4(w: Word, i: nat): (n: nat)
    requires i < 29
    ensures n < 16
  {
    Field3(w, i) + 8 * One(w[i + 3])
  }

  lemma OrZero(w: Word)
    ensures Or(w, ZERO) == w
  {}

  lemma ZeroBit(i: nat)
    requires i < 32
    ensures !ZERO[i]
  {}

  /** `w & (1 << i)` is non-zero exactly when bit `i` is set. */
  lemma TestIsBit(w: Word, i: nat)
    requires i < 32
    ensures And(w, Mask(i)) != ZERO <==> w[i]
  {
    if w[i] {
      assert And(w, Mask(i))[i];
    } else {
      assert And(w, Mask(i)) == ZERO;
    }
  }

  lemma MaskInjective(i: nat, j: nat)
    requires i < 32 && j < 32
    ensures Mask(i) == Mask(j) <==> i == j
  {
    assert Mask(i)[i] && (Mask(j)[i] <==> i == j);
  }
}
