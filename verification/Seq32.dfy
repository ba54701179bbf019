/**
 Modular comparison of 32-bit sequence numbers (util.h), and the exact window in
 which it agrees with the order of the stream positions behind the numbers.
 Section 3.3 of RFC 793 is the reason the comparison has to be modular.
 */
module Seq32 {

  const MODULUS: int := 0x1_0000_0000
  const HALF: int := 0x8000_0000

  /** The C type `u_int`. */
  type u32 = x: int | 0 <= x < 0x1_0000_0000

  /** The 32-bit number that stands for an unbounded position: what a C `u_int` keeps of it. */
  function Wrap(x: int): u32 {
    x % MODULUS
  }

  /** The conversion `(int)` of an unsigned 32-bit number. */
  function Signed(x: u32): int {
    if x < HALF then x else x - MODULUS
  }

  /** `before`: the signed 32-bit difference is negative. */
  predicate Before(seq1: u32, seq2: u32) {
    Signed(Wrap(seq1 - seq2)) < 0
  }

  /** `after`: the signed 32-bit difference, taken the other way round, is negative. */
  predicate After(seq1: u32, seq2: u32) {
    Signed(Wrap(seq2 - seq1)) < 0
  }

  /** Wrapping the operands first does not change a wrapped sum or difference. */
  lemma WrapAbsorbs(x: int, y: int)
    ensures Wrap(Wrap(x) - Wrap(y)) == Wrap(x - y)
    ensures Wrap(Wrap(x) + y) == Wrap(x + y)
    ensures Wrap(Wrap(x) - y) == Wrap(x - y)
  {
    var p, q := x / MODULUS, y / MODULUS;
    assert Wrap(x) == x - p * MODULUS && Wrap(y) == y - q * MODULUS;
    WrapShift(x - y, p - q);
    WrapShift(x + y, p);
    WrapShift(x - y, p);
  }

  lemma WrapShift(x: int, k: int)
    ensures Wrap(x - k * MODULUS) == Wrap(x)
  {
  }

  /**
   The modular comparison decides the order of two positions exactly when the
   first is less than half the number space behind the second and at most half
   ahead of it; both halves fail immediately outside.
   */
  lemma AfterExact(x: int, y: int)
    requires -MODULUS < x - y <= MODULUS
    ensures (After(Wrap(x), Wrap(y)) <==> x > y) <==> -HALF < x - y <= HALF
  {
    WrapAbsorbs(y, x);
  }

  lemma BeforeIsAfter(x: u32, y: u32)
    ensures Before(x, y) <==> After(y, x)
  {
  }

  /** Two different numbers are ordered one way only, except when they are half the space apart. */
  lemma AfterAsymmetric(x: u32, y: u32)
    ensures After(x, y) && After(y, x) <==> x - y == HALF || y - x == HALF
    ensures !After(x, y) && !After(y, x) <==> x == y
  {
    AfterOf(x, y);
    AfterOf(y, x);
  }

  lemma AfterOf(x: u32, y: u32)
    ensures After(x, y) <==> 0 < x - y <= HALF || x - y <= -HALF
  {
    if x > y {
      WrapShift(y - x, -1);
    }
  }

  /**
   Two positions counted from the same initial number: their 32-bit difference, its
   signed reading and the modular comparison, each in the range where it is faithful.
   */
  lemma Offsets(first: int, a: int, b: int)
    ensures Wrap(Wrap(first + a) - Wrap(first + b)) == Wrap(a - b)
    ensures 0 <= a - b < MODULUS ==> Wrap(a - b) == a - b
    ensures -HALF <= a - b < HALF ==> Signed(Wrap(a - b)) == a - b
    ensures -HALF < a - b <= HALF ==> (After(Wrap(first + a), Wrap(first + b)) <==> a > b)
  {
    WrapAbsorbs(first + a, first + b);
    assert (first + a) - (first + b) == a - b;
    if -HALF < a - b <= HALF {
      AfterExact(first + a, first + b);
    }
    if -HALF <= a - b < 0 {
      WrapShift(a - b, -1);
    }
  }
}
