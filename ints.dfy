/** Fixed-width unsigned integers of the source, as bounded subsets of int. */
module Ints {
  /** Rust `u8`. */
  newtype u8 = x: int | 0 <= x < 0x100

  /** Rust `u16`. */
  newtype u16 = x: int | 0 <= x < 0x1_0000

  /** Rust `u32`. */
  newtype u32 = x: int | 0 <= x < 0x1_0000_0000

  const U16_MODULUS: int := 0x1_0000

  /**
   * `u16::overflowing_shl(x, n).0` for a shift amount below the width: the bits of `x` that would
   * move past bit 15 are lost, the others move up by `n` places.
   */
  function ShlU16(x: u16, n: nat): (r: u16)
    requires n < 16
    ensures r as int % Pow2(n) == 0
    ensures x as int * Pow2(n) < U16_MODULUS ==> r as int == x as int * Pow2(n)
  {
    var kept := x as int % Pow2(16 - n);
    ShiftedBits(x as int, n);
    (kept * Pow2(n)) as u16
  }

  /** `u16::overflowing_add(a, b).0`: the sum wraps around modulo 2^16. */
  function WrappingAddU16(a: u16, b: u16): (r: u16)
    ensures r as int == (a as int + b as int) % U16_MODULUS
    ensures a as int + b as int < U16_MODULUS ==> r as int == a as int + b as int
  {
    if a as int + b as int < U16_MODULUS then a + b else (a as int + b as int - U16_MODULUS) as u16
  }

  function Pow2(n: nat): (p: nat)
    ensures p >= 1
  {
    if n == 0 then 1 else 2 * Pow2(n - 1)
  }

  /** Keeping the low `16 - n` bits of `x` and moving them up by `n` fits in 16 bits, ends in `n` zero bits, and loses nothing when `x * 2^n` already fits. */
  lemma ShiftedBits(x: nat, n: nat)
    requires n < 16
    ensures 0 <= (x % Pow2(16 - n)) * Pow2(n) < U16_MODULUS
    ensures ((x % Pow2(16 - n)) * Pow2(n)) % Pow2(n) == 0
    ensures x * Pow2(n) < U16_MODULUS ==> (x % Pow2(16 - n)) * Pow2(n) == x * Pow2(n)
  {
    var p, q := Pow2(n), Pow2(16 - n);
    var kept := x % q;
    Pow2Split(n, 16 - n);
    Pow2Sixteen();
    assert q * p == U16_MODULUS by { assert n + (16 - n) == 16; }
    MulBelow(kept, q, p);
    assert 0 <= kept * p < U16_MODULUS;
    MulMultiple(kept, p);
    MulBelowInverse(x, q, p);
    if x * p < U16_MODULUS {
      ModOfSmaller(x, q);
    }
  }

  lemma {:induction false} Pow2Split(a: nat, b: nat)
    ensures Pow2(a + b) == Pow2(a) * Pow2(b)
  {
    if a > 0 {
      Pow2Split(a - 1, b);
    }
  }

  lemma Pow2Sixteen()
    ensures Pow2(16) == U16_MODULUS
  {
    assert Pow2(2) == 4;
    assert Pow2(4) == 16;
    assert Pow2(6) == 64;
    assert Pow2(8) == 256;
    assert Pow2(10) == 1024;
    assert Pow2(12) == 4096;
    assert Pow2(14) == 16384;
  }

  lemma MulBelow(a: int, q: int, p: int)
    requires 0 <= a < q && p > 0
    ensures 0 <= a * p < q * p
  {
  }

  lemma MulBelowInverse(a: int, q: int, p: int)
    requires a >= 0 && p > 0
    ensures a * p < q * p ==> a < q
  {
  }

  lemma MulMultiple(a: int, p: int)
    requires p > 0
    ensures (a * p) % p == 0
  {
    var q, r := (a * p) / p, (a * p) % p;
    assert r == (a - q) * p;
    // The quotient cannot differ from `a`: a difference of one or more would put `r` outside `0 .. p`.
    if a - q >= 1 {
    } else if a - q <= -1 {
    }
  }

  lemma ModOfSmaller(a: int, q: int)
    requires 0 <= a < q
    ensures a % q == a
  {
    var d := a / q;
    assert a % q == a - d * q;
    // The quotient is 0: a quotient of one or more, or below zero, would put the remainder outside `0 .. q`.
    if d >= 1 {
    } else if d <= -1 {
    }
  }
}
