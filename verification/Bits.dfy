/** Unsigned machine integers as natural numbers, and Go's bitwise operators on them.

Every operator is defined on all naturals; the lemmas say what each bit of a result is.
*/
module Bits {

  type byte = x: int | 0 <= x < 0x100
  type uint16 = x: int | 0 <= x < 0x1_0000
  type uint32 = x: int | 0 <= x < 0x1_0000_0000
  type uint64 = x: int | 0 <= x < 0x1_0000_0000_0000_0000

  const TWO32: nat := 0x1_0000_0000
  const TWO64: nat := 0x1_0000_0000_0000_0000

  /** Go's `min` on uint8. */
  function MinByte(a: byte, b: byte): byte { if a < b then a else b }

  function Pow2(n: nat): nat {
    if n == 0 then 1 else 2 * Pow2(n - 1)
  }

  /** Bit `d` of `n`, counted from the least significant one. */
  predicate Bit(n: nat, d: nat) {
    if d == 0 then n % 2 == 1 else Bit(n / 2, d - 1)
  }

  function BoolOr(x: bool, y: bool): bool { x || y }

  function BoolAnd(x: bool, y: bool): bool { x && y }

  function BoolXor(x: bool, y: bool): bool { x != y }

  /** Applies `op` bit by bit. */
  function Bitwise(op: (bool, bool) -> bool, a: nat, b: nat): nat {
    if a == 0 && b == 0 then 0
    else 2 * Bitwise(op, a / 2, b / 2) + (if op(a % 2 == 1, b % 2 == 1) then 1 else 0)
  }

  function Or(a: nat, b: nat): nat { Bitwise(BoolOr, a, b) }

  function And(a: nat, b: nat): nat { Bitwise(BoolAnd, a, b) }

  function Xor(a: nat, b: nat): nat { Bitwise(BoolXor, a, b) }

  /** `b << k` on uint64. */
  function Shl64(b: uint64, k: nat): uint64 {
    (b * Pow2(k)) % TWO64
  }

  lemma {:induction false} BitOfZero(d: nat)
    ensures !Bit(0, d)
  {
    if d > 0 { BitOfZero(d - 1); }
  }

  lemma {:induction false} BitwiseBit(op: (bool, bool) -> bool, a: nat, b: nat, d: nat)
    requires !op(false, false)
    ensures Bit(Bitwise(op, a, b), d) == op(Bit(a, d), Bit(b, d))
    decreases d
  {
    if a == 0 && b == 0 {
      BitOfZero(d);
    } else if d > 0 {
      BitwiseBit(op, a / 2, b / 2, d - 1);
    }
  }

  lemma {:induction false} SameBits(a: nat, b: nat)
    requires forall d: nat :: Bit(a, d) == Bit(b, d)
    ensures a == b
  {
    assert Bit(a, 0) == Bit(b, 0);
    if a == 0 && b == 0 {
    } else {
      forall d: nat ensures Bit(a / 2, d) == Bit(b / 2, d) {
        assert Bit(a, d + 1) == Bit(b, d + 1);
      }
      SameBits(a / 2, b / 2);
    }
  }

  lemma {:induction false} BitwiseBound(op: (bool, bool) -> bool, a: nat, b: nat, n: nat)
    requires a < Pow2(n) && b < Pow2(n)
    ensures Bitwise(op, a, b) < Pow2(n)
    decreases n
  {
    if n > 0 && !(a == 0 && b == 0) {
      BitwiseBound(op, a / 2, b / 2, n - 1);
    }
  }

  lemma Pow2Values()
    ensures Pow2(3) == 8 && Pow2(8) == 0x100 && Pow2(16) == 0x1_0000 && Pow2(32) == TWO32 && Pow2(64) == TWO64
  {
    assert Pow2(8) == 0x100;
    assert Pow2(16) == 0x1_0000 by { Pow2Sum(8, 8); }
    assert Pow2(32) == TWO32 by { Pow2Sum(16, 16); }
    assert Pow2(64) == TWO64 by { Pow2Sum(32, 32); }
  }

  lemma {:induction false} Pow2Sum(m: nat, n: nat)
    ensures Pow2(m + n) == Pow2(m) * Pow2(n)
  {
    if n > 0 {
      Pow2Sum(m, n - 1);
      Doubled(Pow2(m), Pow2(n - 1));
    }
  }

  /** Masking twice with the same mask gives the value back. */
  lemma XorTwice(a: nat, m: nat)
    ensures Xor(Xor(a, m), m) == a
  {
    forall d: nat ensures Bit(Xor(Xor(a, m), m), d) == Bit(a, d) {
      BitwiseBit(BoolXor, a, m, d);
      BitwiseBit(BoolXor, Xor(a, m), m, d);
    }
    SameBits(Xor(Xor(a, m), m), a);
  }

  lemma ModHalf(x: nat, p: nat)
    requires p > 0
    ensures x % (2 * p) % 2 == x % 2
    ensures x % (2 * p) / 2 == x / 2 % p
  {
    var h := x / 2;
    var k, t := Quotient(h, p);
    ModOfMultiple(k, p, t);
    Doubled(k, p);
    ModOfMultiple(k, 2 * p, 2 * t + x % 2);
  }

  lemma Quotient(h: nat, p: nat) returns (k: nat, t: nat)
    requires p > 0
    ensures h == k * p + t && t < p
  {
    k, t := h / p, h % p;
  }

  lemma Doubled(k: nat, p: nat)
    ensures k * (2 * p) == 2 * (k * p)
  {}

  lemma ModOfMultiple(q: nat, p: nat, r: nat)
    requires r < p
    ensures (q * p + r) % p == r
  {
    var x := q * p + r;
    var k, t := x / p, x % p;
    assert k * p + t == x;
    var e := k - q;
    assert e * p == r - t by { assert (k - q) * p == k * p - q * p; }
    if e != 0 { SmallMultiple(e, p); }
  }

  lemma SmallMultiple(e: int, p: int)
    requires e != 0 && p >= 0
    ensures e * p >= p || e * p <= -p
  {
    if e > 0 { assert (e - 1) * p >= 0; } else { assert (-1 - e) * p >= 0; }
  }

  lemma {:induction false} BitOfMod(x: nat, n: nat, d: nat)
    ensures Pow2(n) > 0
    ensures Bit(x % Pow2(n), d) == (d < n && Bit(x, d))
    decreases d
  {
    Pow2Positive(n);
    if n == 0 {
      assert x % Pow2(n) == 0;
      BitOfZero(d);
    } else {
      Pow2Positive(n - 1);
      ModHalf(x, Pow2(n - 1));
      if d > 0 { BitOfMod(x / 2, n - 1, d - 1); }
    }
  }

  lemma {:induction false} Pow2Positive(n: nat)
    ensures Pow2(n) > 0
  {
    if n > 0 { Pow2Positive(n - 1); }
  }

  lemma {:induction false} BitOfProduct(x: nat, k: nat, d: nat)
    ensures Bit(x * Pow2(k), d) == (k <= d && Bit(x, d - k))
    decreases k
  {
    if k > 0 {
      var y := x * Pow2(k - 1);
      assert x * Pow2(k) == 2 * y;
      if d > 0 {
        assert 2 * y / 2 == y;
        BitOfProduct(x, k - 1, d - 1);
      }
    } else {
      assert x * Pow2(0) == x;
    }
  }

  /** Bit `d` of `b << k`. */
  lemma Shl64Bit(b: uint64, k: nat, d: nat)
    ensures Bit(Shl64(b, k), d) == (k <= d < 64 && Bit(b, d - k))
  {
    Pow2Values();
    BitOfMod(b * Pow2(k), 64, d);
    BitOfProduct(b, k, d);
  }

  lemma {:induction false} BitOfOne(d: nat)
    ensures Bit(1, d) == (d == 0)
  {
    if d > 0 { BitOfZero(d - 1); }
  }

  /** `1 << k` on uint64. */
  lemma ShiftedOne(k: nat)
    requires k < 64
    ensures Shl64(1, k) == Pow2(k)
  {
    forall d: nat ensures Bit(Shl64(1, k), d) == Bit(Pow2(k), d) {
      Shl64Bit(1, k, d);
      if k <= d { BitOfOne(d - k); }
      BitOfPow2(k, d);
    }
    SameBits(Shl64(1, k), Pow2(k));
  }

  lemma {:induction false} BitOfPow2(k: nat, d: nat)
    ensures Bit(Pow2(k), d) == (k == d)
    decreases k
  {
    if k == 0 {
      BitOfOne(d);
    } else if d > 0 {
      assert Pow2(k) / 2 == Pow2(k - 1);
      BitOfPow2(k - 1, d - 1);
    }
  }

  /** `b & f` is non-zero for the one-bit flag f exactly when b has that bit. */
  lemma TestFlag(b: nat, k: nat)
    ensures And(b, Pow2(k)) != 0 <==> Bit(b, k)
  {
    var x := And(b, Pow2(k));
    forall d: nat ensures Bit(x, d) == (d == k && Bit(b, k)) {
      BitwiseBit(BoolAnd, b, Pow2(k), d);
      BitOfPow2(k, d);
    }
    assert Bit(x, k) == Bit(b, k);
    if Bit(b, k) {
      BitOfZero(k);
    } else {
      forall d: nat ensures Bit(x, d) == Bit(0, d) { BitOfZero(d); }
      SameBits(x, 0);
    }
  }

  /** Bit `d` of `b | f` for the one-bit flag f. */
  lemma OrFlag(b: nat, k: nat, d: nat)
    ensures Bit(Or(b, Pow2(k)), d) == (d == k || Bit(b, d))
  {
    BitwiseBit(BoolOr, b, Pow2(k), d);
    BitOfPow2(k, d);
  }
}
