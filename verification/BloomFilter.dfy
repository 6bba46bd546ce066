/** The Bloom filter of crypto/antireplay.go: a byte array of bits with a running count of set bits. */
module BloomFilter {
  import opened Bits

  /** A filter's dimensions. `size * 8` is computed in uint32; where it wraps around to zero, hashing divides by
      zero. */
  datatype Shape = Shape(size: uint32, hashCount: int) {
    function BitCount(): uint32 { size * 8 % TWO32 }
  }

  /** `(h >> 16) ^ h` */
  function Fold(h: nat): nat { Xor(h / 0x1_0000, h) }

  function Mix(h: uint32): uint32 {
    Fold(h) * 0x45d9f3b % TWO32
  }

  /** The value of round i of a number before it is reduced to a position. */
  function Spread(number: uint64, i: nat): nat {
    Fold(Mix(Mix(Xor(number, i % TWO32) % TWO32)))
  }

  /** `h % (bf.size * 8)`, the product in uint32 */
  function Reduce(h: nat, f: Shape): (r: nat)
    requires f.BitCount() != 0
    ensures r / 8 < f.size && r % 8 < 8
  {
    assert f.BitCount() <= f.size * 8;
    h % f.BitCount()
  }

  /** The i-th bit position of a number; the result is always a position of the array. */
  function Hash(f: Shape, number: uint64, i: nat): (h: nat)
    requires f.BitCount() != 0
    ensures h / 8 < f.size && h % 8 < 8
  {
    Reduce(Spread(number, i), f)
  }

  /** `byte(1) << k` */
  function OneBit(k: nat): byte
    requires k < 8
  {
    Pow2Below(k);
    Pow2(k)
  }

  lemma Pow2Below(k: nat)
    requires k < 8
    ensures Pow2(k) < 0x100
  {
    if k < 7 { Pow2Double(k, 7); }
    assert Pow2(7) == 128;
  }

  lemma {:induction false} Pow2Double(k: nat, n: nat)
    requires k < n
    ensures 2 * Pow2(k) <= Pow2(n)
    decreases n
  {
    Pow2Positive(n - 1);
    if k < n - 1 { Pow2Double(k, n - 1); }
  }

  predicate IsSet(bits: seq<byte>, h: nat)
    requires h / 8 < |bits|
  {
    Bit(bits[h / 8], h % 8)
  }

  function WithBit(b: byte, k: nat): byte
    requires k < 8
  {
    Pow2Values();
    BitwiseBound(BoolOr, b, OneBit(k), 8);
    Or(b, OneBit(k))
  }

  function SetAt(bits: seq<byte>, h: nat): seq<byte>
    requires h / 8 < |bits|
  {
    bits[h / 8 := WithBit(bits[h / 8], h % 8)]
  }

  function Rounds(f: Shape): nat { if f.hashCount < 0 then 0 else f.hashCount }

  /** All bit positions of a number, each inside the array. */
  function Positions(f: Shape, number: uint64): (ps: seq<nat>)
    requires f.BitCount() != 0
    ensures |ps| == Rounds(f)
    ensures forall i | 0 <= i < |ps| :: ps[i] == Hash(f, number, i) && ps[i] / 8 < f.size
  {
    seq(Rounds(f), i requires 0 <= i => Hash(f, number, i))
  }

  ghost predicate Inside(ps: seq<nat>, length: nat) {
    forall i | 0 <= i < |ps| :: ps[i] / 8 < length
  }

  /** The array after the bits at `ps` are set, in order. */
  function Marked(bits: seq<byte>, ps: seq<nat>): (r: seq<byte>)
    requires Inside(ps, |bits|)
    ensures |r| == |bits|
  {
    if ps == [] then bits else SetAt(Marked(bits, ps[..|ps| - 1]), ps[|ps| - 1])
  }

  function Zeros(n: nat): seq<byte> { seq(n, _ => 0) }

  /** The array after a run of adds since the last reset. */
  function Filled(f: Shape, numbers: seq<uint64>): (r: seq<byte>)
    requires f.BitCount() != 0 || numbers == []
    ensures |r| == f.size
  {
    if numbers == [] then Zeros(f.size)
    else Marked(Filled(f, numbers[..|numbers| - 1]), Positions(f, numbers[|numbers| - 1]))
  }

  predicate Contains(f: Shape, bits: seq<byte>, number: uint64)
    requires f.BitCount() != 0 && |bits| == f.size
  {
    forall p | p in Positions(f, number) :: IsSet(bits, p)
  }

  function Ones(n: nat): nat {
    if n == 0 then 0 else n % 2 + Ones(n / 2)
  }

  function Total(bits: seq<byte>): nat {
    if bits == [] then 0 else Total(bits[..|bits| - 1]) + Ones(bits[|bits| - 1])
  }

  // ---------------------------------------------------------------- the mixing loses nothing

  function Halved(h: nat, k: nat): nat { if k == 0 then h else Halved(h / 2, k - 1) }

  lemma {:induction false} BitOfHalved(h: nat, k: nat, d: nat)
    ensures Bit(Halved(h, k), d) == Bit(h, d + k)
    decreases k
  {
    if k > 0 { BitOfHalved(h / 2, k - 1, d); }
  }

  lemma SixteenHalves(h: nat)
    ensures Halved(h, 16) == h / 0x1_0000
  {
    var a := h / 16;
    var b := a / 16;
    var c := b / 16;
    FourHalves(h, 12);
    FourHalves(a, 8);
    FourHalves(b, 4);
    FourHalves(c, 0);
    assert c / 16 == h / 0x1_0000;
    hide Halved;
    assert Halved(c / 16, 0) == c / 16 by { NoHalf(c / 16); }
  }

  lemma NoHalf(h: nat)
    ensures Halved(h, 0) == h
  {}

  lemma FourHalves(h: nat, k: nat)
    ensures Halved(h, k + 4) == Halved(h / 16, k)
  {
    assert h / 2 / 2 / 2 / 2 == h / 16;
    assert Halved(h, k + 4) == Halved(h / 2, k + 3) == Halved(h / 2 / 2, k + 2);
    assert Halved(h / 2 / 2, k + 2) == Halved(h / 2 / 2 / 2, k + 1) == Halved(h / 2 / 2 / 2 / 2, k);
  }

  /** No bit of a 32-bit number lies above. */
  lemma BitAbove(h: uint32, d: nat)
    requires d >= 32
    ensures !Bit(h, d)
  {
    hide Bit;
    Low32(h, d);
  }

  lemma Low32(x: nat, d: nat)
    ensures Bit(x % TWO32, d) == (d < 32 && Bit(x, d))
  {
    Pow2Values();
    hide Pow2, Bit;
    var p := Pow2(32);
    BitOfMod(x, 32, d);
    assert x % p == x % TWO32;
  }

  lemma FoldBit(h: nat, d: nat)
    ensures Bit(Fold(h), d) == (Bit(h, d + 16) != Bit(h, d))
  {
    SixteenHalves(h);
    BitOfHalved(h, 16, d);
    hide Halved;
    BitwiseBit(BoolXor, h / 0x1_0000, h, d);
  }

  lemma FoldTwice(h: uint32)
    ensures Fold(h) < TWO32 && Fold(Fold(h)) == h
  {
    Pow2Values();
    BitwiseBound(BoolXor, h / 0x1_0000, h, 32);
    forall d: nat ensures Bit(Fold(Fold(h)), d) == Bit(h, d) {
      FoldBit(Fold(h), d);
      FoldBit(h, d + 16);
      FoldBit(h, d);
      BitAbove(h, d + 16 + 16);
    }
    SameBits(Fold(Fold(h)), h);
  }

  /** The multiplier is odd, so another one undoes it. */
  lemma MultiplyBack(x: uint32)
    ensures x * 0x45d9f3b % TWO32 * 0x119de1f3 % TWO32 == x
  {
    var q, r := x * 0x45d9f3b / TWO32, x * 0x45d9f3b % TWO32;
    var k := x * 0x4ce8d8 - q * 0x119de1f3;
    assert r * 0x119de1f3 == k * TWO32 + x;
    ModOfMultiple(k, TWO32, x);
  }

  function Unmix(h: uint32): nat { Fold(h * 0x119de1f3 % TWO32) }

  lemma UnmixInverts(h: uint32)
    ensures Unmix(Mix(h)) == h
  {
    FoldTwice(h);
    MultiplyBack(Fold(h));
    hide Fold;
  }

  /** The position is the spread value modulo the bit count, and the spread value gives back the low 32 bits of the
      number, exclusive-or the round: nothing is lost before the reduction. */
  lemma SpreadInverts(f: Shape, number: uint64, i: nat)
    requires f.BitCount() != 0
    ensures Hash(f, number, i) == Spread(number, i) % (f.size * 8 % 0x1_0000_0000)
    ensures Fold(Spread(number, i)) < TWO32 && Unmix(Fold(Spread(number, i))) < TWO32
    ensures Unmix(Unmix(Fold(Spread(number, i)))) == Xor(number, i % 0x1_0000_0000) % 0x1_0000_0000
  {
    var h := Xor(number, i % TWO32) % TWO32;
    UnmixInverts(h);
    UnmixInverts(Mix(h));
    FoldTwice(Mix(Mix(h)));
    hide Fold, Mix, Unmix;
  }

  /** So the rounds of one number spread to different values. */
  lemma RoundsDiffer(f: Shape, number: uint64, i: uint32, j: uint32)
    requires f.BitCount() != 0
    ensures i != j ==> Spread(number, i) != Spread(number, j)
  {
    if Spread(number, i) == Spread(number, j) {
      SpreadInverts(f, number, i);
      SpreadInverts(f, number, j);
      hide Spread, Fold, Unmix, Hash, Xor, Bit;
      forall d: nat ensures Bit(i, d) == Bit(j, d) {
        if d < 32 {
          LowBit(number, i, d);
          LowBit(number, j, d);
        } else {
          BitAbove(i, d);
          BitAbove(j, d);
        }
      }
      SameBits(i, j);
    }
  }

  lemma LowBit(number: uint64, i: uint32, d: nat)
    requires d < 32
    ensures Bit(Xor(number, i % 0x1_0000_0000) % 0x1_0000_0000, d) == (Bit(number, d) != Bit(i, d))
  {
    hide Bit, Bitwise;
    Low32(Xor(number, i), d);
    BitwiseBit(BoolXor, number, i, d);
  }

  // ---------------------------------------------------------------- single bits

  lemma OrHalves(a: nat, b: nat)
    ensures Or(a, b) / 2 == Or(a / 2, b / 2)
    ensures Or(a, b) % 2 == (if a % 2 == 1 || b % 2 == 1 then 1 else 0)
  {}

  lemma OnesHalves(n: nat)
    ensures Ones(n) == n % 2 + Ones(n / 2)
  {}

  lemma {:induction false} OnesOfNewBit(b: nat, k: nat)
    ensures Ones(Or(b, Pow2(k))) == Ones(b) + (if Bit(b, k) then 0 else 1)
    decreases k
  {
    OrHalves(b, Pow2(k));
    OnesHalves(Or(b, Pow2(k)));
    OnesHalves(b);
    hide Or, Ones;
    if k > 0 {
      assert Pow2(k) / 2 == Pow2(k - 1) && Pow2(k) % 2 == 0;
      OnesOfNewBit(b / 2, k - 1);
    } else {
      OrZero(b / 2);
    }
  }

  lemma {:induction false} OrZero(a: nat)
    ensures Or(a, 0) == a
  {
    if a != 0 { OrZero(a / 2); }
  }

  lemma SetAtBits(bits: seq<byte>, h: nat, g: nat)
    requires h / 8 < |bits| && g / 8 < |bits|
    ensures IsSet(SetAt(bits, h), g) <==> g == h || IsSet(bits, g)
  {
    if g / 8 == h / 8 {
      OrFlag(bits[h / 8], h % 8, g % 8);
    }
  }

  lemma {:induction false} TotalOfUpdate(bits: seq<byte>, i: nat, v: byte)
    requires i < |bits|
    ensures Total(bits[i := v]) == Total(bits) - Ones(bits[i]) + Ones(v)
  {
    var n := |bits| - 1;
    if i == n {
      assert bits[i := v][..n] == bits[..n];
    } else {
      assert bits[i := v][..n] == bits[..n][i := v];
      TotalOfUpdate(bits[..n], i, v);
    }
  }

  lemma TotalOfSetAt(bits: seq<byte>, h: nat)
    requires h / 8 < |bits|
    ensures Total(SetAt(bits, h)) == Total(bits) + (if IsSet(bits, h) then 0 else 1)
  {
    TotalOfUpdate(bits, h / 8, WithBit(bits[h / 8], h % 8));
    OnesOfNewBit(bits[h / 8], h % 8);
  }

  lemma {:induction false} TotalOfZeros(n: nat)
    ensures Total(Zeros(n)) == 0
  {
    if n > 0 {
      assert Zeros(n)[..n - 1] == Zeros(n - 1);
      TotalOfZeros(n - 1);
    }
  }

  lemma TestOneBit(b: byte, k: nat)
    requires k < 8
    ensures And(b, OneBit(k)) != 0 <==> Bit(b, k)
  {
    TestFlag(b, k);
  }

  // ---------------------------------------------------------------- whole runs

  lemma {:induction false} MarkedBits(bits: seq<byte>, ps: seq<nat>, g: nat)
    requires Inside(ps, |bits|) && g / 8 < |bits|
    ensures IsSet(Marked(bits, ps), g) <==> IsSet(bits, g) || g in ps
  {
    if ps != [] {
      var n := |ps| - 1;
      MarkedBits(bits, ps[..n], g);
      SetAtBits(Marked(bits, ps[..n]), ps[n], g);
      assert ps == ps[..n] + [ps[n]];
    }
  }

  ghost predicate Hit(f: Shape, numbers: seq<uint64>, g: nat)
    requires f.BitCount() != 0
  {
    exists number :: number in numbers && g in Positions(f, number)
  }

  /** After any run of adds a bit is set exactly when some added number hashes to it. */
  lemma {:induction false} FilledBits(f: Shape, numbers: seq<uint64>, g: nat)
    requires f.BitCount() != 0 && g / 8 < f.size
    ensures IsSet(Filled(f, numbers), g) <==> Hit(f, numbers, g)
  {
    if numbers == [] {
      BitOfZero(g % 8);
    } else {
      var n := |numbers| - 1;
      var before, last := numbers[..n], numbers[n];
      assert numbers == before + [last];
      FilledBits(f, before, g);
      MarkedBits(Filled(f, before), Positions(f, last), g);
    }
  }

  /** A number is reported present exactly when each of its positions was hit by some added number; in
      particular every added number is. */
  lemma FilledContains(f: Shape, numbers: seq<uint64>, number: uint64)
    requires f.BitCount() != 0
    ensures Contains(f, Filled(f, numbers), number) <==>
            forall p | p in Positions(f, number) :: Hit(f, numbers, p)
    ensures number in numbers ==> Contains(f, Filled(f, numbers), number)
  {
    forall p | p in Positions(f, number)
      ensures p / 8 < f.size
      ensures IsSet(Filled(f, numbers), p) <==> Hit(f, numbers, p)
    {
      FilledBits(f, numbers, p);
    }
  }

  // ---------------------------------------------------------------- the object

  class BloomFilter {
    const shape: Shape
    const bits: array<byte>
    var count: nat

    /** `count` is the number of set bits in the whole array. */
    ghost predicate Valid()
      reads this, bits
    {
      && bits.Length == shape.size
      && count == Total(bits[..])
    }

    /** Defaults of NewAntiReplay: 65536 bytes, 4 hashes. */
    constructor (size: uint32, hashCount: int)
      ensures Valid() && fresh(bits)
      ensures shape == Shape(if size == 0 then 0x1_0000 else size, if hashCount == 0 then 4 else hashCount)
      ensures bits[..] == Filled(shape, [])
    {
      var s: uint32 := if size == 0 then 0x1_0000 else size;
      shape := Shape(s, if hashCount == 0 then 4 else hashCount);
      bits := new byte[s](_ => 0);
      count := 0;
      new;
      assert bits[..] == Zeros(s);
      TotalOfZeros(s);
    }

    method Add(number: uint64)
      requires Valid() && shape.BitCount() != 0
      modifies this, bits
      ensures Valid()
      ensures bits[..] == Marked(old(bits[..]), Positions(shape, number))
    {
      hide Hash, Or, And, Pow2, Bit, Total;
      ghost var ps := Positions(shape, number);
      var i := 0;
      while i < shape.hashCount
        invariant 0 <= i <= Rounds(shape)
        invariant Valid()
        invariant bits[..] == Marked(old(bits[..]), ps[..i])
        decreases shape.hashCount - i
      {
        var h := Hash(shape, number, i);
        var idx, bit := h / 8, h % 8;
        TestOneBit(bits[idx], bit);
        TotalOfSetAt(bits[..], h);
        if And(bits[idx], OneBit(bit)) == 0 {
          count := count + 1;
        }
        ghost var before := bits[..];
        bits[idx] := WithBit(bits[idx], bit);
        assert bits[..] == SetAt(before, h);
        assert ps[..i + 1][..i] == ps[..i];
        i := i + 1;
      }
      assert ps[..i] == ps;
    }

    method Has(number: uint64) returns (present: bool)
      requires Valid() && shape.BitCount() != 0
      ensures present == Contains(shape, bits[..], number)
    {
      hide Hash, And, Pow2;
      var i := 0;
      while i < shape.hashCount
        invariant 0 <= i <= Rounds(shape)
        invariant forall k | 0 <= k < i :: IsSet(bits[..], Positions(shape, number)[k])
        decreases shape.hashCount - i
      {
        var h := Hash(shape, number, i);
        var idx, bit := h / 8, h % 8;
        TestOneBit(bits[idx], bit);
        if And(bits[idx], OneBit(bit)) == 0 {
          assert !IsSet(bits[..], Positions(shape, number)[i]);
          return false;
        }
        i := i + 1;
      }
      return true;
    }

    method Reset()
      requires Valid()
      modifies this, bits
      ensures Valid()
      ensures bits[..] == Filled(shape, [])
    {
      for i := 0 to bits.Length
        invariant forall k | 0 <= k < i :: bits[k] == 0
      {
        bits[i] := 0;
      }
      count := 0;
      assert bits[..] == Zeros(shape.size);
      TotalOfZeros(shape.size);
    }
  }
}
