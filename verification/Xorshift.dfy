/** The xorshift128+ generator of auth_chain.py on 64-bit words. */
module Xorshift {
  import opened ByteStrings

  /** The two state words. */
  datatype Rng = Rng(v0: U64, v1: U64)

  /** x ^= (x & (2^41 - 1)) << 23 */
  function MixLow(x: U64): U64 {
    Xor64(x, x % 0x200_0000_0000 * 0x80_0000)
  }

  /** x ^= y ^ (x >> 17) ^ (y >> 26) */
  function MixHigh(x: U64, y: U64): U64 {
    Xor64(x, Xor64(y, Xor64(x / 0x2_0000, y / 0x400_0000)))
  }

  /** The state word that a draw computes. */
  function Mix(x: U64, y: U64): U64 {
    MixHigh(MixLow(x), y)
  }

  function Step(r: Rng): Rng {
    Rng(r.v1, Mix(r.v0, r.v1))
  }

  /** The number a draw returns. */
  function Draw(r: Rng): U64 {
    (Mix(r.v0, r.v1) + r.v1) % 0x1_0000_0000_0000_0000
  }

  function Steps(n: nat, r: Rng): Rng {
    if n == 0 then r else Step(Steps(n - 1, r))
  }

  /** Eight bytes as a little-endian word. */
  function Word(b: Bytes): U64
    requires |b| == 8
  {
    UnLe32(b[..4]) + 0x1_0000_0000 * UnLe32(b[4..])
  }

  function Seed(bin: Bytes): Rng {
    var b := bin + seq(16, _ => 0);
    Rng(Word(b[..8]), Word(b[8..16]))
  }

  /** The seed that a digest and a length make: the length replaces the first two bytes. */
  function LengthSeed(bin: Bytes, n: U16): Bytes {
    Le16(n) + (bin + seq(16, _ => 0))[2..]
  }

  /** The state after seeding from a digest and a length: four draws are dropped. */
  function SeedWithLength(bin: Bytes, length: U16): Rng {
    Steps(4, Seed(LengthSeed(bin, length)))
  }

  /** A draw is the sum of the two words of the state it leaves, the first of which is the second word before. */
  lemma DrawIsSum(r: Rng)
    ensures Draw(r) == (Step(r).v0 as int + Step(r).v1 as int) % 0x1_0000_0000_0000_0000 && Step(r).v0 == r.v1
  {
    hide Mix;
  }

  // ----- what the generator keeps -----

  lemma Pow2Literals()
    ensures Pow2(17) == 0x2_0000 && Pow2(23) == 0x80_0000 && Pow2(26) == 0x400_0000
            && Pow2(41) == 0x200_0000_0000 && Pow2(64) == 0x1_0000_0000_0000_0000
  {
    Pow2Of64();
    assert Pow2(8) == 256;
    assert Pow2(16) == 0x1_0000;
    assert Pow2(32) == 0x1_0000_0000 by {
      Pow2Of32();
    }
    assert Pow2(40) == 0x100_0000_0000;
  }

  lemma BitOfLow(x: U64, i: nat)
    requires i < 64
    ensures Bit(MixLow(x), i) == XorBit(Bit(x, i), if i < 23 then 0 else Bit(x, i - 23))
  {
    Pow2Literals();
    hide Pow2;
    var q, low := x / 0x200_0000_0000, x % 0x200_0000_0000;
    BitOfXor(64, x, low * 0x80_0000, i);
    BitOfSum(low, 23, 0, i);
    if i >= 23 {
      BitOfSum(q, 41, low, i - 23);
    } else {
      BitOfZero(i);
    }
  }

  lemma BitOfHigh(x: U64, y: U64, i: nat)
    requires i < 64
    ensures Bit(MixHigh(x, y), i) == XorBit(Bit(x, i),
                                            XorBit(Bit(y, i), XorBit(Bit(x, i + 17), Bit(y / 0x400_0000, i))))
  {
    Pow2Literals();
    hide Pow2, Bit, XorBit;
    BitOfXor(64, x / 0x2_0000, y / 0x400_0000, i);
    BitOfXor(64, y, Xor64(x / 0x2_0000, y / 0x400_0000), i);
    BitOfXor(64, x, Xor64(y, Xor64(x / 0x2_0000, y / 0x400_0000)), i);
    BitOfSum(x / 0x2_0000, 17, x % 0x2_0000, i + 17);
  }

  /** A bit of v0 ^ (v0 << 23). */
  function LowBit(x: U64, i: nat): nat {
    if i >= 64 then 0 else XorBit(Bit(x, i), if i < 23 then 0 else Bit(x, i - 23))
  }

  /** The new word of a draw, bit by bit. */
  lemma StepBits(r: Rng, i: nat)
    requires i < 64
    ensures Bit(Step(r).v1, i) == XorBit(LowBit(r.v0, i),
                                         XorBit(Bit(r.v1, i), XorBit(LowBit(r.v0, i + 17), Bit(r.v1, i + 26))))
  {
    Pow2Literals();
    hide MixLow, MixHigh, Bit, XorBit, Pow2;
    var x := MixLow(r.v0);
    assert Step(r).v1 == MixHigh(x, r.v1);
    BitOfHigh(x, r.v1, i);
    BitOfLow(r.v0, i);
    assert Bit(x, i) == LowBit(r.v0, i);
    if i + 17 < 64 {
      BitOfLow(r.v0, i + 17);
    } else {
      BitBeyond(64, x, i + 17);
    }
    assert Bit(x, i + 17) == LowBit(r.v0, i + 17);
    ShiftedBit(r.v1, i);
  }

  lemma {:induction false} ShiftedBit(y: U64, i: nat)
    ensures Bit(y / 0x400_0000, i) == Bit(y, i + 26)
  {
    Pow2Literals();
    hide Pow2, Bit;
    BitOfSum(y / 0x400_0000, 26, y % 0x400_0000, i + 26);
    assert y / 0x400_0000 * Pow2(26) + y % 0x400_0000 == y;
  }

  lemma {:induction false} OneStepMore(n: nat, r: Rng)
    ensures Steps(n + 1, r) == Step(Steps(n, r)) && Steps(0, r) == r
  {
  }

  /** Seeding from a digest and a length drops four draws. */
  lemma FourDropped(bin: Bytes, n: U16)
    ensures SeedWithLength(bin, n) == Step(Step(Step(Step(Seed(Le16(n) + (bin + Zeros(16))[2..])))))
  {
    hide Step, Seed, Steps;
    assert LengthSeed(bin, n) == Le16(n) + (bin + Zeros(16))[2..];
    var r := Seed(LengthSeed(bin, n));
    OneStepMore(0, r);
    OneStepMore(1, r);
    OneStepMore(2, r);
    OneStepMore(3, r);
  }

  /** From the lowest bit upwards. */
  lemma {:induction false} LowBitsEqual(a: U64, b: U64, i: nat)
    requires MixLow(a) == MixLow(b) && i < 64
    ensures Bit(a, i) == Bit(b, i)
    decreases i
  {
    hide MixLow, Bit, XorBit;
    BitOfLow(a, i);
    BitOfLow(b, i);
    if i >= 23 {
      LowBitsEqual(a, b, i - 23);
    }
    SameXor(Bit(a, i), Bit(b, i), if i < 23 then 0 else Bit(a, i - 23));
  }

  /** From the highest bit downwards. */
  lemma {:induction false} HighBitsEqual(a: U64, b: U64, y: U64, i: nat)
    requires MixHigh(a, y) == MixHigh(b, y) && i < 64
    ensures Bit(a, i) == Bit(b, i)
    decreases 64 - i
  {
    hide MixHigh, Bit, XorBit;
    BitOfHigh(a, y, i);
    BitOfHigh(b, y, i);
    if i + 17 < 64 {
      HighBitsEqual(a, b, y, i + 17);
    } else {
      Pow2Of64();
      BitBeyond(64, a, i + 17);
      BitBeyond(64, b, i + 17);
    }
    SameXor(Bit(a, i), Bit(b, i), XorBit(Bit(y, i), XorBit(Bit(a, i + 17), Bit(y / 0x400_0000, i))));
  }

  lemma SameXor(a: nat, b: nat, c: nat)
    requires a < 2 && b < 2 && c < 2 && XorBit(a, c) == XorBit(b, c)
    ensures a == b
  {
  }

  lemma MixInjective(a: U64, b: U64, y: U64)
    requires Mix(a, y) == Mix(b, y)
    ensures a == b
  {
    hide MixLow, MixHigh;
    Pow2Of64();
    forall i | 0 <= i < 64
      ensures Bit(MixLow(a), i) == Bit(MixLow(b), i)
    {
      HighBitsEqual(MixLow(a), MixLow(b), y, i);
    }
    BitsDetermine(64, MixLow(a), MixLow(b));
    forall i | 0 <= i < 64
      ensures Bit(a, i) == Bit(b, i)
    {
      LowBitsEqual(a, b, i);
    }
    BitsDetermine(64, a, b);
  }

  /** Draws lose nothing: two generators are in the same state after n draws exactly if they were before. */
  lemma {:induction false} StepsInjective(n: nat, a: Rng, b: Rng)
    ensures Steps(n, a) == Steps(n, b) <==> a == b
    decreases n
  {
    hide Mix;
    if n > 0 {
      StepsInjective(n - 1, a, b);
      var a', b' := Steps(n - 1, a), Steps(n - 1, b);
      if Step(a') == Step(b') {
        MixInjective(a'.v0, b'.v0, a'.v1);
      }
    }
  }

  /** A generator that has been seeded with anything but zeros never comes to the state of zeros, in which every draw
      would be zero. */
  lemma {:induction false} NeverZero(n: nat, r: Rng)
    ensures Steps(n, r) == Rng(0, 0) <==> r == Rng(0, 0)
  {
    ZeroStays(n);
    StepsInjective(n, r, Rng(0, 0));
  }

  lemma {:induction false} ZeroStays(n: nat)
    ensures Steps(n, Rng(0, 0)) == Rng(0, 0)
    decreases n
  {
    hide Mix;
    if n > 0 {
      ZeroStays(n - 1);
      MixOfZero();
    }
  }

  lemma MixOfZero()
    ensures Mix(0, 0) == 0
  {
    hide Xor;
    XorOfZero(64);
  }

  lemma {:induction false} XorOfZero(w: nat)
    ensures Xor(w, 0, 0) == 0
  {
    if w > 0 {
      XorOfZero(w - 1);
    }
  }

  /** The 16 bytes of a state, little-endian. */
  function StateBytes(r: Rng): (b: Bytes)
    ensures |b| == 16
  {
    WordBytes(r.v0) + WordBytes(r.v1)
  }

  function WordBytes(x: U64): (b: Bytes)
    ensures |b| == 8
  {
    Le32(x % 0x1_0000_0000) + Le32(x / 0x1_0000_0000)
  }

  lemma WordRoundTrip(b: Bytes)
    requires |b| == 8
    ensures WordBytes(Word(b)) == b
  {
    UnLe32RoundTrip(b[..4]);
    UnLe32RoundTrip(b[4..]);
    assert Word(b) % 0x1_0000_0000 == UnLe32(b[..4]) && Word(b) / 0x1_0000_0000 == UnLe32(b[4..]);
    assert b[..4] + b[4..] == b;
  }

  /** Seeding takes over the first 16 bytes, zeros where there are fewer: seeds that differ in them give different
      generators. */
  lemma SeedRoundTrip(bin: Bytes)
    ensures StateBytes(Seed(bin)) == (bin + Zeros(16))[..16]
  {
    hide Word, WordBytes;
    var b := bin + Zeros(16);
    assert b == bin + seq(16, _ => 0);
    WordRoundTrip(b[..8]);
    WordRoundTrip(b[8..16]);
    assert b[..8] + b[8..16] == b[..16];
  }

  lemma LengthSeedBytes(bin: Bytes, n: U16)
    requires |bin| == 16
    ensures StateBytes(Seed(LengthSeed(bin, n))) == Le16(n) + bin[2..]
    ensures LengthSeed(bin, n) == Le16(n) + bin[2..] + Zeros(16)
  {
    SeedRoundTrip(LengthSeed(bin, n));
    assert (LengthSeed(bin, n) + Zeros(16))[..16] == Le16(n) + bin[2..];
  }

  lemma HeadsApart(n: U16, m: U16, a: Bytes, b: Bytes)
    ensures Le16(n) + a == Le16(m) + b <==> n == m && a == b
  {
    assert (Le16(n) + a)[..2] == Le16(n) && (Le16(m) + b)[..2] == Le16(m);
    assert (Le16(n) + a)[2..] == a && (Le16(m) + b)[2..] == b;
  }

  /** Seeding with a digest and a length keeps apart what the encoder chains: frames that differ in their length or in
      the last 14 bytes of the digest before them draw from different states. */
  lemma SeedsApart(a: Bytes, n: U16, b: Bytes, m: U16)
    requires |a| == 16 && |b| == 16
    ensures SeedWithLength(a, n) == SeedWithLength(b, m) <==> n == m && a[2..] == b[2..]
  {
    hide Seed, StateBytes, LengthSeed, Le16;
    LengthSeedBytes(a, n);
    LengthSeedBytes(b, m);
    StepsInjective(4, Seed(LengthSeed(a, n)), Seed(LengthSeed(b, m)));
    HeadsApart(n, m, a[2..], b[2..]);
  }

  class Generator {
    var v0: U64
    var v1: U64

    constructor ()
      ensures State() == Rng(0, 0)
    {
      v0, v1 := 0, 0;
    }

    function State(): Rng
      reads this
    {
      Rng(v0, v1)
    }

    method Next() returns (n: nat)
      modifies this
      ensures n == Draw(old(State())) && State() == Step(old(State()))
    {
      var x: int, y: int := v0, v1;
      v0 := y;
      x := MixLow(x);
      x := MixHigh(x, y);
      v1 := x;
      n := (x + y) % 0x1_0000_0000_0000_0000;
    }

    method InitFromBin(bin: Bytes)
      modifies this
      ensures State() == Seed(bin)
    {
      var b := bin + seq(16, _ => 0);
      v0, v1 := Word(b[..8]), Word(b[8..16]);
    }

    method InitFromBinLen(bin: Bytes, length: U16)
      modifies this
      ensures State() == SeedWithLength(bin, length)
    {
      var b := bin + seq(16, _ => 0);
      InitFromBin(Le16(length) + b[2..]);
      ghost var seeded := State();
      for i := 0 to 4
        invariant State() == Steps(i, seeded)
      {
        var _ := Next();
      }
    }
  }
}
