/** Byte strings, fixed-width integers as bytes (Python's struct.pack/unpack) and bitwise operations on naturals. */
module ByteStrings {

  type Byte = b: int | 0 <= b < 256
  type Bytes = seq<Byte>
  type U16 = n: int | 0 <= n < 0x1_0000
  type U64 = n: int | 0 <= n < 0x1_0000_0000_0000_0000
  type U32 = n: int | 0 <= n < 0x1_0000_0000

  function Min(a: nat, b: nat): nat {
    if a < b then a else b
  }

  // ----- fixed-width integers -----

  function Le16(n: U16): (b: Bytes)
    ensures |b| == 2
  {
    [n % 256, n / 256]
  }

  function UnLe16(b: Bytes): U16
    requires |b| == 2
  {
    (b[0] as int) + 256 * (b[1] as int)
  }

  function Be16(n: U16): (b: Bytes)
    ensures |b| == 2
  {
    [n / 256, n % 256]
  }

  function UnBe16(b: Bytes): U16
    requires |b| == 2
  {
    256 * (b[0] as int) + (b[1] as int)
  }

  function Le32(n: U32): (b: Bytes)
    ensures |b| == 4
  {
    Le16(n % 0x1_0000) + Le16(n / 0x1_0000)
  }

  function UnLe32(b: Bytes): U32
    requires |b| == 4
  {
    UnLe16(b[..2]) + 0x1_0000 * UnLe16(b[2..])
  }

  function Be32(n: U32): (b: Bytes)
    ensures |b| == 4
  {
    Be16(n / 0x1_0000) + Be16(n % 0x1_0000)
  }

  function UnBe32(b: Bytes): U32
    requires |b| == 4
  {
    0x1_0000 * UnBe16(b[..2]) + UnBe16(b[2..])
  }

  lemma Le32RoundTrip(n: U32)
    ensures UnLe32(Le32(n)) == n
  {
    assert Le32(n)[..2] == Le16(n % 0x1_0000);
    assert Le32(n)[2..] == Le16(n / 0x1_0000);
  }

  lemma UnLe32RoundTrip(b: Bytes)
    requires |b| == 4
    ensures Le32(UnLe32(b)) == b
  {
    UnLe16RoundTrip(b[..2]);
    UnLe16RoundTrip(b[2..]);
    hide Le16, UnLe16;
    WordHalves(UnLe16(b[..2]), UnLe16(b[2..]));
    assert b == b[..2] + b[2..];
  }

  lemma WordHalves(lo: U16, hi: U16)
    ensures (lo + 0x1_0000 * hi) % 0x1_0000 == lo && (lo + 0x1_0000 * hi) / 0x1_0000 == hi
  {
  }

  lemma UnLe16RoundTrip(b: Bytes)
    requires |b| == 2
    ensures Le16(UnLe16(b)) == b
  {
  }

  lemma Be32RoundTrip(n: U32)
    ensures UnBe32(Be32(n)) == n
  {
    assert Be32(n)[..2] == Be16(n / 0x1_0000);
    assert Be32(n)[2..] == Be16(n % 0x1_0000);
  }

  /** The low 32 bits read as a signed number: C's int, and int32 of common.py. */
  function Int32(x: int): (r: int)
    ensures -0x8000_0000 <= r < 0x8000_0000 && (r - x) % 0x1_0000_0000 == 0
    ensures -0x8000_0000 <= x < 0x8000_0000 ==> r == x
  {
    var low := x % 0x1_0000_0000;
    if low >= 0x8000_0000 then low - 0x1_0000_0000 else low
  }

  /** (n + 1) & 0xFFFFFFFF */
  function Succ32(n: U32): U32 {
    (n + 1) % 0x1_0000_0000
  }

  function Zeros(n: nat): (z: Bytes)
    ensures |z| == n
  {
    seq(n, _ => 0)
  }

  // ----- bitwise operations on w-bit naturals -----

  function Pow2(w: nat): (p: nat)
    ensures p > 0
  {
    if w == 0 then 1 else 2 * Pow2(w - 1)
  }

  function Xor(w: nat, a: nat, b: nat): (r: nat)
    ensures r < Pow2(w)
  {
    if w == 0 then 0 else 2 * Xor(w - 1, a / 2, b / 2) + XorBit(a % 2, b % 2)
  }

  function XorBit(x: nat, y: nat): (r: nat)
    ensures r < 2
  {
    if x == y then 0 else 1
  }

  /** XOR with the same mask twice is the identity. */
  lemma {:induction false} XorTwice(w: nat, a: nat, b: nat)
    requires a < Pow2(w)
    ensures Xor(w, Xor(w, a, b), b) == a
  {
    if w > 0 {
      XorTwice(w - 1, a / 2, b / 2);
      LastBit(Xor(w, a, b), Xor(w - 1, a / 2, b / 2), XorBit(a % 2, b % 2));
    }
  }

  lemma LastBit(n: nat, half: nat, bit: nat)
    requires n == 2 * half + bit && bit < 2
    ensures n / 2 == half && n % 2 == bit
  {
  }

  function Xor8(a: Byte, b: Byte): Byte {
    assert Pow2(8) == 256;
    Xor(8, a, b)
  }

  function Xor16(a: U16, b: U16): U16 {
    assert Pow2(8) == 256;
    assert Pow2(16) == 0x1_0000;
    Xor(16, a, b)
  }

  function Xor32(a: U32, b: U32): U32 {
    Pow2Of32();
    Xor(32, a, b)
  }

  function Xor64(a: U64, b: U64): U64 {
    Pow2Of64();
    Xor(64, a, b)
  }

  lemma Pow2Of32()
    ensures Pow2(32) == 0x1_0000_0000
  {
    assert Pow2(8) == 256;
    assert Pow2(16) == 0x1_0000;
    assert Pow2(24) == 0x100_0000;
  }

  lemma Pow2Of64()
    ensures Pow2(64) == 0x1_0000_0000_0000_0000
  {
    Pow2Of32();
    assert Pow2(40) == 0x100_0000_0000;
    assert Pow2(48) == 0x1_0000_0000_0000;
    assert Pow2(56) == 0x100_0000_0000_0000;
  }

  lemma Xor8Twice(a: Byte, b: Byte)
    ensures Xor8(Xor8(a, b), b) == a
  {
    assert Pow2(8) == 256;
    XorTwice(8, a, b);
  }

  lemma Xor16Twice(a: U16, b: U16)
    ensures Xor16(Xor16(a, b), b) == a
  {
    assert Pow2(8) == 256;
    assert Pow2(16) == 0x1_0000;
    XorTwice(16, a, b);
  }

  lemma Xor32Twice(a: U32, b: U32)
    ensures Xor32(Xor32(a, b), b) == a
  {
    Pow2Of32();
    XorTwice(32, a, b);
  }

  /** Bit i of a number. */
  function Bit(x: nat, i: nat): (r: nat)
    ensures r < 2
    decreases i
  {
    if i == 0 then x % 2 else Bit(x / 2, i - 1)
  }

  lemma {:induction false} BitOfXor(w: nat, a: nat, b: nat, i: nat)
    requires i < w
    ensures Bit(Xor(w, a, b), i) == XorBit(Bit(a, i), Bit(b, i))
  {
    LastBit(Xor(w, a, b), Xor(w - 1, a / 2, b / 2), XorBit(a % 2, b % 2));
    if i > 0 {
      BitOfXor(w - 1, a / 2, b / 2, i - 1);
    }
  }

  /** A number below 2^w is determined by its w bits. */
  lemma BitsDetermine(w: nat, a: nat, b: nat)
    requires a < Pow2(w) && b < Pow2(w)
    requires forall i :: 0 <= i < w ==> Bit(a, i) == Bit(b, i)
    ensures a == b
  {
    if w > 0 {
      forall i | 0 <= i < w - 1
        ensures Bit(a / 2, i) == Bit(b / 2, i)
      {
        assert Bit(a, i + 1) == Bit(b, i + 1);
      }
      BitsDetermine(w - 1, a / 2, b / 2);
      assert Bit(a, 0) == Bit(b, 0);
    }
  }

  lemma {:induction false} BitBeyond(w: nat, x: nat, i: nat)
    requires x < Pow2(w) && w <= i
    ensures Bit(x, i) == 0
    decreases i
  {
    if i > 0 {
      BitBeyond(if w > 0 then w - 1 else 0, x / 2, i - 1);
    }
  }

  lemma TwicePow2(q: nat, k: nat, r: nat)
    requires k > 0
    ensures (q * Pow2(k) + r) % 2 == r % 2 && (q * Pow2(k) + r) / 2 == q * Pow2(k - 1) + r / 2
  {
    assert q * Pow2(k) == 2 * (q * Pow2(k - 1));
  }

  /** The bits of a sum whose first part is a multiple of 2^k: those of the second part, then those of the multiple. */
  lemma BitOfSum(q: nat, k: nat, r: nat, i: nat)
    requires r < Pow2(k)
    ensures Bit(q * Pow2(k) + r, i) == if i < k then Bit(r, i) else Bit(q, i - k)
    decreases k
  {
    if k > 0 {
      TwicePow2(q, k, r);
      if i > 0 {
        BitOfSum(q, k - 1, r / 2, i - 1);
      }
    }
  }

  lemma {:induction false} BitOfZero(i: nat)
    ensures Bit(0, i) == 0
  {
    if i > 0 {
      BitOfZero(i - 1);
    }
  }

  // ----- flattening a list of byte strings (b''.join) -----

  function Flatten(parts: seq<Bytes>): Bytes {
    if parts == [] then [] else parts[0] + Flatten(parts[1..])
  }

  lemma {:induction false} FlattenAppend(a: seq<Bytes>, b: seq<Bytes>)
    ensures Flatten(a + b) == Flatten(a) + Flatten(b)
  {
    if a == [] {
      assert a + b == b;
    } else {
      assert (a + b)[1..] == a[1..] + b;
      FlattenAppend(a[1..], b);
    }
  }

  lemma FlattenOne(a: Bytes)
    ensures Flatten([a]) == a
  {
  }

  /** The last part of a list comes last. */
  lemma {:induction false} FlattenLast(parts: seq<Bytes>)
    requires parts != []
    ensures Flatten(parts) == Flatten(parts[..|parts| - 1]) + parts[|parts| - 1]
  {
    var init, last := parts[..|parts| - 1], parts[|parts| - 1];
    assert parts == init + [last];
    FlattenAppend(init, [last]);
    FlattenOne(last);
  }

  lemma SliceOfSlice(s: Bytes, lo: nat, hi: nat, i: nat, j: nat)
    requires i <= j && lo + j <= hi <= |s|
    ensures s[lo..hi][i..j] == s[lo + i..lo + j]
  {
    var part := s[lo..hi];
    forall k | 0 <= k < j - i
      ensures part[i..j][k] == s[lo + i..lo + j][k]
    {
      assert part[i..j][k] == part[i + k] == s[lo + (i + k)];
    }
  }
}
