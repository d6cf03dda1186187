/**
 * The padding rules of auth_chain a, b, c and d: how long the padding of a frame is, as a function of the payload
 * length, the previous digest and, for b, c and d, tables derived from the server key. They are stated
 * for any generator, given as functions; XORSHIFT is the one the program uses.
 */
module PaddingTables {
  import opened ByteStrings
  import opened Sorting
  import opened ChainCodec
  import opened Xorshift

  const ENTRY_LIMIT := 1440

  datatype Source = Source(
    draw: Rng -> nat,
    step: Rng -> Rng,
    seed: Bytes -> Rng,
    seedWithLength: (Bytes, U16) -> Rng)

  function XorshiftSource(): Source {
    Source((r: Rng) => Draw(r), (r: Rng) => Step(r), (b: Bytes) => Seed(b), (b: Bytes, n: U16) => SeedWithLength(b, n))
  }

  // ----- list.sort() -----

  function Ascending(): Order<nat> {
    (a: nat, b: nat) => a <= b
  }

  // ----- table construction -----

  function Entry(draw: nat): (e: nat)
    ensures e < ENTRY_LIMIT
  {
    draw % 2340 % 2040 % 1440
  }

  predicate Small(s: seq<nat>) {
    forall i :: 0 <= i < |s| ==> s[i] < ENTRY_LIMIT
  }

  /** A usable table: not empty, sorted, and every entry below the limit. */
  ghost predicate IsTable(s: seq<nat>) {
    s != [] && Sorted(Ascending(), s) && Small(s)
  }

  function Entries(g: Source, r: Rng, n: nat): (s: seq<nat>)
    ensures |s| == n && Small(s)
    decreases n
  {
    if n == 0 then [] else [Entry(g.draw(r))] + Entries(g, g.step(r), n - 1)
  }

  function After(g: Source, r: Rng, n: nat): Rng
    decreases n
  {
    if n == 0 then r else After(g, g.step(r), n - 1)
  }

  lemma EntriesSnoc(g: Source, r: Rng, n: nat)
    ensures Entries(g, r, n + 1) == Entries(g, r, n) + [Entry(g.draw(After(g, r, n)))]
    ensures After(g, r, n + 1) == g.step(After(g, r, n))
    decreases n
  {
    if n > 0 {
      EntriesSnoc(g, g.step(r), n - 1);
    }
  }

  lemma {:induction false} SortTable(s: seq<nat>)
    requires s != [] && Small(s)
    ensures IsTable(Sort<nat>(Ascending(), s)) && |Sort<nat>(Ascending(), s)| == |s|
  {
    SortSorts<nat>(Ascending(), s);
    forall i | 0 <= i < |Sort<nat>(Ascending(), s)|
      ensures Sort<nat>(Ascending(), s)[i] < ENTRY_LIMIT
    {
      SortMembers<nat>(Ascending(), s, Sort<nat>(Ascending(), s)[i]);
    }
  }

  /** A table of n entries drawn from r. */
  function Table(g: Source, r: Rng, n: nat): (t: seq<nat>)
    requires n > 0
    ensures IsTable(t) && |t| == n
  {
    SortTable(Entries(g, r, n));
    Sort<nat>(Ascending(), Entries(g, r, n))
  }

  /** The two tables of variant b. */
  function TablesB(g: Source, key: Bytes): (t: (seq<nat>, seq<nat>))
    ensures IsTable(t.0) && 4 <= |t.0| < 12 && IsTable(t.1) && 8 <= |t.1| < 24
  {
    var r := g.seed(key);
    var n1 := g.draw(r) % 8 + 4;
    var r1 := After(g, g.step(r), n1);
    var n2 := g.draw(r1) % 16 + 8;
    (Table(g, g.step(r), n1), Table(g, g.step(r1), n2))
  }

  /** The table of variant c. */
  function TableC(g: Source, key: Bytes): (t: seq<nat>)
    ensures IsTable(t) && 12 <= |t| < 36
  {
    var r := g.seed(key);
    Table(g, g.step(r), g.draw(r) % 24 + 12)
  }

  /** Variant d appends entries until the last one is big enough or there are 64. */
  function Patch(g: Source, s: seq<nat>, r: Rng): (t: seq<nat>)
    requires s != [] && |s| <= 64 && Small(s)
    ensures s <= t && |t| <= 64 && Small(t) && (|t| == 64 || t[|t| - 1] >= 1300)
    decreases 64 - |s|
  {
    if s[|s| - 1] < 1300 && |s| < 64 then Patch(g, s + [Entry(g.draw(r))], g.step(r)) else s
  }

  lemma {:induction false} SortKeepsMax(s: seq<nat>, x: nat)
    requires s != [] && s[|s| - 1] >= x
    ensures Sort<nat>(Ascending(), s)[|s| - 1] >= x
  {
    SortSorts<nat>(Ascending(), s);
    SortMembers<nat>(Ascending(), s, s[|s| - 1]);
  }

  /** The table of variant d: at most 64 entries, and either exactly 64 or a largest entry of at least 1300. */
  function TableD(g: Source, key: Bytes): (t: seq<nat>)
    ensures IsTable(t) && 12 <= |t| <= 64 && (|t| == 64 || t[|t| - 1] >= 1300)
  {
    var r := g.seed(key);
    var n := g.draw(r) % 24 + 12;
    var s := Table(g, g.step(r), n);
    var t := Patch(g, s, After(g, g.step(r), n));
    if |t| != |s| then
      SortTable(t);
      SortKeepsMax(t, t[|t| - 1]);
      Sort<nat>(Ascending(), t)
    else
      assert t == s;
      t
  }

  // ----- padding lengths -----

  /** bisect_left: the first position whose entry is at least x. */
  function BisectLeft(s: seq<nat>, x: nat): (i: nat)
    ensures i <= |s|
    ensures forall j :: 0 <= j < i ==> s[j] < x
    ensures i < |s| ==> s[i] >= x
  {
    if s == [] || s[0] >= x then 0 else
      var i := BisectLeft(s[1..], x) + 1;
      assert forall j :: 1 <= j < i ==> s[j] == s[1..][j - 1];
      i
  }

  /** Padding that depends on the size class alone. */
  function ByClass(size: nat, draw: nat): (n: nat)
    ensures n < if size > 1300 then 31 else if size > 900 then 127 else if size > 400 then 521 else 1021
  {
    if size > 1300 then draw % 31 else if size > 900 then draw % 127 else if size > 400 then draw % 521 else draw % 1021
  }

  function PadLenA(g: Source, n: U16, h: Digest, r: Rng): (nat, Rng) {
    if n > 1440 then (0, r)
    else
      var s := g.seedWithLength(h, n);
      (ByClass(n, g.draw(s)), g.step(s))
  }

  function PadLenB(g: Source, t1: seq<nat>, t2: seq<nat>, overhead: nat, n: U16, h: Digest, r: Rng): (nat, Rng)
    requires IsTable(t1) && IsTable(t2)
  {
    if n >= 1440 then (0, r)
    else
      var size := n + overhead;
      var s := g.seedWithLength(h, n);
      var pos1 := BisectLeft(t1, size);
      var final1 := pos1 + g.draw(s) % |t1|;
      var s1 := g.step(s);
      if final1 < |t1| then (t1[final1] - size, s1) else PadLenB2(g, t2, overhead, n, s1)
  }

  /** The second, finer table of variant b, tried when the first gives no size. */
  function PadLenB2(g: Source, t: seq<nat>, overhead: nat, n: U16, s: Rng): (nat, Rng)
    requires IsTable(t)
  {
    var size := n + overhead;
    var pos := BisectLeft(t, size);
    var final := pos + g.draw(s) % |t|;
    var s1 := g.step(s);
    if final < |t| then (t[final] - size, s1)
    else if final < pos + |t| - 1 then (0, s1)
    else (ByClass(n, g.draw(s1)), g.step(s1))
  }

  function PadLenC(g: Source, t: seq<nat>, overhead: nat, n: U16, h: Digest, r: Rng): (nat, Rng)
    requires IsTable(t)
  {
    var size := n + overhead;
    var s := g.seedWithLength(h, n);
    if size >= t[|t| - 1] then
      if size >= 1440 then (0, s) else (ByClass(size, g.draw(s)), g.step(s))
    else
      var pos := BisectLeft(t, size);
      var final := pos + g.draw(s) % (|t| - pos);
      (t[final] - size, g.step(s))
  }

  function PadLenD(g: Source, t: seq<nat>, overhead: nat, n: U16, h: Digest, r: Rng): (nat, Rng)
    requires IsTable(t)
  {
    var size := n + overhead;
    if size >= t[|t| - 1] then (0, r)
    else
      var s := g.seedWithLength(h, n);
      var pos := BisectLeft(t, size);
      var final := pos + g.draw(s) % (|t| - pos);
      (t[final] - size, g.step(s))
  }

  // ----- the variants as primitives of the codec -----

  datatype Variant = VariantA | VariantB | VariantC | VariantD

  function PadLen(g: Source, v: Variant, key: Bytes, overhead: nat, n: U16, h: Digest, r: Rng): (nat, Rng) {
    match v
    case VariantA => PadLenA(g, n, h, r)
    case VariantB => PadLenB(g, TablesB(g, key).0, TablesB(g, key).1, overhead, n, h, r)
    case VariantC => PadLenC(g, TableC(g, key), overhead, n, h, r)
    case VariantD => PadLenD(g, TableD(g, key), overhead, n, h, r)
  }

  function StartPos(g: Source, padLen: nat, r: Rng): (p: (nat, Rng))
    ensures padLen > 0 ==> p.0 < padLen
  {
    if padLen > 0 then (g.draw(r) % 8589934609 % padLen, g.step(r)) else (0, r)
  }

  function WithPadding(p: Primitives, g: Source, v: Variant, key: Bytes, overhead: nat): Primitives {
    p.(padLen := (n: U16, h: Digest, r: Rng) => PadLen(g, v, key, overhead, n, h, r),
       startPos := (n: nat, r: Rng) => StartPos(g, n, r))
  }

  /** What every rule does with the generator: it leaves it alone and pads nothing, or it reseeds it, so that neither
      the length nor the generator afterwards depend on the generator before. */
  lemma PadLenReseeds(g: Source, v: Variant, key: Bytes, overhead: nat, n: U16, h: Digest, r: Rng, r': Rng)
    ensures var a, b := PadLen(g, v, key, overhead, n, h, r), PadLen(g, v, key, overhead, n, h, r');
            a == b || (a == (0, r) && b == (0, r'))
  {
  }

  lemma PadLenBoundB(g: Source, t1: seq<nat>, t2: seq<nat>, overhead: nat, n: U16, h: Digest, r: Rng)
    requires IsTable(t1) && IsTable(t2)
    ensures PadLenB(g, t1, t2, overhead, n, h, r).0 < ENTRY_LIMIT
    ensures n >= ENTRY_LIMIT ==> PadLenB(g, t1, t2, overhead, n, h, r).0 == 0
  {
  }

  lemma PadLenBoundC(g: Source, t: seq<nat>, overhead: nat, n: U16, h: Digest, r: Rng)
    requires IsTable(t)
    ensures PadLenC(g, t, overhead, n, h, r).0 < ENTRY_LIMIT
    ensures n >= ENTRY_LIMIT ==> PadLenC(g, t, overhead, n, h, r).0 == 0
  {
  }

  /** The padding of a frame is below 1440 bytes, and a payload of at least 1440 bytes (of more than 1440, for variant
      a) is not padded; so payload and padding stay below the decoder's limit. */
  lemma PadLenBounds(g: Source, v: Variant, key: Bytes, overhead: nat, n: U16, h: Digest, r: Rng)
    ensures PadLen(g, v, key, overhead, n, h, r).0 < ENTRY_LIMIT
    ensures n > ENTRY_LIMIT ==> PadLen(g, v, key, overhead, n, h, r).0 == 0
    ensures n <= MAX_PAYLOAD ==> n as int + PadLen(g, v, key, overhead, n, h, r).0 < FRAME_LIMIT
  {
    match v
    case VariantA =>
    case VariantB => PadLenBoundB(g, TablesB(g, key).0, TablesB(g, key).1, overhead, n, h, r);
    case VariantC => PadLenBoundC(g, TableC(g, key), overhead, n, h, r);
    case VariantD =>
  }

  /** Every variant meets what the codec asks of its padding rule, for every key, overhead and generator. */
  lemma AllVariantsGood(p: Primitives, g: Source, v: Variant, key: Bytes, overhead: nat)
    ensures GoodPadding(WithPadding(p, g, v, key, overhead))
  {
    var q := WithPadding(p, g, v, key, overhead);
    forall n: U16, h, r
      ensures q.padLen(n, h, r).0 == q.padLen(n, h, UNSEEDED).0
      ensures q.padLen(n, h, r).0 > 0 ==> q.padLen(n, h, r) == q.padLen(n, h, UNSEEDED)
      ensures n <= MAX_PAYLOAD ==> (n as int) + q.padLen(n, h, r).0 < FRAME_LIMIT
    {
      PadLenReseeds(g, v, key, overhead, n, h, r, UNSEEDED);
      PadLenBounds(g, v, key, overhead, n, h, r);
    }
    forall n: U16, h, r
      ensures q.padLen(n, h, q.padLen(n, h, r).1) == q.padLen(n, h, r)
    {
      PadLenReseeds(g, v, key, overhead, n, h, r, q.padLen(n, h, r).1);
    }
  }

  // ----- table construction as the program does it -----

  /** The tables of a protocol object, and the generator they are drawn from. */
  class TableBuilder {
    const g: Source
    var rng: Rng
    var list1: seq<nat>
    var list2: seq<nat>

    constructor (g: Source)
      ensures this.g == g && list1 == [] && list2 == []
    {
      this.g := g;
      rng := UNSEEDED;
      list1, list2 := [], [];
    }

    method Next() returns (n: nat)
      modifies this`rng
      ensures n == g.draw(old(rng)) && rng == g.step(old(rng))
    {
      n, rng := g.draw(rng), g.step(rng);
    }

    /** A drawn number of drawn entries, sorted. */
    method DrawTable(spread: nat, least: nat) returns (list: seq<nat>)
      requires spread > 0 && least > 0
      modifies this`rng
      ensures var n := g.draw(old(rng)) % spread + least;
              list == Table(g, g.step(old(rng)), n) && rng == After(g, g.step(old(rng)), n)
    {
      var listLen := Next();
      listLen := listLen % spread + least;
      ghost var start := rng;
      list := [];
      for i := 0 to listLen
        invariant list == Entries(g, start, i) && rng == After(g, start, i)
      {
        var d := Next();
        EntriesSnoc(g, start, i);
        list := list + [Entry(d)];
      }
      list := Sort<nat>(Ascending(), list);
    }

    method InitDataSizeB(key: Bytes)
      modifies this
      ensures (list1, list2) == TablesB(g, key)
    {
      rng := g.seed(key);
      list1 := DrawTable(8, 4);
      list2 := DrawTable(16, 8);
    }

    method InitDataSizeC(key: Bytes)
      modifies this
      ensures list1 == TableC(g, key)
    {
      rng := g.seed(key);
      list1 := DrawTable(24, 12);
    }

    method CheckAndPatchDataSize()
      requires list1 != [] && |list1| <= 64 && Small(list1)
      modifies this`list1, this`rng
      ensures list1 == Patch(g, old(list1), old(rng))
      decreases 64 - |list1|
    {
      if list1[|list1| - 1] < 1300 && |list1| < 64 {
        var d := Next();
        list1 := list1 + [Entry(d)];
        CheckAndPatchDataSize();
      }
    }

    method InitDataSizeD(key: Bytes)
      modifies this
      ensures list1 == TableD(g, key)
    {
      hide Table, Patch, After, Sorted, Sorting.Sort, Entries;
      rng := g.seed(key);
      list1 := DrawTable(24, 12);
      var oldLen := |list1|;
      CheckAndPatchDataSize();
      if oldLen != |list1| {
        list1 := Sort<nat>(Ascending(), list1);
      }
    }
  }
}
