/**
 * The IPv4 range merger (ipv4_merger.c): ranges are collected in a growing table,
 * sorted, and merged in place. The result is the normal form of the set of addresses.
 */
module RangeMerger {
  import opened ByteStrings
  import opened Sorting

  const MAX_ADDRESS: U32 := 0xFFFF_FFFF

  /** An inclusive range of addresses. */
  datatype Range = Range(start: U32, end: U32)

  // ----- the set a list denotes -----

  predicate Covers(s: seq<Range>, x: int) {
    exists i :: 0 <= i < |s| && s[i].start <= x <= s[i].end
  }

  predicate WellFormed(s: seq<Range>) {
    forall i :: 0 <= i < |s| ==> s[i].start <= s[i].end
  }

  ghost predicate SameSet(a: seq<Range>, b: seq<Range>) {
    forall x :: Covers(a, x) <==> Covers(b, x)
  }

  /** Sorted, with a gap of at least one address between neighbours. */
  predicate Canonical(s: seq<Range>) {
    WellFormed(s) && forall i, j :: 0 <= i < j < |s| ==> s[i].end + 1 < s[j].start
  }

  // ----- qsort -----

  /** The comparison function: by start, then by end. */
  function Compare(a: Range, b: Range): int {
    if a.start > b.start then 1
    else if a.start < b.start then -1
    else if a.end > b.end then 1
    else if a.end < b.end then -1
    else 0
  }

  function ByCompare(): Order<Range> {
    (a: Range, b: Range) => Compare(a, b) <= 0
  }

  ghost predicate SortedRanges(s: seq<Range>) {
    Sorted(ByCompare(), s)
  }

  /** The sorted order of a list; no two different ranges compare as equal, so every sort gives this. */
  function SortRanges(s: seq<Range>): (t: seq<Range>)
    ensures |t| == |s|
  {
    Sorting.Sort(ByCompare(), s)
  }

  lemma SortRangesSorts(s: seq<Range>)
    ensures SortedRanges(SortRanges(s)) && multiset(SortRanges(s)) == multiset(s)
  {
    SortSorts(ByCompare(), s);
    SortPermutes(ByCompare(), s);
  }

  lemma PermutationCovers(a: seq<Range>, b: seq<Range>)
    requires multiset(a) == multiset(b)
    ensures SameSet(a, b) && (WellFormed(a) ==> WellFormed(b))
  {
    forall i | 0 <= i < |a| ensures a[i] in b { assert a[i] in multiset(a); assert a[i] in multiset(b); }
    forall i | 0 <= i < |b| ensures b[i] in a { assert b[i] in multiset(b); assert b[i] in multiset(a); }
    forall x
      ensures Covers(a, x) <==> Covers(b, x)
    {
      if Covers(a, x) {
        var i :| 0 <= i < |a| && a[i].start <= x <= a[i].end;
        var j :| 0 <= j < |b| && b[j] == a[i];
      }
      if Covers(b, x) {
        var i :| 0 <= i < |b| && b[i].start <= x <= b[i].end;
        var j :| 0 <= j < |a| && a[j] == b[i];
      }
    }
  }

  // ----- merging -----

  /** Merging a sorted list into the current range: the guard on the largest address keeps end + 1 from wrapping. */
  function MergeInto(cur: Range, rest: seq<Range>): (r: seq<Range>)
    ensures 0 < |r| <= |rest| + 1
    decreases |rest|
  {
    if rest == [] then [cur]
    else if cur.end == MAX_ADDRESS then MergeInto(cur, rest[1..])
    else if rest[0].start <= cur.end + 1 then
      MergeInto(if rest[0].end > cur.end then cur.(end := rest[0].end) else cur, rest[1..])
    else [cur] + MergeInto(rest[0], rest[1..])
  }

  /** The normal form of a list of ranges. */
  function Normalize(s: seq<Range>): (r: seq<Range>)
    ensures |r| <= |s|
  {
    var t := SortRanges(s);
    if t == [] then [] else MergeInto(t[0], t[1..])
  }

  ghost predicate StartsFrom(lo: int, s: seq<Range>) {
    forall i :: 0 <= i < |s| ==> lo <= s[i].start
  }

  lemma CoversCons(r: Range, s: seq<Range>, x: int)
    ensures Covers([r] + s, x) <==> r.start <= x <= r.end || Covers(s, x)
  {
    if Covers(s, x) {
      var i :| 0 <= i < |s| && s[i].start <= x <= s[i].end;
      assert ([r] + s)[i + 1] == s[i];
    }
    assert ([r] + s)[0] == r;
  }

  /** Merging keeps the set of addresses, and its result is canonical and starts where the current range does. */
  lemma {:induction false} MergeIntoCorrect(cur: Range, rest: seq<Range>)
    requires cur.start <= cur.end && WellFormed(rest) && SortedRanges(rest) && StartsFrom(cur.start, rest)
    ensures Canonical(MergeInto(cur, rest)) && MergeInto(cur, rest)[0].start == cur.start
    ensures SameSet(MergeInto(cur, rest), [cur] + rest)
    decreases |rest|
  {
    if rest == [] {
      assert [cur] + rest == [cur];
    } else {
      var next, tail := rest[0], rest[1..];
      assert rest == [next] + tail;
      var cur' := if next.end > cur.end then cur.(end := next.end) else cur;
      if cur.end == MAX_ADDRESS || next.start <= cur.end + 1 {
        MergeIntoCorrect(cur', tail);
        forall x
          ensures Covers(MergeInto(cur, rest), x) <==> Covers([cur] + rest, x)
        {
          CoversCons(cur, rest, x);
          CoversCons(next, tail, x);
          CoversCons(cur', tail, x);
        }
      } else {
        MergeIntoCorrect(next, tail);
        var merged := MergeInto(next, tail);
        forall x
          ensures Covers(MergeInto(cur, rest), x) <==> Covers([cur] + rest, x)
        {
          CoversCons(cur, rest, x);
          CoversCons(cur, merged, x);
        }
        CanonicalCons(cur, merged);
      }
    }
  }

  lemma CanonicalCons(r: Range, s: seq<Range>)
    requires r.start <= r.end && Canonical(s) && (s != [] ==> r.end + 1 < s[0].start)
    ensures Canonical([r] + s)
  {
  }

  /** Exact and canonical: the normal form denotes the same addresses, sorted, with a gap between neighbours,
      ranges up to the last address included. */
  lemma NormalizeCorrect(s: seq<Range>)
    requires WellFormed(s)
    ensures Canonical(Normalize(s)) && SameSet(Normalize(s), s)
  {
    var t := SortRanges(s);
    SortRangesSorts(s);
    PermutationCovers(s, t);
    if t != [] {
      assert t == [t[0]] + t[1..];
      MergeIntoCorrect(t[0], t[1..]);
    }
  }

  // ----- normal form -----

  lemma CanonicalTail(s: seq<Range>, x: int)
    requires Canonical(s) && s != []
    ensures Canonical(s[1..])
    ensures Covers(s[1..], x) <==> Covers(s, x) && x > s[0].end
  {
    assert s == [s[0]] + s[1..];
    CoversCons(s[0], s[1..], x);
  }

  lemma FirstRangeAgrees(a: seq<Range>, b: seq<Range>)
    requires Canonical(a) && Canonical(b) && SameSet(a, b) && a != [] && b != []
    ensures a[0] == b[0]
  {
    assert Covers(a, a[0].start) && Covers(b, b[0].start);
    assert a[0].start == b[0].start;
    GapAfterFirst(a);
    GapAfterFirst(b);
    var x, y := a[0].end + 1, b[0].end + 1;
    assert (Covers(a, x) <==> Covers(b, x)) && (Covers(a, y) <==> Covers(b, y));
    assert b[0].start <= x <= b[0].end ==> Covers(b, x);
    assert a[0].start <= y <= a[0].end ==> Covers(a, y);
  }

  lemma GapAfterFirst(a: seq<Range>)
    requires Canonical(a) && a != []
    ensures !Covers(a, a[0].end + 1)
  {
  }

  /** Two canonical lists of the same addresses are the same list. */
  lemma NormalFormUnique(a: seq<Range>, b: seq<Range>)
    requires Canonical(a) && Canonical(b) && SameSet(a, b)
    ensures a == b
    decreases |a|
  {
    if a != [] {
      assert Covers(a, a[0].start);
    }
    if b != [] {
      assert Covers(b, b[0].start);
    }
    if a != [] && b != [] {
      FirstRangeAgrees(a, b);
      forall x
        ensures Covers(a[1..], x) <==> Covers(b[1..], x)
      {
        CanonicalTail(a, x);
        CanonicalTail(b, x);
      }
      CanonicalTail(a, 0);
      CanonicalTail(b, 0);
      NormalFormUnique(a[1..], b[1..]);
      assert a == [a[0]] + a[1..];
      assert b == [b[0]] + b[1..];
    }
  }

  /** The result depends only on the set of addresses: not on order, duplicates, or how ranges were split.
      Conversely equal results come only from equal sets. */
  lemma NormalizeDecidesSet(s: seq<Range>, t: seq<Range>)
    requires WellFormed(s) && WellFormed(t)
    ensures Normalize(s) == Normalize(t) <==> SameSet(s, t)
  {
    NormalizeCorrect(s);
    NormalizeCorrect(t);
    if SameSet(s, t) {
      NormalFormUnique(Normalize(s), Normalize(t));
    }
  }

  /** Merging again changes nothing. */
  lemma NormalizeIdempotent(s: seq<Range>)
    requires WellFormed(s)
    ensures Normalize(Normalize(s)) == Normalize(s)
  {
    NormalizeCorrect(s);
    NormalizeDecidesSet(Normalize(s), s);
  }

  /** No list of ranges that denotes the same addresses is shorter. */
  lemma NormalizeShortest(s: seq<Range>, t: seq<Range>)
    requires WellFormed(s) && WellFormed(t) && SameSet(s, t)
    ensures |Normalize(s)| <= |t|
  {
    NormalizeDecidesSet(s, t);
  }

  // ----- networks -----

  /** ~x on 32 bits. */
  function Not32(x: U32): U32 {
    MAX_ADDRESS - x
  }

  function And(w: nat, a: nat, b: nat): nat {
    if w == 0 then 0 else 2 * And(w - 1, a / 2, b / 2) + if a % 2 == 1 && b % 2 == 1 then 1 else 0
  }

  function Or(w: nat, a: nat, b: nat): nat {
    if w == 0 then 0 else 2 * Or(w - 1, a / 2, b / 2) + if a % 2 == 1 || b % 2 == 1 then 1 else 0
  }

  lemma {:induction false} AndOrBounds(w: nat, a: nat, b: nat)
    requires a < Pow2(w) && b < Pow2(w)
    ensures And(w, a, b) <= a <= Or(w, a, b) < Pow2(w)
  {
    if w > 0 {
      AndOrBounds(w - 1, a / 2, b / 2);
    }
  }

  /** The mask of a prefix of n bits, as the program computes it. */
  function PrefixMask(n: nat): U32
    requires n <= 32
  {
    if n == 0 then 0 else
      Pow2Monotone(32 - n, 32);
      Pow2Of32();
      Not32(Pow2(32 - n) - 1)
  }

  lemma {:induction false} Pow2Monotone(a: nat, b: nat)
    requires a <= b
    ensures Pow2(a) <= Pow2(b)
    decreases b
  {
    if a < b {
      Pow2Monotone(a, b - 1);
    }
  }

  function Netmask(net: U32, mask: U32): (r: Range)
    ensures r.start <= net <= r.end
  {
    Pow2Of32();
    AndOrBounds(32, net, mask);
    AndOrBounds(32, net, Not32(mask));
    Range(And(32, net, mask), Or(32, net, Not32(mask)))
  }

  function Net(net: U32, bits: nat): Range
    requires bits <= 32
  {
    Netmask(net, PrefixMask(bits))
  }

  lemma {:induction false} LastBit(w: nat, a: nat, b: nat)
    requires w > 0
    ensures And(w, a, 2 * b) == 2 * And(w - 1, a / 2, b)
    ensures Or(w, a, 2 * b + 1) == 2 * Or(w - 1, a / 2, b) + 1
  {
    assert (2 * b) / 2 == b && (2 * b + 1) / 2 == b;
  }

  lemma HalfBlock(low: nat, masked: nat, high: nat, x: nat)
    requires low <= x / 2 <= high <==> masked == low
    ensures 2 * low <= x <= 2 * high + 1 <==> 2 * masked == 2 * low
  {
  }

  /** With a mask of w - k ones followed by k zeros, the addresses between net & mask and net | ~mask are those with
      the same masked bits. */
  lemma PrefixBlock(w: nat, k: nat, net: nat, x: nat)
    requires k <= w && net < Pow2(w) && x < Pow2(w)
    ensures Pow2(k) <= Pow2(w)
    ensures var mask := Pow2(w) - Pow2(k);
            And(w, net, mask) <= x <= Or(w, net, Pow2(k) - 1) <==> And(w, x, mask) == And(w, net, mask)
    decreases w
  {
    hide And, Or;
    Pow2Monotone(k, w);
    if k == 0 {
      AllOnes(w, net);
      AllOnes(w, x);
    } else {
      PrefixBlock(w - 1, k - 1, net / 2, x / 2);
      var mask, low := Pow2(w - 1) - Pow2(k - 1), Pow2(k - 1) - 1;
      assert Pow2(w) - Pow2(k) == 2 * mask && Pow2(k) - 1 == 2 * low + 1;
      LastBit(w, net, mask);
      LastBit(w, x, mask);
      LastBit(w, net, low);
      HalfBlock(And(w - 1, net / 2, mask), And(w - 1, x / 2, mask), Or(w - 1, net / 2, low), x);
    }
  }

  lemma {:induction false} AllOnes(w: nat, a: nat)
    requires a < Pow2(w)
    ensures And(w, a, Pow2(w) - 1) == a && Or(w, a, 0) == a
  {
    if w > 0 {
      AllOnes(w - 1, a / 2);
      assert (Pow2(w) - 1) / 2 == Pow2(w - 1) - 1 && (Pow2(w) - 1) % 2 == 1;
    }
  }

  /** net/bits covers exactly the addresses that agree with net in the first bits. */
  lemma {:induction false} NetCovers(net: U32, bits: nat, x: U32)
    requires bits <= 32
    ensures var mask := PrefixMask(bits);
            Covers([Net(net, bits)], x) <==> And(32, x, mask) == And(32, net, mask)
  {
    hide And, Or, Pow2;
    Pow2Of32();
    Pow2Monotone(32 - bits, 32);
    PrefixBlock(32, 32 - bits, net, x);
    var r := Net(net, bits);
    assert [r][0] == r;
    assert Not32(PrefixMask(bits)) == Pow2(32 - bits) - 1;
  }

  // ----- the table -----

  class RangeTable {
    var base: array?<Range>
    var size: nat
    var length: nat

    ghost predicate Valid()
      reads this
    {
      (base == null ==> length == 0) && (base != null ==> base.Length == size && length < size && 100 <= size)
    }

    ghost function Contents(): seq<Range>
      requires Valid()
      reads this, base
    {
      if base == null then [] else base[..length]
    }

    constructor ()
      ensures Valid() && Contents() == [] && base == null
    {
      base, size, length := null, 0, 0;
    }

    /** Appends a range; the table is allocated on first use and doubled when the next entry would fill it. */
    method AddRange(start: U32, end: U32)
      requires Valid()
      modifies this, base
      ensures Valid() && Contents() == old(Contents()) + [Range(start, end)]
      ensures base == old(base) || fresh(base)
    {
      if base == null {
        if size < 100 {
          size := 100;
        }
        base := new Range[size](_ => Range(0, 0));
        length := 0;
      }
      if length + 1 >= size {
        var larger := new Range[2 * size](_ => Range(0, 0));
        forall i | 0 <= i < length {
          larger[i] := base[i];
        }
        size := 2 * size;
        base := larger;
      }
      base[length] := Range(start, end);
      length := length + 1;
    }

    method AddNetmask(net: U32, mask: U32)
      requires Valid()
      modifies this, base
      ensures Valid() && Contents() == old(Contents()) + [Netmask(net, mask)]
    {
      var r := Netmask(net, mask);
      AddRange(r.start, r.end);
    }

    method AddNet(net: U32, bits: nat)
      requires Valid() && bits <= 32
      modifies this, base
      ensures Valid() && Contents() == old(Contents()) + [Net(net, bits)]
    {
      AddNetmask(net, PrefixMask(bits));
    }

    /** qsort on the used part of the table. */
    method Sort()
      requires Valid() && base != null
      modifies base
      ensures Contents() == SortRanges(old(Contents()))
    {
      var s := SortRanges(base[..length]);
      forall i | 0 <= i < length {
        base[i] := s[i];
      }
      assert base[..length] == s;
    }

    /** Sorts and merges in place: the write index trails the read index over the same table. */
    method Close()
      requires Valid()
      modifies this`length, base
      ensures Valid() && Contents() == Normalize(old(Contents()))
    {
      if base == null {
        return;
      }
      if length < 2 {
        SingleNormal(base[..length]);
        return;
      }
      Sort();
      ghost var sorted := base[..length];
      length := MergeInPlace(base, length);
      assert sorted[0] == old(SortRanges(base[..length]))[0];
    }
  }

  /** One round of the merge loop. */
  lemma MergeRound(cur: Range, rest: seq<Range>)
    requires rest != []
    ensures cur.end == MAX_ADDRESS ==> MergeInto(cur, rest) == MergeInto(cur, rest[1..])
    ensures cur.end < MAX_ADDRESS && rest[0].start <= cur.end + 1 ==>
              MergeInto(cur, rest) == MergeInto(if rest[0].end > cur.end then cur.(end := rest[0].end)
                                                else cur, rest[1..])
    ensures cur.end < MAX_ADDRESS && rest[0].start > cur.end + 1 ==>
              MergeInto(cur, rest) == [cur] + MergeInto(rest[0], rest[1..])
  {
  }

  /** The merge loop: the write index trails the read index over the same table. */
  method MergeInPlace(a: array<Range>, n: nat) returns (m: nat)
    requires 2 <= n <= a.Length
    modifies a
    ensures 0 < m <= n && a[..m] == MergeInto(old(a[0]), old(a[1..n]))
  {
    hide MergeInto;
    ghost var done: seq<Range> := [];
    ghost var rest := a[1..n];
    ghost var total := MergeInto(a[0], rest);
    var wi, ri := 0, 1;
    while ri < n
      invariant 0 <= wi < ri <= n
      invariant a[ri..n] == rest && a[..wi] == done
      invariant total == done + MergeInto(a[wi], rest)
    {
      ghost var cur := a[wi];
      assert a[ri] == rest[0] && a[ri + 1..n] == rest[1..];
      MergeRound(cur, rest);
      if a[wi].end == MAX_ADDRESS {
      } else if a[ri].start <= a[wi].end + 1 {
        if a[ri].end > a[wi].end {
          a[wi] := a[wi].(end := a[ri].end);
        }
      } else {
        assert done + ([cur] + MergeInto(rest[0], rest[1..])) == (done + [cur]) + MergeInto(rest[0], rest[1..]);
        done := done + [cur];
        wi := wi + 1;
        if wi < ri {
          a[wi] := a[ri];
        }
      }
      rest := rest[1..];
      ri := ri + 1;
    }
    assert a[..wi + 1] == a[..wi] + [a[wi]];
    MergeEnds(a[wi]);
    m := wi + 1;
  }

  lemma {:induction false} MergeEnds(cur: Range)
    ensures MergeInto(cur, []) == [cur]
  {
  }

  lemma SingleNormal(s: seq<Range>)
    requires |s| < 2
    ensures Normalize(s) == s
  {
    if s != [] {
      assert s[1..] == [] && SortRanges(s[1..]) == [];
    }
  }
}
