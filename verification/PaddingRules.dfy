/**
 * What the padding rules choose: which entry of which table, which remainder of which draw, and where in the padding
 * the payload goes. The tables hold exactly the entries drawn.
 */
module PaddingRules {
  import opened ByteStrings
  import opened ChainCodec
  import opened PaddingTables
  import opened Sorting
  import opened Xorshift

  // ----- entries -----

  /** Entries below 1440, from draws modulo 2340: the draws from 1440 on start again, and so do those from 2040 on. */
  lemma EntryIs(draw: nat)
    ensures draw < 1440 ==> Entry(draw) == draw
    ensures 1440 <= draw < 2040 ==> Entry(draw) == draw - 1440
    ensures 2040 <= draw < 2340 ==> Entry(draw) == draw - 2040
    ensures Entry(draw + 2340) == Entry(draw)
  {
  }

  /** The draws of a generator, one after the other. */
  function NthDraw(g: Source, r: Rng, i: nat): nat
    decreases i
  {
    if i == 0 then g.draw(r) else NthDraw(g, g.step(r), i - 1)
  }

  function DrawnEntries(g: Source, r: Rng, n: nat): (s: seq<nat>)
    ensures |s| == n
  {
    seq(n, i requires 0 <= i < n => Entry(NthDraw(g, r, i)))
  }

  lemma {:induction false} EntriesAreDrawn(g: Source, r: Rng, n: nat)
    ensures Entries(g, r, n) == DrawnEntries(g, r, n)
    decreases n
  {
    hide Entry;
    if n > 0 {
      EntriesAreDrawn(g, g.step(r), n - 1);
      assert forall i :: 0 <= i < n - 1 ==> NthDraw(g, g.step(r), i) == NthDraw(g, r, i + 1);
    }
  }

  /** The table is the drawn entries in ascending order. */
  ghost predicate SortedDraws(t: seq<nat>, g: Source, r: Rng, n: nat) {
    (forall i, j :: 0 <= i < j < |t| ==> t[i] <= t[j]) && multiset(t) == multiset(DrawnEntries(g, r, n))
  }

  lemma {:induction false} TableIsSortedDraws(g: Source, r: Rng, n: nat)
    requires n > 0
    ensures SortedDraws(Table(g, r, n), g, r, n)
  {
    EntriesAreDrawn(g, r, n);
    hide Entries, DrawnEntries;
    SortSorts<nat>(Ascending(), Entries(g, r, n));
    SortPermutes<nat>(Ascending(), Entries(g, r, n));
    AscendingInOrder(Table(g, r, n));
  }

  lemma {:induction false} AscendingInOrder(t: seq<nat>)
    requires Sorted(Ascending(), t)
    ensures forall i, j :: 0 <= i < j < |t| ==> t[i] <= t[j]
  {
  }

  /** Both tables of variant b, one drawn after the other. */
  lemma {:induction false} TablesBAreDrawn(g: Source, key: Bytes)
    ensures var r := g.seed(key);
            var n1 := 4 + g.draw(r) % 8;
            var r1 := After(g, r, n1 + 1);
            && SortedDraws(TablesB(g, key).0, g, g.step(r), n1)
            && SortedDraws(TablesB(g, key).1, g, g.step(r1), 8 + g.draw(r1) % 16)
  {
    hide SortedDraws, Table;
    var r := g.seed(key);
    TableIsSortedDraws(g, g.step(r), 4 + g.draw(r) % 8);
    var r1 := After(g, r, 4 + g.draw(r) % 8 + 1);
    TableIsSortedDraws(g, g.step(r1), 8 + g.draw(r1) % 16);
  }

  lemma {:induction false} TableCIsDrawn(g: Source, key: Bytes)
    ensures var r := g.seed(key);
            SortedDraws(TableC(g, key), g, g.step(r), 12 + g.draw(r) % 24)
  {
    TableIsSortedDraws(g, g.step(g.seed(key)), 12 + g.draw(g.seed(key)) % 24);
  }

  /** The state after n draws, and the draws from there on. */
  lemma {:induction false} DrawsGoOn(g: Source, r: Rng, n: nat, i: nat)
    ensures NthDraw(g, After(g, r, n), i) == NthDraw(g, r, n + i)
    decreases n
  {
    if n > 0 {
      DrawsGoOn(g, g.step(r), n - 1, i);
    }
  }

  lemma {:induction false} OneDrawMore(g: Source, r: Rng, n: nat)
    ensures DrawnEntries(g, r, n + 1) == [Entry(g.draw(r))] + DrawnEntries(g, g.step(r), n)
  {
    hide Entry;
    assert forall i :: 0 <= i < n ==> NthDraw(g, g.step(r), i) == NthDraw(g, r, i + 1);
  }

  /** Patching adds the next entries drawn, as long as the last entry is below 1300. */
  lemma {:induction false} PatchAddsDraws(g: Source, s: seq<nat>, r: Rng)
    requires s != [] && |s| <= 64 && Small(s)
    ensures var t := Patch(g, s, r);
            t == s + DrawnEntries(g, r, |t| - |s|) && forall i :: |s| - 1 <= i < |t| - 1 ==> t[i] < 1300
    decreases 64 - |s|
  {
    hide Entry, DrawnEntries;
    var t := Patch(g, s, r);
    if |t| > |s| {
      var s1 := s + [Entry(g.draw(r))];
      PatchAddsDraws(g, s1, g.step(r));
      OneDrawMore(g, r, |t| - |s1|);
      assert s1 + DrawnEntries(g, g.step(r), |t| - |s1|) == s + DrawnEntries(g, r, |t| - |s|);
    } else {
      assert t == s + DrawnEntries(g, r, 0);
    }
  }

  /** The table of variant d: 12 to 35 entries drawn, and more, as long as all so far are below 1300, up to 64. */
  lemma {:induction false} TableDIsDrawn(g: Source, key: Bytes)
    ensures var r, t := g.seed(key), TableD(g, key);
            var n := 12 + g.draw(r) % 24;
            && n <= |t| && SortedDraws(t, g, g.step(r), |t|)
            && (|t| > n ==> forall i :: 0 <= i < |t| - 1 ==> DrawnEntries(g, g.step(r), |t|)[i] < 1300)
  {
    var r := g.seed(key);
    var n := 12 + g.draw(r) % 24;
    var s := Table(g, g.step(r), n);
    var t := Patch(g, s, After(g, g.step(r), n));
    assert TableD(g, key) == if |t| != |s| then Sort<nat>(Ascending(), t) else s;
    hide TableD;
    PatchedTable(g, g.step(r), n);
  }

  lemma {:induction false} PatchedTable(g: Source, r: Rng, n: nat)
    requires 0 < n <= 64
    ensures var s := Table(g, r, n);
            var t := Patch(g, s, After(g, r, n));
            if |t| == |s| then t == s && SortedDraws(s, g, r, n)
            else
              && SortedDraws(Sort<nat>(Ascending(), t), g, r, |t|) && |Sort<nat>(Ascending(), t)| == |t| > n
              && forall i :: 0 <= i < |t| - 1 ==> DrawnEntries(g, r, |t|)[i] < 1300
  {
    var s := Table(g, r, n);
    var t := Patch(g, s, After(g, r, n));
    TableIsSortedDraws(g, r, n);
    PatchAddsDraws(g, s, After(g, r, n));
    hide Table, Patch, DrawnEntries;
    if |t| > |s| {
      var all := DrawnEntries(g, r, |t|);
      assert n + (|t| - n) == |t|;
      MoreDraws(g, r, n, |t| - n);
      hide SortedDraws, Sort, Sorted;
      PatchedDraws(s, DrawnEntries(g, r, n), t, DrawnEntries(g, After(g, r, n), |t| - n), all);
      SortedAgain(t, g, r, |t|);
    }
  }

  lemma {:induction false} SortedAgain(t: seq<nat>, g: Source, r: Rng, n: nat)
    requires multiset(t) == multiset(DrawnEntries(g, r, n))
    ensures SortedDraws(Sort<nat>(Ascending(), t), g, r, n) && |Sort<nat>(Ascending(), t)| == |t|
  {
    hide DrawnEntries;
    SortSorts<nat>(Ascending(), t);
    SortPermutes<nat>(Ascending(), t);
    AscendingInOrder(Sort<nat>(Ascending(), t));
    assert |multiset(t)| == |multiset(Sort<nat>(Ascending(), t))|;
  }

  lemma {:induction false} PatchedDraws(s: seq<nat>, drawn: seq<nat>, t: seq<nat>, more: seq<nat>, all: seq<nat>)
    requires all == drawn + more && s != []
    requires (forall i, j :: 0 <= i < j < |s| ==> s[i] <= s[j]) && multiset(s) == multiset(drawn)
    requires t == s + more && more != [] && forall i :: |s| - 1 <= i < |t| - 1 ==> t[i] < 1300
    ensures multiset(t) == multiset(all) && |t| == |all| && forall i :: 0 <= i < |t| - 1 ==> all[i] < 1300
  {
    assert |drawn| == |multiset(drawn)| == |s|;
    assert t[|s| - 1] == s[|s| - 1];
    forall i | 0 <= i < |drawn|
      ensures drawn[i] < 1300
    {
      assert drawn[i] in multiset(s);
      var k :| 0 <= k < |s| && s[k] == drawn[i];
    }
    forall i | |s| <= i < |t| - 1
      ensures all[i] < 1300
    {
      assert t[i] == more[i - |s|] == all[i];
    }
  }

  lemma {:induction false} MoreDraws(g: Source, r: Rng, n: nat, m: nat)
    ensures DrawnEntries(g, r, n + m) == DrawnEntries(g, r, n) + DrawnEntries(g, After(g, r, n), m)
  {
    forall i | 0 <= i < m
      ensures NthDraw(g, After(g, r, n), i) == NthDraw(g, r, n + i)
    {
      DrawsGoOn(g, r, n, i);
    }
  }

  // ----- lengths -----

  /** How many entries a frame of this size can be filled up to. */
  function Fitting(t: seq<nat>, size: nat): (m: nat)
    ensures m <= |t|
  {
    if t == [] then 0 else (if t[0] >= size then 1 else 0) + Fitting(t[1..], size)
  }

  lemma {:induction false} BisectCounts(t: seq<nat>, size: nat)
    requires forall i, j :: 0 <= i < j < |t| ==> t[i] <= t[j]
    ensures BisectLeft(t, size) == |t| - Fitting(t, size)
  {
    if t != [] {
      BisectCounts(t[1..], size);
      if t[0] >= size {
        AllFit(t, size);
      }
    }
  }

  lemma {:induction false} AllFit(t: seq<nat>, size: nat)
    requires forall i :: 0 <= i < |t| ==> t[i] >= size
    ensures Fitting(t, size) == |t|
  {
    if t != [] {
      AllFit(t[1..], size);
    }
  }

  /** The remainder of a draw, by size class. */
  ghost predicate ClassPad(size: nat, draw: nat, pad: nat) {
    && (size <= 400 ==> pad == draw % 1021)
    && (400 < size <= 900 ==> pad == draw % 521)
    && (900 < size <= 1300 ==> pad == draw % 127)
    && (1300 < size ==> pad == draw % 31)
  }

  lemma RuleA(g: Source, n: U16, h: Digest, r: Rng)
    ensures var s, (pad, r') := g.seedWithLength(h, n), PadLenA(g, n, h, r);
            if n <= 1440 then ClassPad(n, g.draw(s), pad) && r' == g.step(s) else pad == 0 && r' == r
  {
  }

  /** Entry number k of those that fit fills the frame up. */
  ghost predicate FillsUp(t: seq<nat>, size: nat, k: nat, pad: nat) {
    k < Fitting(t, size) && size + pad == t[|t| - Fitting(t, size) + k]
  }

  /** Variant b: as many numbers as the first table has entries, of which those below the number of entries that fit
      choose one; then the same with the second table, where the largest number stands for a padding by size class and
      the others for none. */
  lemma {:induction false} RuleB(g: Source, t1: seq<nat>, t2: seq<nat>, overhead: nat, n: U16, h: Digest, r: Rng)
    requires IsTable(t1) && IsTable(t2)
    ensures var (pad, r') := PadLenB(g, t1, t2, overhead, n, h, r);
            var size, s := n + overhead, g.seedWithLength(h, n);
            var s1, s2 := g.step(s), g.step(g.step(s));
            var k1, k2 := g.draw(s) % |t1|, g.draw(s1) % |t2|;
            if n >= 1440 then pad == 0 && r' == r
            else if k1 < Fitting(t1, size) then FillsUp(t1, size, k1, pad) && r' == s1
            else if k2 < Fitting(t2, size) then FillsUp(t2, size, k2, pad) && r' == s2
            else if k2 < |t2| - 1 then pad == 0 && r' == s2
            else ClassPad(n, g.draw(s2), pad) && r' == g.step(s2)
  {
    AscendingInOrder(t1);
    AscendingInOrder(t2);
    BisectCounts(t1, n + overhead);
    BisectCounts(t2, n + overhead);
    hide BisectLeft, Fitting;
  }

  /** Variants c and d: one of the entries that fit; when none is larger, variant c pads by class and d not at all. */
  lemma {:induction false} RuleC(g: Source, t: seq<nat>, overhead: nat, n: U16, h: Digest, r: Rng)
    requires IsTable(t)
    ensures var (pad, r') := PadLenC(g, t, overhead, n, h, r);
            var size, s := n + overhead, g.seedWithLength(h, n);
            if t[|t| - 1] > size then
              Fitting(t, size) > 0 && FillsUp(t, size, g.draw(s) % Fitting(t, size), pad) && r' == g.step(s)
            else if size < 1440 then ClassPad(size, g.draw(s), pad) && r' == g.step(s)
            else pad == 0 && r' == s
  {
    AscendingInOrder(t);
    BisectCounts(t, n + overhead);
    hide BisectLeft, Fitting;
  }

  lemma {:induction false} RuleD(g: Source, t: seq<nat>, overhead: nat, n: U16, h: Digest, r: Rng)
    requires IsTable(t)
    ensures var (pad, r') := PadLenD(g, t, overhead, n, h, r);
            var size, s := n + overhead, g.seedWithLength(h, n);
            if t[|t| - 1] > size then
              Fitting(t, size) > 0 && FillsUp(t, size, g.draw(s) % Fitting(t, size), pad) && r' == g.step(s)
            else pad == 0 && r' == r
  {
    AscendingInOrder(t);
    BisectCounts(t, n + overhead);
    hide BisectLeft, Fitting;
  }

  /** Which rule and which table a variant uses, and where the payload goes. */
  lemma RulesOf(p: Primitives, g: Source, v: Variant, key: Bytes, overhead: nat, n: U16, h: Digest, r: Rng)
    ensures var q := WithPadding(p, g, v, key, overhead);
            && q.padLen(n, h, r)
            == (match v
                case VariantA => PadLenA(g, n, h, r)
                case VariantB => PadLenB(g, TablesB(g, key).0, TablesB(g, key).1, overhead, n, h, r)
                case VariantC => PadLenC(g, TableC(g, key), overhead, n, h, r)
                case VariantD => PadLenD(g, TableD(g, key), overhead, n, h, r))
            && (forall k: nat {:trigger q.startPos(k, r)} ::
                  k > 0 ==> q.startPos(k, r) == (g.draw(r) % 0x2_0000_0011 % k, g.step(r)))
  {
    hide TablesB, TableC, TableD;
  }
}
