/** A written archive, opened again, finds exactly the stored values. */
module LmoRoundTrip {
  import opened ByteStrings
  import opened LmoArchive
  import opened Options
  import opened Sorting

  // ----- sorting -----

  ghost predicate DistinctIds(h: Hash, kept: seq<Pair>) {
    forall i, j :: 0 <= i < j < |kept| ==> h(kept[i].key) != h(kept[j].key)
  }

  /** Key ids strictly increase. */
  ghost predicate Increasing(s: seq<Entry>) {
    forall i, j :: 0 <= i < j < |s| ==> s[i].keyId < s[j].keyId
  }

  lemma SortIncreases(s: seq<Entry>)
    requires forall i, j :: 0 <= i < j < |s| ==> s[i].keyId != s[j].keyId
    ensures Increasing(SortEntries(s))
  {
    SortStrict(ByKeyId(), s);
  }

  // ----- values and entries -----

  /** Entry i says where value i is. */
  lemma {:induction false} ValueAt(h: Hash, kept: seq<Pair>, i: nat)
    requires i < |kept|
    ensures var at := |Values(kept[..i])|;
            && at + |kept[i].val| <= |Values(kept)|
            && Values(kept)[at..at + |kept[i].val|] == kept[i].val
            && Entries(h, kept)[i] == EntryOf(h, kept[i], at)
    decreases |kept|
  {
    var last := |kept| - 1;
    var init := kept[..last];
    if i < last {
      ValueAt(h, init, i);
      assert init[..i] == kept[..i];
      var at := |Values(kept[..i])|;
      assert Values(kept)[0..|Values(init)|] == Values(init);
      SliceOfSlice(Values(kept), 0, |Values(init)|, at, at + |kept[i].val|);
    } else {
      assert Padded(kept[i].val)[..|kept[i].val|] == kept[i].val;
    }
  }

  // ----- the index -----

  lemma {:induction false} IndexSlice(s: seq<Entry>, m: nat)
    requires m < |s|
    ensures IndexBytes(s)[ENTRY_SIZE * m..ENTRY_SIZE * m + ENTRY_SIZE] == EntryBytes(s[m])
    decreases m
  {
    hide EntryBytes;
    if m > 0 {
      IndexSlice(s[1..], m - 1);
      var at := ENTRY_SIZE * (m - 1);
      assert IndexBytes(s)[ENTRY_SIZE..] == IndexBytes(s[1..]);
      assert IndexBytes(s)[at + ENTRY_SIZE..at + 2 * ENTRY_SIZE] == IndexBytes(s[1..])[at..at + ENTRY_SIZE];
    }
  }

  lemma FieldsOf(e: Entry)
    ensures var b := EntryBytes(e);
            && UnBe32(b[0..4]) == e.keyId && UnBe32(b[4..8]) == e.valId
            && UnBe32(b[8..12]) == e.offset && UnBe32(b[12..16]) == e.length
  {
    hide Be32, UnBe32;
    var b := EntryBytes(e);
    assert b[0..4] == Be32(e.keyId) && b[4..8] == Be32(e.valId) && b[8..12] == Be32(e.offset)
           && b[12..16] == Be32(e.length);
    Be32RoundTrip(e.keyId);
    Be32RoundTrip(e.valId);
    Be32RoundTrip(e.offset);
    Be32RoundTrip(e.length);
  }

  /** A file made of values, an index and the index offset. */
  ghost predicate Holds(file: Bytes, values: Bytes, entries: seq<Entry>) {
    && |values| + ENTRY_SIZE * |entries| + 4 < 0x1_0000_0000
    && file == values + IndexBytes(entries) + Be32(|values|)
  }

  /** lmo_open finds the index where it was written. */
  lemma OpenFindsIndex(wide: bool, file: Bytes, values: Bytes, entries: seq<Entry>)
    requires Holds(file, values, entries)
    ensures Open(wide, file) == Some(Archive(file, |values|, |entries|))
  {
    hide IndexBytes, UnBe32, Be32;
    assert file[|file| - 4..] == Be32(|values|);
    Be32RoundTrip(|values|);
    assert |file| - |values| - 4 == ENTRY_SIZE * |entries|;
  }

  lemma EntryAtIs(file: Bytes, values: Bytes, entries: seq<Entry>, m: nat)
    requires Holds(file, values, entries) && m < |entries|
    ensures var ar := Archive(file, |values|, |entries|);
            Indexed(ar) && EntryAt(ar, m) == entries[m] && KeyAt(ar, m) == entries[m].keyId
  {
    hide IndexBytes, EntryBytes, UnBe32, Be32;
    var at := |values| + ENTRY_SIZE * m;
    var b := EntryBytes(entries[m]);
    assert ENTRY_SIZE * m + ENTRY_SIZE <= ENTRY_SIZE * |entries|;
    assert file[at..at + ENTRY_SIZE] == b by {
      IndexSlice(entries, m);
      SliceInMiddle(values, IndexBytes(entries), Be32(|values|), ENTRY_SIZE * m, ENTRY_SIZE);
    }
    FieldsOf(entries[m]);
    SliceOfSlice(file, at, at + ENTRY_SIZE, 0, 4);
    SliceOfSlice(file, at, at + ENTRY_SIZE, 4, 8);
    SliceOfSlice(file, at, at + ENTRY_SIZE, 8, 12);
    SliceOfSlice(file, at, at + ENTRY_SIZE, 12, 16);
  }

  lemma SliceInMiddle(a: Bytes, b: Bytes, c: Bytes, at: nat, n: nat)
    requires at + n <= |b|
    ensures (a + b + c)[|a| + at..|a| + at + n] == b[at..at + n]
  {
  }

  // ----- the round trip -----

  /** What po2lmo needs: something to write, ids that differ, values below 2^31 bytes and a file below 2^32. */
  ghost predicate Writable(h: Hash, pairs: seq<Pair>) {
    var kept := Kept(h, pairs);
    && kept != [] && DistinctIds(h, kept)
    && |Values(kept)| < 0x8000_0000 && |Values(kept)| + ENTRY_SIZE * |kept| + 4 < 0x1_0000_0000
  }

  function SortedIndex(h: Hash, kept: seq<Pair>): seq<Entry> {
    SortEntries(Entries(h, kept))
  }

  lemma {:induction false} WrittenHolds(h: Hash, pairs: seq<Pair>)
    requires Writable(h, pairs)
    ensures Archived(h, pairs).Some?
    ensures Holds(Archived(h, pairs).value, Values(Kept(h, pairs)), SortedIndex(h, Kept(h, pairs)))
  {
    hide IndexBytes, Be32, SortEntries, Entries, Kept, Values;
    ArchiveWritten(h, pairs);
  }

  lemma EntriesIncrease(h: Hash, kept: seq<Pair>)
    requires DistinctIds(h, kept)
    ensures Increasing(SortedIndex(h, kept))
  {
    var s := Entries(h, kept);
    forall i, j | 0 <= i < j < |s|
      ensures s[i].keyId != s[j].keyId
    {
      ValueAt(h, kept, i);
      ValueAt(h, kept, j);
    }
    SortIncreases(s);
  }

  /** The archive that a written file opens as. */
  function Reopened(h: Hash, kept: seq<Pair>, file: Bytes): Archive {
    Archive(file, |Values(kept)|, |kept|)
  }

  lemma {:induction false} ReopenedAscends(h: Hash, kept: seq<Pair>, file: Bytes)
    requires DistinctIds(h, kept) && Holds(file, Values(kept), SortedIndex(h, kept))
    ensures Indexed(Reopened(h, kept, file)) && Ascending(Reopened(h, kept, file))
  {
    hide IndexBytes, Be32, SortedIndex, Values, KeyAt;
    SortedLength(h, kept);
    var ar := Reopened(h, kept, file);
    EntriesIncrease(h, kept);
    var s := SortedIndex(h, kept);
    forall i, j | 0 <= i < j < ar.length
      ensures KeyAt(ar, i) < KeyAt(ar, j)
    {
      EntryAtIs(file, Values(kept), s, i);
      EntryAtIs(file, Values(kept), s, j);
    }
  }

  lemma SortedLength(h: Hash, kept: seq<Pair>)
    ensures |SortedIndex(h, kept)| == |kept|
  {
  }

  /** Where the entry of pair i has come to, and what it says. */
  lemma EntryOfPair(h: Hash, kept: seq<Pair>, file: Bytes, i: nat) returns (m: nat)
    requires Holds(file, Values(kept), SortedIndex(h, kept)) && i < |kept|
    ensures Indexed(Reopened(h, kept, file)) && m < |kept|
    ensures EntryAt(Reopened(h, kept, file), m) == EntryOf(h, kept[i], |Values(kept[..i])|)
    ensures KeyAt(Reopened(h, kept, file), m) == h(kept[i].key)
  {
    hide IndexBytes, Be32, Values, KeyAt, EntryAt;
    var e := Entries(h, kept)[i];
    SortMembers(ByKeyId(), Entries(h, kept), e);
    SortedLength(h, kept);
    m :| 0 <= m < |SortedIndex(h, kept)| && SortedIndex(h, kept)[m] == e;
    EntryAtIs(file, Values(kept), SortedIndex(h, kept), m);
    ValueAt(h, kept, i);
  }

  /** The pair that an entry came from. */
  lemma PairOfEntry(h: Hash, kept: seq<Pair>, file: Bytes, m: nat) returns (i: nat)
    requires Holds(file, Values(kept), SortedIndex(h, kept)) && m < |kept|
    ensures Indexed(Reopened(h, kept, file)) && i < |kept|
    ensures KeyAt(Reopened(h, kept, file), m) == h(kept[i].key)
  {
    hide IndexBytes, Be32, Values, KeyAt, EntryAt;
    SortedLength(h, kept);
    var e := SortedIndex(h, kept)[m];
    SortMembers(ByKeyId(), Entries(h, kept), e);
    EntryAtIs(file, Values(kept), SortedIndex(h, kept), m);
    i :| 0 <= i < |Entries(h, kept)| && Entries(h, kept)[i] == e;
    ValueAt(h, kept, i);
  }

  /** What *out and *outlen of lmo_translate give for a found entry. */
  predicate Yields(ar: Archive, m: nat, val: Bytes)
    requires Indexed(ar) && m < ar.length
  {
    var e := EntryAt(ar, m);
    e.offset as int + e.length as int <= |ar.file| && ar.file[e.offset..e.offset as int + e.length as int] == val
  }

  lemma {:induction false} EntryYields(h: Hash, kept: seq<Pair>, file: Bytes, i: nat, m: nat)
    requires Holds(file, Values(kept), SortedIndex(h, kept)) && i < |kept| && m < |kept|
    requires Indexed(Reopened(h, kept, file)) && |Values(kept)| < 0x1_0000_0000
    requires EntryAt(Reopened(h, kept, file), m) == EntryOf(h, kept[i], |Values(kept[..i])|)
    ensures Yields(Reopened(h, kept, file), m, kept[i].val)
  {
    hide IndexBytes, Be32, Values, SortedIndex, EntryAt;
    ValueAt(h, kept, i);
    var at := |Values(kept[..i])|;
    SliceOfSlice(file, 0, |Values(kept)|, at, at + |kept[i].val|);
    assert file[0..|Values(kept)|] == Values(kept);
    hide Holds;
    var e := EntryAt(Reopened(h, kept, file), m);
    assert e.offset == at && e.length == |kept[i].val|;
  }

  /** The round trip: a written archive opens; its index ascends; every stored key id is found, with exactly its value;
      and no other id is found. */
  lemma {:induction false} ArchiveRoundTrip(h: Hash, pairs: seq<Pair>)
    requires Writable(h, pairs)
    ensures Archived(h, pairs).Some?
    ensures var kept, file := Kept(h, pairs), Archived(h, pairs).value;
            var ar := Reopened(h, kept, file);
            && 4 <= |file| < 0x1_0000_0000 && Open(true, file) == Open(false, file) == Some(ar)
            && Indexed(ar) && Ascending(ar) && 1 <= ar.length
            && (forall i :: 0 <= i < |kept| ==> FindsValue(ar, h(kept[i].key), kept[i].val))
            && (forall id: U32 :: (forall i :: 0 <= i < |kept| ==> h(kept[i].key) != id) ==> Find(ar, id) == Missing)
  {
    hide IndexBytes, Be32, Values, EntryAt, KeyAt, SortedIndex, Archived, Open, Indexed, Ascending, Kept;
    WrittenHolds(h, pairs);
    var kept, file := Kept(h, pairs), Archived(h, pairs).value;
    var ar := Reopened(h, kept, file);
    SortedLength(h, kept);
    OpenFindsIndex(true, file, Values(kept), SortedIndex(h, kept));
    OpenFindsIndex(false, file, Values(kept), SortedIndex(h, kept));
    ReopenedAscends(h, kept, file);
    FileSize(file, Values(kept), SortedIndex(h, kept));
    forall i | 0 <= i < |kept|
      ensures FindsValue(ar, h(kept[i].key), kept[i].val)
    {
      StoredIsFound(h, kept, file, i);
    }
    forall id: U32 | forall i :: 0 <= i < |kept| ==> h(kept[i].key) != id
      ensures Find(ar, id) == Missing
    {
      OthersAreNot(h, kept, file, id);
    }
  }

  lemma FileSize(file: Bytes, values: Bytes, entries: seq<Entry>)
    requires Holds(file, values, entries)
    ensures 4 <= |file| < 0x1_0000_0000
  {
  }

  ghost predicate FindsValue(ar: Archive, id: U32, val: Bytes)
    requires Indexed(ar)
  {
    var m := Find(ar, id);
    m.Hit? && Yields(ar, m.entry, val)
  }

  lemma {:induction false} StoredIsFound(h: Hash, kept: seq<Pair>, file: Bytes, i: nat)
    requires Holds(file, Values(kept), SortedIndex(h, kept)) && DistinctIds(h, kept) && i < |kept|
    ensures Indexed(Reopened(h, kept, file)) && FindsValue(Reopened(h, kept, file), h(kept[i].key), kept[i].val)
  {
    hide IndexBytes, Be32, Values, EntryAt, KeyAt, SortedIndex, Holds, Yields;
    var ar := Reopened(h, kept, file);
    var m := EntryOfPair(h, kept, file, i);
    ReopenedAscends(h, kept, file);
    FindIsLookup(ar, h(kept[i].key));
    assert Lookup(ar, h(kept[i].key), 0) == Some(m);
    assert |Values(kept)| < 0x1_0000_0000 by {
      ValuesSize(h, kept, file);
    }
    EntryYields(h, kept, file, i, m);
  }

  lemma {:induction false} ValuesSize(h: Hash, kept: seq<Pair>, file: Bytes)
    requires Holds(file, Values(kept), SortedIndex(h, kept))
    ensures |Values(kept)| < 0x1_0000_0000
  {
  }

  lemma {:induction false} OthersAreNot(h: Hash, kept: seq<Pair>, file: Bytes, id: U32)
    requires Holds(file, Values(kept), SortedIndex(h, kept)) && DistinctIds(h, kept) && kept != []
    requires forall i :: 0 <= i < |kept| ==> h(kept[i].key) != id
    ensures Indexed(Reopened(h, kept, file)) && Find(Reopened(h, kept, file), id) == Missing
  {
    hide IndexBytes, Be32, Values, KeyAt, SortedIndex, Holds, Find;
    ReopenedAscends(h, kept, file);
    var ar := Reopened(h, kept, file);
    FindFaults(ar, id);
    if Find(ar, id).Hit? {
      var i := PairOfEntry(h, kept, file, Find(ar, id).entry);
      assert false;
    }
  }

  // ----- the round trip, said of the pairs read -----

  /** A translation: key and value are there, and differ in their hashes. */
  predicate Translation(h: Hash, p: Pair) {
    |p.key| > 0 && |p.val| > 0 && h(p.key) != h(p.val)
  }

  /** The bytes that the values of the translations take, each padded to a multiple of four, and how many there are. */
  function ValueBytes(h: Hash, pairs: seq<Pair>): nat {
    if pairs == [] then 0
    else
      var last := pairs[|pairs| - 1];
      ValueBytes(h, pairs[..|pairs| - 1]) + if Translation(h, last) then (|last.val| + 3) / 4 * 4 else 0
  }

  function Translations(h: Hash, pairs: seq<Pair>): nat {
    if pairs == [] then 0
    else Translations(h, pairs[..|pairs| - 1]) + if Translation(h, pairs[|pairs| - 1]) then 1 else 0
  }

  /** No two translations have keys that hash alike. */
  predicate Apart(h: Hash, pairs: seq<Pair>) {
    forall i, j :: 0 <= i < j < |pairs| && Translation(h, pairs[i]) && Translation(h, pairs[j]) ==>
      h(pairs[i].key) != h(pairs[j].key)
  }

  /** The id is the hash of no translation's key. */
  predicate NoKeyOf(h: Hash, pairs: seq<Pair>, id: U32) {
    forall i :: 0 <= i < |pairs| && Translation(h, pairs[i]) ==> h(pairs[i].key) != id
  }

  lemma TranslationsAreKept(h: Hash, p: Pair)
    ensures IsKept(h, p) <==> Translation(h, p)
  {
  }

  /** The pairs kept are the translations. */
  lemma {:induction false} KeptAreTranslations(h: Hash, pairs: seq<Pair>, p: Pair)
    ensures p in Kept(h, pairs) <==> p in pairs && Translation(h, p)
  {
    hide IsKept, Translation;
    if pairs != [] {
      var n := |pairs| - 1;
      KeptAreTranslations(h, pairs[..n], p);
      TranslationsAreKept(h, pairs[n]);
      assert pairs == pairs[..n] + [pairs[n]];
    }
  }

  lemma {:induction false} KeptSizes(h: Hash, pairs: seq<Pair>)
    ensures |Kept(h, pairs)| == Translations(h, pairs) && |Values(Kept(h, pairs))| == ValueBytes(h, pairs)
  {
    hide Values, Entries, IsKept, Translation;
    if pairs != [] {
      var n := |pairs| - 1;
      KeptSizes(h, pairs[..n]);
      KeptSnoc(h, pairs, n);
      TranslationsAreKept(h, pairs[n]);
      assert pairs[..n + 1] == pairs;
      PaddedSize(pairs[n].val);
      hide Padded;
    } else {
      NoValues();
    }
  }

  lemma PaddedSize(v: Bytes)
    ensures |Padded(v)| == (|v| + 3) / 4 * 4
  {
  }

  lemma NoValues()
    ensures Values([]) == []
  {
  }

  lemma {:induction false} KeptApart(h: Hash, pairs: seq<Pair>)
    requires Apart(h, pairs)
    ensures DistinctIds(h, Kept(h, pairs))
  {
    if pairs != [] {
      var n := |pairs| - 1;
      var before := Kept(h, pairs[..n]);
      KeptApart(h, pairs[..n]);
      forall i | 0 <= i < |before| && Translation(h, pairs[n])
        ensures h(before[i].key) != h(pairs[n].key)
      {
        KeptAreTranslations(h, pairs[..n], before[i]);
        var k :| 0 <= k < n && pairs[..n][k] == before[i];
        assert pairs[k] == before[i];
      }
    }
  }

  /** An archive is written if and only if there is a translation and the values take less than 2^31 bytes (of the sizes
      below 2^32). */
  lemma {:induction false} WrittenWhen(h: Hash, pairs: seq<Pair>)
    requires ValueBytes(h, pairs) < 0x1_0000_0000
    ensures Archived(h, pairs).Some?
       <==> (exists i :: 0 <= i < |pairs| && Translation(h, pairs[i])) && ValueBytes(h, pairs) < 0x8000_0000
  {
    hide Archived, Values, Kept, Translation;
    KeptSizes(h, pairs);
    ArchiveWritten(h, pairs);
    if Kept(h, pairs) != [] {
      KeptAreTranslations(h, pairs, Kept(h, pairs)[0]);
    }
    if i :| 0 <= i < |pairs| && Translation(h, pairs[i]) {
      KeptAreTranslations(h, pairs, pairs[i]);
    }
  }

  /** What po2lmo needs of the pairs: a translation, ids that differ, values below 2^31 bytes and a file below 2^32. */
  predicate Storable(h: Hash, pairs: seq<Pair>) {
    && Apart(h, pairs) && (exists i :: 0 <= i < |pairs| && Translation(h, pairs[i]))
    && ValueBytes(h, pairs) < 0x8000_0000
    && ValueBytes(h, pairs) + ENTRY_SIZE * Translations(h, pairs) + 4 < 0x1_0000_0000
  }

  /** Every translation is found under the hash of its key, with exactly its value, in the archive that lmo_open makes
      of the file; and no other id is found. */
  lemma {:induction false} TranslationsAreFound(h: Hash, pairs: seq<Pair>)
    requires Storable(h, pairs)
    ensures Archived(h, pairs).Some? && 4 <= |Archived(h, pairs).value| < 0x1_0000_0000
    ensures var found := Open(true, Archived(h, pairs).value);
            && found.Some? && found == Open(false, Archived(h, pairs).value) && Indexed(found.value)
            && (forall i :: 0 <= i < |pairs| && Translation(h, pairs[i]) ==>
                  FindsValue(found.value, h(pairs[i].key), pairs[i].val))
            && (forall id: U32 :: NoKeyOf(h, pairs, id) ==> Find(found.value, id) == Missing)
  {
    hide Archived, Values, Kept, Translation, Open, Indexed, Find, FindsValue, DistinctIds, Apart, ValueBytes;
    hide Translations;
    var kept := Kept(h, pairs);
    WrittenWhen(h, pairs);
    KeptSizes(h, pairs);
    KeptApart(h, pairs);
    var some :| 0 <= some < |pairs| && Translation(h, pairs[some]);
    KeptAreTranslations(h, pairs, pairs[some]);
    ArchiveRoundTrip(h, pairs);
    var ar := Open(true, Archived(h, pairs).value).value;
    forall i | 0 <= i < |pairs| && Translation(h, pairs[i])
      ensures FindsValue(ar, h(pairs[i].key), pairs[i].val)
    {
      KeptAreTranslations(h, pairs, pairs[i]);
    }
    forall id: U32 | NoKeyOf(h, pairs, id)
      ensures Find(ar, id) == Missing
    {
      forall k | 0 <= k < |kept|
        ensures h(kept[k].key) != id
      {
        KeptAreTranslations(h, pairs, kept[k]);
      }
    }
  }
}
