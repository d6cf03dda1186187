/**
 * The binary translation archive: po2lmo writes the values, padded to four bytes, an index sorted by
 * key id and the offset of the index; lmo_open finds the index again and lmo_find_entry searches it.
 */
module LmoArchive {
  import opened ByteStrings
  import opened Options
  import opened Sorting

  type Hash = Bytes -> U32

  datatype Pair = Pair(key: Bytes, val: Bytes)

  datatype Entry = Entry(keyId: U32, valId: U32, offset: U32, length: U32)

  const ENTRY_SIZE := 16

  // ----- writing -----

  /** Pairs that get an entry: no empty key or value, and the two must not hash alike. */
  predicate IsKept(h: Hash, p: Pair) {
    p.key != [] && p.val != [] && h(p.key) != h(p.val)
  }

  function Kept(h: Hash, pairs: seq<Pair>): seq<Pair> {
    if pairs == [] then []
    else
      var last := |pairs| - 1;
      Kept(h, pairs[..last]) + if IsKept(h, pairs[last]) then [pairs[last]] else []
  }

  lemma {:induction false} KeptAreKept(h: Hash, pairs: seq<Pair>)
    ensures forall i :: 0 <= i < |Kept(h, pairs)| ==> IsKept(h, Kept(h, pairs)[i])
  {
    if pairs != [] {
      KeptAreKept(h, pairs[..|pairs| - 1]);
    }
  }

  function Padded(v: Bytes): (p: Bytes)
    ensures |p| % 4 == 0 && |v| <= |p| < |v| + 4
  {
    v + Zeros((4 - |v| % 4) % 4)
  }

  function Values(kept: seq<Pair>): (v: Bytes) {
    if kept == [] then []
    else
      var last := |kept| - 1;
      Values(kept[..last]) + Padded(kept[last].val)
  }

  function EntryOf(h: Hash, p: Pair, offset: nat): Entry {
    Entry(h(p.key), h(p.val), offset % 0x1_0000_0000, |p.val| % 0x1_0000_0000)
  }

  /** One entry per pair kept, with the offset of its value. */
  function Entries(h: Hash, kept: seq<Pair>): (e: seq<Entry>)
    ensures |e| == |kept|
  {
    if kept == [] then []
    else
      var last := |kept| - 1;
      Entries(h, kept[..last]) + [EntryOf(h, kept[last], |Values(kept[..last])|)]
  }

  function ByKeyId(): Order<Entry> {
    (a: Entry, b: Entry) => a.keyId <= b.keyId
  }

  /** The order in which qsort leaves the entries, when key ids are distinct. */
  function SortEntries(s: seq<Entry>): (r: seq<Entry>)
    ensures |r| == |s|
  {
    Sort(ByKeyId(), s)
  }

  function EntryBytes(e: Entry): (b: Bytes)
    ensures |b| == ENTRY_SIZE
  {
    Be32(e.keyId) + Be32(e.valId) + Be32(e.offset) + Be32(e.length)
  }

  function IndexBytes(s: seq<Entry>): (b: Bytes)
    ensures |b| == ENTRY_SIZE * |s|
  {
    if s == [] then [] else EntryBytes(s[0]) + IndexBytes(s[1..])
  }

  /** The file written; None when the running offset, an int, ends up not positive, in which case the file is
      removed. */
  function Archived(h: Hash, pairs: seq<Pair>): Option<Bytes> {
    var kept := Kept(h, pairs);
    var size := Int32(|Values(kept)|);
    if size > 0 then Some(Values(kept) + IndexBytes(SortEntries(Entries(h, kept))) + Be32(size)) else None
  }

  /** Values of two gigabytes and more make the offset wrap: an archive is written if and only if there is something to
      write and the values take less than 2^31 bytes (of the sizes below 2^32). */
  lemma {:induction false} ArchiveWritten(h: Hash, pairs: seq<Pair>)
    requires |Values(Kept(h, pairs))| < 0x1_0000_0000
    ensures Archived(h, pairs).Some? <==> Kept(h, pairs) != [] && |Values(Kept(h, pairs))| < 0x8000_0000
  {
    var kept := Kept(h, pairs);
    KeptAreKept(h, pairs);
    hide IndexBytes, SortEntries, Entries, Kept, Be32;
    if kept != [] {
      assert IsKept(h, kept[|kept| - 1]);
    }
  }

  lemma KeptSnoc(h: Hash, pairs: seq<Pair>, n: nat)
    requires n < |pairs|
    ensures var kept, p := Kept(h, pairs[..n]), pairs[n];
            && Kept(h, pairs[..n + 1]) == (if IsKept(h, p) then kept + [p] else kept)
            && Values(kept + [p]) == Values(kept) + Padded(p.val)
            && Entries(h, kept + [p]) == Entries(h, kept) + [EntryOf(h, p, |Values(kept)|)]
  {
    assert pairs[..n + 1][..n] == pairs[..n];
    var kept, p := Kept(h, pairs[..n]), pairs[n];
    assert (kept + [p])[..|kept|] == kept;
    assert kept + [] == kept;
  }

  /** The loop over the pairs read, with its running offset and growing array. */
  method WriteArchive(h: Hash, pairs: seq<Pair>) returns (file: Option<Bytes>)
    ensures file == Archived(h, pairs)
  {
    hide Padded, IndexBytes, SortEntries, Kept, Values, Entries, Int32;
    var offset: int, entries: seq<Entry>, out: Bytes := 0, [], [];
    var n := 0;
    NothingWritten(h, pairs);
    while n < |pairs|
      invariant n <= |pairs|
      invariant Written(h, pairs[..n], out, entries, offset)
    {
      var key, val := pairs[n].key, pairs[n].val;
      WrittenOneMore(h, pairs, n, out, entries, offset);
      if |key| > 0 && |val| > 0 {
        var keyId, valId := h(key), h(val);
        if keyId != valId {
          var entry := Entry(keyId, valId, offset % 0x1_0000_0000, |val| % 0x1_0000_0000);
          var bytes := Padded(val);
          entries := entries + [entry];
          out := out + bytes;
          offset := Int32(offset + |bytes|);
        }
      }
      n := n + 1;
    }
    assert pairs[..n] == pairs;
    file := if offset > 0 then Some(out + IndexBytes(SortEntries(entries)) + Be32(offset)) else None;
  }

  /** What has been written after some pairs. */
  ghost predicate Written(h: Hash, pairs: seq<Pair>, out: Bytes, entries: seq<Entry>, offset: int) {
    out == Values(Kept(h, pairs)) && entries == Entries(h, Kept(h, pairs)) && offset == Int32(|out|)
  }

  lemma NothingWritten(h: Hash, pairs: seq<Pair>)
    ensures Written(h, pairs[..0], [], [], 0)
  {
    assert pairs[..0] == [];
  }

  lemma WrittenOneMore(h: Hash, pairs: seq<Pair>, n: nat, out: Bytes, entries: seq<Entry>, offset: int)
    requires n < |pairs| && Written(h, pairs[..n], out, entries, offset)
    ensures var p := pairs[n];
            var entry := Entry(h(p.key), h(p.val), offset % 0x1_0000_0000, |p.val| % 0x1_0000_0000);
            if IsKept(h, p) then
              Written(h, pairs[..n + 1], out + Padded(p.val), entries + [entry], Int32(offset + |Padded(p.val)|))
            else
              Written(h, pairs[..n + 1], out, entries, offset)
  {
    hide Padded, Kept, Values, Entries, Int32;
    KeptSnoc(h, pairs, n);
    SameOffset(|out|, |Padded(pairs[n].val)|);
  }

  /** The int offset agrees with the real one modulo 2^32. */
  lemma SameOffset(size: nat, more: nat)
    ensures Int32(Int32(size) + more) == Int32(size + more)
    ensures Int32(size) % 0x1_0000_0000 == size % 0x1_0000_0000
  {
    var wraps := (size - Int32(size)) / 0x1_0000_0000;
    assert size == Int32(size) + wraps * 0x1_0000_0000;
  }

  // ----- opening -----

  datatype Archive = Archive(file: Bytes, index: nat, length: int)

  /** The size of the index in entries, as an int; wide says that a size_t has 64 bits and not 32. An index that begins
      in the last four bytes has a size below zero, which a size_t cannot hold. */
  function IndexLength(wide: bool, size: nat, index: nat): int
    requires index < size
  {
    if index <= size - 4 then (size - index - 4) / ENTRY_SIZE else if wide then -1 else 0x0FFF_FFFF
  }

  lemma LengthWraps(size: nat, index: nat)
    requires 4 <= size < 0x1_0000_0000 && size - 4 < index < size
    ensures (size - index - 4) % 0x1_0000_0000_0000_0000 / ENTRY_SIZE % 0x1_0000_0000
         == IndexLength(true, size, index) + 0x1_0000_0000
    ensures (size - index - 4) % 0x1_0000_0000 / ENTRY_SIZE == IndexLength(false, size, index)
  {
  }

  /** lmo_open. An empty file cannot be mapped. */
  function Open(wide: bool, file: Bytes): Option<Archive>
    requires |file| == 0 || 4 <= |file| < 0x1_0000_0000
  {
    if |file| == 0 then None
    else
      var index := UnBe32(file[|file| - 4..]);
      if index >= |file| then None else Some(Archive(file, index, IndexLength(wide, |file|, index)))
  }

  /** The index lies in the file, or its length is -1. */
  predicate Indexed(ar: Archive) {
    -1 <= ar.length < 0x1_0000_0000 && ar.index + ENTRY_SIZE * ar.length <= |ar.file|
  }

  /** What lmo_open lets through can be searched, unless a size_t has 32 bits and the index begins in the last four
      bytes. */
  lemma OpenedIsIndexed(wide: bool, file: Bytes)
    requires 4 <= |file| < 0x1_0000_0000
    ensures Open(wide, file).Some? ==>
              (Indexed(Open(wide, file).value) <==> wide || Open(wide, file).value.index <= |file| - 4)
  {
    hide UnBe32;
  }

  function Field(ar: Archive, m: nat, k: nat): U32
    requires Indexed(ar) && m < ar.length && k < 4
  {
    var at := ar.index + ENTRY_SIZE * m + 4 * k;
    UnBe32(ar.file[at..at + 4])
  }

  function EntryAt(ar: Archive, m: nat): Entry
    requires Indexed(ar) && m < ar.length
  {
    Entry(Field(ar, m, 0), Field(ar, m, 1), Field(ar, m, 2), Field(ar, m, 3))
  }

  function KeyAt(ar: Archive, m: nat): U32
    requires Indexed(ar) && m < ar.length
  {
    Field(ar, m, 0)
  }

  ghost predicate Ascending(ar: Archive)
    requires Indexed(ar)
  {
    forall i, j :: 0 <= i < j < ar.length ==> KeyAt(ar, i) < KeyAt(ar, j)
  }

  // ----- searching -----

  /** Linear search from entry m on. */
  function Lookup(ar: Archive, id: U32, m: nat): (r: Option<nat>)
    requires Indexed(ar)
    ensures r.Some? ==> m <= r.value < ar.length && KeyAt(ar, r.value) == id
    ensures r == None ==> forall i :: m <= i < ar.length ==> KeyAt(ar, i) != id
    decreases ar.length - m
  {
    if m >= ar.length then None
    else if KeyAt(ar, m) == id then Some(m)
    else Lookup(ar, id, m + 1)
  }

  /** What a search comes to; Fault is a probe outside the index, for which the program reads whatever is there. */
  datatype Search = Hit(entry: nat) | Missing | Fault

  /** The middle of two unsigned bounds. */
  function Middle(l: U32, r: U32): (m: U32)
    ensures l <= r ==> l <= m <= r
  {
    (l + (r - l) % 0x1_0000_0000 / 2) % 0x1_0000_0000
  }

  /** The middle, without overflow; an index of no entries is probed in the middle of all 32-bit numbers. */
  lemma MiddleIs(l: U32, r: U32)
    ensures l <= r ==> Middle(l, r) == (l as int + r as int) / 2
    ensures Middle(0, 0xFFFF_FFFF) == 0x7FFF_FFFF
  {
  }

  /** Binary search between two unsigned 32-bit bounds. */
  function Bisect(ar: Archive, id: U32, l: U32, r: U32): (found: Search)
    requires Indexed(ar)
    ensures found.Hit? ==> found.entry < ar.length && KeyAt(ar, found.entry) == id
    decreases r as int + 1 - l as int
  {
    var m := Middle(l, r);
    if r < l then Missing
    else if m >= ar.length then Fault
    else if KeyAt(ar, m) == id then Hit(m)
    else if KeyAt(ar, m) < id then Bisect(ar, id, m + 1, r)
    else if m == 0 then Missing
    else Bisect(ar, id, l, m - 1)
  }

  /** The search of a whole index, the last entry of which is number length - 1 in unsigned arithmetic. */
  function Find(ar: Archive, id: U32): (found: Search)
    requires Indexed(ar)
    ensures found.Hit? ==> found.entry < ar.length && KeyAt(ar, found.entry) == id
  {
    Bisect(ar, id, 0, (ar.length - 1) % 0x1_0000_0000)
  }

  /** On keys in ascending order, all entries with the id lie between the bounds. */
  ghost predicate Narrowed(ar: Archive, id: U32, l: int, r: int)
    requires Indexed(ar)
  {
    && 0 <= l <= r + 1 <= ar.length
    && forall i :: 0 <= i < ar.length && KeyAt(ar, i) == id ==> l <= i <= r
  }

  lemma NarrowedStep(ar: Archive, id: U32, l: int, r: int, m: int)
    requires Indexed(ar) && Ascending(ar) && Narrowed(ar, id, l, r) && l <= m <= r && KeyAt(ar, m) != id
    ensures if KeyAt(ar, m) > id then Narrowed(ar, id, l, m - 1) else Narrowed(ar, id, m + 1, r)
  {
    forall i | 0 <= i < ar.length && KeyAt(ar, i) == id
      ensures if KeyAt(ar, m) > id then i <= m - 1 else m + 1 <= i
    {
    }
  }

  lemma {:induction false} BisectFinds(ar: Archive, id: U32, l: U32, r: U32)
    requires Indexed(ar) && Ascending(ar) && Narrowed(ar, id, l, r)
    ensures Bisect(ar, id, l, r).Missing? ==> forall i :: 0 <= i < ar.length ==> KeyAt(ar, i) != id
    decreases r as int + 1 - l as int
  {
    hide Middle, Field;
    var m := Middle(l, r);
    if l <= r && KeyAt(ar, m) != id {
      assert l <= m <= r;
      NarrowedStep(ar, id, l, r, m);
      if KeyAt(ar, m) < id {
        BisectFinds(ar, id, m + 1, r);
      } else if m > 0 {
        BisectFinds(ar, id, l, m - 1);
      }
    }
  }

  /** Between bounds inside the index every probe is inside the index. */
  lemma {:induction false} BisectInside(ar: Archive, id: U32, l: U32, r: U32)
    requires Indexed(ar) && r < ar.length
    ensures !Bisect(ar, id, l, r).Fault?
    decreases r as int + 1 - l as int
  {
    hide Middle, Field;
    var m := Middle(l, r);
    if l <= r && KeyAt(ar, m) != id {
      if KeyAt(ar, m) < id {
        BisectInside(ar, id, m + 1, r);
      } else if m > 0 {
        BisectInside(ar, id, l, m - 1);
      }
    }
  }

  lemma {:induction false} NoEntries(ar: Archive, id: U32, r: U32)
    requires Indexed(ar) && ar.length < 1
    ensures Bisect(ar, id, 0, r).Fault?
  {
    hide KeyAt, Middle;
  }

  /** The search leaves the index exactly when there are no entries. */
  lemma FindFaults(ar: Archive, id: U32)
    requires Indexed(ar)
    ensures Find(ar, id).Fault? <==> ar.length < 1
  {
    hide KeyAt, Bisect, Middle;
    if ar.length >= 1 {
      BisectInside(ar, id, 0, ar.length - 1);
    } else {
      NoEntries(ar, id, (ar.length - 1) % 0x1_0000_0000);
    }
  }

  /** On keys in ascending order the search agrees with linear search. */
  lemma {:induction false} FindIsLookup(ar: Archive, id: U32)
    requires Indexed(ar) && ar.length >= 1 && Ascending(ar)
    ensures Find(ar, id) == match Lookup(ar, id, 0) case Some(m) => Hit(m) case None => Missing
  {
    hide Field;
    FindFaults(ar, id);
    if Find(ar, id).Hit? {
      LookupIs(ar, id, Find(ar, id).entry);
    } else {
      BisectFinds(ar, id, 0, ar.length - 1);
    }
  }

  lemma {:induction false} LookupIs(ar: Archive, id: U32, m: nat)
    requires Indexed(ar) && Ascending(ar) && m < ar.length && KeyAt(ar, m) == id
    ensures Lookup(ar, id, 0) == Some(m)
  {
    hide KeyAt, Indexed;
  }

  /** lmo_find_entry: the loop is the search. */
  method FindEntry(ar: Archive, id: U32) returns (found: Search)
    requires Indexed(ar)
    ensures found == Find(ar, id)
  {
    hide KeyAt, Middle;
    var l: U32, r: U32 := 0, (ar.length - 1) % 0x1_0000_0000;
    while true
      invariant Bisect(ar, id, l, r) == Find(ar, id)
      decreases r as int + 1 - l as int
    {
      var m := Middle(l, r);
      if r < l {
        break;
      }
      if m >= ar.length {
        return Fault;
      }
      var k := KeyAt(ar, m);
      if k == id {
        return Hit(m);
      }
      if k > id {
        if m == 0 {
          break;
        }
        r := m - 1;
      } else {
        l := m + 1;
      }
    }
    found := Missing;
  }
}
