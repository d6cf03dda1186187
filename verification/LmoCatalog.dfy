/**
 * Translating a text: its white space is brought into canonical form, the form is hashed, and the
 * archives of the catalogue are searched in turn.
 */
module LmoCatalog {
  import opened ByteStrings
  import opened LmoArchive
  import opened LmoRoundTrip
  import opened Options

  const BLANK: Byte := 32
  const MAX_TEXT := 4096

  /** C's isspace: blank, and tab to carriage return. */
  predicate IsSpace(c: Byte) {
    c == 32 || 9 <= c <= 13
  }

  /** The blank, and backslash t, n, v, f and r. */
  lemma SpacesAre(c: Byte)
    ensures IsSpace(c) <==> c in {0x20, 0x09, 0x0A, 0x0B, 0x0C, 0x0D}
  {
  }

  // ----- the specification: words joined by single blanks -----

  /** The maximal runs without white space, the first of which continues cur. */
  function Words(s: Bytes, cur: Bytes): seq<Bytes> {
    if s == [] then (if cur == [] then [] else [cur])
    else if IsSpace(s[0]) then (if cur == [] then [] else [cur]) + Words(s[1..], [])
    else Words(s[1..], cur + [s[0]])
  }

  function Join(words: seq<Bytes>): Bytes {
    if words == [] then []
    else if |words| == 1 then words[0]
    else words[0] + [BLANK] + Join(words[1..])
  }

  predicate NoSpace(w: Bytes) {
    forall i :: 0 <= i < |w| ==> !IsSpace(w[i])
  }

  predicate IsWord(w: Bytes) {
    w != [] && NoSpace(w)
  }

  predicate AllWords(words: seq<Bytes>) {
    forall i :: 0 <= i < |words| ==> IsWord(words[i])
  }

  // ----- the canonical form -----

  /** Every run of white space becomes one blank, and none if white space came before. */
  function Squeeze(s: Bytes, afterSpace: bool): (r: Bytes)
    ensures |r| <= |s|
  {
    if s == [] then []
    else if IsSpace(s[0]) then (if afterSpace then [] else [BLANK]) + Squeeze(s[1..], true)
    else [s[0]] + Squeeze(s[1..], false)
  }

  function TrimEnd(s: Bytes): Bytes {
    if s != [] && IsSpace(s[|s| - 1]) then s[..|s| - 1] else s
  }

  function Canon(s: Bytes): Bytes {
    TrimEnd(Squeeze(s, true))
  }

  lemma {:induction false} WordsAreWords(s: Bytes, cur: Bytes)
    requires NoSpace(cur)
    ensures AllWords(Words(s, cur))
    decreases |s|
  {
    if s != [] {
      if IsSpace(s[0]) {
        WordsAreWords(s[1..], []);
      } else {
        WordsAreWords(s[1..], cur + [s[0]]);
      }
    }
  }

  lemma TrimTail(a: Bytes, b: Bytes)
    requires b != []
    ensures TrimEnd(a + b) == a + TrimEnd(b)
  {
    assert (a + b)[|a + b| - 1] == b[|b| - 1];
    assert (a + b)[..|a + b| - 1] == a + b[..|b| - 1];
  }

  lemma {:induction false} JoinNonEmpty(words: seq<Bytes>)
    requires AllWords(words)
    ensures words != [] ==> Join(words) != []
  {
    assert words != [] ==> IsWord(words[0]);
  }

  lemma {:induction false} SqueezeStarts(s: Bytes)
    ensures Squeeze(s, true) != [] ==> !IsSpace(Squeeze(s, true)[0])
    decreases |s|
  {
    if s != [] && IsSpace(s[0]) {
      SqueezeStarts(s[1..]);
    }
  }

  /** Squeezing and trimming is splitting into words and joining them. */
  lemma {:induction false} SqueezeIsJoin(s: Bytes, cur: Bytes)
    requires NoSpace(cur)
    ensures TrimEnd(cur + Squeeze(s, cur == [])) == Join(Words(s, cur))
    decreases |s|
  {
    hide TrimEnd, Join, IsWord;
    if s == [] {
      assert cur + [] == cur;
      TrimWord(cur);
    } else if !IsSpace(s[0]) {
      SqueezeIsJoin(s[1..], cur + [s[0]]);
      assert cur + ([s[0]] + Squeeze(s[1..], false)) == (cur + [s[0]]) + Squeeze(s[1..], false);
    } else {
      var t, ws := Squeeze(s[1..], true), Words(s[1..], []);
      assert Squeeze(s, cur == []) == (if cur == [] then [] else [BLANK]) + t;
      assert Words(s, cur) == (if cur == [] then [] else [cur]) + ws;
      WordsAreWords(s[1..], []);
      SqueezeStarts(s[1..]);
      SqueezeIsJoin(s[1..], []);
      hide Squeeze, Words, IsSpace, NoSpace;
      assert [] + t == t && [] + ws == ws;
      if cur != [] {
        SpaceAfterWord(cur, t, ws);
        assert cur + ([BLANK] + t) == cur + [BLANK] + t;
      }
    }
  }

  lemma TrimWord(cur: Bytes)
    requires NoSpace(cur)
    ensures TrimEnd(cur) == cur && cur == Join(if cur == [] then [] else [cur])
  {
  }

  lemma {:induction false} SpaceAfterWord(cur: Bytes, t: Bytes, ws: seq<Bytes>)
    requires cur != [] && NoSpace(cur) && AllWords(ws) && TrimEnd(t) == Join(ws) && (t == [] || !IsSpace(t[0]))
    ensures TrimEnd(cur + [BLANK] + t) == Join([cur] + ws)
  {
    var line := cur + [BLANK];
    JoinNonEmpty(ws);
    assert t != [] ==> TrimEnd(t) != [];
    if t == [] {
      assert line + t == line && line[..|line| - 1] == cur;
    } else {
      TrimTail(line, t);
      assert ([cur] + ws)[1..] == ws;
    }
  }

  /** The canonical form is the words joined by single blanks. */
  lemma {:induction false} CanonIsJoin(s: Bytes)
    ensures Canon(s) == Join(Words(s, []))
  {
    SqueezeIsJoin(s, []);
    assert [] + Squeeze(s, true) == Squeeze(s, true);
  }

  /** Words run on to the next white space. */
  lemma {:induction false} WordsOfRun(w: Bytes, rest: Bytes, cur: Bytes)
    requires NoSpace(w)
    ensures Words(w + rest, cur) == Words(rest, cur + w)
    decreases |w|
  {
    if w == [] {
      assert w + rest == rest && cur + w == cur;
    } else {
      assert (w + rest)[1..] == w[1..] + rest && (w + rest)[0] == w[0];
      WordsOfRun(w[1..], rest, cur + [w[0]]);
      assert cur + [w[0]] + w[1..] == cur + w;
    }
  }

  lemma {:induction false} WordsOfJoin(words: seq<Bytes>)
    requires AllWords(words)
    ensures Words(Join(words), []) == words
    decreases |words|
  {
    if words == [] {
    } else if |words| == 1 {
      assert IsWord(words[0]);
      assert words[0] + [] == words[0] && [] + words[0] == words[0];
      WordsOfRun(words[0], [], []);
    } else {
      WordsOfJoin(words[1..]);
      NextWord(words[0], Join(words[1..]));
      assert IsWord(words[0]) && words == [words[0]] + words[1..];
    }
  }

  lemma {:induction false} NextWord(w: Bytes, rest: Bytes)
    requires IsWord(w)
    ensures Words(w + [BLANK] + rest, []) == [w] + Words(rest, [])
  {
    var tail := [BLANK] + rest;
    assert w + [BLANK] + rest == w + tail && [] + w == w;
    WordsOfRun(w, tail, []);
    assert tail[1..] == rest;
  }

  /** Two texts have the same canonical form exactly when they have the same words; and it is its own canonical
      form. */
  lemma {:induction false} CanonSameWords(a: Bytes, b: Bytes)
    ensures Canon(a) == Canon(b) <==> Words(a, []) == Words(b, [])
    ensures Canon(Canon(a)) == Canon(a)
  {
    hide Canon, Join, Words;
    CanonIsJoin(a);
    CanonIsJoin(b);
    CanonIsJoin(Canon(a));
    WordsAreWords(a, []);
    WordsAreWords(b, []);
    WordsOfJoin(Words(a, []));
    WordsOfJoin(Words(b, []));
  }

  /** The loop has squeezed the first off bytes, the last of them prev, into done. */
  ghost predicate Squeezing(str: Bytes, off: nat, prev: Byte, done: Bytes) {
    off <= |str| && done + Squeeze(str[off..], IsSpace(prev)) == Squeeze(str, true)
  }

  lemma SqueezeStart(str: Bytes)
    ensures Squeezing(str, 0, BLANK, [])
  {
    assert str[0..] == str && [] + Squeeze(str, true) == Squeeze(str, true);
  }

  lemma SqueezeStep(str: Bytes, off: nat, prev: Byte, done: Bytes)
    requires Squeezing(str, off, prev, done) && off < |str|
    ensures var c := str[off];
            Squeezing(str, off + 1, c,
                      if !IsSpace(c) then done + [c] else if IsSpace(prev) then done else done + [BLANK])
  {
    hide IsSpace;
    var c, rest := str[off], Squeeze(str[off + 1..], IsSpace(str[off]));
    assert str[off..][1..] == str[off + 1..];
    assert done + ([BLANK] + rest) == (done + [BLANK]) + rest;
    assert done + ([c] + rest) == (done + [c]) + rest;
  }

  lemma {:induction false} SqueezeEnd(str: Bytes, prev: Byte, done: Bytes)
    requires Squeezing(str, |str|, prev, done)
    ensures done == Squeeze(str, true)
  {
    assert done + [] == done;
  }

  /** The id a text is searched under. */
  function IdOf(h: Hash, str: Bytes): U32 {
    if |str| >= MAX_TEXT then 0 else h(Canon(str))
  }

  /** lmo_canon_hash: the loop writes into a fixed buffer. */
  method CanonHash(h: Hash, str: Bytes) returns (id: U32)
    ensures id == IdOf(h, str)
  {
    hide IsSpace, Squeezing, Squeeze;
    if |str| >= MAX_TEXT {
      return 0;
    }
    var res := new Byte[MAX_TEXT](_ => 0);
    var ptr, off: nat, prev: Byte := 0, 0, BLANK;
    SqueezeStart(str);
    while off < |str|
      invariant ptr <= off <= |str|
      invariant Squeezing(str, off, prev, res[..ptr])
    {
      SqueezeStep(str, off, prev, res[..ptr]);
      var c := str[off];
      ghost var done := res[..ptr];
      if IsSpace(c) {
        if !IsSpace(prev) {
          res[ptr] := BLANK;
          ptr := ptr + 1;
          assert res[..ptr] == done + [BLANK];
        }
      } else {
        res[ptr] := c;
        ptr := ptr + 1;
        assert res[..ptr] == done + [c];
      }
      prev, off := c, off + 1;
    }
    SqueezeEnd(str, prev, res[..ptr]);
    ghost var t := res[..ptr];
    if ptr > 0 && IsSpace(res[ptr - 1]) {
      ptr := ptr - 1;
    }
    assert res[..ptr] == TrimEnd(t);
    id := h(res[..ptr]);
  }

  // ----- translating -----

  /** Unmapped stands for a read outside of an index without entries. */
  datatype Answer = NoCatalog | NotFound | Unmapped | Found(archive: nat, entry: nat)

  /** Archives as lmo_open lets them through. */
  predicate Searchable(archives: seq<Archive>) {
    forall i :: 0 <= i < |archives| ==> Indexed(archives[i])
  }

  /** The first archive, from the k-th on, that has the id. */
  function FirstWith(archives: seq<Archive>, id: U32, k: nat): (answer: Answer)
    requires Searchable(archives) && k <= |archives|
    ensures answer.Found? ==> answer.archive < |archives| && answer.entry < archives[answer.archive].length
                              && KeyAt(archives[answer.archive], answer.entry) == id
    decreases |archives| - k
  {
    if k == |archives| then NotFound
    else
      match Find(archives[k], id)
      case Hit(m) => Found(k, m)
      case Fault => Unmapped
      case Missing => FirstWith(archives, id, k + 1)
  }

  /** lmo_translate. archives is None when there is no active catalogue, and key when the pointer is null. */
  method Translate(h: Hash, archives: Option<seq<Archive>>, key: Option<Bytes>) returns (answer: Answer)
    requires archives.Some? ==> Searchable(archives.value)
    ensures answer == if key == None || archives == None then NoCatalog
                      else FirstWith(archives.value, IdOf(h, key.value), 0)
  {
    hide Find, KeyAt, Indexed, Canon;
    if key == None || archives == None {
      return NoCatalog;
    }
    var id := CanonHash(h, key.value);
    var i := 0;
    while i < |archives.value|
      invariant i <= |archives.value|
      invariant FirstWith(archives.value, id, 0) == FirstWith(archives.value, id, i)
    {
      var m := FindEntry(archives.value[i], id);
      match m {
        case Hit(entry) => return Found(i, entry);
        case Fault => return Unmapped;
        case Missing => i := i + 1;
      }
    }
    answer := NotFound;
  }

  /** The answer is the entry of this key in archive k. */
  predicate PointsTo(answer: Answer, archives: seq<Archive>, k: nat, id: U32)
    requires Searchable(archives)
  {
    && answer.Found? && answer.archive == k < |archives| && answer.entry < archives[k].length
    && KeyAt(archives[k], answer.entry) == id
  }

  /** A text with the words of a stored key is translated to exactly the value stored under it, when the archives
      searched before do not have its id: for every text below 4096 bytes. Longer ones are searched under 0, and so do
      not lead to the key unless its id is 0. */
  lemma {:induction false} StoredTextIsTranslated(h: Hash, pairs: seq<Pair>, i: nat, text: Bytes,
                                                  before: seq<Archive>, after: seq<Archive>)
    requires Storable(h, pairs) && i < |pairs| && Translation(h, pairs[i]) && Canon(pairs[i].key) == pairs[i].key
    requires Words(text, []) == Words(pairs[i].key, [])
    requires Searchable(before) && FirstWith(before, IdOf(h, text), 0) == NotFound && Searchable(after)
    ensures Archived(h, pairs).Some? && 4 <= |Archived(h, pairs).value| < 0x1_0000_0000
    ensures Open(true, Archived(h, pairs).value).Some?
    ensures var ar := Open(true, Archived(h, pairs).value).value;
            var all := before + [ar] + after;
            && Indexed(ar) && Searchable(all)
            && var answer := FirstWith(all, IdOf(h, text), 0);
               && (PointsTo(answer, all, |before|, h(pairs[i].key)) <==> |text| < MAX_TEXT || h(pairs[i].key) == 0)
               && (PointsTo(answer, all, |before|, h(pairs[i].key)) ==> Yields(ar, answer.entry, pairs[i].val))
  {
    hide Archived, Storable, Canon, Words, Indexed, Yields, Ascending, Find, KeyAt, Open, Translation;
    TranslationsAreFound(h, pairs);
    var ar := Open(true, Archived(h, pairs).value).value;
    CanonSameWords(text, pairs[i].key);
    assert FindsValue(ar, h(pairs[i].key), pairs[i].val);
    SkipArchives(before, ar, after, IdOf(h, text), 0);
    assert (before + [ar] + after)[|before|] == ar;
  }

  /** The search comes to the archive in the middle, and stops there if that has the id. */
  lemma {:induction false} SkipArchives(before: seq<Archive>, ar: Archive, after: seq<Archive>, id: U32, k: nat)
    requires Searchable(before) && Searchable([ar]) && Searchable(after) && k <= |before|
    requires FirstWith(before, id, k) == NotFound && Indexed(ar)
    ensures Searchable(before + [ar] + after)
    ensures Find(ar, id).Hit? ==> FirstWith(before + [ar] + after, id, k) == Found(|before|, Find(ar, id).entry)
    decreases |before| - k
  {
    hide Find, Indexed, KeyAt;
    var all := before + [ar] + after;
    assert [ar][0] == ar;
    if k < |before| {
      assert all[k] == before[k];
      SkipArchives(before, ar, after, id, k + 1);
    } else {
      assert all[k] == ar;
    }
  }
}
