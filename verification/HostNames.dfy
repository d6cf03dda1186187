/**
 * What is_valid_hostname lets through, and for which of those names the answer to a query can be told to be its answer.
 */
module HostNames {
  import opened ByteStrings
  import opened DnsCodec
  import opened DnsMessage
  import opened Options

  const NEWLINE: Byte := 10
  const HYPHEN: Byte := 45

  /** A letter, a digit, _ or -. */
  predicate WordByte(b: Byte) {
    48 <= b <= 57 || 65 <= b <= 90 || 97 <= b <= 122 || b == 95 || b == HYPHEN
  }

  /** How much of a label the pattern has to account for: $ also holds before a newline at the end. */
  function Core(l: Bytes): (n: nat)
    ensures n <= |l|
  {
    if l != [] && l[|l| - 1] == NEWLINE then |l| - 1 else |l|
  }

  /** VALID_HOSTNAME: 1 to 63 such bytes, with no - at either end. */
  predicate LabelMatches(l: Bytes) {
    var n := Core(l);
    1 <= n <= MAX_LABEL && l[0] != HYPHEN && l[n - 1] != HYPHEN && forall i :: 0 <= i < n ==> WordByte(l[i])
  }

  predicate AllMatch(labels: seq<Bytes>) {
    forall i :: 0 <= i < |labels| ==> LabelMatches(labels[i])
  }

  /** is_valid_hostname. The last byte of a byte string is a byte string in Python 2, and may be a dot, which is then
      dropped; in Python 3 it is a number and never one. */
  predicate ValidHost(python2: bool, h: Bytes)
    requires h != []
  {
    |h| <= 255 && AllMatch(SplitDots(if python2 && h[|h| - 1] == DOT then h[..|h| - 1] else h, []))
  }

  /** A request can be built. */
  predicate Askable(h: Bytes) {
    AddressBytes(h).Some?
  }

  /** The bytes of the pattern: letters, digits, _ and -. */
  lemma WordBytes(c: char)
    requires c as int < 256
    ensures WordByte(c as int)
       <==> 'a' <= c <= 'z' || 'A' <= c <= 'Z' || '0' <= c <= '9' || c == '_' || c == '-'
  {
  }

  /** One to 63 such bytes that neither begin nor end with -. */
  predicate IsWord(w: Bytes) {
    1 <= |w| <= 63 && w[0] != HYPHEN && w[|w| - 1] != HYPHEN && forall i :: 0 <= i < |w| ==> WordByte(w[i])
  }

  /** Such a word matches, alone or with a newline behind it, and nothing else does. */
  lemma MatchesWhen(l: Bytes)
    ensures LabelMatches(l) <==> IsWord(l) || (l != [] && l[|l| - 1] == 10 && IsWord(l[..|l| - 1]))
  {
  }

  /** A label that matches is too long for a request if and only if it has 63 bytes and then a newline. */
  lemma MatchingLength(l: Bytes)
    requires LabelMatches(l)
    ensures l != [] && (|l| > MAX_LABEL <==> |l| == MAX_LABEL + 1 && l[MAX_LABEL] == NEWLINE)
  {
  }

  lemma {:induction false} SplitLastDot(s: Bytes, cur: Bytes)
    ensures SplitDots(s + [DOT], cur) == SplitDots(s, cur) + [[]]
    decreases |s|
  {
    var t := s + [DOT];
    if s == [] {
      assert t == [DOT] && t[1..] == [];
      assert SplitDots([], []) == [[]];
    } else {
      assert t[0] == s[0] && t[1..] == s[1..] + [DOT];
      SplitLastDot(s[1..], if s[0] == DOT then [] else cur + [s[0]]);
    }
  }

  /** A valid host name with a dot at the end. */
  lemma {:induction false} DotAtEnd(g: Bytes)
    requires AllMatch(SplitDots(g, []))
    ensures StripDots(g + [DOT]) == g && !WellFormedHost(g + [DOT])
    ensures Encodable(SplitDots(g, [])) <==> Encodable(SplitDots(g + [DOT], []))
  {
    var labels, more := SplitDots(g, []), SplitDots(g + [DOT], []);
    SplitEnds(g, []);
    SplitLastDot(g, []);
    assert more[|labels|] == [] && forall i :: 0 <= i < |labels| ==> more[i] == labels[i];
    hide SplitDots, LabelMatches, StripDots;
    StripLast(g);
  }

  lemma StripLast(g: Bytes)
    requires g != [] && g[0] != DOT && g[|g| - 1] != DOT
    ensures StripDots(g + [DOT]) == g
  {
    var h := g + [DOT];
    assert StripLeft(h) == h && h[..|h| - 1] == g;
    assert StripRight(g) == g;
  }

  /** A valid host name can be asked about if and only if its labels have at most 63 bytes; and the answer is known to
      be its answer if and only if, besides, there is no dot at the end. */
  lemma {:induction false} ValidHostRecovered(python2: bool, pr: Printer, id: Bytes, h: Bytes, q: U16, depth: nat)
    requires |id| == 2 && h != [] && ValidHost(python2, h)
    ensures Askable(h) <==> Encodable(SplitDots(h, []))
    ensures Recovers(pr, id, h, q, depth) <==> h[|h| - 1] != DOT && Encodable(SplitDots(h, []))
  {
    hide Recovers, SplitDots, Encodable, WellFormedHost, ValidHost, Askable;
    RequestRoundTrip(pr, id, h, q, depth);
    ValidHostShape(python2, h);
  }

  lemma {:induction false} ValidHostShape(python2: bool, h: Bytes)
    requires h != [] && ValidHost(python2, h)
    ensures Askable(h) <==> Encodable(SplitDots(h, []))
    ensures WellFormedHost(h) <==> h[|h| - 1] != DOT && Encodable(SplitDots(h, []))
  {
    hide SplitDots, Encodable, WellFormedHost, AllMatch, EncodeLabels, StripDots;
    if python2 && h[|h| - 1] == DOT {
      var g := h[..|h| - 1];
      assert h == g + [DOT];
      DotAtEnd(g);
    } else {
      PlainHost(h);
    }
  }

  lemma {:induction false} PlainHost(h: Bytes)
    requires AllMatch(SplitDots(h, []))
    ensures h != [] && h[|h| - 1] != DOT && StripDots(h) == h
    ensures WellFormedHost(h) <==> Encodable(SplitDots(h, []))
  {
    SplitEnds(h, []);
    StripSame(h);
  }

  lemma {:induction false} NoDots(s: Bytes, cur: Bytes)
    requires DOT !in s
    ensures SplitDots(s, cur) == [cur + s]
    decreases |s|
  {
    if s == [] {
      assert cur + s == cur;
    } else {
      NoDots(s[1..], cur + [s[0]]);
      assert (cur + [s[0]]) + s[1..] == cur + s;
    }
  }

  /** There are valid host names that nobody can be asked about. */
  lemma ValidNotAskable(python2: bool, h: Bytes)
    requires |h| == MAX_LABEL + 1 && h[MAX_LABEL] == NEWLINE && forall i :: 0 <= i < MAX_LABEL ==> h[i] == 97
    ensures ValidHost(python2, h) && !Askable(h)
  {
    NoDots(h, []);
    assert [] + h == h;
    StripSame(h);
  }
}
