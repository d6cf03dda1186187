/**
 * The message format of RFC 1035 as asyncdns.py writes and reads it: names as labels, with
 * compression pointers (section 4.1.4), questions and resource records.
 */
module DnsCodec {
  import opened ByteStrings
  import opened Options

  const DOT: Byte := 46
  const MAX_LABEL := 63
  const POINTER_BITS := 192
  const QTYPE_A := 1
  const QTYPE_NS := 2
  const QTYPE_CNAME := 5
  const QTYPE_AAAA := 28
  const QCLASS_IN := 1

  // ----- text -----

  function JoinDots(labels: seq<Bytes>): Bytes {
    if labels == [] then []
    else if |labels| == 1 then labels[0]
    else labels[0] + [DOT] + JoinDots(labels[1..])
  }

  /** The parts between dots, the first of which continues cur. */
  function SplitDots(s: Bytes, cur: Bytes): (r: seq<Bytes>)
    ensures r != []
  {
    if s == [] then [cur]
    else if s[0] == DOT then [cur] + SplitDots(s[1..], [])
    else SplitDots(s[1..], cur + [s[0]])
  }

  function StripLeft(s: Bytes): (r: Bytes)
    ensures |r| <= |s|
  {
    if s != [] && s[0] == DOT then StripLeft(s[1..]) else s
  }

  function StripRight(s: Bytes): (r: Bytes)
    ensures |r| <= |s|
  {
    if s != [] && s[|s| - 1] == DOT then StripRight(s[..|s| - 1]) else s
  }

  function StripDots(s: Bytes): (r: Bytes)
    ensures |r| <= |s|
  {
    StripRight(StripLeft(s))
  }

  predicate AllDots(s: Bytes) {
    forall i :: 0 <= i < |s| ==> s[i] == DOT
  }

  /** Stripping takes the outer dots away, and nothing else. */
  lemma {:induction false} StripsDots(s: Bytes) returns (a: Bytes, b: Bytes)
    ensures s == a + StripDots(s) + b && AllDots(a) && AllDots(b)
    ensures StripDots(s) != [] ==> StripDots(s)[0] != DOT && StripDots(s)[|StripDots(s)| - 1] != DOT
  {
    a := StripsLeft(s);
    b := StripsRight(StripLeft(s));
    hide StripLeft, StripRight;
    if StripDots(s) != [] {
      assert StripLeft(s)[0] == StripDots(s)[0];
    }
  }

  lemma {:induction false} StripsLeft(s: Bytes) returns (a: Bytes)
    ensures s == a + StripLeft(s) && AllDots(a) && (StripLeft(s) != [] ==> StripLeft(s)[0] != DOT)
  {
    a := [];
    if s != [] && s[0] == DOT {
      a := StripsLeft(s[1..]);
      a := [DOT] + a;
    }
  }

  lemma {:induction false} StripsRight(s: Bytes) returns (b: Bytes)
    ensures s == StripRight(s) + b && AllDots(b)
    ensures StripRight(s) != [] ==> StripRight(s)[|StripRight(s)| - 1] != DOT
  {
    b := [];
    if s != [] && s[|s| - 1] == DOT {
      b := StripsRight(s[..|s| - 1]);
      b := b + [DOT];
    }
  }

  lemma {:induction false} JoinSplit(s: Bytes, cur: Bytes)
    ensures JoinDots(SplitDots(s, cur)) == cur + s
    decreases |s|
  {
    if s == [] {
      assert cur + s == cur;
    } else if s[0] == DOT {
      JoinSplit(s[1..], []);
      var rest := SplitDots(s[1..], []);
      assert ([cur] + rest)[1..] == rest;
      assert [] + s[1..] == s[1..];
      assert cur + [DOT] + s[1..] == cur + s;
    } else {
      JoinSplit(s[1..], cur + [s[0]]);
      assert (cur + [s[0]]) + s[1..] == cur + s;
    }
  }

  // ----- names -----

  /** Labels with their lengths, ended by an empty one. */
  function EncodeLabels(labels: seq<Bytes>): (b: Bytes)
    requires forall i :: 0 <= i < |labels| ==> |labels[i]| <= MAX_LABEL
  {
    if labels == [] then [0] else [|labels[0]|] + labels[0] + EncodeLabels(labels[1..])
  }

  predicate Encodable(labels: seq<Bytes>) {
    forall i :: 0 <= i < |labels| ==> |labels[i]| <= MAX_LABEL
  }

  /** build_address; None stands for a label that is too long. */
  function AddressBytes(address: Bytes): Option<Bytes> {
    var labels := SplitDots(StripDots(address), []);
    if Encodable(labels) then Some(EncodeLabels(labels)) else None
  }

  lemma {:induction false} EncodeSnoc(labels: seq<Bytes>, l: Bytes)
    requires Encodable(labels) && |l| <= MAX_LABEL
    ensures Encodable(labels + [l])
    ensures EncodeLabels(labels + [l]) == EncodeLabels(labels)[..|EncodeLabels(labels)| - 1] + [|l|] + l + [0]
    decreases |labels|
  {
    if labels == [] {
      assert [l][1..] == [] && labels + [l] == [l];
    } else {
      assert (labels + [l])[1..] == labels[1..] + [l];
      EncodeSnoc(labels[1..], l);
      var head, rest := [|labels[0]|] + labels[0], EncodeLabels(labels[1..]);
      assert (head + rest)[..|head + rest| - 1] == head + rest[..|rest| - 1];
      hide EncodeLabels;
    }
  }

  lemma {:induction false} EncodeEnds(labels: seq<Bytes>)
    requires Encodable(labels)
    ensures EncodeLabels(labels) != [] && EncodeLabels(labels)[|EncodeLabels(labels)| - 1] == 0
    decreases |labels|
  {
    if labels != [] {
      EncodeEnds(labels[1..]);
    }
  }

  /** The loop of build_address over the labels. */
  method BuildAddress(address: Bytes) returns (r: Option<Bytes>)
    ensures r == AddressBytes(address)
  {
    hide SplitDots, EncodeLabels;
    var labels := SplitDots(StripDots(address), []);
    var results: Bytes, i := [], 0;
    NoLabels();
    while i < |labels|
      invariant i <= |labels| && Encodable(labels[..i])
      invariant results + [0] == EncodeLabels(labels[..i])
    {
      var part := labels[i];
      if |part| > MAX_LABEL {
        return None;
      }
      EncodeSnoc(labels[..i], part);
      assert labels[..i + 1] == labels[..i] + [part];
      assert (results + [0])[..|results|] == results;
      results := results + [|part|] + part;
      i := i + 1;
    }
    assert labels[..i] == labels;
    r := Some(results + [0]);
  }

  lemma NoLabels()
    ensures EncodeLabels([]) == [0]
  {
  }

  /** What reading a name gives: the bytes it takes up and its text. */
  datatype Parsed = Parsed(size: nat, text: Bytes)

  /** parse_name. depth bounds the nesting of pointers, as the interpreter's limit on recursion does; None stands for
      an exception. */
  function ParseName(data: Bytes, offset: nat, depth: nat): Option<Parsed>
    decreases depth, |data| + 1
  {
    if offset > |data| then None else ParseFrom(data, offset, offset, [], depth)
  }

  function ParseFrom(data: Bytes, offset: nat, p: nat, labels: seq<Bytes>, depth: nat): Option<Parsed>
    requires offset <= p <= |data|
    decreases depth, |data| - p
  {
    if p == |data| then None
    else if data[p] == 0 then Some(Parsed(p - offset + 1, JoinDots(labels)))
    else if data[p] >= POINTER_BITS then
      if p + 2 > |data| || depth == 0 then None
      else
        var r := ParseName(data, Pointer(data, p), depth - 1);
        if r == None then None else Some(Parsed(p + 2 - offset, JoinDots(labels + [r.value.text])))
    else
      var end := p + 1 + data[p];
      if end >= |data| then None else ParseFrom(data, offset, end, labels + [data[p + 1..end]], depth)
  }

  function Pointer(data: Bytes, p: nat): nat
    requires p + 2 <= |data|
  {
    UnBe16(data[p..p + 2]) % 0x4000
  }

  /** The loop of parse_name. */
  method ReadName(data: Bytes, offset: nat, depth: nat) returns (r: Option<Parsed>)
    ensures r == ParseName(data, offset, depth)
    decreases depth
  {
    hide JoinDots, Pointer;
    var p, labels := offset, [];
    if p >= |data| {
      return None;
    }
    var l := data[p];
    while l > 0
      invariant offset <= p < |data| && l == data[p]
      invariant ParseName(data, offset, depth) == ParseFrom(data, offset, p, labels, depth)
      decreases |data| - p
    {
      if l >= POINTER_BITS {
        if p + 2 > |data| || depth == 0 {
          return None;
        }
        var t := ReadName(data, Pointer(data, p), depth - 1);
        if t == None {
          return None;
        }
        labels := labels + [t.value.text];
        p := p + 2;
        return Some(Parsed(p - offset, JoinDots(labels)));
      }
      if p + 1 + l >= |data| {
        return None;
      }
      labels := labels + [data[p + 1..p + 1 + l]];
      p := p + 1 + l;
      l := data[p];
    }
    r := Some(Parsed(p - offset + 1, JoinDots(labels)));
  }

  // ----- what a name in a message stands for -----

  /** From at on, in a name that starts at start, the message spells labels; pointers go strictly backwards, before the
      start of the name they are in (section 4.1.4 of RFC 1035: to a prior occurrence). */
  predicate Spells(data: Bytes, start: nat, at: nat, labels: seq<Bytes>)
    decreases start, if at < |data| then |data| - at else 0
  {
    if at >= |data| then false
    else if data[at] == 0 then labels == []
    else if data[at] >= POINTER_BITS then
      at + 2 <= |data| && Pointer(data, at) < start && Spells(data, Pointer(data, at), Pointer(data, at), labels)
    else
      var end := at + 1 + data[at];
      && data[at] <= MAX_LABEL && end < |data| && labels != [] && labels[0] == data[at + 1..end]
      && Spells(data, start, end, labels[1..])
  }

  /** The bytes that the name takes up. */
  function SpelledSize(data: Bytes, at: nat): nat
    decreases if at < |data| then |data| - at else 0
  {
    if at >= |data| then 0
    else if data[at] == 0 then 1
    else if data[at] >= POINTER_BITS then 2
    else 1 + data[at] + SpelledSize(data, at + 1 + data[at])
  }

  /** The number of pointers followed. */
  function Hops(data: Bytes, start: nat, at: nat): (h: nat)
    ensures h <= start
    decreases start, if at < |data| then |data| - at else 0
  {
    if at >= |data| || data[at] == 0 then 0
    else if data[at] >= POINTER_BITS then
      if at + 2 <= |data| && Pointer(data, at) < start then 1 + Hops(data, Pointer(data, at), Pointer(data, at)) else 0
    else Hops(data, start, at + 1 + data[at])
  }

  /** The last pointer leads to the root, the name without labels. */
  predicate EndsAtRoot(data: Bytes, start: nat, at: nat)
    decreases start, if at < |data| then |data| - at else 0
  {
    if at >= |data| || data[at] == 0 then false
    else if data[at] >= POINTER_BITS then
      && at + 2 <= |data| && Pointer(data, at) < start && Pointer(data, at) < |data|
      && (data[Pointer(data, at)] == 0 || EndsAtRoot(data, Pointer(data, at), Pointer(data, at)))
    else EndsAtRoot(data, start, at + 1 + data[at])
  }

  /** The text that parse_name makes of labels. */
  function NameText(labels: seq<Bytes>, rootPointer: bool): Bytes {
    JoinDots(labels) + if rootPointer && labels != [] then [DOT] else []
  }

  lemma {:induction false} JoinTail(a: seq<Bytes>, labels: seq<Bytes>, root: bool)
    requires forall i :: 0 <= i < |labels| ==> labels[i] != []
    ensures JoinDots(a + [NameText(labels, root)])
         == if labels == [] then (if a == [] then [] else JoinDots(a) + [DOT])
            else NameText(a + labels, root)
    decreases |a|
  {
    var t := NameText(labels, root);
    if a == [] {
      assert a + [t] == [t] && a + labels == labels;
    } else {
      JoinTail(a[1..], labels, root);
      JoinMore(a, [t]);
      assert (a + [t])[1..] == a[1..] + [t];
      if labels == [] {
        assert t == [];
        if |a| > 1 {
          assert JoinDots(a) == a[0] + [DOT] + JoinDots(a[1..]);
          assert a[0] + [DOT] + (JoinDots(a[1..]) + [DOT]) == JoinDots(a) + [DOT];
        } else {
          assert a[1..] == [];
          assert a[0] + [DOT] + [] == a[0] + [DOT];
        }
      } else {
        var dot: Bytes := if root then [DOT] else [];
        assert (a + labels)[1..] == a[1..] + labels;
        assert a[0] + [DOT] + (JoinDots(a[1..] + labels) + dot) == a[0] + [DOT] + JoinDots(a[1..] + labels) + dot;
      }
    }
  }

  lemma {:induction false} JoinMore(a: seq<Bytes>, b: seq<Bytes>)
    requires a != [] && b != []
    ensures JoinDots(a + b) == a[0] + [DOT] + JoinDots((a + b)[1..])
  {
  }

  lemma {:induction false} LabelsNonEmpty(data: Bytes, start: nat, at: nat, labels: seq<Bytes>)
    requires Spells(data, start, at, labels)
    ensures forall i :: 0 <= i < |labels| ==> labels[i] != []
    decreases start, if at < |data| then |data| - at else 0
  {
    if data[at] == 0 {
    } else if data[at] >= POINTER_BITS {
      LabelsNonEmpty(data, Pointer(data, at), Pointer(data, at), labels);
    } else {
      LabelsNonEmpty(data, start, at + 1 + data[at], labels[1..]);
    }
  }

  /** The text after own labels and then the labels of a pointer's target. */
  lemma {:induction false} TextThroughPointer(own: seq<Bytes>, labels: seq<Bytes>, root: bool, toRoot: bool)
    requires forall i :: 0 <= i < |labels| ==> labels[i] != []
    requires toRoot ==> labels == []
    requires labels == [] ==> toRoot || root
    ensures JoinDots(own + [NameText(labels, root)]) == NameText(own + labels, toRoot || root)
  {
    JoinTail(own, labels, root);
    assert labels == [] ==> own + labels == own;
  }

  lemma {:induction false} EmptyNameIsRoot(data: Bytes, start: nat)
    requires start < |data| && Spells(data, start, start, [])
    ensures data[start] == 0 || EndsAtRoot(data, start, start)
    decreases start
  {
    if data[start] >= POINTER_BITS {
      var p := Pointer(data, start);
      assert Spells(data, p, p, []);
      EmptyNameIsRoot(data, p);
    }
  }

  /** parse_name, on a name whose pointers go strictly backwards, gives exactly its size and its labels joined by dots;
      except that a name whose last pointer leads to the root gets a dot too many. */
  lemma {:induction false} ParseSpelled(data: Bytes, start: nat, at: nat, own: seq<Bytes>, labels: seq<Bytes>,
                                        depth: nat)
    requires start <= at && Spells(data, start, at, labels) && depth >= Hops(data, start, at)
    ensures at < |data|
    ensures ParseFrom(data, start, at, own, depth)
         == Some(Parsed(at - start + SpelledSize(data, at), NameText(own + labels, EndsAtRoot(data, start, at))))
    decreases start, |data| - at
  {
    hide JoinDots, Pointer;
    if data[at] == 0 {
      assert own + labels == own;
      PlainText(own);
    } else if data[at] >= POINTER_BITS {
      var p := Pointer(data, at);
      ParseSpelled(data, p, p, [], labels, depth - 1);
      assert [] + labels == labels;
      LabelsNonEmpty(data, p, p, labels);
      if labels == [] {
        EmptyNameIsRoot(data, p);
      }
      TextThroughPointer(own, labels, EndsAtRoot(data, p, p), data[p] == 0);
    } else {
      var end := at + 1 + data[at];
      ParseSpelled(data, start, end, own + [labels[0]], labels[1..], depth);
      assert (own + [labels[0]]) + labels[1..] == own + labels;
    }
  }

  lemma {:induction false} PlainText(labels: seq<Bytes>)
    ensures NameText(labels, false) == JoinDots(labels)
  {
    assert JoinDots(labels) + [] == JoinDots(labels);
  }

  /** The text is the labels joined by dots if and only if no last pointer leads to the root, or there are no
      labels. */
  lemma {:induction false} ParsedTextExact(data: Bytes, offset: nat, labels: seq<Bytes>, depth: nat)
    requires Spells(data, offset, offset, labels) && depth >= Hops(data, offset, offset)
    ensures var r := ParseName(data, offset, depth);
            && r.Some? && r.value.size == SpelledSize(data, offset)
            && (r.value.text == JoinDots(labels) <==> labels == [] || !EndsAtRoot(data, offset, offset))
  {
    ParseSpelled(data, offset, offset, [], labels, depth);
    assert [] + labels == labels;
    PlainText(labels);
    assert |NameText(labels, true)| == |JoinDots(labels)| + if labels != [] then 1 else 0;
  }

  /** A name that ends so: the bytes 0, 1, 'a', 192, 0 read from offset 1 have the one label "a", and give "a.". */
  lemma RootPointerDot()
    ensures var data: Bytes := [0, 1, 97, POINTER_BITS, 0];
            && Spells(data, 1, 1, [[97]]) && JoinDots([[97]]) == [97]
            && ParseName(data, 1, 1) == Some(Parsed(4, [97, DOT]))
  {
    var data: Bytes := [0, 1, 97, POINTER_BITS, 0];
    assert data[2..3] == [97] && [[97]][1..] == [];
    assert Pointer(data, 3) == 0;
    assert Spells(data, 0, 0, []) && Spells(data, 1, 3, []);
    ParseSpelled(data, 1, 1, [], [[97]], 1);
    assert [] + [[97]] == [[97]] && [97] + [DOT] == [97, DOT];
    assert EndsAtRoot(data, 1, 3) && SpelledSize(data, 3) == 2;
  }
}
