/** Taking the quoted text out of a line of a PO file: extract_string of po2lmo.c, which works in place on a buffer. */
module PoString {
  import opened ByteStrings

  const QUOTE: Byte := 34
  const BACKSLASH: Byte := 92

  /** The text after an opening quote, and whether a closing quote ends it. A backslash makes a quote or a backslash
      stand for itself; before anything else it stays. */
  function Text(s: Bytes): (Bytes, bool) {
    if s == [] then ([], false)
    else if s[0] == QUOTE then ([], true)
    else if s[0] != BACKSLASH || |s| == 1 then
      var (t, closed) := Text(s[1..]);
      ([s[0]] + t, closed)
    else
      var (t, closed) := Text(s[2..]);
      ((if s[1] == QUOTE || s[1] == BACKSLASH then [s[1]] else [BACKSLASH, s[1]]) + t, closed)
  }

  /** How a text is written between quotes. */
  function Escape(s: Bytes): Bytes {
    if s == [] then []
    else (if s[0] == QUOTE || s[0] == BACKSLASH then [BACKSLASH, s[0]] else [s[0]]) + Escape(s[1..])
  }

  /** Every text comes back from its escaped form, whatever follows the closing quote. */
  lemma {:induction false} EscapeRoundTrip(s: Bytes, rest: Bytes)
    ensures Text(Escape(s) + [QUOTE] + rest) == (s, true)
    decreases |s|
  {
    var line := Escape(s) + [QUOTE] + rest;
    if s == [] {
      assert line[0] == QUOTE;
    } else {
      EscapeRoundTrip(s[1..], rest);
      var tail := Escape(s[1..]) + [QUOTE] + rest;
      if s[0] == QUOTE || s[0] == BACKSLASH {
        assert line == [BACKSLASH, s[0]] + tail;
        assert line[0] == BACKSLASH && line[1] == s[0] && line[2..] == tail;
        assert [s[0]] + s[1..] == s;
      } else {
        assert line == [s[0]] + tail;
        assert line[0] == s[0] && line[1..] == tail;
        assert [s[0]] + s[1..] == s;
      }
    }
  }

  lemma {:induction false} TextShort(s: Bytes)
    ensures |Text(s).0| <= |s| && (Text(s).1 ==> |Text(s).0| < |s|)
    ensures (forall i :: 0 <= i < |s| ==> s[i] != 0) ==> forall i :: 0 <= i < |Text(s).0| ==> Text(s).0[i] != 0
    decreases |s|
  {
    if s != [] && s[0] != QUOTE {
      TextShort(if s[0] != BACKSLASH || |s| == 1 then s[1..] else s[2..]);
    }
  }

  /** Where the first quote is, or the end. */
  function FirstQuote(s: Bytes): (q: nat)
    ensures q <= |s| && (q < |s| ==> s[q] == QUOTE)
    ensures forall i :: 0 <= i < q ==> s[i] != QUOTE
  {
    if s == [] || s[0] == QUOTE then 0 else 1 + FirstQuote(s[1..])
  }

  /** C's strlen, within a buffer. */
  method StrLen(dest: array<Byte>) returns (n: nat)
    ensures n <= dest.Length && (n < dest.Length ==> dest[n] == 0)
    ensures forall i :: 0 <= i < n ==> dest[i] != 0
  {
    n := 0;
    while n < dest.Length && dest[n] != 0
      invariant n <= dest.Length
      invariant forall i :: 0 <= i < n ==> dest[i] != 0
    {
      n := n + 1;
    }
  }

  /** The copy has come to position pos of line, which has no more to do than what Text makes of the rest; done has
      been written, and after a backslash (esc) it is looked at again with the next byte. */
  ghost predicate Copying(line: Bytes, pos: nat, done: Bytes, esc: bool) {
    && pos <= |line| && |done| <= pos
    && if esc then
         && 0 < pos && done != [] && done[|done| - 1] == BACKSLASH && line[pos - 1] == BACKSLASH
         && Text(line) == (done[..|done| - 1] + Text(line[pos - 1..]).0, Text(line[pos - 1..]).1)
       else
         Text(line) == (done + Text(line[pos..]).0, Text(line[pos..]).1)
  }

  lemma CopyStart(line: Bytes)
    ensures Copying(line, 0, [], false)
  {
    assert line[0..] == line && [] + Text(line).0 == Text(line).0;
  }

  lemma CopyEscaped(line: Bytes, pos: nat, done: Bytes)
    requires Copying(line, pos, done, true) && pos < |line|
    ensures var c := line[pos];
            Copying(line, pos + 1, if c == QUOTE || c == BACKSLASH then done[..|done| - 1] + [c] else done + [c], false)
  {
    var c, s, init := line[pos], line[pos - 1..], done[..|done| - 1];
    assert s[2..] == line[pos + 1..] && s[0] == BACKSLASH && s[1] == c;
    var t := Text(line[pos + 1..]).0;
    assert done == init + [BACKSLASH];
    assert init + ([c] + t) == (init + [c]) + t;
    assert init + ([BACKSLASH, c] + t) == (done + [c]) + t;
  }

  lemma CopyPlain(line: Bytes, pos: nat, done: Bytes)
    requires Copying(line, pos, done, false) && pos < |line| && line[pos] != QUOTE
    ensures Copying(line, pos + 1, done + [line[pos]], line[pos] == BACKSLASH)
  {
    var c, s := line[pos], line[pos..];
    assert s[1..] == line[pos + 1..] && s[0] == c;
    var t := Text(line[pos + 1..]).0;
    assert (done + [c])[..|done + [c]| - 1] == done;
    if c != BACKSLASH {
      assert done + ([c] + t) == (done + [c]) + t;
    }
  }

  lemma {:induction false} CopyEnds(line: Bytes, pos: nat, done: Bytes, esc: bool)
    requires Copying(line, pos, done, esc)
    ensures pos == |line| ==> Text(line) == (done, false)
    ensures pos < |line| && line[pos] == QUOTE && !esc ==> Text(line) == (done, true)
  {
    if esc && pos == |line| {
      var last: Bytes := [BACKSLASH];
      assert line[pos - 1..] == last;
      assert last[1..] == [] && last + [] == last;
      assert Text(last) == (last, false);
      assert done == done[..|done| - 1] + last;
    } else if !esc {
      assert done + [] == done;
    }
  }

  /** The second half of extract_string: copies from position start, after the opening quote, to the closing quote or
      position n. */
  method CopyText(src: Bytes, dest: array<Byte>, start: nat, n: nat)
    requires start <= n <= |src| && n - start < dest.Length
    modifies dest
    ensures var (t, closed) := Text(src[start..n]);
            && |t| < dest.Length && dest[..|t|] == t
            && dest[|t|] == if closed then 0 else old(dest[|t|])
  {
    hide Copying, Text;
    ghost var line := src[start..n];
    var pos, off, esc := start, start, false;
    CopyStart(line);
    TextShort(line);
    while pos < n
      invariant start <= off <= pos <= n
      invariant Copying(line, pos - start, dest[..pos - off], esc)
      invariant forall i :: pos - off <= i < dest.Length ==> dest[i] == old(dest[i])
    {
      ghost var done := dest[..pos - off];
      assert line[pos - start] == src[pos];
      CopyingSize(line, pos - start, done, esc);
      if esc {
        CopyEscaped(line, pos - start, done);
        if src[pos] == QUOTE || src[pos] == BACKSLASH {
          off := off + 1;
          dest[pos - off] := src[pos];
          assert dest[..pos + 1 - off] == done[..|done| - 1] + [src[pos]];
        } else {
          dest[pos - off] := src[pos];
          assert dest[..pos + 1 - off] == done + [src[pos]];
        }
        esc := false;
      } else if src[pos] == QUOTE {
        CopyEnds(line, pos - start, done, esc);
        dest[pos - off] := 0;
        assert dest[..pos - off] == done;
        return;
      } else {
        CopyPlain(line, pos - start, done);
        dest[pos - off] := src[pos];
        assert dest[..pos + 1 - off] == done + [src[pos]];
        esc := src[pos] == BACKSLASH;
      }
      pos := pos + 1;
    }
    CopyEnds(line, pos - start, dest[..pos - off], esc);
  }

  lemma CopyingSize(line: Bytes, pos: nat, done: Bytes, esc: bool)
    requires Copying(line, pos, done, esc)
    ensures esc ==> done != []
  {
  }

  /** extract_string: what stands between the first quote and the next unescaped one, in the first len bytes of src,
      goes to dest. src is as C's strings are, without zero bytes, and dest has room. -1 means that there is no
      quote. */
  method ExtractString(src: Bytes, dest: array<Byte>, len: nat) returns (r: int)
    requires len <= dest.Length && forall i :: 0 <= i < |src| ==> src[i] != 0
    modifies dest
    ensures var n := Min(|src|, len);
            var q := FirstQuote(src[..n]);
            if q == n then r == -1 && dest[..] == old(dest[..])
            else
              var (t, closed) := Text(src[q + 1..n]);
              && |t| < dest.Length && dest[..|t|] == t
              && dest[|t|] == (if closed then 0 else old(dest[|t|]))
              && (dest[|t|] == 0 ==> r == |t|)
  {
    hide Text;
    var n := Min(|src|, len);
    ghost var q := FirstQuote(src[..n]);
    var pos := 0;
    while pos < n && src[pos] != QUOTE
      invariant pos <= q
    {
      assert src[..n][pos] == src[pos];
      pos := pos + 1;
    }
    assert pos < n ==> src[..n][pos] == QUOTE;
    if pos == n {
      return -1;
    }
    CopyText(src, dest, pos + 1, n);
    r := StrLen(dest);
    ghost var line := src[pos + 1..n];
    assert forall i :: 0 <= i < |line| ==> line[i] != 0;
    TextShort(line);
    assert forall i :: 0 <= i < |Text(line).0| ==> dest[..|Text(line).0|][i] != 0;
  }
}
