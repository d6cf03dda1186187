/** Sorting a list by an order, and lists without repetition. */
module Sorting {
  type Order<!T> = (T, T) -> bool

  ghost predicate Distinct<T>(s: seq<T>) {
    forall i, j :: 0 <= i < j < |s| ==> s[i] != s[j]
  }

  /** Any two elements are in order one way or the other, and order carries over. */
  ghost predicate Total<T(!new)>(le: Order<T>) {
    && (forall a, b :: le(a, b) || le(b, a))
    && (forall a, b, c {:trigger le(a, b), le(b, c)} :: le(a, b) && le(b, c) ==> le(a, c))
  }

  ghost predicate Sorted<T>(le: Order<T>, s: seq<T>) {
    forall i, j :: 0 <= i < j < |s| ==> le(s[i], s[j])
  }

  /** In order, with no two elements alike. */
  ghost predicate Strict<T>(le: Order<T>, s: seq<T>) {
    forall i, j :: 0 <= i < j < |s| ==> le(s[i], s[j]) && !le(s[j], s[i])
  }

  function Insert<T>(le: Order<T>, x: T, s: seq<T>): (r: seq<T>)
    ensures |r| == |s| + 1
  {
    if s == [] || le(x, s[0]) then [x] + s else [s[0]] + Insert(le, x, s[1..])
  }

  /** What every stable sort makes of s. */
  function Sort<T>(le: Order<T>, s: seq<T>): (r: seq<T>)
    ensures |r| == |s|
  {
    if s == [] then [] else Insert(le, s[0], Sort(le, s[1..]))
  }

  lemma {:induction false} InsertPermutes<T>(le: Order<T>, x: T, s: seq<T>)
    ensures multiset(Insert(le, x, s)) == multiset(s) + multiset{x}
  {
    if s != [] && !le(x, s[0]) {
      InsertPermutes(le, x, s[1..]);
      assert s == [s[0]] + s[1..];
    }
  }

  lemma {:induction false} SortPermutes<T>(le: Order<T>, s: seq<T>)
    ensures multiset(Sort(le, s)) == multiset(s)
  {
    if s != [] {
      SortPermutes(le, s[1..]);
      InsertPermutes(le, s[0], Sort(le, s[1..]));
      assert s == [s[0]] + s[1..];
    }
  }

  lemma {:induction false} SortMembers<T>(le: Order<T>, s: seq<T>, x: T)
    ensures x in Sort(le, s) <==> x in s
  {
    SortPermutes(le, s);
    assert x in multiset(Sort(le, s)) <==> x in multiset(s);
  }

  lemma SortedCons<T(!new)>(le: Order<T>, x: T, s: seq<T>)
    requires Total(le) && Sorted(le, s) && (s != [] ==> le(x, s[0]))
    ensures Sorted(le, [x] + s)
  {
    var t := [x] + s;
    forall i, j | 0 <= i < j < |t|
      ensures le(t[i], t[j])
    {
      if i == 0 && j > 1 {
        assert le(s[0], s[j - 1]);
      }
    }
  }

  lemma {:induction false} InsertSorts<T(!new)>(le: Order<T>, x: T, s: seq<T>)
    requires Total(le) && Sorted(le, s)
    ensures Sorted(le, Insert(le, x, s))
    ensures Insert(le, x, s)[0] == if s == [] || le(x, s[0]) then x else s[0]
  {
    if s == [] || le(x, s[0]) {
      SortedCons(le, x, s);
    } else {
      InsertSorts(le, x, s[1..]);
      SortedCons(le, s[0], Insert(le, x, s[1..]));
    }
  }

  lemma {:induction false} SortSorts<T(!new)>(le: Order<T>, s: seq<T>)
    requires Total(le)
    ensures Sorted(le, Sort(le, s))
  {
    if s != [] {
      SortSorts(le, s[1..]);
      InsertSorts(le, s[0], Sort(le, s[1..]));
    }
  }

  /** No two elements of s are alike. */
  ghost predicate Apart<T>(le: Order<T>, s: seq<T>) {
    forall i, j :: 0 <= i < j < |s| ==> !(le(s[i], s[j]) && le(s[j], s[i]))
  }

  lemma {:induction false} InsertApart<T(!new)>(le: Order<T>, x: T, s: seq<T>)
    requires Apart(le, s) && forall e :: e in s ==> !(le(x, e) && le(e, x))
    ensures Apart(le, Insert(le, x, s))
  {
    if s != [] && !le(x, s[0]) {
      InsertApart(le, x, s[1..]);
      var t := Insert(le, x, s[1..]);
      forall j | 0 <= j < |t|
        ensures !(le(s[0], t[j]) && le(t[j], s[0]))
      {
        InsertPermutes(le, x, s[1..]);
        assert t[j] in multiset(t);
        assert t[j] == x || t[j] in s[1..];
      }
    }
  }

  /** Distinct elements come out in strict order. */
  lemma {:induction false} SortStrict<T(!new)>(le: Order<T>, s: seq<T>)
    requires Total(le) && Apart(le, s)
    ensures Strict(le, Sort(le, s))
  {
    SortSorts(le, s);
    SortApart(le, s);
  }

  lemma {:induction false} SortApart<T(!new)>(le: Order<T>, s: seq<T>)
    requires Apart(le, s)
    ensures Apart(le, Sort(le, s))
  {
    if s != [] {
      SortApart(le, s[1..]);
      forall e | e in Sort(le, s[1..])
        ensures !(le(s[0], e) && le(e, s[0]))
      {
        SortMembers(le, s[1..], e);
      }
      InsertApart(le, s[0], Sort(le, s[1..]));
    }
  }
}
