/**
 * The ordered dictionary of ordereddict.py: a dict, a circular doubly linked list with a
 * sentinel that keeps the keys in insertion order, and a map from keys to links.
 */
module OrderedDictionary {
  import opened Options
  import opened Sorting

  // ----- the specification: distinct keys in order, with their values -----

  datatype Ordered<K, V> = Ordered(keys: seq<K>, vals: map<K, V>)

  ghost predicate WellFormed<K(!new), V>(o: Ordered<K, V>) {
    Distinct(o.keys) && forall k :: k in o.keys <==> k in o.vals
  }

  function Without<K(==)>(s: seq<K>, k: K): seq<K> {
    if s == [] then [] else if s[0] == k then s[1..] else [s[0]] + Without(s[1..], k)
  }

  function Set<K(==), V>(o: Ordered<K, V>, k: K, v: V): Ordered<K, V> {
    Ordered(if k in o.vals then o.keys else o.keys + [k], o.vals[k := v])
  }

  function Delete<K(==), V>(o: Ordered<K, V>, k: K): Ordered<K, V> {
    Ordered(Without(o.keys, k), o.vals - {k})
  }

  function Reverse<K>(s: seq<K>): (r: seq<K>)
    ensures |r| == |s|
    ensures forall i :: 0 <= i < |s| ==> r[i] == s[|s| - 1 - i]
  {
    if s == [] then [] else Reverse(s[1..]) + [s[0]]
  }

  lemma {:induction false} WithoutAt<K>(s: seq<K>, i: nat)
    requires i < |s| && Distinct(s)
    ensures Without(s, s[i]) == s[..i] + s[i + 1..]
  {
    if i > 0 {
      WithoutAt(s[1..], i - 1);
    }
  }

  lemma {:induction false} WithoutMembers<K(!new)>(s: seq<K>, k: K)
    requires Distinct(s)
    ensures Distinct(Without(s, k))
    ensures forall x :: x in Without(s, k) <==> x in s && x != k
  {
    if s != [] {
      assert s == [s[0]] + s[1..] && s[0] !in s[1..];
      WithoutMembers(s[1..], k);
      var t := Without(s[1..], k);
      assert forall j :: 0 <= j < |t| ==> t[j] in s[1..];
    }
  }

  lemma {:induction false} WithoutAbsent<K>(s: seq<K>, k: K)
    requires k !in s
    ensures Without(s, k) == s
  {
    if s != [] {
      WithoutAbsent(s[1..], k);
    }
  }

  lemma {:induction false} WithoutSize<K>(s: seq<K>, k: K)
    ensures |Without(s, k)| == |s| - if k in s then 1 else 0
  {
    if s != [] && s[0] != k {
      WithoutSize(s[1..], k);
    }
  }

  /** Every operation keeps the keys distinct and in step with the values. */
  lemma OperationsKeepWellFormed<K(!new), V>(o: Ordered<K, V>, k: K, v: V)
    requires WellFormed(o)
    ensures WellFormed(Set(o, k, v)) && WellFormed(Delete(o, k))
  {
    WithoutMembers(o.keys, k);
  }

  lemma Shifted<T>(s: seq<T>, i: nat, j: nat)
    requires i < |s| && j < |s| - 1
    ensures (s[..i] + s[i + 1..])[j] == s[if j < i then j else j + 1]
  {
  }

  lemma RemainingMembers<T(!new)>(s: seq<T>, i: nat)
    requires i < |s|
    ensures forall x :: x in s && x != s[i] ==> x in s[..i] + s[i + 1..]
  {
    assert s == s[..i] + [s[i]] + s[i + 1..];
  }

  // ----- the linked structure -----

  class Link<K> {
    var prev: Link?<K>
    var next: Link?<K>
    const key: Option<K>

    constructor (key: Option<K>)
      ensures this.key == key
    {
      this.key := key;
      prev, next := null, null;
    }
  }

  /** The links, sentinel first, form a circle: next and prev are inverse to each other all the way round. */
  ghost predicate Circle<K>(c: seq<Link<K>>)
    reads c
  {
    && |c| > 0
    && (forall i, j :: 0 <= i < j < |c| ==> c[i] != c[j])
    && (forall i {:trigger c[i].next} :: 0 <= i < |c| - 1 ==> c[i].next == c[i + 1])
    && (forall i {:trigger c[i].prev} :: 1 <= i < |c| ==> c[i].prev == c[i - 1])
    && c[|c| - 1].next == c[0] && c[0].prev == c[|c| - 1]
  }

  /** The circle holds the keys in order, after the sentinel, and the map sends each key to its own link. */
  ghost predicate Indexed<K(!new)>(circle: seq<Link<K>>, keys: seq<K>, links: map<K, Link<K>>) {
    && |circle| == |keys| + 1
    && (forall i {:trigger keys[i]} :: 0 <= i < |keys| ==>
          circle[i + 1].key == Some(keys[i]) && keys[i] in links && links[keys[i]] == circle[i + 1])
    && (forall k :: k in links ==> k in keys)
  }

  lemma IndexedDistinct<K(!new)>(circle: seq<Link<K>>, keys: seq<K>, links: map<K, Link<K>>)
    requires Indexed(circle, keys, links)
    requires forall i, j :: 0 <= i < j < |circle| ==> circle[i] != circle[j]
    ensures Distinct(keys)
  {
    forall i, j | 0 <= i < j < |keys|
      ensures keys[i] != keys[j]
    {
      assert links[keys[i]] == circle[i + 1] && links[keys[j]] == circle[j + 1];
    }
  }

  /** A new key with its link comes last. */
  lemma IndexedMore<K(!new)>(circle: seq<Link<K>>, keys: seq<K>, links: map<K, Link<K>>, key: K, link: Link<K>)
    requires Indexed(circle, keys, links) && key !in links && link.key == Some(key)
    ensures Indexed(circle + [link], keys + [key], links[key := link])
  {
  }

  /** Dropping a key with its link leaves the others indexed. */
  lemma IndexedWithout<K(!new)>(circle: seq<Link<K>>, keys: seq<K>, links: map<K, Link<K>>, i: nat)
    requires Indexed(circle, keys, links) && Distinct(keys) && i < |keys|
    ensures Indexed(circle[..i + 1] + circle[i + 2..], keys[..i] + keys[i + 1..], links - {keys[i]})
    ensures forall l :: l in circle[..i + 1] + circle[i + 2..] ==> l in circle
  {
    var circle', keys', links' := circle[..i + 1] + circle[i + 2..], keys[..i] + keys[i + 1..], links - {keys[i]};
    forall j {:trigger keys'[j]} | 0 <= j < |keys'|
      ensures circle'[j + 1].key == Some(keys'[j]) && keys'[j] in links' && links'[keys'[j]] == circle'[j + 1]
    {
      Shifted(keys, i, j);
      Shifted(circle, i + 1, j + 1);
    }
    RemainingMembers(keys, i);
  }

  class OrderedDict<K(==, !new), V> {
    var root: Link<K>
    var links: map<K, Link<K>>
    var dict: map<K, V>
    ghost var circle: seq<Link<K>>
    ghost var keys: seq<K>

    ghost predicate Valid()
      reads this, circle
    {
      Circle(circle) && circle[0] == root && Indexed(circle, keys, links) && dict.Keys == links.Keys
    }

    /** What the object stands for. */
    ghost function View(): Ordered<K, V>
      reads this
    {
      Ordered(keys, dict)
    }

    /** What the object stands for is well formed. */
    lemma ViewWellFormed()
      requires Valid()
      ensures WellFormed(View())
    {
      IndexedDistinct(circle, keys, links);
    }

    constructor ()
      ensures Valid() && View() == Ordered([], map[]) && fresh(circle)
    {
      var r := new Link<K>(None);
      r.prev, r.next := r, r;
      root := r;
      links, dict := map[], map[];
      circle, keys := [r], [];
    }

    method SetItem(key: K, value: V)
      requires Valid()
      modifies this, circle
      ensures Valid() && View() == Set(old(View()), key, value)
      ensures root == old(root) && forall l :: l in circle ==> l in old(circle) || fresh(l)
    {
      if key !in dict {
        var link := new Link<K>(Some(key));
        IndexedMore(circle, keys, links, key, link);
        hide Indexed;
        AppendLink(link);
        links := links[key := link];
        keys := keys + [key];
      }
      dict := dict[key := value];
    }

    /** Puts a link in front of the sentinel. */
    method AppendLink(link: Link<K>)
      requires Circle(circle) && circle[0] == root && link !in circle
      modifies this`circle, circle, link
      ensures circle == old(circle) + [link] && Circle(circle)
    {
      var last := root.prev;
      link.prev, link.next := last, root;
      last.next := link;
      root.prev := link;
      circle := circle + [link];
    }

    /** Removes a key; false is the KeyError. */
    method DelItem(key: K) returns (ok: bool)
      requires Valid()
      modifies this, circle
      ensures Valid() && ok == (key in old(dict))
      ensures View() == if ok then Delete(old(View()), key) else old(View())
      ensures root == old(root) && forall l :: l in circle ==> l in old(circle)
    {
      ok := key in dict;
      if ok {
        ghost var i :| 0 <= i < |keys| && keys[i] == key;
        ViewWellFormed();
        WithoutAt(keys, i);
        RemoveAt(key, i);
      }
    }

    method RemoveAt(key: K, ghost i: nat)
      requires Valid() && i < |keys| && keys[i] == key
      modifies this, circle
      ensures Valid() && root == old(root) && dict == old(dict) - {key}
      ensures keys == old(keys)[..i] + old(keys)[i + 1..]
      ensures forall l :: l in circle ==> l in old(circle)
    {
      ViewWellFormed();
      IndexedWithout(circle, keys, links, i);
      hide Indexed, Distinct, WellFormed;
      dict := dict - {key};
      var link := links[key];
      links := links - {key};
      Unlink(i + 1, link);
      keys := keys[..i] + keys[i + 1..];
    }

    /** Takes the link at position i out of the circle. */
    method Unlink(ghost i: nat, link: Link<K>)
      requires Circle(circle) && 1 <= i < |circle| && link == circle[i]
      modifies this`circle, circle
      ensures circle == old(circle)[..i] + old(circle)[i + 1..] && Circle(circle)
    {
      var linkPrev, linkNext := link.prev, link.next;
      linkPrev.next := linkNext;
      linkNext.prev := linkPrev;
      circle := circle[..i] + circle[i + 1..];
    }

    /** Iteration: following next from the sentinel. */
    method Iter() returns (out: seq<K>)
      requires Valid()
      ensures out == keys
    {
      out := [];
      var curr := root.next;
      ghost var n := 0;
      while curr != root
        invariant 0 <= n <= |keys| && out == keys[..n]
        invariant curr == if n < |keys| then circle[n + 1] else root
        decreases |keys| - n
      {
        assert n < |keys| && circle[n + 1].key == Some(keys[n]);
        assert circle[n + 1].next == if n + 1 < |keys| then circle[n + 2] else root;
        out := out + [curr.key.value];
        curr := curr.next;
        n := n + 1;
      }
    }

    /** Reversed iteration: following prev from the sentinel gives the same keys the other way round. */
    method Reversed() returns (out: seq<K>)
      requires Valid()
      ensures out == Reverse(keys)
    {
      out := [];
      var curr := root.prev;
      ghost var n := |keys|;
      while curr != root
        invariant 0 <= n <= |keys| && |out| == |keys| - n
        invariant forall i :: 0 <= i < |out| ==> out[i] == keys[|keys| - 1 - i]
        invariant curr == circle[n]
        decreases n
      {
        assert n > 0 && circle[n - 1 + 1].key == Some(keys[n - 1]);
        out := out + [curr.key.value];
        curr := curr.prev;
        n := n - 1;
      }
    }

    /** The first key: what one step of iteration yields. */
    method First() returns (key: Option<K>)
      requires Valid()
      ensures key == if keys == [] then None else Some(keys[0])
    {
      var curr := root.next;
      if curr == root {
        return None;
      }
      assert keys != [] && circle[0 + 1].key == Some(keys[0]);
      return curr.key;
    }

    /** The last key: what one step of reversed iteration yields. */
    method Last() returns (key: Option<K>)
      requires Valid()
      ensures key == if keys == [] then None else Some(keys[|keys| - 1])
    {
      var curr := root.prev;
      if curr == root {
        return None;
      }
      assert keys != [] && circle[|keys| - 1 + 1].key == Some(keys[|keys| - 1]);
      return curr.key;
    }

    /** Removes a key and returns its value, or the default; without a default, None is the KeyError. */
    method Pop(key: K, default: Option<V>) returns (result: Option<V>)
      requires Valid()
      modifies this, circle
      ensures Valid()
      ensures key in old(dict) ==> result == Some(old(dict)[key]) && View() == Delete(old(View()), key)
      ensures key !in old(dict) ==> result == default && View() == old(View())
      ensures root == old(root) && forall l :: l in circle ==> l in old(circle)
    {
      if key in dict {
        result := Some(dict[key]);
        var _ := DelItem(key);
      } else {
        result := default;
      }
    }

    /** Removes the last or the first pair; None is the KeyError on an empty dictionary. */
    method PopItem(last: bool) returns (result: Option<(K, V)>)
      requires Valid()
      modifies this, circle
      ensures Valid()
      ensures old(keys) == [] ==> result == None && View() == old(View())
      ensures old(keys) != [] ==>
                var key := old(keys)[if last then |old(keys)| - 1 else 0];
                && key in old(dict) && result == Some((key, old(dict)[key]))
                && View() == Ordered(if last then old(keys)[..|old(keys)| - 1] else old(keys)[1..], old(dict) - {key})
      ensures root == old(root) && forall l :: l in circle ==> l in old(circle)
    {
      var key;
      if last {
        key := Last();
      } else {
        key := First();
      }
      if key == None {
        return None;
      }
      ViewWellFormed();
      WithoutAt(keys, if last then |keys| - 1 else 0);
      var value := Pop(key.value, None);
      result := Some((key.value, value.value));
    }

    method Clear()
      requires Valid()
      modifies this, root
      ensures Valid() && View() == Ordered([], map[]) && root == old(root) && circle == [root]
    {
      root.prev, root.next := root, root;
      links, dict := map[], map[];
      circle, keys := [root], [];
    }
  }
}
