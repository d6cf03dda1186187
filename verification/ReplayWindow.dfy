/**
 * The sliding window of connection ids that a server keeps per client (client_queue in auth.py and
 * auth_chain.py). It remembers only ids from `front` on, yet answers as if it remembered all.
 */
module ReplayWindow {
  import Sorting

  const SLACK := 64
  const WINDOW := 0x1000
  const REACH := 0x4000

  // ----- the specification: an epoch remembers every id it accepted -----

  /** The ids accepted since the window was opened at the id start, in order. */
  datatype Epoch = Epoch(start: int, ids: seq<int>)

  function Seen(e: Epoch): set<int> {
    set id | id in e.ids
  }

  /** One past the largest id accepted, at least one past the start. */
  function Back(e: Epoch): (b: int)
    ensures b > e.start
    ensures forall id :: id in e.ids ==> id < b
    decreases |e.ids|
  {
    if e.ids == [] then e.start + 1
    else
      var n := |e.ids| - 1;
      var b := Back(Epoch(e.start, e.ids[..n]));
      assert e.ids == e.ids[..n] + [e.ids[n]];
      if b <= e.ids[n] then e.ids[n] + 1 else b
  }

  /** Ids below this are refused whether seen or not. */
  function Low(start: int, back: int): int {
    if start - SLACK < back - WINDOW then back - WINDOW else start - SLACK
  }

  /** The first number from f on that is not in s. */
  function FirstMissing(s: set<int>, f: int): (r: int)
    ensures f <= r && r !in s
    ensures forall id :: f <= id < r ==> id in s
    decreases |s|
  {
    if f in s then
      var r := FirstMissing(s - {f}, f + 1);
      assert r !in s - {f};
      assert forall id :: f <= id < r ==> id in s by {
        forall id | f <= id < r
          ensures id in s
        {
          if id != f {
            assert id in s - {f};
          }
        }
      }
      r
    else f
  }

  /** The end of the gapless run of seen ids at the low end of the window. */
  function Front(e: Epoch): int {
    FirstMissing(Seen(e), Low(e.start, Back(e)))
  }

  /** The rule: an id is accepted if it has not been seen, is not too old and not too far ahead. */
  predicate Accepts(e: Epoch, id: int) {
    id !in e.ids && Low(e.start, Back(e)) <= id <= Front(e) + REACH
  }

  function Insert(e: Epoch, id: int): (bool, Epoch) {
    if Accepts(e, id) then (true, Epoch(e.start, e.ids + [id])) else (false, e)
  }

  function InsertAll(e: Epoch, requests: seq<int>): Epoch
    decreases |requests|
  {
    if requests == [] then e else InsertAll(Insert(e, requests[0]).1, requests[1..])
  }

  /** After the requests so far, the next one is judged by the epoch as they have left it. */
  lemma {:induction false} InsertsInTurn(e: Epoch, requests: seq<int>, id: int)
    ensures InsertAll(e, requests + [id]) == Insert(InsertAll(e, requests), id).1
    decreases |requests|
  {
    if requests == [] {
      assert requests + [id] == [id] && [id][1..] == [];
      assert InsertAll(Insert(e, id).1, []) == Insert(e, id).1;
    } else {
      assert (requests + [id])[1..] == requests[1..] + [id];
      InsertsInTurn(Insert(e, requests[0]).1, requests[1..], id);
    }
  }

  /** No id is accepted twice within an epoch, whatever is requested. */
  lemma {:induction false} NoReplay(e: Epoch, requests: seq<int>)
    requires Sorting.Distinct(e.ids)
    ensures Sorting.Distinct(InsertAll(e, requests).ids) && e.ids <= InsertAll(e, requests).ids
    decreases |requests|
  {
    if requests != [] {
      NoReplay(Insert(e, requests[0]).1, requests[1..]);
    }
  }

  /** The window never moves back. */
  lemma {:induction false} WindowAdvances(e: Epoch, id: int)
    ensures var e' := Insert(e, id).1;
            Back(e) <= Back(e') && Low(e.start, Back(e)) <= Low(e'.start, Back(e')) && Front(e) <= Front(e')
  {
    if Accepts(e, id) {
      var e' := Epoch(e.start, e.ids + [id]);
      assert e'.ids[..|e'.ids| - 1] == e.ids;
      assert Seen(e) <= Seen(e');
      assert Front(e') !in Seen(e);
    }
  }

  /** A window state that stands for an epoch. */
  ghost predicate Represents(front: int, back: int, alloc: set<int>, e: Epoch) {
    && back == Back(e)
    && front == Front(e)
    && alloc == set id | id in e.ids && id >= front
  }

  lemma SizeOfRange(s: set<int>, lo: int, hi: int)
    requires lo <= hi && forall x :: x in s ==> lo <= x < hi
    ensures |s| <= hi - lo
    decreases hi - lo
  {
    if lo == hi {
      assert s == {};
    } else {
      SizeOfRange(s - {hi - 1}, lo, hi - 1);
      if hi - 1 in s {
        assert s == (s - {hi - 1}) + {hi - 1};
      } else {
        assert s - {hi - 1} == s;
      }
    }
  }

  /** What the window holds: between front and back there are at most 0x1000 ids, fewer of which are remembered. */
  lemma WindowBounds(front: int, back: int, alloc: set<int>, e: Epoch)
    requires Represents(front, back, alloc, e)
    ensures front <= back <= front + 0x1000
    ensures |alloc| < 0x1000
    ensures front !in alloc
  {
    assert back !in Seen(e);
    SizeOfRange(alloc, front + 1, if back > front then back else front + 1);
  }

  /** The windowed test is the rule: below front everything from Low on has been seen, so remembering ids from front on
      suffices. */
  lemma WindowDecides(front: int, back: int, alloc: set<int>, e: Epoch, id: int)
    requires Represents(front, back, alloc, e)
    ensures (front <= id <= front + 0x4000 && id !in alloc) <==> Accepts(e, id)
  {
    if Low(e.start, back) <= id < front {
      assert id in Seen(e);
    }
  }

  lemma {:induction false} BackAfter(e: Epoch, id: int)
    ensures Back(Epoch(e.start, e.ids + [id])) == if Back(e) <= id then id + 1 else Back(e)
  {
    assert (e.ids + [id])[..|e.ids|] == e.ids;
  }

  lemma {:induction false} SeenGrows(e: Epoch, id: int)
    ensures var e' := Epoch(e.start, e.ids + [id]);
            && Back(e') == (if Back(e) <= id then id + 1 else Back(e))
            && Seen(e') == Seen(e) + {id}
            && forall x :: Low(e'.start, Back(e')) <= x < Front(e) ==> x in Seen(e')
  {
    BackAfter(e, id);
  }

  lemma {:induction false} FrontIs(e: Epoch, front: int)
    requires Low(e.start, Back(e)) <= front && front !in Seen(e)
    requires forall x :: Low(e.start, Back(e)) <= x < front ==> x in Seen(e)
    ensures Front(e) == front
  {
  }

  /** A window whose front may have to move on. */
  ghost predicate Advancing(front: int, back: int, alloc: set<int>, e: Epoch) {
    && e.start - SLACK <= front <= back == Back(e)
    && alloc == (set x | x in e.ids && x >= front)
    && forall x :: Low(e.start, back) <= x < front ==> x in Seen(e)
  }

  lemma Recorded(front: int, back: int, alloc: set<int>, e: Epoch, id: int)
    requires Represents(front, back, alloc, e) && front <= id
    ensures Advancing(front, if back <= id then id + 1 else back, alloc + {id}, Epoch(e.start, e.ids + [id]))
  {
    SeenGrows(e, id);
    WindowBounds(front, back, alloc, e);
  }

  /** The id that opens an epoch is accepted in it, whatever was accepted before: replays are kept out within an epoch
      only. */
  lemma FreshAccepts(id: int)
    ensures Accepts(Epoch(id, []), id)
  {
    assert Seen(Epoch(id, [])) == {};
  }

  /** When a client is active: in auth.py, and in auth_chain.py, which also counts its connections. */
  datatype Rule = Idle | CountedIdle

  const IDLE := 180.0
  const COUNTED_IDLE := 600.0

  class ClientQueue {
    const rule: Rule
    var front: int
    var back: int
    var alloc: set<int>
    var enable: bool
    var lastUpdate: real
    var ref: int
    ghost var epoch: Epoch

    ghost predicate Valid()
      reads this
    {
      Represents(front, back, alloc, epoch) && ref >= 0
    }

    constructor (rule: Rule, beginId: int, now: real)
      ensures Valid() && epoch == Epoch(beginId, []) && this.rule == rule && enable && lastUpdate == now && ref == 0
    {
      this.rule := rule;
      front, back := beginId - 64, beginId + 1;
      alloc := {};
      enable := true;
      lastUpdate := now;
      ref := 0;
      epoch := Epoch(beginId, []);
      new;
      assert Seen(epoch) == {};
    }

    predicate IsActive(now: real)
      reads this
    {
      match rule
      case Idle => now - lastUpdate < IDLE
      case CountedIdle => ref > 0 && now - lastUpdate < COUNTED_IDLE
    }

    method DelRef()
      requires Valid()
      modifies this`ref
      ensures Valid() && ref == if old(ref) > 0 then old(ref) - 1 else old(ref)
    {
      if ref > 0 {
        ref := ref - 1;
      }
    }

    /** A new epoch: nothing accepted before is remembered. */
    method ReEnable(id: int)
      modifies this`enable, this`front, this`back, this`alloc, this`epoch
      ensures enable && Represents(front, back, alloc, epoch) && epoch == Epoch(id, [])
    {
      enable := true;
      front, back := id - 64, id + 1;
      alloc := {};
      epoch := Epoch(id, []);
      assert Seen(epoch) == {};
    }

    /** Decides as the rule does on all ids accepted in this epoch; a queue that is not active starts a new epoch,
        in which the id is accepted. */
    method InsertId(id: int, now: real) returns (ok: bool)
      requires Valid()
      modifies this
      ensures Valid()
      ensures !old(enable) ==> !ok && epoch == old(epoch)
      ensures old(enable) ==>
                && (ok, epoch) == Insert(if old(IsActive(now)) then old(epoch) else Epoch(id, []), id)
                && lastUpdate == now
      ensures old(enable) && !old(IsActive(now)) ==> ok
      ensures enable == old(enable) && ref == old(ref) + if ok && rule == CountedIdle then 1 else 0
    {
      if !enable {
        return false;
      }
      if !IsActive(now) {
        ReEnable(id);
      }
      lastUpdate := now;
      FreshAccepts(id);
      ok := Judge(id);
      if ok && rule == CountedIdle {
        ref := ref + 1;
      }
    }

    /** The windowed tests, and the record of an id that passes them. */
    method Judge(id: int) returns (ok: bool)
      requires Represents(front, back, alloc, epoch)
      modifies this`front, this`back, this`alloc, this`epoch
      ensures Represents(front, back, alloc, epoch)
      ensures (ok, epoch) == Insert(old(epoch), id)
    {
      WindowDecides(front, back, alloc, epoch, id);
      if id < front {
        return false;
      }
      if id > front + 0x4000 {
        return false;
      }
      if id in alloc {
        return false;
      }
      Record(id);
      return true;
    }

    /** An accepted id enters the window, which then advances. */
    method Record(id: int)
      requires Represents(front, back, alloc, epoch) && front <= id
      modifies this`front, this`back, this`alloc, this`epoch
      ensures Represents(front, back, alloc, epoch)
      ensures epoch == Epoch(old(epoch).start, old(epoch).ids + [id])
    {
      Recorded(front, back, alloc, epoch, id);
      hide Represents, Advancing, Back;
      if back <= id {
        back := id + 1;
      }
      alloc := alloc + {id};
      epoch := Epoch(epoch.start, epoch.ids + [id]);
      Advance();
    }

    /** Moves the front past the ids that need not be remembered any longer. */
    method Advance()
      requires Advancing(front, back, alloc, epoch)
      modifies this`front, this`alloc
      ensures Represents(front, back, alloc, epoch)
    {
      while front in alloc || front + 0x1000 < back
        invariant Advancing(front, back, alloc, epoch)
        decreases back - front
      {
        if front in alloc {
          alloc := alloc - {front};
        }
        front := front + 1;
      }
      FrontIs(epoch, front);
    }
  }
}
