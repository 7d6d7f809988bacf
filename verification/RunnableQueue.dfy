/** The intrusive, doubly linked queue of runnables waiting for their time (lib/RunnableQueue.cpp). */
module RunnableQueue {
  import opened Sequences
  import opened SortedQueue

  class Runnable {
    var prev: Runnable?
    var next: Runnable?
    var wakeUpTime: nat

    constructor ()
      ensures prev == null && next == null
    {
      prev, next := null, null;
    }
  }

  class RunnableQueue {
    var head: Runnable?
    /** The queued runnables in order, and every runnable of the system. */
    ghost var items: seq<Runnable>
    ghost var all: set<Runnable>

    ghost predicate Linked(k: nat)
      requires k < |items|
      reads this, items
    {
      && items[k].prev == (if k == 0 then null else items[k - 1])
      && items[k].next == (if k + 1 < |items| then items[k + 1] else null)
    }

    /** The links of the queue spell out `items`, and no other runnable seems to be queued. */
    ghost predicate Links()
      reads this, all, items
    {
      && (forall k | 0 <= k < |items| :: items[k] in all)
      && Distinct(items)
      && head == (if items == [] then null else items[0])
      && (forall k | 0 <= k < |items| :: Linked(k))
      && (forall r | r in all && r !in items :: r.prev == null)
    }

    ghost predicate Valid()
      reads this, all, items
    {
      Links() && Sorted(Queue())
    }

    ghost function Queue(): (q: seq<Entry<Runnable>>)
      reads this, items
      ensures |q| == |items| && forall k | 0 <= k < |q| :: q[k] == Entry(items[k], items[k].wakeUpTime)
    {
      seq(|items|, k requires 0 <= k < |items| reads this, items => Entry(items[k], items[k].wakeUpTime))
    }

    constructor (runnables: set<Runnable>)
      requires forall r | r in runnables :: r.prev == null
      ensures Valid() && all == runnables && Queue() == []
    {
      head := null;
      items, all := [], runnables;
    }

    method Contains(r: Runnable) returns (b: bool)
      requires Links() && r in all
      ensures b <==> r in items
    {
      if r in items { ghost var k :| 0 <= k < |items| && items[k] == r; assert Linked(k); }
      return r.prev != null || r == head;
    }

    /** First half of `remove`: whatever pointed at r points past it. */
    method Bypass(r: Runnable, ghost k: nat)
      requires Links() && k < |items| && r == items[k]
      modifies this`head, all`next
      ensures head == if k == 0 then old(r.next) else old(head)
      ensures forall x | x in all :: x.next == if k > 0 && x == items[k - 1] then old(r.next) else old(x.next)
    {
      assert Linked(k);
      if r == head {
        head := r.next;
      } else {
        r.prev.next := r.next;
      }
    }

    /** Second half: the successor's back link skips r, and r looks unqueued. */
    method Detach(r: Runnable)
      requires r in all && r.next != r && (r.next != null ==> r.next in all)
      modifies all`prev
      ensures forall x | x in all ::
        x.prev == if x == r then null else if x == r.next then old(r.prev) else old(x.prev)
    {
      if r.next != null {
        r.next.prev := r.prev;
      }
      r.prev := null;
    }

    /** The list operation of `remove`. */
    method Unlink(r: Runnable, ghost k: nat)
      requires Links() && k < |items| && r == items[k]
      modifies this`head, this`items, all`prev, all`next
      ensures items == old(items)[..k] + old(items)[k + 1..] && Links()
    {
      ghost var was := items;
      assert Linked(k);
      Bypass(r, k);
      Detach(r);
      items := items[..k] + items[k + 1..];
      DistinctWithout(was, k);
      assert forall i | 0 <= i < |items| :: items[i] == was[if i < k then i else i + 1];
      forall i | 0 <= i < |items| ensures Linked(i) {
        assert old(Linked(if i < k then i else i + 1));
      }
      forall x | x in all && x !in items ensures x.prev == null {
        assert x in was ==> x == r;
      }
    }

    method QueueWithout(r: Runnable, ghost k: nat)
      requires Links() && k < |items| && r == items[k]
      modifies this`head, this`items, all`prev, all`next
      ensures Links() && r !in items && Queue() == old(Queue())[..k] + old(Queue())[k + 1..]
    {
      ghost var q, was := Queue(), items;
      Unlink(r, k);
      ghost var t := q[..k] + q[k + 1..];
      forall i | 0 <= i < |items| ensures Queue()[i] == t[i] && items[i] != r {
        assert items[i] == was[if i < k then i else i + 1];
      }
      assert Queue() == t;
    }

    method Remove(r: Runnable)
      requires Valid() && r in all && r in items
      modifies this`head, this`items, all`prev, all`next
      ensures Valid() && r !in items && Queue() == Without(old(Queue()), r)
    {
      ghost var k :| 0 <= k < |items| && items[k] == r;
      ghost var q := Queue();
      QueueWithout(r, k);
      RemovedAt(q, k);
    }

    /** `pop`: drop the front. */
    method Pop()
      requires Valid() && items != []
      modifies this`head, this`items, all`prev
      ensures Valid() && Queue() == old(Queue())[1..]
    {
      ghost var q := Queue();
      UnlinkFront();
      assert Queue() == q[1..];
    }

    method UnlinkFront()
      requires Links() && items != []
      modifies this`head, this`items, all`prev
      ensures items == old(items)[1..] && Links()
    {
      assert Linked(0) && (|items| > 1 ==> Linked(1));
      if head.next != null {
        head.next.prev := null;
      }
      head := head.next;
      ghost var was := items;
      items := items[1..];
      DistinctRest(was);
      forall i | 0 <= i < |items| ensures Linked(i) && items[i] in all {
        assert items[i] == was[i + 1] && old(Linked(i + 1));
      }
      forall x | x in all && x !in items ensures x.prev == null { OnlyFront(was, x); }
    }

    /** The new front, before the old one if there is one. */
    method LinkFront(r: Runnable)
      requires Links() && r in all && r !in items
      modifies this`head, this`items, all`prev, r`next
      ensures items == [r] + old(items) && Links()
    {
      assert items != [] ==> Linked(0);
      if head == null {
        r.next := null;
      } else {
        head.prev := r;
        r.next := head;
      }
      head := r;
      DistinctWith(items, 0, r);
      assert [r] + items == items[..0] + [r] + items[0..];
      items := [r] + items;
      forall i | 0 <= i < |items| ensures Linked(i) { assert i > 0 ==> old(Linked(i - 1)); }
    }

    /** The pointer writes of an insertion behind p. */
    method Splice(p: Runnable, r: Runnable)
      requires p in all && r in all && p != r && p.next != p && p.next != r && (p.next != null ==> p.next in all)
      modifies all`prev, all`next
      ensures forall x | x in all :: x.next == if x == p then r else if x == r then old(p.next) else old(x.next)
      ensures forall x | x in all :: x.prev == if x == r then p else if x == old(p.next) then r else old(x.prev)
    {
      r.prev := p;
      r.next := p.next;
      if p.next != null {
        p.next.prev := r;
      }
      p.next := r;
    }

    /** The nodes of the queue once r has been spliced in: every one is linked to its neighbours. */
    method SpliceItem(p: Runnable, r: Runnable, ghost k: nat)
      requires Links() && r in all && r !in items && 0 < k <= |items| && p == items[k - 1]
      modifies this`items, all`prev, all`next
      ensures items == old(items)[..k] + [r] + old(items)[k..] && forall i | 0 <= i < |items| :: Linked(i)
      ensures forall x | x in all && x.prev != old(x.prev) :: x == r || x in old(items)
    {
      ghost var was := items;
      assert Linked(k - 1);
      Splice(p, r);
      items := items[..k] + [r] + items[k..];
      assert forall i | 0 <= i < |items| :: items[i] == if i < k then was[i] else if i == k then r else was[i - 1];
      forall i | 0 <= i < |items| ensures Linked(i) {
        if i < k { assert old(Linked(i)); } else if i > k { assert old(Linked(i - 1)); }
      }
    }

    /** Behind p, the k-th in the queue. */
    method LinkAfter(p: Runnable, r: Runnable, ghost k: nat)
      requires Links() && r in all && r !in items && 0 < k <= |items| && p == items[k - 1]
      modifies this`items, all`prev, all`next
      ensures items == old(items)[..k] + [r] + old(items)[k..] && Links()
    {
      ghost var was := items;
      SpliceItem(p, r, k);
      DistinctWith(was, k, r);
      forall i | 0 <= i < |items| ensures items[i] in all { InsertedAt(was, k, r, i); }
      InsertedAt(was, k, r, 0);
      forall x | x in all && x !in items ensures x.prev == null { InsertedHolds(was, k, r, x); }
    }

    /** The last runnable that is not to run later than the given time. */
    method FindPlace(time: nat) returns (p: Runnable, ghost k: nat)
      requires Valid() && head != null && head.wakeUpTime <= time
      ensures 0 < k <= |items| && p == items[k - 1] && k == Before(Queue(), time)
      ensures p in items && p.wakeUpTime <= time && (p.next != null ==> p.next in items && time < p.next.wakeUpTime)
    {
      p, k := head, 1;
      assert Linked(0);
      while p.next != null && time >= p.next.wakeUpTime
        invariant 0 < k <= |items| && p == items[k - 1] && Linked(k - 1)
        invariant forall i | 0 <= i < k :: items[i].wakeUpTime <= time
        decreases |items| - k
      {
        p := p.next;
        k := k + 1;
        assert Linked(k - 1);
      }
      PlaceIs(Queue(), time, k);
    }

    method SetTime(r: Runnable, time: nat)
      requires Valid() && r in all && r !in items
      modifies r`wakeUpTime
      ensures Valid() && Queue() == old(Queue()) && r.wakeUpTime == time
    {
      ghost var q := Queue();
      r.wakeUpTime := time;
      assert Queue() == q;
    }

    /** A new front: it is due before every other. */
    method PlaceFirst(r: Runnable)
      requires Valid() && r in all && r !in items && (head == null || r.wakeUpTime < head.wakeUpTime)
      modifies this`head, this`items, all`prev, all`next
      ensures Links() && Queue() == Insert(old(Queue()), Entry(r, r.wakeUpTime))
    {
      ghost var q := Queue();
      LinkFront(r);
      assert Queue() == q[..0] + [Entry(r, r.wakeUpTime)] + q[0..];
    }

    /** Behind those that are due no later. */
    method PlaceBehind(r: Runnable)
      requires Valid() && r in all && r !in items && head != null && r.wakeUpTime >= head.wakeUpTime
      modifies this`items, all`prev, all`next
      ensures Links() && Queue() == Insert(old(Queue()), Entry(r, r.wakeUpTime))
    {
      var p, k := FindPlace(r.wakeUpTime);
      QueueAfter(p, r, k);
    }

    method QueueAfter(p: Runnable, r: Runnable, ghost k: nat)
      requires Links() && r in all && r !in items && 0 < k <= |items| && p == items[k - 1]
      modifies this`items, all`prev, all`next
      ensures Links() && Queue() == old(Queue())[..k] + [Entry(r, r.wakeUpTime)] + old(Queue())[k..]
    {
      ghost var q, was := Queue(), items;
      LinkAfter(p, r, k);
      ghost var t := q[..k] + [Entry(r, r.wakeUpTime)] + q[k..];
      forall i | 0 <= i < |items| ensures Queue()[i] == t[i] {
        assert items[i] == if i < k then was[i] else if i == k then r else was[i - 1];
      }
      assert Queue() == t;
    }

    /** `push`: move or add a runnable. */
    method Push(r: Runnable, time: nat)
      requires Valid() && r in all
      modifies this`head, this`items, all`prev, all`next, r`wakeUpTime
      ensures Valid() && Queue() == SortedQueue.Push(old(Queue()), r, time)
    {
      TakeOut(r);
      SetTime(r, time);
      Place(r);
    }

    /** `push` starts by taking out a runnable that is queued already. */
    method TakeOut(r: Runnable)
      requires Valid() && r in all
      modifies this`head, this`items, all`prev, all`next
      ensures Valid() && r !in items && Queue() == Without(old(Queue()), r)
    {
      var queued := Contains(r);
      if queued { Remove(r); } else { Absent(r); }
    }

    /** Put a runnable where its time belongs. */
    method Place(r: Runnable)
      requires Valid() && r in all && r !in items
      modifies this`head, this`items, all`prev, all`next
      ensures Valid() && Queue() == Insert(old(Queue()), Entry(r, r.wakeUpTime))
    {
      InsertSorted(Queue(), Entry(r, r.wakeUpTime));
      if head == null || r.wakeUpTime < head.wakeUpTime { PlaceFirst(r); } else { PlaceBehind(r); }
    }

    lemma Absent(r: Runnable)
      requires r !in items
      ensures Without(Queue(), r) == Queue()
    {
      WithoutAbsent(Queue(), r);
    }
  }

  lemma RemovedAt(q: seq<Entry<Runnable>>, k: nat)
    requires Sorted(q) && Unique(q) && k < |q|
    ensures q[..k] + q[k + 1..] == Without(q, q[k].item) && Sorted(q[..k] + q[k + 1..])
  {
    WithoutIs(q, k);
    DropOne(q, k);
  }

  lemma PlaceIs(q: seq<Entry<Runnable>>, time: nat, k: nat)
    requires Sorted(q) && k <= |q|
    requires (forall i | 0 <= i < k :: q[i].time <= time) && (k < |q| ==> q[k].time > time)
    ensures Before(q, time) == k
  {
    assert forall i | Before(q, time) <= i < |q| :: q[i].time > time;
  }
}
