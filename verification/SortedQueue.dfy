/** A queue of timed entries, sorted by time and first come, first served among equal times: what the intrusive
    run queue stands for. */
module SortedQueue {
  datatype Entry<T> = Entry(item: T, time: nat)

  predicate Sorted<T>(q: seq<Entry<T>>) { forall i, j | 0 <= i < j < |q| :: q[i].time <= q[j].time }

  /** How many entries go before a new one with the given time. */
  function Before<T>(q: seq<Entry<T>>, time: nat): (k: nat)
    ensures k <= |q|
    ensures forall i | 0 <= i < k :: q[i].time <= time
    ensures k < |q| ==> q[k].time > time
  {
    if q == [] || q[0].time > time then 0 else 1 + Before(q[1..], time)
  }

  function Insert<T>(q: seq<Entry<T>>, e: Entry<T>): seq<Entry<T>> {
    var k := Before(q, e.time);
    q[..k] + [e] + q[k..]
  }

  /** The queue without an item; an item is queued at most once. */
  function Without<T(==)>(q: seq<Entry<T>>, item: T): seq<Entry<T>> {
    if q == [] then []
    else if q[0].item == item then q[1..]
    else [q[0]] + Without(q[1..], item)
  }

  function Push<T(==)>(q: seq<Entry<T>>, item: T, time: nat): seq<Entry<T>> {
    Insert(Without(q, item), Entry(item, time))
  }

  predicate Unique<T(==)>(q: seq<Entry<T>>) { forall i, j | 0 <= i < j < |q| :: q[i].item != q[j].item }

  predicate Holds<T(==)>(q: seq<Entry<T>>, item: T) { exists k :: 0 <= k < |q| && q[k].item == item }

  lemma {:induction false} WithoutIs<T>(q: seq<Entry<T>>, k: nat)
    requires Unique(q) && k < |q|
    ensures Without(q, q[k].item) == q[..k] + q[k + 1..]
  {
    if k != 0 {
      assert q[1..][k - 1] == q[k];
      WithoutIs(q[1..], k - 1);
      assert q[..k] == [q[0]] + q[1..][..k - 1];
      assert q[k + 1..] == q[1..][k..];
    }
  }

  lemma {:induction false} WithoutAbsent<T>(q: seq<Entry<T>>, item: T)
    requires !Holds(q, item)
    ensures Without(q, item) == q
  {
    if q != [] {
      assert forall k | 0 <= k < |q[1..]| :: q[1..][k] == q[k + 1];
      WithoutAbsent(q[1..], item);
    }
  }

  lemma DropOne<T>(q: seq<Entry<T>>, k: nat)
    requires Sorted(q) && Unique(q) && k < |q|
    ensures var r := q[..k] + q[k + 1..]; Sorted(r) && Unique(r)
  {
    var r := q[..k] + q[k + 1..];
    assert forall i | 0 <= i < |r| :: r[i] == q[if i < k then i else i + 1];
  }

  lemma DropOneElements<T>(q: seq<Entry<T>>, k: nat, e: Entry<T>)
    requires Unique(q) && k < |q|
    ensures e in q[..k] + q[k + 1..] <==> e in q && e.item != q[k].item
  {
    var r := q[..k] + q[k + 1..];
    assert forall i | 0 <= i < |r| :: r[i] == q[if i < k then i else i + 1];
    if e in q && e.item != q[k].item {
      var i :| 0 <= i < |q| && q[i] == e;
      assert r[if i < k then i else i - 1] == e;
    }
  }

  lemma WithoutKeeps<T>(q: seq<Entry<T>>, item: T)
    requires Sorted(q) && Unique(q)
    ensures Sorted(Without(q, item)) && Unique(Without(q, item))
  {
    if k :| 0 <= k < |q| && q[k].item == item {
      WithoutIs(q, k);
      DropOne(q, k);
    } else {
      WithoutAbsent(q, item);
    }
  }

  lemma WithoutElements<T>(q: seq<Entry<T>>, item: T, e: Entry<T>)
    requires Unique(q)
    ensures e in Without(q, item) <==> e in q && e.item != item
  {
    if k :| 0 <= k < |q| && q[k].item == item {
      WithoutIs(q, k);
      DropOneElements(q, k, e);
    } else {
      WithoutAbsent(q, item);
    }
  }

  lemma WithoutHolds<T>(q: seq<Entry<T>>, item: T)
    requires Unique(q)
    ensures !Holds(Without(q, item), item)
  {
    var w := Without(q, item);
    forall k | 0 <= k < |w| ensures w[k].item != item { WithoutElements(q, item, w[k]); }
  }

  lemma SortedFrom<T>(q: seq<Entry<T>>, time: nat, i: nat)
    requires Sorted(q) && Before(q, time) <= i < |q|
    ensures q[i].time > time
  {
  }

  /** What is at an index after an insertion. */
  lemma InsertAt<T>(q: seq<Entry<T>>, e: Entry<T>, i: nat)
    requires i <= |q|
    ensures |Insert(q, e)| == |q| + 1
    ensures var k := Before(q, e.time); Insert(q, e)[i] == if i < k then q[i] else if i == k then e else q[i - 1]
  {
  }

  lemma InsertOrders<T>(q: seq<Entry<T>>, e: Entry<T>, i: nat, j: nat)
    requires Sorted(q) && i < j <= |q|
    ensures |Insert(q, e)| == |q| + 1 && Insert(q, e)[i].time <= Insert(q, e)[j].time
  {
    var k := Before(q, e.time);
    InsertAt(q, e, i);
    InsertAt(q, e, j);
    if i == k { SortedFrom(q, e.time, j - 1); }
  }

  lemma InsertSorted<T>(q: seq<Entry<T>>, e: Entry<T>)
    requires Sorted(q)
    ensures Sorted(Insert(q, e))
  {
    var r := Insert(q, e);
    forall i, j | 0 <= i < j < |r| ensures r[i].time <= r[j].time { InsertOrders(q, e, i, j); }
  }

  lemma InsertUnique<T>(q: seq<Entry<T>>, e: Entry<T>)
    requires Unique(q) && !Holds(q, e.item)
    ensures Unique(Insert(q, e))
  {
    var k, r := Before(q, e.time), Insert(q, e);
    assert forall i | 0 <= i < |r| :: r[i] == if i < k then q[i] else if i == k then e else q[i - 1];
  }

  lemma InsertElements<T>(q: seq<Entry<T>>, e: Entry<T>, x: Entry<T>)
    ensures x in Insert(q, e) <==> x == e || x in q
  {
    var k := Before(q, e.time);
    assert q == q[..k] + q[k..];
  }

  lemma PushKeeps<T>(q: seq<Entry<T>>, item: T, time: nat)
    requires Sorted(q) && Unique(q)
    ensures Sorted(Push(q, item, time)) && Unique(Push(q, item, time))
  {
    WithoutKeeps(q, item);
    WithoutHolds(q, item);
    InsertSorted(Without(q, item), Entry(item, time));
    InsertUnique(Without(q, item), Entry(item, time));
  }

  /** Pushing an item moves it and leaves every other entry. */
  lemma PushElements<T>(q: seq<Entry<T>>, item: T, time: nat, e: Entry<T>)
    requires Unique(q)
    ensures e in Push(q, item, time) <==> e == Entry(item, time) || (e in q && e.item != item)
  {
    WithoutElements(q, item, e);
    InsertElements(Without(q, item), Entry(item, time), e);
  }

  /** Entries x and e are queued, x ahead of e or behind it. */
  predicate Relative<T(==)>(r: seq<Entry<T>>, x: Entry<T>, e: Entry<T>, ahead: bool) {
    exists i, j :: 0 <= i < |r| && 0 <= j < |r| && r[i] == x && r[j] == e && (i < j <==> ahead)
  }

  lemma InsertIsStable<T>(w: seq<Entry<T>>, e: Entry<T>, i: nat)
    requires Sorted(w) && i < |w|
    ensures Relative(Insert(w, e), w[i], e, w[i].time <= e.time)
  {
    var b := Before(w, e.time);
    InsertAt(w, e, b);
    if i < b {
      InsertAt(w, e, i);
    } else {
      SortedFrom(w, e.time, i);
      InsertAt(w, e, i + 1);
    }
  }

  /** An entry stays ahead of an item pushed later exactly if its time is not later: first come, first served. */
  lemma PushIsStable<T>(q: seq<Entry<T>>, item: T, time: nat, k: nat)
    requires Sorted(q) && Unique(q) && k < |q| && q[k].item != item
    ensures Relative(Push(q, item, time), q[k], Entry(item, time), q[k].time <= time)
  {
    WithoutKeeps(q, item);
    WithoutElements(q, item, q[k]);
    var w := Without(q, item);
    var i: nat :| i < |w| && w[i] == q[k];
    InsertIsStable(w, Entry(item, time), i);
  }

  // ---- Runs ----

  datatype Op<T> = Pushes(item: T, time: nat) | Removes(item: T) | Pops

  function Do<T(==)>(q: seq<Entry<T>>, op: Op<T>): seq<Entry<T>> {
    match op
    case Pushes(item, time) => Push(q, item, time)
    case Removes(item) => Without(q, item)
    case Pops => if q == [] then q else q[1..]
  }

  /** The times of the entries popped by a run. */
  function Popped<T(==)>(q: seq<Entry<T>>, ops: seq<Op<T>>): seq<nat>
    decreases |ops|
  {
    if ops == [] then []
    else (if ops[0].Pops? && q != [] then [q[0].time] else []) + Popped(Do(q, ops[0]), ops[1..])
  }

  /** No push is earlier than the pop before it. */
  predicate NoPushIntoThePast<T(==)>(q: seq<Entry<T>>, ops: seq<Op<T>>, now: nat)
    decreases |ops|
  {
    ops == [] ||
    ((ops[0].Pushes? ==> ops[0].time >= now) &&
     NoPushIntoThePast(Do(q, ops[0]), ops[1..], if ops[0].Pops? && q != [] then q[0].time else now))
  }

  predicate AllFrom<T>(q: seq<Entry<T>>, now: nat) { forall k | 0 <= k < |q| :: q[k].time >= now }

  predicate Ascending(ts: seq<nat>, from: nat) {
    (forall i | 0 <= i < |ts| :: ts[i] >= from) && forall i, j | 0 <= i < j < |ts| :: ts[i] <= ts[j]
  }

  lemma PushFrom<T>(q: seq<Entry<T>>, item: T, time: nat, now: nat)
    requires Sorted(q) && Unique(q) && AllFrom(q, now) && time >= now
    ensures AllFrom(Push(q, item, time), now)
  {
    var r := Push(q, item, time);
    forall k | 0 <= k < |r| ensures r[k].time >= now { PushElements(q, item, time, r[k]); }
  }

  lemma WithoutFrom<T>(q: seq<Entry<T>>, item: T, now: nat)
    requires Unique(q) && AllFrom(q, now)
    ensures AllFrom(Without(q, item), now)
  {
    var r := Without(q, item);
    forall k | 0 <= k < |r| ensures r[k].time >= now { WithoutElements(q, item, r[k]); }
  }

  lemma DoKeeps<T>(q: seq<Entry<T>>, op: Op<T>, now: nat)
    requires Sorted(q) && Unique(q) && AllFrom(q, now) && (op.Pushes? ==> op.time >= now)
    ensures Sorted(Do(q, op)) && Unique(Do(q, op))
    ensures AllFrom(Do(q, op), if op.Pops? && q != [] then q[0].time else now)
  {
    match op
    case Pushes(item, time) => PushKeeps(q, item, time); PushFrom(q, item, time, now);
    case Removes(item) => WithoutKeeps(q, item); WithoutFrom(q, item, now);
    case Pops =>
  }

  lemma OneMore(ts: seq<nat>, now: nat, later: nat, popped: bool)
    requires Ascending(ts, later) && now <= later
    ensures Ascending((if popped then [later] else []) + ts, now)
  {
    if !popped { assert [] + ts == ts; }
  }

  /** Pop times never decrease. */
  lemma {:induction false} PopsAscend<T>(q: seq<Entry<T>>, ops: seq<Op<T>>, now: nat)
    requires Sorted(q) && Unique(q) && AllFrom(q, now) && NoPushIntoThePast(q, ops, now)
    ensures Ascending(Popped(q, ops), now)
    decreases |ops|
  {
    if ops != [] {
      var later := if ops[0].Pops? && q != [] then q[0].time else now;
      DoKeeps(q, ops[0], now);
      PopsAscend(Do(q, ops[0]), ops[1..], later);
      OneMore(Popped(Do(q, ops[0]), ops[1..]), now, later, ops[0].Pops? && q != []);
    }
  }
}
