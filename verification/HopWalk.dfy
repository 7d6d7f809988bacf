/** Following a table of hops from node to node: the unbounded walk, when it repeats itself, and the
    invariant of Brent's cycle detection. */
module HopWalk {
  import opened Sequences
  import opened Options

  datatype Hop = Arrived | Lost | To(node: nat)

  /** For each node, what a packet does there. */
  type Hops = seq<Hop>

  predicate ValidHops(t: Hops) { forall n | 0 <= n < |t| && t[n].To? :: t[n].node < |t| }

  /** The unbounded walk: the node after k hops, if the packet gets that far. */
  function Walk(t: Hops, start: nat, k: nat): (r: Option<nat>)
    requires ValidHops(t) && start < |t|
    ensures r.Some? ==> r.value < |t|
    decreases k
  {
    if k == 0 then Some(start)
    else
      var p := Walk(t, start, k - 1);
      if p.None? then None
      else var h := t[p.value]; if h.To? then Some(h.node) else None
  }

  predicate ArrivesAfter(t: Hops, start: nat, k: nat)
    requires ValidHops(t) && start < |t|
  {
    Walk(t, start, k).Some? && t[Walk(t, start, k).value].Arrived?
  }

  ghost predicate NeverArrives(t: Hops, start: nat)
    requires ValidHops(t) && start < |t|
  {
    forall k: nat :: !ArrivesAfter(t, start, k)
  }

  // ---- A walk that lasts long enough repeats itself ----

  lemma {:induction false} WalkPrefix(t: Hops, start: nat, j: nat, k: nat)
    requires ValidHops(t) && start < |t|
    requires j <= k && Walk(t, start, k).Some?
    ensures Walk(t, start, j).Some?
    decreases k - j
  {
    if j < k { WalkPrefix(t, start, j + 1, k); }
  }

  lemma {:induction false} WalkShift(t: Hops, start: nat, a: nat, b: nat, k: nat)
    requires ValidHops(t) && start < |t|
    requires Walk(t, start, a) == Walk(t, start, b)
    ensures Walk(t, start, a + k) == Walk(t, start, b + k)
    decreases k
  {
    if k != 0 { WalkShift(t, start, a, b, k - 1); }
  }

  lemma {:induction false} DistinctFits(s: seq<nat>, n: nat)
    requires Distinct(s) && forall i | 0 <= i < |s| :: s[i] < n
    ensures |s| <= n
    decreases n
  {
    if s != [] {
      assert s[0] < n;
      if k :| 0 <= k < |s| && s[k] == n - 1 {
        var t := s[..k] + s[k + 1..];
        assert forall i | 0 <= i < |t| :: t[i] == s[if i < k then i else i + 1];
        DistinctFits(t, n - 1);
      } else {
        DistinctFits(s, n - 1);
      }
    }
  }

  /** Where a walk closes on itself: it returns to its `tail`-th node `period` hops later. */
  ghost predicate Closes(t: Hops, start: nat, tail: nat, period: nat)
    requires ValidHops(t) && start < |t|
  {
    period > 0 && Walk(t, start, tail).Some?
    && Walk(t, start, tail + period) == Walk(t, start, tail)
  }

  lemma WalkCloses(t: Hops, start: nat) returns (tail: nat, period: nat)
    requires ValidHops(t) && start < |t|
    ensures Walk(t, start, |t|).Some? ==> Closes(t, start, tail, period) && tail + period <= |t|
  {
    if Walk(t, start, |t|).None? { return 0, 0; }
    forall k: nat | k <= |t| ensures Walk(t, start, k).Some? { WalkPrefix(t, start, k, |t|); }
    var s := seq(|t| + 1, k requires 0 <= k <= |t| => Walk(t, start, k).value);
    if Distinct(s) { DistinctFits(s, |t|); }
    var i, j :| 0 <= i < j < |s| && s[i] == s[j];
    tail, period := i, j - i;
    assert Walk(t, start, i).value == s[i] && Walk(t, start, j).value == s[j];
  }

  /** From its tail on a walk that closes repeats, so it neither arrives nor stops. */
  lemma {:induction false} ClosedRepeats(t: Hops, start: nat, tail: nat, period: nat, k: nat)
    requires ValidHops(t) && start < |t|
    requires Closes(t, start, tail, period)
    ensures Walk(t, start, k).Some?
    ensures k >= tail ==> Walk(t, start, k + period) == Walk(t, start, k)
    decreases k
  {
    if k < tail {
      WalkPrefix(t, start, k, tail);
    } else {
      WalkShift(t, start, tail + period, tail, k - tail);
      if k >= tail + period { ClosedRepeats(t, start, tail, period, k - period); }
      else { WalkPrefix(t, start, k, tail + period); }
    }
  }

  lemma ClosedNeverArrives(t: Hops, start: nat, tail: nat, period: nat)
    requires ValidHops(t) && start < |t|
    requires Closes(t, start, tail, period)
    ensures NeverArrives(t, start)
  {
    forall k: nat ensures !ArrivesAfter(t, start, k) {
      ClosedRepeats(t, start, tail, period, k + 1);
    }
  }

  lemma StoppedNeverArrives(t: Hops, start: nat, stop: nat)
    requires ValidHops(t) && start < |t|
    requires Walk(t, start, stop).Some?
    requires t[Walk(t, start, stop).value].Lost?
    ensures NeverArrives(t, start)
  {
    forall k: nat ensures !ArrivesAfter(t, start, k) {
      if k < stop { WalkPrefix(t, start, k + 1, stop); }
      else if k > stop && ArrivesAfter(t, start, k) { WalkPrefix(t, start, stop + 1, k); }
    }
  }

  // ---- Brent's cycle detection ----

  /** The walk has not come back to where it was at hop `waiting`. */
  ghost predicate Away(t: Hops, start: nat, waiting: nat, hops: nat)
    requires ValidHops(t) && start < |t|
  {
    forall j | waiting < j <= hops :: Walk(t, start, j) != Walk(t, start, waiting)
  }

  /** The tortoise leaps at hop 8, then whenever the hops have doubled. */
  ghost predicate Pace(waiting: nat, leapCount: nat) {
    (waiting == 0 && leapCount == 8) || (waiting >= 8 && leapCount == 2 * waiting)
  }

  /** The loop's state: `hops` made, the tortoise waiting where the walk was at hop `waiting`,
      and the hop at which it is next moved up. */
  ghost predicate Brent(t: Hops, start: nat, hops: nat, waiting: nat, leapCount: nat)
    requires ValidHops(t) && start < |t|
  {
    && Pace(waiting, leapCount)
    && waiting <= hops < leapCount
    && Walk(t, start, hops).Some?
    && Away(t, start, waiting, hops)
  }

  /** The tortoise has moved up only while it was still before the tail or leaping less than a period. */
  ghost predicate Young(t: Hops, start: nat, waiting: nat, tail: nat, period: nat)
    requires ValidHops(t) && start < |t|
  {
    Walk(t, start, |t|).Some? ==>
      && Closes(t, start, tail, period) && tail + period <= |t|
      && (waiting > 8 ==> waiting < 2 * tail || waiting < 2 * period)
  }

  /** Once the tortoise waits on the cycle, the walk comes back to it before it has made another period of hops. */
  lemma CaughtUp(t: Hops, start: nat, hops: nat, waiting: nat, tail: nat, period: nat)
    requires ValidHops(t) && start < |t|
    requires Closes(t, start, tail, period) && waiting >= tail
    requires Away(t, start, waiting, hops)
    ensures hops < waiting + period
  {
    ClosedRepeats(t, start, tail, period, waiting);
    assert Walk(t, start, waiting + period) == Walk(t, start, waiting);
  }

  lemma HopBound(t: Hops, start: nat, hops: nat, waiting: nat, leapCount: nat, tail: nat, period: nat)
    requires ValidHops(t) && start < |t|
    requires waiting <= hops <= leapCount && Pace(waiting, leapCount)
    requires Walk(t, start, hops).Some? && Away(t, start, waiting, hops)
    requires Young(t, start, waiting, tail, period)
    ensures hops < 3 * |t| + 8
    ensures hops == leapCount ==> Young(t, start, hops, tail, period)
  {
    if Walk(t, start, |t|).None? {
      if hops >= |t| { WalkPrefix(t, start, |t|, hops); }
    } else if waiting >= tail {
      CaughtUp(t, start, hops, waiting, tail, period);
    }
  }

  /** One hop to a node other than the tortoise's, and the tortoise's leap when it is due. */
  lemma BrentHop(t: Hops, start: nat, hops: nat, waiting: nat, leapCount: nat, tail: nat, period: nat)
    requires ValidHops(t) && start < |t|
    requires Brent(t, start, hops, waiting, leapCount) && Young(t, start, waiting, tail, period)
    requires Walk(t, start, hops + 1).Some? && Walk(t, start, hops + 1) != Walk(t, start, waiting)
    ensures hops + 1 < 3 * |t| + 8
    ensures hops + 1 < leapCount ==> Brent(t, start, hops + 1, waiting, leapCount)
    ensures hops + 1 == leapCount ==>
              Brent(t, start, hops + 1, hops + 1, 2 * leapCount) && Young(t, start, hops + 1, tail, period)
  {
    assert Away(t, start, waiting, hops + 1);
    assert Away(t, start, hops + 1, hops + 1);
    HopBound(t, start, hops + 1, waiting, leapCount, tail, period);
  }

  /** Where the routing loop is: the packet and the tortoise, with the hops each has made, and when the
      tortoise leaps. */
  datatype Chase = Chase(node: nat, tortoise: nat, hops: nat, waiting: nat, leapCount: nat)

  /** One hop on, with the tortoise's leap when it is due. */
  function Onward(c: Chase, next: nat): Chase {
    if c.hops + 1 == c.leapCount then Chase(next, next, c.hops + 1, c.hops + 1, 2 * c.leapCount)
    else c.(node := next, hops := c.hops + 1)
  }

  /** The routing loop's invariant, for a walk that closes (if it does) after `tail` hops with the given period. */
  ghost predicate Following(t: Hops, start: nat, c: Chase, tail: nat, period: nat)
    requires ValidHops(t) && start < |t|
  {
    && Walk(t, start, c.hops) == Some(c.node) && Walk(t, start, c.waiting) == Some(c.tortoise)
    && Brent(t, start, c.hops, c.waiting, c.leapCount) && Young(t, start, c.waiting, tail, period)
    && c.hops < 3 * |t| + 8
  }

  lemma SetOff(t: Hops, start: nat) returns (tail: nat, period: nat)
    requires ValidHops(t) && start < |t|
    ensures Following(t, start, Chase(start, start, 0, 0, 8), tail, period)
  {
    tail, period := WalkCloses(t, start);
  }

  /** What the routing loop may report. */
  ghost predicate Answers(t: Hops, start: nat, r: Option<nat>, hops: nat)
    requires ValidHops(t) && start < |t|
  {
    && (r.Some? ==> ArrivesAfter(t, start, hops) && Walk(t, start, hops) == r)
    && (r.None? ==> NeverArrives(t, start))
    && hops <= 3 * |t| + 8
  }

  /** One turn of the loop: what each outcome tells about the unbounded walk. */
  lemma Turn(t: Hops, start: nat, c: Chase, tail: nat, period: nat)
    requires ValidHops(t) && start < |t| && Following(t, start, c, tail, period)
    ensures c.node < |t| && c.hops < 3 * |t| + 8
    ensures t[c.node].Arrived? ==> Answers(t, start, Some(c.node), c.hops)
    ensures t[c.node].Lost? ==> Answers(t, start, None, c.hops)
    ensures t[c.node] == To(c.tortoise) ==> Answers(t, start, None, c.hops + 1)
    ensures t[c.node].To? && t[c.node].node != c.tortoise
      ==> Following(t, start, Onward(c, t[c.node].node), tail, period)
  {
    if t[c.node].Lost? {
      StoppedNeverArrives(t, start, c.hops);
    } else if t[c.node].To? {
      assert Walk(t, start, c.hops + 1) == Some(t[c.node].node);
      if t[c.node].node == c.tortoise {
        ClosedNeverArrives(t, start, c.waiting, c.hops + 1 - c.waiting);
      } else {
        BrentHop(t, start, c.hops, c.waiting, c.leapCount, tail, period);
      }
    }
  }
}
