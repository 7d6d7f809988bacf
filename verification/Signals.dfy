/** Clock signals and the edges a port is stepped over (lib/Signal.h).
    Times are unbounded naturals. */
module Signals {
  import opened Arith

  datatype EdgeType = Rising | Falling

  function Flip(k: EdgeType): EdgeType {
    if k == Rising then Falling else Rising
  }

  /** The edge an iterator stands on, together with the distance to the next one. */
  datatype EdgeIterator = EdgeIterator(time: nat, kind: EdgeType, halfPeriod: nat)

  /** `++it` */
  function Next(it: EdgeIterator): EdgeIterator {
    EdgeIterator(it.time + it.halfPeriod, Flip(it.kind), it.halfPeriod)
  }

  /** The kind of the edge n edges on: edges alternate. */
  function KindAfter(kind: EdgeType, n: nat): EdgeType
    decreases n
  {
    if n == 0 then kind else Flip(KindAfter(kind, n - 1))
  }

  /** `it + n` */
  function Plus(it: EdgeIterator, n: nat): EdgeIterator {
    EdgeIterator(it.time + Span(it.halfPeriod, n), KindAfter(it.kind, n), it.halfPeriod)
  }

  /** `later - earlier` */
  function Distance(later: EdgeIterator, earlier: EdgeIterator): nat
    requires later.halfPeriod > 0 && later.time >= earlier.time
  {
    Quot(later.time - earlier.time, later.halfPeriod)
  }

  const TICKS: nat := 0x1_0000_0000_0000_0000

  /** `time - from` on 64-bit tick counts */
  function Elapsed(from: nat, time: nat): nat {
    if from <= time then time - from else (time - from) % TICKS
  }

  /** Either a constant (half period 0) or a clock that is low on
      [value, value + halfPeriod) and high on the following half period. */
  datatype Signal = Signal(halfPeriod: nat, value: nat) {
    predicate IsClock() { halfPeriod != 0 }

    predicate Covers(time: nat) { IsClock() ==> value <= time }

    function GetValue(time: nat): nat {
      if halfPeriod == 0 then value else Quot(Elapsed(value, time), halfPeriod) % 2
    }

    function GetEdgeIterator(time: nat): EdgeIterator
      requires IsClock() && Covers(time)
    {
      var number := 1 + Quot(time - value, halfPeriod);
      EdgeIterator(value + Span(halfPeriod, number), KindAfter(Falling, number), halfPeriod)
    }

    function FlipLeastSignificantBit(): Signal {
      if halfPeriod == 0 then Signal(0, if value % 2 == 0 then value + 1 else value - 1)
      else Signal(halfPeriod, value + halfPeriod)
    }
  }

  /** The kind depends on the parity, as `it + n` and `getNextEdge` test it. */
  lemma {:induction false} KindAfterIs(kind: EdgeType, n: nat)
    ensures KindAfter(kind, n) == if n % 2 == 1 then Flip(kind) else kind
  {
    if n != 0 { KindAfterIs(kind, n - 1); }
  }

  lemma {:induction false} KindAfterAdd(kind: EdgeType, m: nat, n: nat)
    ensures KindAfter(KindAfter(kind, m), n) == KindAfter(kind, m + n)
    decreases n
  {
    if n != 0 { KindAfterAdd(kind, m, n - 1); }
  }

  /** A clock is low for a half period from its phase on, high for the next, and so forth. */
  lemma LevelAlternates(s: Signal, n: nat, t: nat)
    requires s.IsClock() && s.value + Span(s.halfPeriod, n) <= t < s.value + Span(s.halfPeriod, n + 1)
    ensures s.GetValue(t) == n % 2
  {
    QuotIs(t - s.value, s.halfPeriod, n);
  }

  /** The iterator for time t stands on the first transition after t: the level holds
      up to it, changes at it, and a rising edge is exactly a change to 1. */
  lemma NextEdgeIsFirstTransition(s: Signal, t: nat, u: nat)
    requires s.IsClock() && s.Covers(t)
    ensures var e := s.GetEdgeIterator(t);
            && t < e.time <= t + s.halfPeriod
            && (t <= u < e.time ==> s.GetValue(u) == s.GetValue(t))
            && s.GetValue(e.time) != s.GetValue(t)
            && (e.kind == Rising <==> s.GetValue(e.time) == 1)
  {
    var h := s.halfPeriod;
    var q := Quot(t - s.value, h);
    QuotWrap(t - s.value, h);
    KindAfterIs(Falling, 1 + q);
    QuotIs(s.GetEdgeIterator(t).time - s.value, h, 1 + q);
    if t <= u < s.GetEdgeIterator(t).time { QuotIs(u - s.value, h, q); }
  }

  /** Edge k of a clock has been passed at time u exactly when k is at most the quotient. */
  lemma PassedEdges(s: Signal, u: nat, k: nat)
    requires s.IsClock() && s.Covers(u)
    ensures s.value + Span(s.halfPeriod, k) <= u <==> k <= Quot(u - s.value, s.halfPeriod)
  {
    var q := Quot(u - s.value, s.halfPeriod);
    QuotWrap(u - s.value, s.halfPeriod);
    if k <= q { SpanMono(s.halfPeriod, k, q); } else { SpanMono(s.halfPeriod, q + 1, k); }
  }

  /** The iterator after time u is the one after time t moved on by the edges passed in between. */
  lemma IteratorPlus(s: Signal, t: nat, u: nat)
    requires s.IsClock() && s.Covers(t) && t <= u
    ensures var a, b := Quot(t - s.value, s.halfPeriod), Quot(u - s.value, s.halfPeriod);
            a <= b && s.GetEdgeIterator(u) == Plus(s.GetEdgeIterator(t), b - a)
  {
    var a, b := Quot(t - s.value, s.halfPeriod), Quot(u - s.value, s.halfPeriod);
    PassedEdges(s, t, a);
    PassedEdges(s, u, a);
    SpanAdd(s.halfPeriod, 1 + a, b - a);
    KindAfterAdd(Falling, 1 + a, b - a);
  }

  /** Moving time forward past n edges moves the iterator by n; so the difference of two
      iterators is the number of edges in the half-open interval between the two times. */
  lemma IteratorDistance(s: Signal, t: nat, u: nat) returns (n: nat)
    requires s.IsClock() && s.Covers(t) && t <= u
    ensures s.GetEdgeIterator(t).time <= s.GetEdgeIterator(u).time
    ensures n == Distance(s.GetEdgeIterator(u), s.GetEdgeIterator(t))
    ensures s.GetEdgeIterator(t).halfPeriod == s.halfPeriod
    ensures s.GetEdgeIterator(u) == Plus(s.GetEdgeIterator(t), n)
    ensures forall k: nat :: k < n <==> Plus(s.GetEdgeIterator(t), k).time <= u
  {
    var a := Quot(t - s.value, s.halfPeriod);
    IteratorPlus(s, t, u);
    n := Quot(u - s.value, s.halfPeriod) - a;
    QuotIs(Span(s.halfPeriod, n), s.halfPeriod, n);
    forall k: nat
      ensures k < n <==> Plus(s.GetEdgeIterator(t), k).time <= u
    {
      SpanAdd(s.halfPeriod, 1 + a, k);
      PassedEdges(s, u, 1 + a + k);
    }
  }

  /** How the wrapped difference compares with whole half periods: x ticks short of 2^64. */
  lemma QuotBelow(total: nat, x: nat, h: nat)
    requires 0 < x <= h <= total
    ensures Quot(total - x, h) == if x <= Wrap(total, h) then Quot(total, h) else Quot(total, h) - 1
  {
    var q := Quot(total, h);
    QuotWrap(total, h);
    assert q > 0 && Span(h, q) == h + Span(h, q - 1);
    QuotIs(total - x, h, if x <= Wrap(total, h) then q else q - 1);
  }

  lemma FlipLater(s: Signal, t: nat)
    requires s.IsClock() && s.value + s.halfPeriod <= t
    ensures s.FlipLeastSignificantBit().GetValue(t) == 1 - s.GetValue(t)
  {
    var x := t - (s.value + s.halfPeriod);
    assert Quot(x + s.halfPeriod, s.halfPeriod) == 1 + Quot(x, s.halfPeriod);
  }

  lemma FlipEarlier(s: Signal, t: nat)
    requires s.IsClock() && s.value <= t < s.value + s.halfPeriod && s.halfPeriod <= TICKS
    ensures s.GetValue(t) == 0
    ensures var x := s.value + s.halfPeriod - t;
      s.FlipLeastSignificantBit().GetValue(t) == Quot(TICKS - x, s.halfPeriod) % 2
  {
    assert Elapsed(s.value + s.halfPeriod, t) == TICKS - (s.value + s.halfPeriod - t);
  }

  /** Flipping a constant flips its lowest bit and no other. Flipping a clock moves its phase on by half a period,
      which inverts its level from then on; before, the elapsed time wraps around, and whether the level is
      inverted depends on how the half period divides 2^64. */
  lemma FlipInverts(s: Signal, t: nat)
    requires s.Covers(t) && s.halfPeriod <= TICKS
    ensures var f := s.FlipLeastSignificantBit();
      if !s.IsClock() then f.GetValue(t) % 2 == 1 - s.GetValue(t) % 2 && f.GetValue(t) / 2 == s.GetValue(t) / 2
      else f.GetValue(t) == 1 - s.GetValue(t) <==>
           f.Covers(t) || (f.value - t <= Wrap(TICKS, s.halfPeriod) <==> Quot(TICKS, s.halfPeriod) % 2 == 1)
  {
    if s.IsClock() {
      if s.value + s.halfPeriod <= t {
        FlipLater(s, t);
      } else {
        FlipEarlier(s, t);
        QuotBelow(TICKS, s.value + s.halfPeriod - t, s.halfPeriod);
      }
    }
  }

  /** Half periods of which 2^64 ticks hold an even number, such as powers of two, always invert. */
  lemma EvenPeriodsInvert(s: Signal, t: nat)
    requires s.IsClock() && s.Covers(t) && s.halfPeriod <= TICKS
    requires Wrap(TICKS, s.halfPeriod) == 0 && Quot(TICKS, s.halfPeriod) % 2 == 0
    ensures s.FlipLeastSignificantBit().GetValue(t) == 1 - s.GetValue(t)
  {
    FlipInverts(s, t);
  }

  /** A half period of 3 ticks does not: for two ticks the clock and its inverse both read low. */
  lemma ThreeTicksStayLow(t: nat)
    requires t < 2
    ensures var s := Signal(3, 0); s.FlipLeastSignificantBit().GetValue(t) == s.GetValue(t) == 0
  {
    var s := Signal(3, 0);
    QuotIsDiv(TICKS, 3);
    FlipInverts(s, t);
  }

  lemma PlusOne(it: EdgeIterator, n: nat)
    ensures Plus(it, 0) == it && Plus(Next(it), n) == Plus(it, n + 1) == Next(Plus(it, n))
  {
    KindAfterAdd(it.kind, 1, n);
  }

  /** Number of falling edges among the next n edges, counted one at a time. */
  function FallingAmong(kind: EdgeType, n: nat): nat
    decreases n
  {
    if n == 0 then 0
    else (if kind == Falling then 1 else 0) + FallingAmong(Flip(kind), n - 1)
  }

  /** The formula `updatePortCounter` computes it with. */
  lemma {:induction false} FallingAmongIs(kind: EdgeType, n: nat)
    ensures FallingAmong(kind, n) == (n + (if kind == Falling then 1 else 0)) / 2
    decreases n
  {
    if n != 0 { FallingAmongIs(Flip(kind), n - 1); }
  }

  lemma {:induction false} FallingAmongAdd(kind: EdgeType, m: nat, n: nat)
    ensures FallingAmong(kind, m) + FallingAmong(KindAfter(kind, m), n)
            == FallingAmong(kind, m + n)
    decreases m
  {
    if m != 0 {
      FallingAmongAdd(Flip(kind), m - 1, n);
      KindAfterAdd(kind, 1, m - 1);
    }
  }
}
