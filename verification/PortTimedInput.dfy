/** Fast-forwarding an input port that has a port time set (`updateNoExternalChange`, lib/Port.cpp) against stepping
    it edge by edge. */
module PortTimedInput {
  import opened Options
  import opened Signals
  import opened Arith
  import opened Bits
  import opened PortState
  import opened PortOutput
  import opened Slices
  import opened PortWaiters
  import opened PortInput
  import opened PortInputSchedule

  // ---- The branch ----

  /** The branch once the shift register has settled: skip n edges if the port time is not met by then, or else jump
      to just before it and step until it is. Returns the edges left. */
  function FastTimed(c: Config, s: State, n: nat): (State, nat)
    requires n > 0
  {
    if FallingAmong(s.nextEdge.kind, n) < FallingEdgesUntilTimeMet(c, s) then (Skip(s, n), 0)
    else
      var e := EdgesUntilTimeMet(c, s) - 1;
      StepWhileTimed(c, Jump(s, e), Less(n, e))
  }

  /** The exit condition of the loop that comes first. */
  predicate RegisterSettled(c: Config, p: Pipe) {
    p.shiftReg == SteadyReg(c, PinsLevel(c)) && p.portShiftCount == c.shiftRegEntries
  }

  function StepWhileUnsettled(c: Config, s: State, n: nat): (State, nat)
    decreases n
  {
    if n == 0 || RegisterSettled(c, s.pipe) then (s, n) else StepWhileUnsettled(c, SeeEdge(c, s), n - 1)
  }

  /** The branch from where the register has settled. */
  function AfterSettling(c: Config, a: State, m: nat): State
    requires c.shiftRegEntries > 0 && m > 0
  {
    var (b, k) := FastTimed(c, a, m);
    if k == 0 then b else FastInput(c, b, k)
  }

  function FastTimedInput(c: Config, s: State, n: nat): State
    requires c.shiftRegEntries > 0
  {
    var (a, m) := StepWhileUnsettled(c, s, n);
    if m == 0 then a else AfterSettling(c, a, m)
  }

  // ---- Samples before the port time ----

  predicate Room(p: Pipe) { p.validShiftRegEntries < p.portShiftCount }

  predicate TimedRoom(p: Pipe) { TimedInput(p) && Room(p) }

  /** Entries in a register of `count` after j more samples, if it is full every `period` samples from then on. */
  function Fill(fill: nat, count: nat, period: nat, j: nat): nat
    requires fill < count && period > 0
  {
    if j < count - fill then fill + j else Wrap(j - (count - fill), period)
  }

  /** The last of those samples that filled it, or 0. */
  function Filling(fill: nat, count: nat, period: nat, j: nat): nat
    requires fill < count && period > 0
  {
    if j < count - fill then 0 else Less(j, Wrap(j - (count - fill), period))
  }

  lemma {:induction false} WrapBound(x: nat, m: nat)
    requires m > 0
    ensures Wrap(x, m) < m && Wrap(x, m) <= x
    decreases x
  {
    if x >= m { WrapBound(x - m, m); }
  }

  lemma FillBound(fill: nat, count: nat, period: nat, j: nat)
    requires fill < count && period > 0
    ensures var f, at := Fill(fill, count, period, j), Filling(fill, count, period, j);
      && (at == 0 ==> f == fill + j < count) && (at > 0 ==> f < period && at <= j)
      && (at == 0 <==> j < count - fill)
  {
    if j >= count - fill { WrapBound(j - (count - fill), period); }
  }

  /** The same a sample later. */
  lemma FillNext(fill: nat, count: nat, period: nat, k: nat)
    requires fill < count && period > 0
    ensures fill + 1 < count ==>
      && Fill(fill + 1, count, period, k) == Fill(fill, count, period, k + 1)
      && (Filling(fill + 1, count, period, k) == 0 <==> Filling(fill, count, period, k + 1) == 0)
      && (Filling(fill, count, period, k + 1) > 0 ==>
            Filling(fill, count, period, k + 1) == Filling(fill + 1, count, period, k) + 1)
    ensures fill + 1 == count ==>
      && Fill(0, period, period, k) == Fill(fill, count, period, k + 1)
      && Filling(fill, count, period, k + 1) == Filling(0, period, period, k) + 1
  {
    FillBound(fill, count, period, k + 1);
    if fill + 1 < count {
      FillBound(fill + 1, count, period, k);
    } else {
      FillBound(0, period, period, k);
      if k >= period { WrapBound(k - period, period); }
    }
  }

  function Period(c: Config, p: Pipe): nat { if p.holdTransferReg then p.portShiftCount else c.shiftRegEntries }

  function FillOf(c: Config, p: Pipe, j: nat): nat
    requires Room(p) && c.shiftRegEntries > 0
  {
    Fill(p.validShiftRegEntries, p.portShiftCount, Period(c, p), j)
  }

  /** The last of j samples that is captured, or 0. */
  function CaptureOf(c: Config, p: Pipe, j: nat): nat
    requires Room(p) && c.shiftRegEntries > 0
  {
    if p.holdTransferReg then 0 else Filling(p.validShiftRegEntries, p.portShiftCount, Period(c, p), j)
  }

  /** The port after j samples before its time: the register has taken them in, the fill count has gone round, and
      unless the transfer register is held it has what was in the register the last time that was full. */
  function AfterSamples(c: Config, p: Pipe, j: nat): Pipe
    requires Room(p) && c.shiftRegEntries > 0
  {
    var at := CaptureOf(c, p, j);
    p.(shiftReg := SampleTimes(c, p.shiftReg, PinsLevel(c), j), validShiftRegEntries := FillOf(c, p, j),
       portShiftCount := if at == 0 then p.portShiftCount else c.shiftRegEntries,
       transferReg := if at == 0 then p.transferReg else SampleTimes(c, p.shiftReg, PinsLevel(c), at),
       transferRegValid := at > 0 || p.transferRegValid)
  }

  lemma AfterKeepsRoom(c: Config, p: Pipe, j: nat)
    requires Room(p) && c.shiftRegEntries > 0
    ensures Room(AfterSamples(c, p, j))
  {
    FillBound(p.validShiftRegEntries, p.portShiftCount, Period(c, p), j);
  }

  lemma AfterNone(c: Config, p: Pipe)
    requires Room(p) && c.shiftRegEntries > 0
    ensures AfterSamples(c, p, 0) == p
  {
  }

  lemma OneSampled(c: Config, reg: nat, v: nat, k: nat)
    ensures SampleTimes(c, c.SampledShiftReg(reg, v), v, k) == SampleTimes(c, reg, v, k + 1)
  {
  }

  /** Is the next sample captured? */
  predicate CapturedNext(p: Pipe) { p.validShiftRegEntries + 1 == p.portShiftCount && !p.holdTransferReg }

  /** The fill count and the shift count a sample later. */
  predicate Counts(c: Config, p: Pipe, q: Pipe) {
    && q.holdTransferReg == p.holdTransferReg
    && (if p.validShiftRegEntries + 1 == p.portShiftCount
        then q.validShiftRegEntries == 0 && q.portShiftCount == Period(c, p)
        else q.validShiftRegEntries == p.validShiftRegEntries + 1 && q.portShiftCount == p.portShiftCount)
  }

  lemma CountsNext(c: Config, p: Pipe, q: Pipe, k: nat)
    requires Room(p) && c.shiftRegEntries > 0 && Counts(c, p, q)
    ensures Room(q) && FillOf(c, q, k) == FillOf(c, p, k + 1)
    ensures CaptureOf(c, p, k + 1) ==
              if CapturedNext(p) || CaptureOf(c, q, k) > 0 then CaptureOf(c, q, k) + 1 else 0
  {
    FillNext(p.validShiftRegEntries, p.portShiftCount, Period(c, p), k);
  }

  lemma TakenCounts(c: Config, p: Pipe, counter: nat, v: nat)
    requires Room(p)
    ensures var q := Taken(c, p, counter, v); Counts(c, p, q) && q.shiftReg == c.SampledShiftReg(p.shiftReg, v)
  {
  }

  /** Neither what was in the transfer register before nor whether it was valid matters once there was a capture. */
  lemma TakenRest(c: Config, p: Pipe, counter: nat, v: nat)
    requires Room(p)
    ensures var q := Taken(c, p, counter, v);
      q == p.(shiftReg := q.shiftReg, validShiftRegEntries := q.validShiftRegEntries,
              portShiftCount := if CapturedNext(p) then c.shiftRegEntries else p.portShiftCount,
              timestampReg := q.timestampReg, transferReg := if CapturedNext(p) then q.shiftReg else p.transferReg,
              transferRegValid := CapturedNext(p) || p.transferRegValid)
  {
  }

  /** One sample that lets nobody go on, and k more. */
  lemma AfterMore(c: Config, p: Pipe, counter: nat, k: nat)
    requires Room(p) && c.shiftRegEntries > 0
    ensures var q := Taken(c, p, counter, PinsLevel(c));
      Room(q) && SamePipe(AfterSamples(c, q, k), AfterSamples(c, p, k + 1))
  {
    var v := PinsLevel(c);
    var q := Taken(c, p, counter, v);
    TakenCounts(c, p, counter, v);
    TakenRest(c, p, counter, v);
    CountsNext(c, p, q, k);
    OneSampled(c, p.shiftReg, v, k);
    OneSampled(c, p.shiftReg, v, CaptureOf(c, q, k));
    assert SampleTimes(c, q.shiftReg, v, 0) == q.shiftReg;
  }

  // ---- Edges before the port time ----

  predicate ConstantPins(c: Config) { NoReadySignals(c) && c.shiftRegEntries > 0 && !c.pins.IsClock() }

  /** A sample at the port time clears it: always on a buffered port, and otherwise if what is captured meets the
      condition. */
  predicate Clears(c: Config, p: Pipe, counter: nat) {
    && counter == c.timeReg
    && (c.buffered
        || (CapturedNext(p) && c.MeetsCondition(p.condition, c.SampledShiftReg(p.shiftReg, PinsLevel(c)))))
  }

  lemma TimedIsTaken(c: Config, p: Pipe, counter: nat, time: nat)
    requires NoReadySignals(c) && TimedInput(p) && !Clears(c, p, counter)
    ensures Sample(c, p, counter, time, PinsLevel(c)) == Taken(c, p, counter, PinsLevel(c))
  {
  }

  lemma TimedEdge(c: Config, s: State, counter: nat)
    requires ConstantPins(c) && TimedInput(s.pipe) && counter == CountEdge(s.portCounter, s.nextEdge.kind)
    requires s.nextEdge.kind == c.samplingEdge ==> !Clears(c, s.pipe, counter)
    ensures SeeEdge(c, s).pipe ==
              if s.nextEdge.kind == c.samplingEdge then Taken(c, s.pipe, counter, PinsLevel(c)) else s.pipe
  {
    InputFalling(c, s.pipe, counter, Go(c, s.readyIn), s.nextEdge.time);
    if s.nextEdge.kind == c.samplingEdge { TimedIsTaken(c, s.pipe, counter, s.nextEdge.time); }
  }

  /** None of the samples among the next n edges is at the port time. */
  predicate NotYet(c: Config, s: State, n: nat) {
    if c.samplingEdge == Falling then FallingAmong(s.nextEdge.kind, n) < FallingEdgesUntilTimeMet(c, s)
    else n == 0 || (&& FallingAmong(s.nextEdge.kind, n - 1) < FallingEdgesUntilTimeMet(c, s)
                    && (s.nextEdge.kind == Rising ==> s.portCounter != c.timeReg))
  }

  lemma NotYetStep(c: Config, s: State, a: State, n: nat)
    requires n > 0 && NotYet(c, s, n) && s.portCounter < COUNTER && c.timeReg < COUNTER
    requires a.portCounter == CountEdge(s.portCounter, s.nextEdge.kind) && a.nextEdge.kind == Flip(s.nextEdge.kind)
    ensures a.portCounter < COUNTER && NotYet(c, a, n - 1)
    ensures s.nextEdge.kind == c.samplingEdge ==> a.portCounter != c.timeReg
  {
    if s.nextEdge.kind == Falling && FallingEdgesUntilTimeMet(c, s) > 1 { DeadlineStep(c, s, a); }
  }

  function IsSample(c: Config, kind: EdgeType): nat { if kind == c.samplingEdge then 1 else 0 }

  lemma SamplesStep(c: Config, kind: EdgeType, n: nat)
    requires n > 0
    ensures var k := SamplesAmong(c, Flip(kind), n - 1);
      SamplesAmong(c, kind, n) == if kind == c.samplingEdge then k + 1 else k
  {
  }

  lemma SameAgain(p: Pipe, q: Pipe, r: Pipe)
    requires SamePipe(p, q) && SamePipe(q, r)
    ensures SamePipe(p, r)
  {
  }

  /** The induction step, on pipes alone. */
  lemma OneEdgeMore(c: Config, p: Pipe, q: Pipe, r: Pipe, sampled: bool, counter: nat, k: nat)
    requires c.shiftRegEntries > 0 && Room(p)
    requires q == if sampled then Taken(c, p, counter, PinsLevel(c)) else p
    requires Room(q) && SamePipe(r, AfterSamples(c, q, k))
    ensures SamePipe(r, AfterSamples(c, p, if sampled then k + 1 else k))
  {
    if sampled {
      AfterMore(c, p, counter, k);
      SameAgain(r, AfterSamples(c, q, k), AfterSamples(c, p, k + 1));
    }
  }

  /** One edge that takes a sample or does nothing, and n - 1 edges that take theirs. */
  lemma OneEdgeFirst(c: Config, p: Pipe, q: Pipe, r: Pipe, kind: EdgeType, counter: nat, n: nat)
    requires c.shiftRegEntries > 0 && Room(p) && n > 0 && Room(q)
    requires q == if kind == c.samplingEdge then Taken(c, p, counter, PinsLevel(c)) else p
    requires SamePipe(r, AfterSamples(c, q, SamplesAmong(c, Flip(kind), n - 1)))
    ensures SamePipe(r, AfterSamples(c, p, SamplesAmong(c, kind, n)))
  {
    SamplesStep(c, kind, n);
    OneEdgeMore(c, p, q, r, kind == c.samplingEdge, counter, SamplesAmong(c, Flip(kind), n - 1));
  }

  lemma TakenKeeps(c: Config, p: Pipe, counter: nat, v: nat)
    requires c.shiftRegEntries > 0 && TimedRoom(p)
    ensures TimedRoom(Taken(c, p, counter, v))
  {
  }

  /** Stepping to before the port time takes the samples in between, and nothing else. */
  lemma {:induction false} TimedIterate(c: Config, s: State, n: nat)
    requires ConstantPins(c) && s.portCounter < COUNTER && TimedRoom(s.pipe) && NotYet(c, s, n)
    ensures SamePipe(Iterate(c, s, n).pipe, AfterSamples(c, s.pipe, SamplesAmong(c, s.nextEdge.kind, n)))
    decreases n
  {
    if n == 0 {
      AfterNone(c, s.pipe);
    } else {
      var a := SeeEdge(c, s);
      NotYetStep(c, s, a, n);
      TimedEdge(c, s, a.portCounter);
      TakenKeeps(c, s.pipe, a.portCounter, PinsLevel(c));
      TimedIterate(c, a, n - 1);
      OneEdgeFirst(c, s.pipe, a.pipe, Iterate(c, a, n - 1).pipe, s.nextEdge.kind, a.portCounter, n);
    }
  }

  // ---- What the skip forgets ----

  /** The last of k samples that is captured, or 0, where the register is full once every register's worth. */
  function LastCapture(c: Config, p: Pipe, k: nat): nat
    requires c.shiftRegEntries > 0
  {
    var entries := p.validShiftRegEntries + k;
    if p.holdTransferReg || entries < c.shiftRegEntries then 0 else Less(k, Wrap(entries, c.shiftRegEntries))
  }

  /** k samples from where the register has settled: the fill count goes round, and each time round the register is
      captured unless it is held. */
  function Sampled(c: Config, p: Pipe, k: nat): Pipe
    requires c.shiftRegEntries > 0
  {
    var at := LastCapture(c, p, k);
    p.(shiftReg := SampleTimes(c, p.shiftReg, PinsLevel(c), k),
       validShiftRegEntries := Wrap(p.validShiftRegEntries + k, c.shiftRegEntries),
       transferReg := if at == 0 then p.transferReg else SampleTimes(c, p.shiftReg, PinsLevel(c), at),
       transferRegValid := at > 0 || p.transferRegValid)
  }

  predicate Steady(c: Config) { SteadyPins(c) && Repeats(c, PinsLevel(c)) }

  predicate AtRest(c: Config, p: Pipe) { Room(p) && RegisterSettled(c, p) }

  lemma {:induction false} SteadyStays(c: Config, k: nat)
    requires Steady(c)
    ensures SampleTimes(c, SteadyReg(c, PinsLevel(c)), PinsLevel(c), k) == SteadyReg(c, PinsLevel(c))
  {
    if k != 0 {
      SteadyIsFixedPoint(c, PinsLevel(c));
      SteadyStays(c, k - 1);
    }
  }

  lemma SettledIsSampled(c: Config, p: Pipe, k: nat)
    requires c.shiftRegEntries > 0 && AtRest(c, p)
    ensures AfterSamples(c, p, k) == Sampled(c, p, k)
  {
    FillBound(p.validShiftRegEntries, p.portShiftCount, Period(c, p), k);
  }

  /** The fill count comes round to where it was. */
  predicate ComesRound(c: Config, p: Pipe, k: nat)
    requires c.shiftRegEntries > 0
  {
    Wrap(p.validShiftRegEntries + k, c.shiftRegEntries) == p.validShiftRegEntries
  }

  /** Nothing is captured but what was there already. */
  predicate NothingNew(c: Config, p: Pipe, k: nat)
    requires c.shiftRegEntries > 0
  {
    var at := LastCapture(c, p, k);
    at == 0 || (p.transferRegValid && p.transferReg == SampleTimes(c, p.shiftReg, PinsLevel(c), at))
  }

  predicate NothingToForget(c: Config, p: Pipe, k: nat)
    requires c.shiftRegEntries > 0
  {
    ComesRound(c, p, k) && NothingNew(c, p, k) && SampleTimes(c, p.shiftReg, PinsLevel(c), k) == p.shiftReg
  }

  lemma ForgetsNothing(c: Config, p: Pipe, r: Pipe, k: nat)
    requires c.shiftRegEntries > 0 && SamePipe(r, Sampled(c, p, k))
    ensures SamePipe(p, r) <==> NothingToForget(c, p, k)
  {
  }

  // ---- From where the register has settled ----

  lemma FallingMonotone(kind: EdgeType, m: nat, n: nat)
    requires m <= n
    ensures FallingAmong(kind, m) <= FallingAmong(kind, n)
  {
    FallingAmongIs(kind, m);
    FallingAmongIs(kind, n);
  }

  lemma NotYetSooner(c: Config, s: State, m: nat, n: nat)
    requires m <= n && NotYet(c, s, n)
    ensures NotYet(c, s, m)
  {
    FallingMonotone(s.nextEdge.kind, m, n);
    if 0 < m { FallingMonotone(s.nextEdge.kind, m - 1, n - 1); }
  }

  /** The one way the branch can reach the falling edge that meets the time: as its last, one before the sample. */
  lemma UpToTheTime(c: Config, a: State, m: nat)
    requires m > 0 && NotYet(c, a, m) && FallingAmong(a.nextEdge.kind, m) >= FallingEdgesUntilTimeMet(c, a)
    ensures c.samplingEdge == Rising && m == EdgesUntilTimeMet(c, a) && Plus(a.nextEdge, m - 1).kind == Falling
  {
    FallingAmongIs(a.nextEdge.kind, m);
    FallingAmongIs(a.nextEdge.kind, m - 1);
    KindAfterIs(a.nextEdge.kind, m - 1);
  }

  /** Such an edge changes nothing. */
  lemma LastFallingEdge(c: Config, a: State, m: nat)
    requires NoReadySignals(c) && a.portCounter < COUNTER && TimedInput(a.pipe) && m > 0
    requires c.samplingEdge == Rising && Plus(a.nextEdge, m - 1).kind == Falling
    ensures var x := SeeEdge(c, Jump(a, m - 1));
      && StepWhileTimed(c, Jump(a, m - 1), 1) == (x, 0)
      && x.pipe == a.pipe && Advanced(a, x, m) && x.time == Plus(a.nextEdge, m - 1).time
  {
    var j := Jump(a, m - 1);
    InputFalling(c, j.pipe, CountEdge(j.portCounter, Falling), Go(c, j.readyIn), j.nextEdge.time);
    assert StepWhileTimed(c, j, 1) == StepWhileTimed(c, SeeEdge(c, j), 0);
    IterateAdvances(c, j, 1);
    assert Iterate(c, j, 1) == Iterate(c, SeeEdge(c, j), 0);
    AdvancedAdd(a, j, SeeEdge(c, j), m - 1, 1);
  }

  /** The branch leaves a settled port as it is, but counts the edges. */
  lemma FastTimedStays(c: Config, a: State, m: nat, r: State)
    requires NoReadySignals(c) && a.portCounter < COUNTER && TimedInput(a.pipe) && m > 0 && NotYet(c, a, m)
    requires Advanced(a, r, m) && r.time + a.nextEdge.halfPeriod == r.nextEdge.time
    ensures var (x, k) := FastTimed(c, a, m); k == 0 && x.pipe == a.pipe && SamePlace(x, r)
  {
    if FallingAmong(a.nextEdge.kind, m) < FallingEdgesUntilTimeMet(c, a) {
      SkipCounts(a, r, m);
    } else {
      UpToTheTime(c, a, m);
      LastFallingEdge(c, a, m);
      TimeBefore(a.nextEdge, m, r.time);
    }
  }

  // ---- Where the register settles ----

  predicate SettledAfter(c: Config, p: Pipe, j: nat)
    requires Room(p) && c.shiftRegEntries > 0
  {
    RegisterSettled(c, AfterSamples(c, p, j))
  }

  /** The register settles with the j-th sample, or has settled already. */
  predicate SettlesAt(c: Config, p: Pipe, j: nat)
    requires Room(p) && c.shiftRegEntries > 0
  {
    SettledAfter(c, p, j) && forall i: nat | i < j :: !SettledAfter(c, p, i)
  }

  lemma {:induction false} UnsettledSteps(c: Config, s: State, n: nat)
    ensures var (a, m) := StepWhileUnsettled(c, s, n); m <= n && a == Iterate(c, s, n - m)
    ensures var (a, m) := StepWhileUnsettled(c, s, n); m == 0 || RegisterSettled(c, a.pipe)
    decreases n
  {
    if n != 0 && !RegisterSettled(c, s.pipe) { UnsettledSteps(c, SeeEdge(c, s), n - 1); }
  }

  lemma {:induction false} UnsettledBefore(c: Config, s: State, n: nat, i: nat)
    requires i + StepWhileUnsettled(c, s, n).1 < n
    ensures !RegisterSettled(c, Iterate(c, s, i).pipe)
    decreases n
  {
    if i != 0 { UnsettledBefore(c, SeeEdge(c, s), n - 1, i - 1); }
  }

  /** The edges it takes to see x samples. */
  function EdgesFor(c: Config, kind: EdgeType, x: nat): nat { if x == 0 then 0 else 2 * x - IsSample(c, kind) }

  lemma EdgesForIs(c: Config, kind: EdgeType, x: nat, n: nat)
    ensures SamplesAmong(c, kind, EdgesFor(c, kind, x)) == x
    ensures x < SamplesAmong(c, kind, n) ==> EdgesFor(c, kind, x) < n
  {
  }

  lemma SamplesAdd(c: Config, kind: EdgeType, m: nat, n: nat)
    ensures SamplesAmong(c, kind, m) + SamplesAmong(c, KindAfter(kind, m), n) == SamplesAmong(c, kind, m + n)
  {
    KindAfterIs(kind, m);
  }

  /** No sample count before the loop's end has a settled register. */
  lemma UnsettledCount(c: Config, s: State, n: nat, x: nat)
    requires ConstantPins(c) && s.portCounter < COUNTER && TimedRoom(s.pipe) && NotYet(c, s, n)
    requires StepWhileUnsettled(c, s, n).1 <= n
    requires x < SamplesAmong(c, s.nextEdge.kind, n - StepWhileUnsettled(c, s, n).1)
    ensures !SettledAfter(c, s.pipe, x)
  {
    var i := EdgesFor(c, s.nextEdge.kind, x);
    EdgesForIs(c, s.nextEdge.kind, x, n - StepWhileUnsettled(c, s, n).1);
    UnsettledBefore(c, s, n, i);
    NotYetSooner(c, s, i, n);
    TimedIterate(c, s, i);
  }

  // ---- Counting edges, whatever the mode ----

  lemma UnsettledAdvances(c: Config, s: State, n: nat)
    requires s.portCounter < COUNTER
    ensures Counted(s, StepWhileUnsettled(c, s, n), n)
  {
    var (a, m) := StepWhileUnsettled(c, s, n);
    UnsettledSteps(c, s, n);
    SteppedAdvances(c, s, a, n - m);
  }

  lemma FastTimedAdvances(c: Config, s: State, n: nat)
    requires s.portCounter < COUNTER && n > 0
    ensures Counted(s, FastTimed(c, s, n), n)
  {
    if FallingAmong(s.nextEdge.kind, n) >= FallingEdgesUntilTimeMet(c, s) {
      var e := EdgesUntilTimeMet(c, s) - 1;
      TimeIsWithin(c, s, n);
      TimedStepsAdvance(c, Jump(s, e), n - e);
      CountedAdd(s, Jump(s, e), e, StepWhileTimed(c, Jump(s, e), n - e), n - e);
    }
  }

  lemma AfterSettlingAdvances(c: Config, a: State, m: nat)
    requires a.portCounter < COUNTER && c.shiftRegEntries > 0 && m > 0
    ensures Advanced(a, AfterSettling(c, a, m), m)
  {
    var (b, k) := FastTimed(c, a, m);
    FastTimedAdvances(c, a, m);
    if k > 0 {
      FastInputAdvances(c, b, k);
      AdvancedAdd(a, b, FastInput(c, b, k), m - k, k);
    }
  }

  lemma FastTimedInputAdvances(c: Config, s: State, n: nat)
    requires s.portCounter < COUNTER && c.shiftRegEntries > 0
    ensures Advanced(s, FastTimedInput(c, s, n), n)
  {
    var end := StepWhileUnsettled(c, s, n);
    UnsettledAdvances(c, s, n);
    if end.1 > 0 {
      AfterSettlingAdvances(c, end.0, end.1);
      AdvancedAdd(s, end.0, AfterSettling(c, end.0, end.1), n - end.1, end.1);
    }
  }
}
