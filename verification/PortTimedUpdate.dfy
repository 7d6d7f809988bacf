/** Updates of an input port that has a port time set: exactly which of those that come no later than the port asked
    lose nothing (`update`, lib/Port.cpp). */
module PortTimedUpdate {
  import opened Options
  import opened Signals
  import opened Arith
  import opened Bits
  import opened PortState
  import opened PortOutput
  import opened Slices
  import opened PortWaiters
  import opened PortInput
  import opened PortInputSchedule
  import opened PortTimedInput
  import opened PortCalls

  /** A port with constant pins, a time and room in its register. */
  predicate TimedPort(c: Config, s: State) { ConstantPins(c) && s.portCounter < COUNTER && TimedRoom(s.pipe) }

  function Samples(c: Config, s: State, n: nat): nat { SamplesAmong(c, s.nextEdge.kind, n) }

  lemma {:induction false} NotYetRest(c: Config, s: State, i: nat, n: nat)
    requires i <= n && NotYet(c, s, n) && s.portCounter < COUNTER && c.timeReg < COUNTER
    ensures NotYet(c, Iterate(c, s, i), n - i)
    decreases i
  {
    if i != 0 {
      NotYetStep(c, s, SeeEdge(c, s), n);
      NotYetRest(c, SeeEdge(c, s), i - 1, n - 1);
    }
  }

  /** Where the loop stops, the port is as its samples left it, and the rest of the edges is before the time too. */
  lemma StopsBefore(c: Config, s: State, n: nat, a: State, m: nat)
    requires TimedPort(c, s) && NotYet(c, s, n) && m <= n && a == Iterate(c, s, n - m)
    ensures SamePipe(a.pipe, AfterSamples(c, s.pipe, Samples(c, s, n - m)))
    ensures TimedPort(c, a) && NotYet(c, a, m) && Samples(c, s, n) == Samples(c, s, n - m) + Samples(c, a, m)
  {
    NotYetSooner(c, s, n - m, n);
    TimedIterate(c, s, n - m);
    AfterKeepsRoom(c, s.pipe, Samples(c, s, n - m));
    NotYetRest(c, s, n - m, n);
    SamplesSplit(c, s, n, a, m);
  }

  lemma SamplesSplit(c: Config, s: State, n: nat, a: State, m: nat)
    requires s.portCounter < COUNTER && m <= n && a == Iterate(c, s, n - m)
    ensures a.portCounter < COUNTER && Samples(c, s, n) == Samples(c, s, n - m) + Samples(c, a, m)
  {
    SteppedAdvances(c, s, a, n - m);
    SamplesAdd(c, s.nextEdge.kind, n - m, m);
  }

  /** From there the branch leaves the port as it is, while stepping goes on sampling. */
  lemma GoesOn(c: Config, a: State, m: nat, r: State)
    requires TimedPort(c, a) && NotYet(c, a, m) && m > 0 && RegisterSettled(c, a.pipe) && r == Iterate(c, a, m)
    ensures var x := AfterSettling(c, a, m); x.pipe == a.pipe && SamePlace(x, r)
    ensures SamePipe(r.pipe, Sampled(c, a.pipe, Samples(c, a, m)))
  {
    TimedIterate(c, a, m);
    SettledIsSampled(c, a.pipe, Samples(c, a, m));
    IterateBookkeeping(c, a, m);
    FastTimedStays(c, a, m, r);
  }

  /** What the branch x and the stepped port r have in common after n edges: all but the samples after the j-th, with
      which the register settles. */
  ghost predicate Apart(c: Config, p: Pipe, x: State, r: State, j: nat, all: nat)
    requires Room(p) && c.shiftRegEntries > 0
  {
    && j <= all && SamePlace(x, r) && SamePipe(x.pipe, AfterSamples(c, p, j))
    && (if j == all then SamePipe(x.pipe, r.pipe)
        else SettlesAt(c, p, j) && SamePipe(r.pipe, Sampled(c, x.pipe, all - j)))
    && (forall i: nat | i <= all && SettlesAt(c, p, i) :: i == j)
  }

  lemma {:induction false} OnlyOne(c: Config, s: State, n: nat, i: nat)
    requires TimedPort(c, s) && NotYet(c, s, n) && i <= Samples(c, s, n) && SettlesAt(c, s.pipe, i)
    ensures var (a, m) := StepWhileUnsettled(c, s, n);
      m <= n && (i == Samples(c, s, n - m) || (m > 0 && !SettlesAt(c, s.pipe, Samples(c, s, n - m))))
  {
    var (a, m) := StepWhileUnsettled(c, s, n);
    UnsettledSteps(c, s, n);
    if i < Samples(c, s, n - m) { UnsettledCount(c, s, n, i); }
  }

  lemma StopSettles(c: Config, s: State, n: nat, a: State, m: nat)
    requires TimedPort(c, s) && NotYet(c, s, n) && (a, m) == StepWhileUnsettled(c, s, n) && 0 < m <= n
    requires SamePipe(a.pipe, AfterSamples(c, s.pipe, Samples(c, s, n - m))) && RegisterSettled(c, a.pipe)
    ensures SettlesAt(c, s.pipe, Samples(c, s, n - m))
  {
    forall i: nat | i < Samples(c, s, n - m) ensures !SettledAfter(c, s.pipe, i) { UnsettledCount(c, s, n, i); }
  }

  lemma BranchAndSteps(c: Config, s: State, n: nat) returns (j: nat)
    requires TimedPort(c, s) && NotYet(c, s, n)
    ensures Apart(c, s.pipe, FastTimedInput(c, s, n), Iterate(c, s, n), j, Samples(c, s, n))
  {
    var (a, m) := StepWhileUnsettled(c, s, n);
    UnsettledSteps(c, s, n);
    SplitOff(c, s, n, a, m);
    StopsBefore(c, s, n, a, m);
    j := Samples(c, s, n - m);
    if m > 0 {
      StopSettles(c, s, n, a, m);
      GoesOn(c, a, m, Iterate(c, s, n));
      SampledNone(c, a.pipe);
    }
    forall i: nat | i <= Samples(c, s, n) && SettlesAt(c, s.pipe, i) ensures i == j { OnlyOne(c, s, n, i); }
  }

  lemma SampledNone(c: Config, p: Pipe)
    requires c.shiftRegEntries > 0 && p.validShiftRegEntries < c.shiftRegEntries
    ensures Sampled(c, p, 0) == p
  {
  }

  // ---- The branch ----

  /** If the register settles before the last sample, forgetting the later ones makes no difference. */
  ghost predicate BranchKeeps(c: Config, s: State, n: nat)
    requires Room(s.pipe) && c.shiftRegEntries > 0
  {
    var all := Samples(c, s, n);
    forall j: nat | j <= all && SettlesAt(c, s.pipe, j) :: NothingToForget(c, AfterSamples(c, s.pipe, j), all - j)
  }

  lemma NothingLeft(c: Config, p: Pipe, j: nat)
    requires Room(p) && c.shiftRegEntries > 0 && SettlesAt(c, p, j)
    ensures NothingToForget(c, AfterSamples(c, p, j), 0)
  {
    AfterKeepsRoom(c, p, j);
  }

  lemma BranchKeepsIs(c: Config, s: State, n: nat, x: State, r: State, j: nat)
    requires TimedPort(c, s) && Apart(c, s.pipe, x, r, j, Samples(c, s, n))
    ensures BranchKeeps(c, s, n) <==>
              j == Samples(c, s, n) || NothingToForget(c, AfterSamples(c, s.pipe, j), Samples(c, s, n) - j)
  {
    if j == Samples(c, s, n) && SettlesAt(c, s.pipe, j) { NothingLeft(c, s.pipe, j); }
  }

  /** The branch for a timed input port, up to the sample at its time, reaches the state of edge stepping if and only if
      it has nothing to forget. */
  lemma FastTimedInputMatches(c: Config, s: State, n: nat)
    requires TimedPort(c, s) && NotYet(c, s, n)
    ensures SameInput(FastTimedInput(c, s, n), Iterate(c, s, n)) <==> BranchKeeps(c, s, n)
  {
    var x, r, all := FastTimedInput(c, s, n), Iterate(c, s, n), Samples(c, s, n);
    var j := BranchAndSteps(c, s, n);
    BranchKeepsIs(c, s, n, x, r, j);
    if j != all { ForgetsNothing(c, x.pipe, r.pipe, all - j); }
  }

  // ---- The skip alone ----

  lemma InputStaysUntimed(c: Config, s: State)
    requires NoReadySignals(c) && !s.pipe.outputPort && !s.pipe.timeRegValid
    ensures var p := SeeEdge(c, s).pipe; !p.outputPort && !p.timeRegValid
  {
    var counter, time := CountEdge(s.portCounter, s.nextEdge.kind), s.nextEdge.time;
    var p := FallingEdge(c, s.pipe, counter, true, time);
    assert !p.outputPort && !p.timeRegValid;
    SampleStaysUntimed(c, p, counter, time, c.EffectivePins().GetValue(time));
    SampleStaysUntimed(c, s.pipe, counter, time, c.EffectivePins().GetValue(time));
  }

  lemma SampleStaysUntimed(c: Config, p: Pipe, counter: nat, time: nat, v: nat)
    requires !p.outputPort && !p.timeRegValid
    ensures var r := Sample(c, p, counter, time, v); !r.outputPort && !r.timeRegValid
  {
  }

  lemma {:induction false} NeverTimedAgain(c: Config, s: State, n: nat)
    requires NoReadySignals(c) && !s.pipe.outputPort && !s.pipe.timeRegValid
    ensures !Iterate(c, s, n).pipe.timeRegValid
    decreases n
  {
    if n != 0 {
      InputStaysUntimed(c, s);
      NeverTimedAgain(c, SeeEdge(c, s), n - 1);
    }
  }

  /** The next edge is a rising one that samples at the port time, and clears it. */
  predicate ClearedNow(c: Config, s: State) {
    s.nextEdge.kind == Rising == c.samplingEdge && Clears(c, s.pipe, s.portCounter)
  }

  lemma ClearedEdge(c: Config, s: State)
    requires ConstantPins(c) && TimedRoom(s.pipe) && ClearedNow(c, s)
    ensures var p := SeeEdge(c, s).pipe; !p.outputPort && !p.timeRegValid
  {
  }

  lemma NotYetAgain(c: Config, s: State, a: State, n: nat)
    requires n > 0 && FallingAmong(Rising, n) < FallingEdgesUntilTimeMet(c, s)
    requires a.portCounter == s.portCounter && a.nextEdge.kind == Falling
    ensures NotYet(c, a, n - 1)
  {
    if n > 1 { FallingMonotone(Falling, n - 2, n - 1); }
  }

  /** Stepping from a first sample at the port time that does not clear it. */
  lemma SteppedFromTime(c: Config, s: State, n: nat)
    requires TimedPort(c, s) && n > 0 && s.nextEdge.kind == Rising == c.samplingEdge
    requires !Clears(c, s.pipe, s.portCounter) && FallingAmong(Rising, n) < FallingEdgesUntilTimeMet(c, s)
    ensures SamePipe(Iterate(c, s, n).pipe, AfterSamples(c, s.pipe, Samples(c, s, n)))
  {
    var a := SeeEdge(c, s);
    TimedEdge(c, s, a.portCounter);
    TakenKeeps(c, s.pipe, a.portCounter, PinsLevel(c));
    NotYetAgain(c, s, a, n);
    TimedIterate(c, a, n - 1);
    OneEdgeFirst(c, s.pipe, a.pipe, Iterate(c, a, n - 1).pipe, s.nextEdge.kind, a.portCounter, n);
  }

  /** Stepping n edges that do not reach the falling edge of the time, unless the time is cleared at once. */
  lemma SteppedSamples(c: Config, s: State, n: nat)
    requires TimedPort(c, s) && RegisterSettled(c, s.pipe) && n > 0 && !ClearedNow(c, s)
    requires FallingAmong(s.nextEdge.kind, n) < FallingEdgesUntilTimeMet(c, s)
    ensures SamePipe(Iterate(c, s, n).pipe, Sampled(c, s.pipe, Samples(c, s, n)))
  {
    FallingMonotone(s.nextEdge.kind, n - 1, n);
    SettledIsSampled(c, s.pipe, Samples(c, s, n));
    if NotYet(c, s, n) {
      TimedIterate(c, s, n);
    } else {
      SteppedFromTime(c, s, n);
    }
  }

  /** The skip forgets the samples it passes over: exactly when it still agrees with stepping. */
  lemma TimedSkipForgets(c: Config, s: State, n: nat)
    requires TimedPort(c, s) && RegisterSettled(c, s.pipe) && n > 0
    requires FallingAmong(s.nextEdge.kind, n) < FallingEdgesUntilTimeMet(c, s)
    ensures FastTimed(c, s, n) == (Skip(s, n), 0)
    ensures SameInput(Skip(s, n), Iterate(c, s, n)) <==>
              !ClearedNow(c, s) && NothingToForget(c, s.pipe, Samples(c, s, n))
  {
    var r := Iterate(c, s, n);
    IterateBookkeeping(c, s, n);
    SkipCounts(s, r, n);
    if ClearedNow(c, s) {
      ClearedEdge(c, s);
      NeverTimedAgain(c, SeeEdge(c, s), n - 1);
    } else {
      SteppedSamples(c, s, n);
      ForgetsNothing(c, s.pipe, r.pipe, Samples(c, s, n));
    }
  }

  // ---- The last edge of an update ----

  /** A sample at the port time realigns the register: a buffered port that is waited on, with pins that meet the
      condition. */
  predicate Realigns(c: Config, p: Pipe) {
    c.buffered && Waiting(p) && !p.holdTransferReg && c.MeetsCondition(p.condition, PinsLevel(c))
  }

  /** One more sample leads to the same register, whether it comes first or after k others. */
  predicate NextAlike(c: Config, p: Pipe, k: nat) {
    var v := PinsLevel(c);
    c.SampledShiftReg(SampleTimes(c, p.shiftReg, v, k), v) == c.SampledShiftReg(p.shiftReg, v)
  }

  /** One more sample makes up for k that were forgotten: it realigns the register, or their fill count comes round and
      what they would have captured was there already or is captured now. */
  predicate Recovers(c: Config, p: Pipe, k: nat, realigns: bool)
    requires c.shiftRegEntries > 0
  {
    && NextAlike(c, p, k)
    && (realigns || (ComesRound(c, p, k) && (NothingNew(c, p, k) || CapturedNext(p))))
  }

  /** The same but for what has been captured, and when. */
  predicate SameButCapture(p: Pipe, q: Pipe) {
    p == q.(timestampReg := p.timestampReg, transferReg := p.transferReg, transferRegValid := p.transferRegValid)
  }

  predicate SameCapture(p: Pipe, q: Pipe) {
    p.transferReg == q.transferReg && p.transferRegValid == q.transferRegValid
  }

  /** The same but for the register, the fill count and what has been captured, and the same register next. */
  predicate AlikeNext(c: Config, p: Pipe, q: Pipe) {
    && SameButCapture(q, p.(shiftReg := q.shiftReg, validShiftRegEntries := q.validShiftRegEntries))
    && c.SampledShiftReg(p.shiftReg, PinsLevel(c)) == c.SampledShiftReg(q.shiftReg, PinsLevel(c))
  }

  lemma SampleShifts(c: Config, p: Pipe, counter: nat, time: nat)
    ensures Sample(c, p, counter, time, PinsLevel(c)).shiftReg == c.SampledShiftReg(p.shiftReg, PinsLevel(c))
  {
  }

  lemma RegistersStayApart(c: Config, p: Pipe, q: Pipe, counter: nat, time: nat)
    requires c.SampledShiftReg(p.shiftReg, PinsLevel(c)) != c.SampledShiftReg(q.shiftReg, PinsLevel(c))
    ensures !SamePipe(Sample(c, p, counter, time, PinsLevel(c)), Sample(c, q, counter, time, PinsLevel(c)))
  {
    SampleShifts(c, p, counter, time);
    SampleShifts(c, q, counter, time);
  }

  lemma RealignedSample(c: Config, p: Pipe, q: Pipe, counter: nat, time: nat)
    requires NoReadySignals(c) && TimedInput(p) && counter == c.timeReg && Realigns(c, p) && AlikeNext(c, p, q)
    ensures SamePipe(Sample(c, p, counter, time, PinsLevel(c)), Sample(c, q, counter, time, PinsLevel(c)))
  {
    var v := PinsLevel(c);
    assert ShouldRealign(c, p, counter, v) && ShouldRealign(c, q, counter, v);
    assert SameButCapture(ShiftIn(c, p, counter, v), ShiftIn(c, q, counter, v));
  }

  lemma FillsStayApart(c: Config, p: Pipe, q: Pipe, counter: nat, time: nat)
    requires NoReadySignals(c) && TimedRoom(p) && TimedRoom(q) && p.portShiftCount == q.portShiftCount
    requires counter == c.timeReg ==> !Realigns(c, p) && !Realigns(c, q)
    requires p.validShiftRegEntries != q.validShiftRegEntries
    ensures !SamePipe(Sample(c, p, counter, time, PinsLevel(c)), Sample(c, q, counter, time, PinsLevel(c)))
  {
    SampleFills(c, p, counter, time);
    SampleFills(c, q, counter, time);
  }

  lemma SampleFills(c: Config, p: Pipe, counter: nat, time: nat)
    requires NoReadySignals(c) && TimedRoom(p) && (counter == c.timeReg ==> !Realigns(c, p))
    ensures Sample(c, p, counter, time, PinsLevel(c)).validShiftRegEntries
            == if p.validShiftRegEntries + 1 == p.portShiftCount then 0 else p.validShiftRegEntries + 1
  {
    assert !ShouldRealign(c, p, counter, PinsLevel(c));
  }

  /** With the same fill count, what was captured before matters unless there is a capture now. */
  lemma CapturesStayApart(c: Config, p: Pipe, q: Pipe, counter: nat, time: nat)
    requires NoReadySignals(c) && TimedRoom(p) && AlikeNext(c, p, q) && p.validShiftRegEntries == q.validShiftRegEntries
    requires counter == c.timeReg ==> !Realigns(c, p)
    ensures SamePipe(Sample(c, p, counter, time, PinsLevel(c)), Sample(c, q, counter, time, PinsLevel(c)))
            <==> SameCapture(p, q) || CapturedNext(p)
  {
    var v := PinsLevel(c);
    var a, b := ShiftIn(c, p, counter, v), ShiftIn(c, q, counter, v);
    assert !ShouldRealign(c, p, counter, v) && !ShouldRealign(c, q, counter, v);
    assert SameButCapture(a, b) && (SameCapture(p, q) <==> SameCapture(a, b));
    CaptureApart(c, a, b, counter, time);
  }

  lemma CaptureApart(c: Config, a: Pipe, b: Pipe, counter: nat, time: nat)
    requires NoReadySignals(c) && SameButCapture(a, b)
    ensures SamePipe(Capture(c, a, counter, time), Capture(c, b, counter, time))
            <==> SameCapture(a, b) || (a.validShiftRegEntries == a.portShiftCount && !a.holdTransferReg)
  {
  }

  lemma LastSample(c: Config, p: Pipe, q: Pipe, k: nat, counter: nat, time: nat)
    requires NoReadySignals(c) && c.shiftRegEntries > 0 && TimedRoom(p) && AtRest(c, p) && SamePipe(q, Sampled(c, p, k))
    ensures SamePipe(Sample(c, p, counter, time, PinsLevel(c)), Sample(c, q, counter, time, PinsLevel(c)))
            <==> Recovers(c, p, k, counter == c.timeReg && Realigns(c, p))
  {
    WrapBound(p.validShiftRegEntries + k, c.shiftRegEntries);
    if !NextAlike(c, p, k) {
      RegistersStayApart(c, p, q, counter, time);
    } else if counter == c.timeReg && Realigns(c, p) {
      RealignedSample(c, p, q, counter, time);
    } else if !ComesRound(c, p, k) {
      FillsStayApart(c, p, q, counter, time);
    } else {
      CapturesStayApart(c, p, q, counter, time);
    }
  }

  lemma SameSample(c: Config, p: Pipe, q: Pipe, counter: nat, time: nat)
    requires NoReadySignals(c) && TimedRoom(p) && SamePipe(p, q)
    ensures SamePipe(Sample(c, p, counter, time, PinsLevel(c)), Sample(c, q, counter, time, PinsLevel(c)))
  {
    if counter == c.timeReg && Realigns(c, p) {
      RealignedSample(c, p, q, counter, time);
    } else {
      CapturesStayApart(c, p, q, counter, time);
    }
  }

  /** An edge of a timed port with constant pins. */
  lemma TimedEdgeIs(c: Config, s: State)
    requires ConstantPins(c) && TimedInput(s.pipe)
    ensures var t := SeeEdge(c, s); var counter := CountEdge(s.portCounter, s.nextEdge.kind);
      && t.portCounter == counter && t.time == s.nextEdge.time && t.nextEdge == Next(s.nextEdge)
      && t.pipe == if s.nextEdge.kind == c.samplingEdge
                   then Sample(c, s.pipe, counter, s.nextEdge.time, PinsLevel(c)) else s.pipe
  {
    InputFalling(c, s.pipe, CountEdge(s.portCounter, s.nextEdge.kind), Go(c, s.readyIn), s.nextEdge.time);
  }

  /** What must hold of the port where its register settles, for an update that ends with the given edge. */
  predicate Survives(c: Config, p: Pipe, k: nat, sampled: bool, realigns: bool)
    requires c.shiftRegEntries > 0
  {
    if sampled then Recovers(c, p, k, realigns) else NothingToForget(c, p, k)
  }

  lemma SurvivesAlike(c: Config, p: Pipe, q: Pipe, k: nat, sampled: bool, realigns: bool)
    requires c.shiftRegEntries > 0 && SamePipe(p, q)
    ensures Survives(c, p, k, sampled, realigns) <==> Survives(c, q, k, sampled, realigns)
  {
  }

  /** The last edge, on pipes alone. */
  lemma LastPipes(c: Config, p: Pipe, q: Pipe, k: nat, counter: nat, time: nat, sampled: bool)
    requires ConstantPins(c) && TimedRoom(p)
    requires if k == 0 then SamePipe(p, q) else AtRest(c, p) && SamePipe(q, Sampled(c, p, k))
    ensures SamePipe(if sampled then Sample(c, p, counter, time, PinsLevel(c)) else p,
                     if sampled then Sample(c, q, counter, time, PinsLevel(c)) else q)
            <==> k == 0 || Survives(c, p, k, sampled, counter == c.timeReg && Realigns(c, p))
  {
    if k == 0 {
      SameSample(c, p, q, counter, time);
    } else {
      LastSample(c, p, q, k, counter, time);
      ForgetsNothing(c, p, q, k);
    }
  }

  lemma LastEdgeMatches(c: Config, p: Pipe, x: State, r: State, j: nat, all: nat, sampled: bool, reaches: bool)
    requires ConstantPins(c) && TimedRoom(p) && Apart(c, p, x, r, j, all)
    requires sampled <==> r.nextEdge.kind == c.samplingEdge
    requires sampled ==> (CountEdge(r.portCounter, r.nextEdge.kind) == c.timeReg <==> reaches)
    ensures SameInput(SeeEdge(c, x), SeeEdge(c, r)) <==>
              j == all || Survives(c, AfterSamples(c, p, j), all - j, sampled, reaches && Realigns(c, p))
  {
    var counter, time := CountEdge(r.portCounter, r.nextEdge.kind), r.nextEdge.time;
    AfterKeepsRoom(c, p, j);
    TimedEdgeIs(c, x);
    TimedEdgeIs(c, r);
    LastPipes(c, x.pipe, r.pipe, all - j, counter, time, sampled);
    SurvivesAlike(c, x.pipe, AfterSamples(c, p, j), all - j, sampled, counter == c.timeReg && Realigns(c, p));
  }

  // ---- Updates that come in time ----

  /** The update over n edges comes no later than the port asked. */
  predicate InTimeInput(c: Config, s: State, n: nat) { n == 0 || AsleepInput(c, s, n - 1) }

  /** `update` over n edges of an input port with constant pins. */
  function InputUpdate(c: Config, s: State, n: nat): State
    requires c.shiftRegEntries > 0
  {
    if n <= 2 then Iterate(c, s, n)
    else SeeEdge(c, if s.pipe.timeRegValid then FastTimedInput(c, s, n - 1) else FastInput(c, s, n - 1))
  }

  /** The last edge is the one the port asked to be woken at. */
  predicate Reaches(c: Config, s: State, n: nat) { n > 0 && InputWake(c, s) == Some(n - 1) }

  predicate EndsWithSample(c: Config, s: State, n: nat) {
    n > 0 && KindAfter(s.nextEdge.kind, n - 1) == c.samplingEdge
  }

  lemma DeadlineIs(c: Config, counter: nat, s: State)
    requires c.timeReg < COUNTER && s.portCounter < COUNTER && counter <= FallingEdgesUntilTimeMet(c, s)
    ensures (s.portCounter + counter) % COUNTER == c.timeReg <==>
              counter == FallingEdgesUntilTimeMet(c, s) || (counter == 0 && FallingEdgesUntilTimeMet(c, s) == COUNTER)
  {
  }

  lemma InTimeIs(c: Config, s: State, n: nat)
    requires TimedPort(c, s) && InTimeInput(c, s, n) && n > 2
    ensures s.nextEdge.kind == Falling && NotYet(c, s, n - 1)
    ensures Reaches(c, s, n) ==> EndsWithSample(c, s, n)
    ensures !Reaches(c, s, n) ==> NotYet(c, s, n)
  {
    FallingAmongIs(Falling, n);
    FallingAmongIs(Falling, n - 1);
    FallingAmongIs(Falling, n - 2);
    KindAfterIs(Falling, n - 1);
  }

  /** An update in time makes no more falling edges than there are to the port time. */
  lemma FallingInTime(c: Config, s: State, n: nat, m: nat)
    requires TimedPort(c, s) && InTimeInput(c, s, n) && n > 2 && EndsWithSample(c, s, n)
    requires m == FallingAmong(Falling, n - 1) + (if c.samplingEdge == Falling then 1 else 0)
    ensures 0 < m <= FallingEdgesUntilTimeMet(c, s)
    ensures Reaches(c, s, n) <==> m == FallingEdgesUntilTimeMet(c, s)
  {
    FallingAmongIs(Falling, n - 1);
    KindAfterIs(Falling, n - 1);
  }

  lemma CountedOn(counter: nat, m: nat, kind: EdgeType)
    ensures CountEdge((counter + m) % COUNTER, kind) == (counter + m + (if kind == Falling then 1 else 0)) % COUNTER
  {
  }

  /** The counter at the last edge, if that is a sample. */
  lemma LastCounter(c: Config, s: State, n: nat, r: State)
    requires TimedPort(c, s) && InTimeInput(c, s, n) && n > 2 && Advanced(s, r, n - 1) && EndsWithSample(c, s, n)
    ensures CountEdge(r.portCounter, r.nextEdge.kind) == c.timeReg <==> Reaches(c, s, n)
  {
    var falling := FallingAmong(Falling, n - 1);
    var m := falling + (if c.samplingEdge == Falling then 1 else 0);
    InTimeIs(c, s, n);
    FallingInTime(c, s, n, m);
    CountedOn(s.portCounter, falling, c.samplingEdge);
    DeadlineIs(c, m, s);
  }

  /** Where the register settles there is nothing to forget, or nothing that the last sample does not make up for. */
  ghost predicate UpdateKeeps(c: Config, s: State, n: nat)
    requires Room(s.pipe) && c.shiftRegEntries > 0 && n > 0
  {
    var all := Samples(c, s, n - 1);
    forall j: nat | j <= all && SettlesAt(c, s.pipe, j) ::
      Survives(c, AfterSamples(c, s.pipe, j), all - j, EndsWithSample(c, s, n),
               Reaches(c, s, n) && Realigns(c, s.pipe))
  }

  /** The register settles at one place at most, so what is kept is decided there. */
  lemma UpdateKeepsIs(c: Config, s: State, n: nat, x: State, r: State, j: nat)
    requires TimedPort(c, s) && n > 0 && Apart(c, s.pipe, x, r, j, Samples(c, s, n - 1))
    ensures var all := Samples(c, s, n - 1);
      UpdateKeeps(c, s, n) <==>
        j == all || Survives(c, AfterSamples(c, s.pipe, j), all - j, EndsWithSample(c, s, n),
                             Reaches(c, s, n) && Realigns(c, s.pipe))
  {
    if j == Samples(c, s, n - 1) && SettlesAt(c, s.pipe, j) { NothingLeft(c, s.pipe, j); }
  }

  lemma LastEdgeIs(c: Config, s: State, n: nat, r: State)
    requires TimedPort(c, s) && InTimeInput(c, s, n) && n > 2 && Advanced(s, r, n - 1)
    ensures r.nextEdge.kind == c.samplingEdge <==> EndsWithSample(c, s, n)
    ensures EndsWithSample(c, s, n) ==>
              (CountEdge(r.portCounter, r.nextEdge.kind) == c.timeReg <==> Reaches(c, s, n))
  {
    if EndsWithSample(c, s, n) { LastCounter(c, s, n, r); }
  }

  /** The last edge of an update: the branch and the stepped port before it are x and r. */
  lemma UpdateEndsAlike(c: Config, s: State, n: nat, x: State, r: State, j: nat)
    requires TimedPort(c, s) && InTimeInput(c, s, n) && n > 2 && Advanced(s, r, n - 1)
    requires Apart(c, s.pipe, x, r, j, Samples(c, s, n - 1))
    ensures SameInput(SeeEdge(c, x), SeeEdge(c, r)) <==> UpdateKeeps(c, s, n)
  {
    LastEdgeIs(c, s, n, r);
    LastEdgeMatches(c, s.pipe, x, r, j, Samples(c, s, n - 1), EndsWithSample(c, s, n), Reaches(c, s, n));
    UpdateKeepsIs(c, s, n, x, r, j);
  }

  lemma TimedUpdateIs(c: Config, s: State, n: nat)
    requires TimedPort(c, s) && InTimeInput(c, s, n) && n > 2
    ensures SameInput(InputUpdate(c, s, n), Iterate(c, s, n)) <==> UpdateKeeps(c, s, n)
  {
    InTimeIs(c, s, n);
    var j := BranchAndSteps(c, s, n - 1);
    IterateAdvances(c, s, n - 1);
    IterateLast(c, s, n - 1);
    UpdateEndsAlike(c, s, n, FastTimedInput(c, s, n - 1), Iterate(c, s, n - 1), j);
  }

  /** An update of a timed input port that comes no later than the port asked gives the same registers, counter, time
      and visible events as stepping every edge, if and only if it keeps what matters. */
  lemma TimedUpdateIsLossless(c: Config, s: State, n: nat)
    requires TimedPort(c, s) && InTimeInput(c, s, n)
    ensures SameInput(InputUpdate(c, s, n), Iterate(c, s, n)) <==> n <= 2 || UpdateKeeps(c, s, n)
  {
    if n > 2 { TimedUpdateIs(c, s, n); }
  }

  lemma SteadyNextAlike(c: Config, p: Pipe, k: nat)
    requires Steady(c) && RegisterSettled(c, p)
    ensures NextAlike(c, p, k)
  {
    SteadyStays(c, k);
  }

  lemma RealignedKeeps(c: Config, s: State, n: nat)
    requires TimedPort(c, s) && Steady(c) && n > 0 && Reaches(c, s, n) && EndsWithSample(c, s, n) && Realigns(c, s.pipe)
    ensures UpdateKeeps(c, s, n)
  {
    var all := Samples(c, s, n - 1);
    forall j: nat | j <= all && SettlesAt(c, s.pipe, j)
      ensures Recovers(c, AfterSamples(c, s.pipe, j), all - j, true)
    {
      SteadyNextAlike(c, AfterSamples(c, s.pipe, j), all - j);
    }
  }

  /** A scheduled update of a buffered port that is waited on, with pins that meet the condition and a steady register,
      loses nothing, whatever it has skipped. */
  lemma ScheduledUpdateIsLossless(c: Config, s: State, n: nat)
    requires TimedPort(c, s) && Steady(c) && Reaches(c, s, n) && Realigns(c, s.pipe)
    ensures SameInput(InputUpdate(c, s, n), Iterate(c, s, n))
  {
    TimedUpdateIsLossless(c, s, n);
    if n > 2 {
      InTimeIs(c, s, n);
      RealignedKeeps(c, s, n);
    }
  }

  // ---- Something is forgotten ----

  /** A one-bit port just turned on and told to transfer bytes, with its pin low. */
  predicate LowByte(c: Config, d: Config) {
    && NoReadySignals(c) && c.width == 1 && c.transferWidth == 1 && c.samplingEdge == Rising && c.timeReg == 100
    && !c.pins.IsClock() && PinsLevel(c) == 0 && d == SetTransferWidth(c, 8)
  }

  lemma LowByteIsSteady(c: Config, d: Config)
    requires LowByte(c, d)
    ensures Steady(d) && d.shiftRegEntries == 8 && SteadyReg(d, 0) == 0
  {
    EveryWidthIsAccepted(c, 8);
    SpanOne(d.shiftRegEntries);
    Pow2Mono(0, d.width);
    SteadyIsCopies(d, 0);
    PackZeros(d.width, TopPower(d.shiftRegEntries));
  }

  lemma LowByteKeepsNot(d: Config, s: State)
    requires Steady(d) && d.shiftRegEntries == 8 && SteadyReg(d, 0) == 0 && PinsLevel(d) == 0
    requires d.samplingEdge == Rising && d.timeReg == 100 && s == SetPortTime(SetWidth(TurnedOn(), d))
    ensures TimedPort(d, s) && InTimeInput(d, s, 3) && !UpdateKeeps(d, s, 3)
  {
    AfterNone(d, s.pipe);
    KindAfterIs(Falling, 2);
    assert SettlesAt(d, s.pipe, 0) && Samples(d, s, 2) == 1 && !NothingToForget(d, s.pipe, 1);
  }

  /** After `setpt`, an update of three edges forgets the one sample among them. */
  lemma OneSampleIsForgotten(c: Config, d: Config)
    requires LowByte(c, d)
    ensures var s := SetPortTime(SetWidth(TurnedOn(), d));
      InTimeInput(d, s, 3) && d.shiftRegEntries > 0 && !SameInput(InputUpdate(d, s, 3), Iterate(d, s, 3))
  {
    var s := SetPortTime(SetWidth(TurnedOn(), d));
    LowByteIsSteady(c, d);
    LowByteKeepsNot(d, s);
    TimedUpdateIsLossless(d, s, 3);
  }
}
