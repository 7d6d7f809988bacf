/** Input ports just turned on, and the samples and calls that lead them to where the simulator's short cuts differ from
    stepping every edge (lib/Port.cpp). */
module PortExamples {
  import opened Options
  import opened Signals
  import opened Arith
  import opened Bits
  import opened PortState
  import opened PortOutput
  import opened PortCalls
  import opened Slices
  import opened PortWaiters
  import opened PortInput
  import opened PortInputSchedule
  import opened PortTimedInput
  import opened PortTimedUpdate

  lemma UndisturbedEdgeIs(c: Config, s: State, counter: nat)
    requires ConstantPins(c) && Undisturbed(c, s.pipe) && counter == CountEdge(s.portCounter, s.nextEdge.kind)
    ensures SeeEdge(c, s).pipe ==
              if s.nextEdge.kind == c.samplingEdge then Taken(c, s.pipe, counter, PinsLevel(c)) else s.pipe
  {
    UndisturbedFalling(c, s.pipe, counter, s.nextEdge.time);
    UndisturbedIsTaken(c, s.pipe, counter, s.nextEdge.time, PinsLevel(c));
  }

  /** Stepping an undisturbed port takes its samples, and nothing else. */
  lemma {:induction false} UndisturbedIterateIs(c: Config, s: State, n: nat)
    requires ConstantPins(c) && Undisturbed(c, s.pipe)
    ensures SamePipe(Iterate(c, s, n).pipe, AfterSamples(c, s.pipe, Samples(c, s, n)))
    decreases n
  {
    if n == 0 {
      AfterNone(c, s.pipe);
    } else {
      var a := SeeEdge(c, s);
      UndisturbedEdgeIs(c, s, a.portCounter);
      UndisturbedEdge(c, s);
      UndisturbedIterateIs(c, a, n - 1);
      OneEdgeFirst(c, s.pipe, a.pipe, Iterate(c, a, n - 1).pipe, s.nextEdge.kind, a.portCounter, n);
    }
  }

  /** A one-bit port just turned on. */
  predicate OnePin(c: Config) {
    && NoReadySignals(c) && c.width == 1 && c.transferWidth == 1 && c.samplingEdge == Rising
    && !c.buffered && !c.inverted
  }

  /** The port with its pin held at a level. */
  function Level(c: Config, v: nat): Config { c.(pins := Signal(0, v)) }

  /** An untimed input port that nobody waits on. */
  predicate Free(p: Pipe) {
    !p.outputPort && !p.readyOut && !p.timeRegValid && p.pausedOut.None? && !Waiting(p) && Room(p)
  }

  /** Before a falling edge, 2k edges of such a port are k samples. */
  lemma FreeSamples(d: Config, s: State, v: nat, k: nat, n: nat)
    requires NoReadySignals(d) && d.samplingEdge == Rising && !d.inverted && d.shiftRegEntries > 0
    requires Free(s.pipe) && s.nextEdge.kind == Falling && n == 2 * k && s.portCounter < COUNTER
    ensures var r := Iterate(Level(d, v), s, n);
      SamePipe(r.pipe, AfterSamples(Level(d, v), s.pipe, k)) && r.nextEdge.kind == Falling && r.portCounter < COUNTER
  {
    UndisturbedIterateIs(Level(d, v), s, n);
    IterateBookkeeping(Level(d, v), s, n);
    EvenKind(Falling, k);
  }

  /** A register of bits after k samples at one level: the lowest k bits are gone, and k new ones are at the top. */
  lemma SampleBits(d: Config, xs: seq<nat>, v: nat, k: nat)
    requires d.ValidWidths() && d.width == 1 && |xs| == d.shiftRegEntries && Fits(1, xs) && v <= 1 && k <= |xs|
    ensures SampleTimes(Level(d, v), Pack(1, xs), v, k) == Pack(1, xs[k..] + Copies(v, k))
  {
    assert Pow2(1) == 2;
    SampleTimesSlices(Level(d, v), xs, v, k);
  }

  lemma OnePinWidened(c: Config, e: nat)
    requires OnePin(c) && 0 < e <= 32
    ensures var d := SetTransferWidth(c, e);
      d == c.(transferWidth := e, shiftRegEntries := e) && d.ValidWidths() && Pack(1, Copies(0, e)) == 0
  {
    EveryWidthIsAccepted(c, e);
    SpanOne(e);
    QuotIs(e, 1, e);
    PackZeros(1, e);
  }

  // ---- A register that is not steady ----

  /** h high samples and then low ones, a register of e bits in all. */
  function HighThenLow(c: Config, e: nat, h: nat): State
    requires c.width > 0 && h <= e
  {
    var d := SetTransferWidth(c, e);
    Iterate(Level(d, 0), Iterate(Level(d, 1), SetWidth(TurnedOn(), d), 2 * h), 2 * (e - h))
  }

  lemma HighRegister(d: Config, e: nat, h: nat)
    requires d.ValidWidths() && d.width == 1 && d.shiftRegEntries == e && h <= e && Pack(1, Copies(0, e)) == 0
    ensures var high := Copies(0, e - h) + Copies(1, h);
      SampleTimes(Level(d, 1), 0, 1, h) == Pack(1, high) && Fits(1, high)
    ensures SampleTimes(Level(d, 0), Pack(1, Copies(0, e - h) + Copies(1, h)), 0, e - h)
            == Pack(1, Copies(1, h) + Copies(0, e - h))
  {
    var high := Copies(0, e - h) + Copies(1, h);
    assert Pow2(1) == 2;
    SampleBits(d, Copies(0, e), 1, h);
    assert Copies(0, e)[h..] == Copies(0, e - h);
    SampleBits(d, high, 0, e - h);
    assert high[e - h..] == Copies(1, h);
  }

  lemma HighThenLowIs(c: Config, e: nat, h: nat)
    requires OnePin(c) && 0 < h < e <= 32
    ensures var s, reg := HighThenLow(c, e, h), Pack(1, Copies(1, h) + Copies(0, e - h));
      && Free(s.pipe) && s.pipe.validShiftRegEntries == 0 && s.pipe.portShiftCount == e
      && s.pipe.transferRegValid && s.pipe.shiftReg == s.pipe.transferReg == reg
      && s.nextEdge.kind == Falling && s.portCounter < COUNTER
  {
    var d := SetTransferWidth(c, e);
    OnePinWidened(c, e);
    HighRegister(d, e, h);
    var s := SetWidth(TurnedOn(), d);
    FreeSamples(d, s, 1, h, 2 * h);
    var a := Iterate(Level(d, 1), s, 2 * h);
    assert a.pipe.validShiftRegEntries == h && a.pipe.portShiftCount == e;
    FreeSamples(d, a, 0, e - h, 2 * (e - h));
    assert Wrap(0, e) == 0;
    assert CaptureOf(Level(d, 0), a.pipe, e - h) == e - h;
  }

  lemma HighIsSteady(d: Config, e: nat, h: nat)
    requires d.ValidWidths() && d.width == 1 && d.transferWidth == d.shiftRegEntries == e <= 32 && h == TopPower(e)
    requires !d.inverted
    ensures Shiftable(d) && SteadyReg(Level(d, 1), 1) == Pack(1, Copies(1, h) + Copies(0, e - h))
  {
    SpanOne(e);
    QuotIs(e, 1, e);
    assert Pow2(1) == 2;
    SteadyIsCopies(Level(d, 1), 1);
    PackConcat(1, Copies(1, h), Copies(0, e - h));
    PackZeros(1, e - h);
    ScaleZero(Span(1, h));
  }

  /** On a settled port, an update of three edges skips the sample among them. */
  lemma SkipsOneSample(c: Config, s: State)
    requires SteadyPins(c) && !Repeats(c, PinsLevel(c)) && c.samplingEdge == Rising && s.nextEdge.kind == Falling
    requires Undisturbed(c, s.pipe) && Settled(c, s.pipe, SteadyReg(c, PinsLevel(c))) && s.portCounter < COUNTER
    ensures !SameInput(InputUpdate(c, s, 3), Iterate(c, s, 3))
  {
    var v := SteadyReg(c, PinsLevel(c));
    var x := FastInput(c, s, 2);
    SteadyIsFixedPoint(c, PinsLevel(c));
    assert Settle(c, s, v, 2) == (s, 2);
    assert x.pipe.shiftReg == v && x.nextEdge == Plus(s.nextEdge, 2);
    EvenKind(Falling, 1);
    assert SeeEdge(c, x).pipe.shiftReg == v by {
      InputFalling(c, x.pipe, CountEdge(x.portCounter, Falling), Go(c, x.readyIn), x.nextEdge.time);
    }
    UndisturbedIterateIs(c, s, 3);
    OneSampled(c, v, PinsLevel(c), 0);
  }

  /** Every transfer width that is not a power of two leads there: as many high samples as the largest power of two
      below it, low ones to fill the register, and high pins again. An update in time then differs from stepping. */
  lemma UnsteadyRegisterIsReached(c: Config, e: nat)
    requires OnePin(c) && 0 < e <= 32 && !IsPowerOf2(e)
    ensures TopPower(e) < e && SetTransferWidth(c, e).shiftRegEntries > 0
    ensures var s, d := HighThenLow(c, e, TopPower(e)), Level(SetTransferWidth(c, e), 1);
      InTimeInput(d, s, 3) && !SameInput(InputUpdate(d, s, 3), Iterate(d, s, 3))
  {
    var d, h := SetTransferWidth(c, e), TopPower(e);
    TopPowerIs(e);
    OnePinWidened(c, e);
    HighPins(d, e);
    HighIsSteady(d, e, h);
    HighThenLowIs(c, e, h);
    FreeUpdate(Level(d, 1), HighThenLow(c, e, h));
  }

  lemma HighPins(d: Config, e: nat)
    requires NoReadySignals(d) && d.ValidWidths() && d.width == 1 && d.transferWidth == d.shiftRegEntries == e <= 32
    requires !IsPowerOf2(e) && !d.inverted
    ensures SteadyPins(Level(d, 1)) && !Repeats(Level(d, 1), 1) && PinsLevel(Level(d, 1)) == 1
  {
    SpanOne(e);
    QuotIs(e, 1, e);
    assert Pow2(1) == 2;
  }

  lemma FreeUpdate(c: Config, s: State)
    requires SteadyPins(c) && !Repeats(c, PinsLevel(c)) && c.samplingEdge == Rising && s.nextEdge.kind == Falling
    requires Free(s.pipe) && Settled(c, s.pipe, SteadyReg(c, PinsLevel(c))) && s.portCounter < COUNTER
    ensures InTimeInput(c, s, 3) && !SameInput(InputUpdate(c, s, 3), Iterate(c, s, 3))
  {
    SkipsOneSample(c, s);
  }

  // ---- A wake-up that nobody asked for ----

  /** `settw` with 8 and a condition on an unbuffered port, a high sample and six low ones, and `in`. */
  function SevenSamples(c: Config): State
    requires c.width > 0
  {
    var d := SetTransferWidth(c, 8);
    var s := SetCondition(SetWidth(TurnedOn(), d), Eq);
    Iterate(Level(d, 0), Iterate(Level(d, 1), s, 2), 12)
  }

  lemma SevenBits(d: Config)
    requires d.ValidWidths() && d.width == 1 && d.shiftRegEntries == 8 && Pack(1, Copies(0, 8)) == 0
    ensures SampleTimes(Level(d, 0), SampleTimes(Level(d, 1), 0, 1, 1), 0, 7) == 1
  {
    HighRegister(d, 8, 1);
    PackConcat(1, Copies(1, 1), Copies(0, 7));
    PackZeros(1, 7);
    ScaleZero(Span(1, 1));
    assert Copies(1, 1) == [1];
    PackOne(1, 1);
  }

  lemma SevenSamplesAre(c: Config)
    requires OnePin(c)
    ensures var s, d := SevenSamples(c), SetTransferWidth(c, 8);
      && Free(s.pipe) && s.pipe.validShiftRegEntries == 7 && s.pipe.portShiftCount == 8 && !s.pipe.transferRegValid
      && s.pipe.shiftReg == SampleTimes(Level(d, 0), SampleTimes(Level(d, 1), 0, 1, 1), 0, 6)
      && s.pipe.condition == Eq && !s.pipe.holdTransferReg && s.nextEdge.kind == Falling && s.portCounter < COUNTER
  {
    var d := SetTransferWidth(c, 8);
    OnePinWidened(c, 8);
    var s := SetCondition(SetWidth(TurnedOn(), d), Eq);
    FreeSamples(d, s, 1, 1, 2);
    var a := Iterate(Level(d, 1), s, 2);
    assert a.pipe.validShiftRegEntries == 1 && !a.pipe.transferRegValid;
    FreeSamples(d, a, 0, 6, 12);
  }

  /** A thread that then waits in `in` for the value 1, with the pin low, is woken by the next sample, while the port
      has not asked for any update. */
  lemma EightBitsUnbuffered(c: Config, t: ThreadId) returns (k: nat)
    requires OnePin(c) && c.data == 1
    ensures var d, s := Level(SetTransferWidth(c, 8), 0), SevenSamples(c);
      && !s.pipe.outputPort && !s.pipe.transferRegValid
      && AsleepInput(d, EnterIn(s, t), k) && !SilentInput(d, EnterIn(s, t), k)
  {
    var d := SetTransferWidth(c, 8);
    SevenSamplesAre(c);
    OnePinWidened(c, 8);
    SevenBits(d);
    SampleTimesLast(Level(d, 0), SampleTimes(Level(d, 1), 0, 1, 1), 0, 6);
    k := EighthSampleWakes(Level(d, 0), SevenSamples(c), t);
  }

  lemma EighthSampleWakes(d: Config, s: State, t: ThreadId) returns (k: nat)
    requires NoReadySignals(d) && !d.buffered && !d.inverted && d.shiftRegEntries > 0 && d.pins == Signal(0, 0)
    requires d.data == 1 && Free(s.pipe) && s.nextEdge.kind == Falling && !s.pipe.transferRegValid
    requires s.pipe.validShiftRegEntries == 7 && s.pipe.portShiftCount == 8 && !s.pipe.holdTransferReg
    requires s.pipe.condition == Eq && d.SampledShiftReg(s.pipe.shiftReg, 0) == 1
    ensures AsleepInput(d, EnterIn(s, t), k) && !SilentInput(d, EnterIn(s, t), k)
  {
    MeetsFirst(d, EnterIn(s, t).pipe);
    k := WideCaptureIsMissed(d, EnterIn(s, t), 1);
  }
}
