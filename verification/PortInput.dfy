/** Fast-forwarding an input port with constant pins (the last branch of `updateNoExternalChange`,
    lib/Port.cpp) against stepping it edge by edge. */
module PortInput {
  import opened Options
  import opened Signals
  import opened Arith
  import opened Bits
  import opened PortState
  import opened PortOutput
  import opened Slices
  import opened PortWaiters

  /** Equal up to the timestamp. */
  predicate SamePipe(p: Pipe, q: Pipe) { p == q.(timestampReg := p.timestampReg) }

  /** Equal up to the timestamp and the last sampled ready input. */
  predicate SameInput(a: State, b: State) {
    SamePipe(a.pipe, b.pipe) && a.portCounter == b.portCounter && a.time == b.time && a.nextEdge == b.nextEdge
  }

  predicate SteadyPins(c: Config) {
    NoReadySignals(c) && Shiftable(c) && c.shiftRegEntries > 0 && !c.pins.IsClock() && PinsLevel(c) < Pow2(c.width)
  }

  /** An input port without a time and with room in its register, on which nobody waits, or not for anything that is
      coming: the pins are constant and miss the condition, and so does all that an unbuffered port will capture. */
  ghost predicate Undisturbed(c: Config, p: Pipe)
    requires c.shiftRegEntries > 0
  {
    && !p.outputPort && !p.readyOut && !p.timeRegValid && p.validShiftRegEntries < p.portShiftCount
    && (Waiting(p) ==> Misses(c, p) && (c.buffered || NeverMet(c, p)))
  }

  /** The exit condition of the settling loop. */
  predicate Settled(c: Config, p: Pipe, steady: nat) {
    p.transferRegValid && p.portShiftCount == c.shiftRegEntries && p.shiftReg == steady && p.transferReg == steady
  }

  function Settle(c: Config, s: State, steady: nat, n: nat): (State, nat)
    decreases n
  {
    if n == 0 || Settled(c, s.pipe, steady) then (s, n) else Settle(c, SeeEdge(c, s), steady, n - 1)
  }

  function SamplesAmong(c: Config, kind: EdgeType, n: nat): nat {
    (n + (if kind == c.samplingEdge then 1 else 0)) / 2
  }

  /** `updatePortCounter(n); updateInputValidShiftRegEntries(n); nextEdge += n` */
  function SkipInput(c: Config, s: State, n: nat): State
    requires n > 0 && c.shiftRegEntries > 0
  {
    var entries := Wrap(s.pipe.validShiftRegEntries + SamplesAmong(c, s.nextEdge.kind, n), c.shiftRegEntries);
    Skip(s, n).(pipe := s.pipe.(validShiftRegEntries := entries))
  }

  lemma SkipIgnoresPipe(s: State, p: Pipe, n: nat)
    requires n > 0
    ensures Skip(s.(pipe := p), n) == Skip(s, n).(pipe := p)
  {
  }

  /** The last branch of `updateNoExternalChange(n)`. */
  function FastInput(c: Config, s: State, n: nat): State
    requires c.shiftRegEntries > 0
  {
    var (a, m) := Settle(c, s, SteadyReg(c, PinsLevel(c)), n);
    if m == 0 then a else SkipInput(c, a, m)
  }

  lemma UndisturbedSample(c: Config, p: Pipe, counter: nat, time: nat, v: nat)
    requires NoReadySignals(c) && c.shiftRegEntries > 0 && Undisturbed(c, p) && (Waiting(p) ==> v == PinsLevel(c))
    ensures Undisturbed(c, Sample(c, p, counter, time, v))
  {
    UndisturbedIsTaken(c, p, counter, time, v);
    if Waiting(p) && !c.buffered {
      TakenIsOneMore(c, p, counter);
      NeverMetNext(c, p, Taken(c, p, counter, v));
    }
  }

  lemma UndisturbedIsTaken(c: Config, p: Pipe, counter: nat, time: nat, v: nat)
    requires NoReadySignals(c) && c.shiftRegEntries > 0 && Undisturbed(c, p) && (Waiting(p) ==> v == PinsLevel(c))
    ensures Sample(c, p, counter, time, v) == Taken(c, p, counter, v)
  {
    MeetsFirst(c, p);
    assert Waiting(p) && !c.buffered ==> !Meets(c, p, 1);
    SampleIsTaken(c, p, counter, time, v);
  }

  lemma UndisturbedAlike(c: Config, p: Pipe, q: Pipe)
    requires c.shiftRegEntries > 0 && SamePipe(p, q) && Undisturbed(c, p)
    ensures Undisturbed(c, q)
  {
    forall j: nat ensures Meets(c, q, j) <==> Meets(c, p, j) {}
  }

  lemma UndisturbedFalling(c: Config, p: Pipe, counter: nat, time: nat)
    requires NoReadySignals(c) && c.shiftRegEntries > 0 && Undisturbed(c, p)
    ensures FallingEdge(c, p, counter, true, time) == p
  {
  }

  lemma UndisturbedEdge(c: Config, s: State)
    requires NoReadySignals(c) && c.shiftRegEntries > 0 && Undisturbed(c, s.pipe)
    ensures Undisturbed(c, SeeEdge(c, s).pipe)
  {
    var counter, time := CountEdge(s.portCounter, s.nextEdge.kind), s.nextEdge.time;
    UndisturbedFalling(c, s.pipe, counter, time);
    UndisturbedSample(c, s.pipe, counter, time, c.EffectivePins().GetValue(time));
  }

  lemma {:induction false} SettleSteps(c: Config, s: State, steady: nat, n: nat)
    ensures var (a, m) := Settle(c, s, steady, n); m <= n && a == Iterate(c, s, n - m)
    decreases n
  {
    if n != 0 && !Settled(c, s.pipe, steady) { SettleSteps(c, SeeEdge(c, s), steady, n - 1); }
  }

  lemma {:induction false} SettleKeeps(c: Config, s: State, steady: nat, n: nat)
    requires NoReadySignals(c) && c.shiftRegEntries > 0 && Undisturbed(c, s.pipe)
    ensures var (a, m) := Settle(c, s, steady, n); Undisturbed(c, a.pipe) && (m == 0 || Settled(c, a.pipe, steady))
    decreases n
  {
    if n != 0 && !Settled(c, s.pipe, steady) {
      UndisturbedEdge(c, s);
      SettleKeeps(c, SeeEdge(c, s), steady, n - 1);
    }
  }

  /** A sample of a settled port changes nothing but the fill count and the timestamp. */
  lemma SettledSample(c: Config, p: Pipe, counter: nat, time: nat)
    requires SteadyPins(c) && Repeats(c, PinsLevel(c)) && Undisturbed(c, p) && Settled(c, p, SteadyReg(c, PinsLevel(c)))
    ensures var r := Sample(c, p, counter, time, PinsLevel(c));
            r == p.(timestampReg := r.timestampReg,
                    validShiftRegEntries := if p.validShiftRegEntries + 1 == c.shiftRegEntries then 0
                                            else p.validShiftRegEntries + 1)
  {
    SteadyIsFixedPoint(c, PinsLevel(c));
    UndisturbedIsTaken(c, p, counter, time, PinsLevel(c));
  }

  function NextFill(c: Config, fill: nat, kind: EdgeType): nat {
    if kind != c.samplingEdge then fill else if fill + 1 == c.shiftRegEntries then 0 else fill + 1
  }

  lemma SettledEdge(c: Config, s: State)
    requires SteadyPins(c) && Repeats(c, PinsLevel(c)) && Undisturbed(c, s.pipe)
      && Settled(c, s.pipe, SteadyReg(c, PinsLevel(c)))
    ensures var r := SeeEdge(c, s).pipe;
            r == s.pipe.(timestampReg := r.timestampReg,
                         validShiftRegEntries := NextFill(c, s.pipe.validShiftRegEntries, s.nextEdge.kind))
  {
    var counter, time := CountEdge(s.portCounter, s.nextEdge.kind), s.nextEdge.time;
    UndisturbedFalling(c, s.pipe, counter, time);
    SettledSample(c, s.pipe, counter, time);
  }

  lemma FillAfter(c: Config, fill: nat, kind: EdgeType, n: nat)
    requires fill < c.shiftRegEntries && n > 0
    ensures Wrap(NextFill(c, fill, kind) + SamplesAmong(c, Flip(kind), n - 1), c.shiftRegEntries)
            == Wrap(fill + SamplesAmong(c, kind, n), c.shiftRegEntries)
  {
    if kind == c.samplingEdge {
      assert SamplesAmong(c, kind, n) == SamplesAmong(c, Flip(kind), n - 1) + 1;
    }
  }

  /** The fill count after n more edges, all else but the timestamp being the same. */
  predicate Filled(c: Config, p: Pipe, r: Pipe, kind: EdgeType, n: nat)
    requires c.shiftRegEntries > 0
  {
    SamePipe(r, p.(validShiftRegEntries := Wrap(p.validShiftRegEntries + SamplesAmong(c, kind, n), c.shiftRegEntries)))
  }

  lemma FilledStep(c: Config, p: Pipe, q: Pipe, r: Pipe, kind: EdgeType, n: nat)
    requires n > 0 && p.validShiftRegEntries < c.shiftRegEntries && Filled(c, q, r, Flip(kind), n - 1)
    requires SamePipe(q, p.(validShiftRegEntries := NextFill(c, p.validShiftRegEntries, kind)))
    ensures Filled(c, p, r, kind, n)
  {
    FillAfter(c, p.validShiftRegEntries, kind, n);
  }

  lemma {:induction false} SettledIterate(c: Config, s: State, n: nat)
    requires SteadyPins(c) && Repeats(c, PinsLevel(c)) && Undisturbed(c, s.pipe)
      && Settled(c, s.pipe, SteadyReg(c, PinsLevel(c)))
    ensures Filled(c, s.pipe, Iterate(c, s, n).pipe, s.nextEdge.kind, n)
    decreases n
  {
    if n != 0 {
      var a := SeeEdge(c, s);
      SettledEdge(c, s);
      UndisturbedEdge(c, s);
      SettledIterate(c, a, n - 1);
      FilledStep(c, s.pipe, a.pipe, Iterate(c, a, n - 1).pipe, s.nextEdge.kind, n);
    }
  }

  lemma SkipInputIs(c: Config, s: State, r: State, n: nat)
    requires n > 0 && c.shiftRegEntries > 0 && Advanced(s, r, n) && r.time + s.nextEdge.halfPeriod == r.nextEdge.time
    requires Filled(c, s.pipe, r.pipe, s.nextEdge.kind, n)
    ensures SameInput(SkipInput(c, s, n), r)
  {
    SkipCounts(s, r, n);
  }

  lemma SkipInputMatches(c: Config, s: State, n: nat)
    requires SteadyPins(c) && Repeats(c, PinsLevel(c)) && s.portCounter < COUNTER && n > 0
    requires Undisturbed(c, s.pipe) && Settled(c, s.pipe, SteadyReg(c, PinsLevel(c)))
    ensures SameInput(SkipInput(c, s, n), Iterate(c, s, n))
  {
    SettledIterate(c, s, n);
    IterateBookkeeping(c, s, n);
    SkipInputIs(c, s, Iterate(c, s, n), n);
  }

  /** The last part of the way, by the skip and by stepping. */
  lemma FromSettled(c: Config, a: State, m: nat, x: State, r: State)
    requires SteadyPins(c) && Repeats(c, PinsLevel(c)) && a.portCounter < COUNTER && Undisturbed(c, a.pipe)
    requires m == 0 || Settled(c, a.pipe, SteadyReg(c, PinsLevel(c)))
    requires x == (if m == 0 then a else SkipInput(c, a, m)) && r == Iterate(c, a, m)
    ensures SameInput(x, r)
  {
    if m > 0 { SkipInputMatches(c, a, m); }
  }

  lemma FastInputAgrees(c: Config, s: State, n: nat)
    requires SteadyPins(c) && Repeats(c, PinsLevel(c)) && s.portCounter < COUNTER && Undisturbed(c, s.pipe)
    ensures SameInput(FastInput(c, s, n), Iterate(c, s, n))
  {
    var steady := SteadyReg(c, PinsLevel(c));
    var (a, m) := Settle(c, s, steady, n);
    SettleSteps(c, s, steady, n);
    SettleKeeps(c, s, steady, n);
    SteppedAdvances(c, s, a, n - m);
    SplitOff(c, s, n, a, m);
    FromSettled(c, a, m, FastInput(c, s, n), Iterate(c, s, n));
  }

  lemma SampleIgnoresTimestamp(c: Config, p: Pipe, q: Pipe, counter: nat, time: nat, v: nat)
    requires NoReadySignals(c) && c.shiftRegEntries > 0 && SamePipe(p, q) && Undisturbed(c, p)
    requires Waiting(p) ==> v == PinsLevel(c)
    ensures SamePipe(Sample(c, p, counter, time, v), Sample(c, q, counter, time, v))
  {
    UndisturbedAlike(c, p, q);
    UndisturbedIsTaken(c, p, counter, time, v);
    UndisturbedIsTaken(c, q, counter, time, v);
  }

  /** States that differ in the timestamp and the ready input only go on alike. */
  lemma EdgeIgnoresTimestamp(c: Config, s: State, t: State)
    requires NoReadySignals(c) && c.shiftRegEntries > 0 && SameInput(s, t) && Undisturbed(c, s.pipe)
    ensures SameInput(SeeEdge(c, s), SeeEdge(c, t))
  {
    var counter, time := CountEdge(s.portCounter, s.nextEdge.kind), s.nextEdge.time;
    UndisturbedAlike(c, s.pipe, t.pipe);
    UndisturbedFalling(c, s.pipe, counter, time);
    UndisturbedFalling(c, t.pipe, counter, time);
    SampleIgnoresTimestamp(c, s.pipe, t.pipe, counter, time, c.EffectivePins().GetValue(time));
  }

  lemma {:induction false} UndisturbedIterate(c: Config, s: State, n: nat)
    requires NoReadySignals(c) && c.shiftRegEntries > 0 && Undisturbed(c, s.pipe)
    ensures Undisturbed(c, Iterate(c, s, n).pipe)
    decreases n
  {
    if n != 0 {
      UndisturbedEdge(c, s);
      UndisturbedIterate(c, SeeEdge(c, s), n - 1);
    }
  }

  lemma LastEdge(c: Config, s: State, n: nat, x: State)
    requires NoReadySignals(c) && c.shiftRegEntries > 0 && n > 0
    requires SameInput(x, Iterate(c, s, n - 1)) && Undisturbed(c, x.pipe)
    ensures SameInput(SeeEdge(c, x), Iterate(c, s, n))
  {
    EdgeIgnoresTimestamp(c, x, Iterate(c, s, n - 1));
    IterateLast(c, s, n - 1);
  }

  /** An update: all edges but the last at once, then the last. */
  lemma FastThenLast(c: Config, s: State, n: nat, x: State)
    requires SteadyPins(c) && Repeats(c, PinsLevel(c)) && s.portCounter < COUNTER && Undisturbed(c, s.pipe) && n > 0
    requires x == FastInput(c, s, n - 1)
    ensures SameInput(SeeEdge(c, x), Iterate(c, s, n))
  {
    FastInputAgrees(c, s, n - 1);
    UndisturbedIterate(c, s, n - 1);
    UndisturbedAlike(c, Iterate(c, s, n - 1).pipe, x.pipe);
    LastEdge(c, s, n, x);
  }

  /** A port whose registers hold the computed value, just before a sample. */
  function AtSteady(c: Config): State {
    var v := SteadyReg(c, PinsLevel(c));
    State(Pipe(Full, None, None, None, c.shiftRegEntries, 0, v, v, false, false, true, 0, false, false, false, []),
          0, false, 0, EdgeIterator(1, c.samplingEdge, 1))
  }

  /** If the computed value changes when the pins are sampled again, the fast path skips a sample it must not skip. */
  lemma SkippedSample(c: Config)
    requires SteadyPins(c) && !Repeats(c, PinsLevel(c))
    ensures Undisturbed(c, AtSteady(c).pipe) && !SameInput(FastInput(c, AtSteady(c), 1), Iterate(c, AtSteady(c), 1))
  {
    var s, v := AtSteady(c), SteadyReg(c, PinsLevel(c));
    SteadyIsFixedPoint(c, PinsLevel(c));
    assert Settle(c, s, v, 1) == (s, 1);
    assert FastInput(c, s, 1).pipe.shiftReg == v;
    UndisturbedFalling(c, s.pipe, CountEdge(0, c.samplingEdge), 1);
    assert Iterate(c, s, 1) == Iterate(c, SeeEdge(c, s), 0);
    assert SeeEdge(c, s).pipe.shiftReg == c.SampledShiftReg(v, PinsLevel(c));
  }

  predicate Agrees(c: Config, s: State, n: nat)
    requires c.shiftRegEntries > 0
  {
    SameInput(FastInput(c, s, n), Iterate(c, s, n))
  }

  /** Fast-forwarding an undisturbed input port reaches the state of edge stepping in every register, the fill count,
      the counter and the time, if and only if the pins are low or the transfer width is a power of two of whole
      entries. */
  lemma FastInputMatches(c: Config)
    requires SteadyPins(c)
    ensures (forall s: State, n: nat | s.portCounter < COUNTER && Undisturbed(c, s.pipe) :: Agrees(c, s, n))
            <==> Repeats(c, PinsLevel(c))
  {
    if Repeats(c, PinsLevel(c)) {
      forall s: State, n: nat | s.portCounter < COUNTER && Undisturbed(c, s.pipe) ensures Agrees(c, s, n) {
        FastInputAgrees(c, s, n);
      }
    } else {
      SkippedSample(c);
      assert !Agrees(c, AtSteady(c), 1);
    }
  }

  /** A one-bit port with a transfer width of 12, which `settw` accepts, and its pin high: the failure happens. */
  lemma TwelveBitsOnOnePin(c: Config)
    requires NoReadySignals(c) && c.width == 1 && c.transferWidth == 1 && !c.pins.IsClock() && PinsLevel(c) == 1
    ensures var d := SetTransferWidth(c, 12); SteadyPins(d) && d.transferWidth == 12 && !Repeats(d, PinsLevel(d))
  {
    EveryWidthIsAccepted(c, 12);
    SpanOne(SetTransferWidth(c, 12).shiftRegEntries);
    assert !IsPowerOf2(3);
    assert !IsPowerOf2(6);
    assert !IsPowerOf2(12);
  }

  lemma FastInputAdvances(c: Config, s: State, n: nat)
    requires s.portCounter < COUNTER && c.shiftRegEntries > 0
    ensures Advanced(s, FastInput(c, s, n), n)
  {
    var (a, m) := Settle(c, s, SteadyReg(c, PinsLevel(c)), n);
    SettleSteps(c, s, SteadyReg(c, PinsLevel(c)), n);
    SteppedAdvances(c, s, a, n - m);
    if m > 0 {
      AdvancedAdd(s, a, SkipInput(c, a, m), n - m, m);
    }
  }
}
