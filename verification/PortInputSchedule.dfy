/** When an input port asks to be woken (`scheduleUpdateIfNeededInputPort`, lib/Port.cpp), and exactly when it does not
    sleep past a wake-up or an event. */
module PortInputSchedule {
  import opened Options
  import opened Signals
  import opened Arith
  import opened Bits
  import opened PortState
  import opened PortOutput
  import opened Slices
  import opened PortWaiters
  import opened PortInput

  /** The edge, counted from the next one, at which an input port without ready signals asks to be updated. */
  function InputWake(c: Config, s: State): Option<nat> {
    var p := s.pipe;
    if s.nextEdge.kind == Rising || p.readyOut || (p.pausedOut.Some? && !p.timeRegValid) then Some(0)
    else if p.timeRegValid then
      Some(2 * (FallingEdgesUntilTimeMet(c, s) - 1) + if c.samplingEdge == Rising then 1 else 0)
    else if Waiting(p)
            && (c.pins.IsClock() || c.MeetsCondition(p.condition, c.EffectivePins().GetValue(s.time)))
    then Some(if c.samplingEdge == Falling then 0 else 1)
    else None
  }

  /** k edges woke nobody, raised no event and left the port an input. */
  predicate SilentInput(c: Config, s: State, k: nat) {
    var r := Iterate(c, s, k).pipe;
    r.log == s.pipe.log && !r.outputPort
  }

  predicate AsleepInput(c: Config, s: State, k: nat) { InputWake(c, s).None? || k <= InputWake(c, s).value }

  /** A falling edge of an input port without ready signals changes nothing but the counter. */
  lemma InputFalling(c: Config, p: Pipe, counter: nat, go: bool, time: nat)
    requires NoReadySignals(c) && !p.outputPort && !p.readyOut
    ensures FallingEdge(c, p, counter, go, time) == p
  {
  }

  // ---- Reasons to stay silent ----

  /** Nobody waits. */
  predicate Nobody(p: Pipe) { !p.outputPort && !p.readyOut && !Waiting(p) }

  /** A buffered port realigns only to pins that meet the condition, and lets nobody go on before it has. */
  predicate Unmet(c: Config, p: Pipe) {
    c.buffered && !p.outputPort && !p.readyOut && !p.timeRegValid && Misses(c, p)
  }

  lemma NobodySample(c: Config, p: Pipe, counter: nat, time: nat, v: nat)
    requires NoReadySignals(c) && Nobody(p)
    ensures var r := Sample(c, p, counter, time, v); Nobody(r) && r.log == p.log
  {
  }

  lemma UnmetSample(c: Config, p: Pipe, counter: nat, time: nat)
    requires NoReadySignals(c) && Unmet(c, p)
    ensures var r := Sample(c, p, counter, time, PinsLevel(c)); Unmet(c, r) && r.log == p.log
  {
    SampleIsTaken(c, p, counter, time, PinsLevel(c));
  }

  lemma TimedSample(c: Config, p: Pipe, counter: nat, time: nat, v: nat)
    requires NoReadySignals(c) && !p.outputPort && !p.readyOut && p.timeRegValid && counter != c.timeReg
    ensures var r := Sample(c, p, counter, time, v);
      !r.outputPort && !r.readyOut && r.timeRegValid && r.log == p.log
  {
  }

  lemma NobodyEdge(c: Config, s: State)
    requires NoReadySignals(c) && Nobody(s.pipe)
    ensures var r := SeeEdge(c, s).pipe; Nobody(r) && r.log == s.pipe.log
  {
    var counter, time := CountEdge(s.portCounter, s.nextEdge.kind), s.nextEdge.time;
    InputFalling(c, s.pipe, counter, Go(c, s.readyIn), time);
    NobodySample(c, s.pipe, counter, time, c.EffectivePins().GetValue(time));
  }

  lemma UnmetEdge(c: Config, s: State)
    requires NoReadySignals(c) && Unmet(c, s.pipe)
    ensures var r := SeeEdge(c, s).pipe; Unmet(c, r) && r.log == s.pipe.log
  {
    var counter, time := CountEdge(s.portCounter, s.nextEdge.kind), s.nextEdge.time;
    InputFalling(c, s.pipe, counter, Go(c, s.readyIn), time);
    UnmetSample(c, s.pipe, counter, time);
  }

  lemma {:induction false} NobodyIterate(c: Config, s: State, k: nat)
    requires NoReadySignals(c) && Nobody(s.pipe)
    ensures SilentInput(c, s, k)
    decreases k
  {
    if k != 0 {
      NobodyEdge(c, s);
      NobodyIterate(c, SeeEdge(c, s), k - 1);
    }
  }

  lemma {:induction false} UnmetIterate(c: Config, s: State, k: nat)
    requires NoReadySignals(c) && Unmet(c, s.pipe)
    ensures SilentInput(c, s, k)
    decreases k
  {
    if k != 0 {
      UnmetEdge(c, s);
      UnmetIterate(c, SeeEdge(c, s), k - 1);
    }
  }

  predicate TimedInput(p: Pipe) { !p.outputPort && !p.readyOut && p.timeRegValid }

  lemma TimedInputEdge(c: Config, s: State)
    requires NoReadySignals(c) && s.portCounter < COUNTER && TimedInput(s.pipe)
    requires CountEdge(s.portCounter, s.nextEdge.kind) != c.timeReg
    ensures var r := SeeEdge(c, s).pipe; TimedInput(r) && r.log == s.pipe.log
  {
    var counter, time := CountEdge(s.portCounter, s.nextEdge.kind), s.nextEdge.time;
    InputFalling(c, s.pipe, counter, Go(c, s.readyIn), time);
    TimedSample(c, s.pipe, counter, time, c.EffectivePins().GetValue(time));
  }

  /** None of the next n edges meets the port time. */
  predicate BeforeTime(c: Config, s: State, n: nat) {
    && FallingAmong(s.nextEdge.kind, n) < FallingEdgesUntilTimeMet(c, s)
    && (s.nextEdge.kind == Rising ==> s.portCounter != c.timeReg)
  }

  lemma BeforeTimeStep(c: Config, s: State, a: State, n: nat)
    requires n > 0 && BeforeTime(c, s, n) && s.portCounter < COUNTER && c.timeReg < COUNTER
    requires a.portCounter == CountEdge(s.portCounter, s.nextEdge.kind) && a.nextEdge.kind == Flip(s.nextEdge.kind)
    ensures a.portCounter != c.timeReg && a.portCounter < COUNTER && BeforeTime(c, a, n - 1)
  {
    if s.nextEdge.kind == Falling && FallingEdgesUntilTimeMet(c, s) > 1 { DeadlineStep(c, s, a); }
  }

  lemma {:induction false} TimedInputIterate(c: Config, s: State, k: nat)
    requires NoReadySignals(c) && s.portCounter < COUNTER && TimedInput(s.pipe) && BeforeTime(c, s, k)
    ensures var r := Iterate(c, s, k); TimedInput(r.pipe) && r.pipe.log == s.pipe.log && r.portCounter < COUNTER
    decreases k
  {
    if k != 0 {
      var a := SeeEdge(c, s);
      BeforeTimeStep(c, s, a, k);
      TimedInputEdge(c, s);
      TimedInputIterate(c, a, k - 1);
    }
  }

  /** The last falling edge before a rising sampling edge. */
  lemma TimedInputLast(c: Config, s: State)
    requires NoReadySignals(c) && TimedInput(s.pipe) && s.nextEdge.kind == Falling && c.samplingEdge == Rising
    ensures SeeEdge(c, s).pipe == s.pipe
  {
    InputFalling(c, s.pipe, CountEdge(s.portCounter, Falling), Go(c, s.readyIn), s.nextEdge.time);
  }

  lemma {:induction false} EvenKind(kind: EdgeType, n: nat)
    ensures KindAfter(kind, 2 * n) == kind
  {
    if n != 0 {
      EvenKind(kind, n - 1);
      assert KindAfter(kind, 2 * n - 1) == Flip(KindAfter(kind, 2 * n - 2));
    }
  }

  lemma TimedInputSilent(c: Config, s: State, k: nat)
    requires NoReadySignals(c) && s.portCounter < COUNTER && TimedInput(s.pipe) && s.nextEdge.kind == Falling
    requires AsleepInput(c, s, k)
    ensures SilentInput(c, s, k)
  {
    FallingAmongIs(Falling, k);
    if k <= 2 * (FallingEdgesUntilTimeMet(c, s) - 1) {
      TimedInputIterate(c, s, k);
    } else {
      FallingAmongIs(Falling, k - 1);
      TimedInputIterate(c, s, k - 1);
      EvenKind(Falling, FallingEdgesUntilTimeMet(c, s) - 1);
      IterateBookkeeping(c, s, k - 1);
      TimedInputLast(c, Iterate(c, s, k - 1));
      IterateLast(c, s, k - 1);
    }
  }

  /** One edge before a sampling edge. */
  lemma NextSampleSilent(c: Config, s: State, k: nat)
    requires NoReadySignals(c) && !s.pipe.outputPort && !s.pipe.readyOut && s.nextEdge.kind == Falling
    requires k == 0 || (k == 1 && c.samplingEdge == Rising)
    ensures SilentInput(c, s, k)
  {
    InputFalling(c, s.pipe, CountEdge(s.portCounter, Falling), Go(c, s.readyIn), s.nextEdge.time);
    if k == 1 { assert Iterate(c, s, 1) == Iterate(c, SeeEdge(c, s), 0); }
  }

  // ---- An unbuffered port with somebody waiting ----

  lemma BlindEdge(c: Config, s: State)
    requires NoReadySignals(c) && c.shiftRegEntries > 0 && Blind(c, s.pipe)
    ensures var r := SeeEdge(c, s).pipe;
      if s.nextEdge.kind != c.samplingEdge then r == s.pipe
      else if Meets(c, s.pipe, 1) then r.log != s.pipe.log
      else Blind(c, r) && r.log == s.pipe.log && OneMoreSample(c, s.pipe, r)
  {
    var counter, time := CountEdge(s.portCounter, s.nextEdge.kind), s.nextEdge.time;
    InputFalling(c, s.pipe, counter, Go(c, s.readyIn), time);
    BlindSample(c, s.pipe, counter, time);
  }

  lemma {:induction false} BlindSilent(c: Config, s: State, k: nat)
    requires NoReadySignals(c) && c.shiftRegEntries > 0 && Blind(c, s.pipe) && NeverMet(c, s.pipe)
    ensures SilentInput(c, s, k)
    decreases k
  {
    if k != 0 {
      var a := SeeEdge(c, s);
      assert !Meets(c, s.pipe, 1);
      BlindEdge(c, s);
      if s.nextEdge.kind == c.samplingEdge { NeverMetNext(c, s.pipe, a.pipe); }
      BlindSilent(c, a, k - 1);
    }
  }

  lemma {:induction false} BlindWakes(c: Config, s: State, j: nat) returns (k: nat)
    requires NoReadySignals(c) && c.shiftRegEntries > 0 && Blind(c, s.pipe) && Meets(c, s.pipe, j)
    ensures Iterate(c, s, k).pipe.log != s.pipe.log
    decreases j, if s.nextEdge.kind == c.samplingEdge then 0 else 1
  {
    var a := SeeEdge(c, s);
    BlindEdge(c, s);
    if s.nextEdge.kind != c.samplingEdge {
      k := BlindWakes(c, a, j);
    } else if Meets(c, s.pipe, 1) {
      k := 0;
    } else {
      MeetsNext(c, s.pipe, a.pipe, j - 1);
      k := BlindWakes(c, a, j - 1);
    }
    k := k + 1;
    assert Iterate(c, s, k) == Iterate(c, a, k - 1);
  }

  /** Somebody waits on an unbuffered port, and it asks for no update: it looks at its pins alone. */
  predicate Exposed(c: Config, s: State) { !c.buffered && Waiting(s.pipe) && InputWake(c, s).None? }

  lemma SilentUnlessExposed(c: Config, s: State, k: nat)
    requires NoReadySignals(c) && s.portCounter < COUNTER && !s.pipe.outputPort && !Exposed(c, s)
    requires AsleepInput(c, s, k)
    ensures SilentInput(c, s, k)
  {
    var p := s.pipe;
    if k == 0 {
    } else if p.timeRegValid {
      TimedInputSilent(c, s, k);
    } else if !Waiting(p) {
      NobodyIterate(c, s, k);
    } else if InputWake(c, s).Some? {
      NextSampleSilent(c, s, k);
    } else {
      UnmetIterate(c, s, k);
    }
  }

  /** An input port wakes nobody and raises no event before the edge it asked to be woken at (or ever, if it did not
      ask). The one exception, exactly, is an unbuffered port that looks at its pins when it goes to sleep, while one of
      the samples to come will fill its register with a value that meets the condition. */
  lemma InputNeverSleepsPastAWake(c: Config, s: State)
    requires NoReadySignals(c) && s.portCounter < COUNTER && !s.pipe.outputPort && c.shiftRegEntries > 0
    ensures (forall k: nat | AsleepInput(c, s, k) :: SilentInput(c, s, k)) <==>
              !(Exposed(c, s) && exists j: nat :: Meets(c, s.pipe, j))
  {
    if Exposed(c, s) {
      if j: nat :| Meets(c, s.pipe, j) {
        var k := WideCaptureIsMissed(c, s, j);
      } else {
        forall k: nat | AsleepInput(c, s, k) ensures SilentInput(c, s, k) { BlindSilent(c, s, k); }
      }
    } else {
      forall k: nat | AsleepInput(c, s, k) ensures SilentInput(c, s, k) { SilentUnlessExposed(c, s, k); }
    }
  }

  /** The exception: whichever sample it is that meets the condition, somebody is woken while the port is asleep. */
  lemma WideCaptureIsMissed(c: Config, s: State, j: nat) returns (k: nat)
    requires NoReadySignals(c) && !s.pipe.outputPort && c.shiftRegEntries > 0 && Exposed(c, s) && Meets(c, s.pipe, j)
    ensures AsleepInput(c, s, k) && !SilentInput(c, s, k)
  {
    k := BlindWakes(c, s, j);
  }

  /** A port whose transfer is as wide as itself is never exposed to it. */
  lemma OwnWidthIsNotMissed(c: Config, s: State, k: nat)
    requires NoReadySignals(c) && s.portCounter < COUNTER && !s.pipe.outputPort && c.shiftRegEntries > 0
    requires c.transferWidth == c.width < 32 && s.pipe.shiftReg < Pow2(c.width) && PinsLevel(c) < Pow2(c.width)
    requires AsleepInput(c, s, k)
    ensures SilentInput(c, s, k)
  {
    if Exposed(c, s) { OwnWidthIsNeverMet(c, s.pipe); }
    InputNeverSleepsPastAWake(c, s);
  }
}
