/** The port as the simulator updates it (lib/Port.cpp): fields changed in place, edge by edge or by
    fast-forwarding, each method proved against the functions on port states. */
module PortDevice {
  import opened Options
  import opened Arith
  import opened Bits
  import opened Signals
  import opened PortState
  import opened PortOutput
  import opened PortInput
  import opened PortNotReady
  import opened PortSchedule
  import opened PortWaiters
  import opened PortInputSchedule
  import opened PortTimedInput
  import opened PortTimedUpdate
  import opened PortPins
  import opened Slices

  /** An untimed input port with constant pins and a steady register, on which nobody waits for what an unbuffered port
      will capture unasked. */
  ghost predicate UntimedPort(c: Config, s: State) {
    && Steady(c) && !s.pipe.outputPort && !s.pipe.timeRegValid && Room(s.pipe) && s.portCounter < COUNTER
    && (c.buffered || !Waiting(s.pipe) || NeverMet(c, s.pipe))
  }

  /** What an update to time t that comes in time owes its caller: the state, with the visible events, of stepping all
      n edges. Ports without ready signals owe it: output ports unless a thread is starved in `sync`, untimed input
      ports always, and timed ones exactly if they keep what matters. */
  ghost predicate Lossless(c: Config, s: State, r: State, n: nat, t: nat) {
    var stepped := Iterate(c, s, n).(time := t);
    && (NoReadySignals(c) && s.pipe.outputPort && InTime(c, s, n) && !SyncStarved(c, s) ==> Same(r, stepped))
    && (UntimedPort(c, s) && InTimeInput(c, s, n) ==> SameInput(r, stepped))
    && (TimedPort(c, s) && InTimeInput(c, s, n) ==> (SameInput(r, stepped) <==> n <= 2 || UpdateKeeps(c, s, n)))
  }

  /** An update in time leaves the outside informed of what the port drives. */
  lemma UpdateAnnounces(c: Config, s: State, r: State, n: nat, t: nat, before: nat)
    requires Lossless(c, s, r, n, t) && Announced(c, s.pipe, before)
    requires NoReadySignals(c) && s.pipe.outputPort && InTime(c, s, n) && !SyncStarved(c, s)
    ensures Announced(c, r.pipe, before)
  {
    PinsAreAnnounced(c, s, before, n);
  }

  lemma SteppingIsLossless(c: Config, s: State, n: nat, t: nat)
    requires n <= 2
    ensures Lossless(c, s, Iterate(c, s, n).(time := t), n, t)
  {
  }

  lemma OutputIsLossless(c: Config, s: State, x: State, n: nat, t: nat)
    requires NoReadySignals(c) && s.pipe.outputPort && s.portCounter < COUNTER && n > 2 && x == FastOutput(c, s, n - 1)
    ensures Lossless(c, s, SeeEdge(c, x).(time := t), n, t)
  {
    if InTime(c, s, n) && !SyncStarved(c, s) { UpdateInTimeMatches(c, s, n); }
  }

  /** More than two edges in time mean that the port has not asked at all. */
  lemma UntimedIsUndisturbed(c: Config, s: State, n: nat)
    requires UntimedPort(c, s) && InTimeInput(c, s, n) && n > 2
    ensures Undisturbed(c, s.pipe)
  {
  }

  lemma UntimedIsLossless(c: Config, s: State, n: nat)
    requires UntimedPort(c, s) && InTimeInput(c, s, n)
    ensures SameInput(InputUpdate(c, s, n), Iterate(c, s, n))
  {
    if n > 2 {
      UntimedIsUndisturbed(c, s, n);
      FastThenLast(c, s, n, FastInput(c, s, n - 1));
    }
  }

  /** An update ends at the same edge, however it gets there. */
  lemma SameTimes(c: Config, s: State, x: State, n: nat)
    requires s.portCounter < COUNTER && n > 0 && Advanced(s, x, n - 1)
    ensures SeeEdge(c, x).time == Iterate(c, s, n).time
  {
    IterateBookkeeping(c, s, n);
    TimeBefore(s.nextEdge, n, Iterate(c, s, n).time);
  }

  lemma AtTime(a: State, b: State, t: nat)
    requires a.time == b.time
    ensures SameInput(a.(time := t), b.(time := t)) <==> SameInput(a, b)
  {
  }

  lemma InputIsLossless(c: Config, s: State, x: State, n: nat, t: nat)
    requires !s.pipe.outputPort && s.portCounter < COUNTER && c.shiftRegEntries > 0 && n > 2 && Advanced(s, x, n - 1)
    requires c.readyMode == NoReady && !c.pins.IsClock() ==>
               x == if s.pipe.timeRegValid then FastTimedInput(c, s, n - 1) else FastInput(c, s, n - 1)
    ensures Lossless(c, s, SeeEdge(c, x).(time := t), n, t)
  {
    SameTimes(c, s, x, n);
    AtTime(SeeEdge(c, x), Iterate(c, s, n), t);
    if UntimedPort(c, s) && InTimeInput(c, s, n) {
      assert InputUpdate(c, s, n) == SeeEdge(c, x);
      UntimedIsLossless(c, s, n);
    } else if TimedPort(c, s) && InTimeInput(c, s, n) {
      assert InputUpdate(c, s, n) == SeeEdge(c, x);
      TimedUpdateIsLossless(c, s, n);
    }
  }

  lemma AdvancesOnce(c: Config, s: State, x: State, n: nat, t: nat)
    requires n > 0 && s.portCounter < COUNTER && Advanced(s, x, n - 1)
    ensures Advanced(s, SeeEdge(c, x).(time := t), n)
  {
    IterateAdvances(c, x, 1);
    assert Iterate(c, x, 1) == Iterate(c, SeeEdge(c, x), 0);
    AdvancedAdd(s, x, SeeEdge(c, x), n - 1, 1);
  }

  class Port {
    const c: Config
    var pipe: Pipe
    var portCounter: nat
    var readyIn: bool
    var time: nat
    var nextEdge: EdgeIterator

    function StateOf(): State
      reads this
    {
      State(pipe, portCounter, readyIn, time, nextEdge)
    }

    /** A port just turned on by `setCInUse`, clocked by the given configuration. */
    constructor (config: Config, now: nat)
      requires config.clock.IsClock() && config.clock.Covers(now)
      ensures c == config
      ensures StateOf() == State(TURNED_ON, 0, false, now, config.clock.GetEdgeIterator(now))
    {
      c := config;
      pipe := TURNED_ON;
      portCounter, readyIn, time, nextEdge := 0, false, now, config.clock.GetEdgeIterator(now);
    }

    method SeeFallingEdgeOutputPort()
      modifies this
      ensures StateOf() == old(StateOf()).(pipe := FallingOutput(c, old(pipe), old(portCounter),
                                                                 Go(c, old(readyIn)), old(time)))
    {
      var p := pipe;
      var timed, entries, count := p.timeRegValid, p.validShiftRegEntries, p.portShiftCount;
      var stamp, valid := p.timestampReg, p.transferRegValid;
      var sync, writer, events := p.pausedSync, p.pausedOut, p.log;
      var nextShiftReg, nextOutputPort := p.shiftReg, p.outputPort;
      if timed && c.timeReg == portCounter {
        nextOutputPort := valid;
        timed := false;
        entries := 0;
      }
      if !c.UseReadyIn() || readyIn {
        if entries > 0 {
          entries := entries - 1;
        }
        if entries != 0 {
          nextShiftReg := c.NextShiftReg(p.shiftReg);
        } else {
          if !valid {
            events := events + NoteWake(true, sync, time);
            sync := None;
          }
          if !timed && valid {
            entries := count;
            count := c.shiftRegEntries;
            nextShiftReg := p.transferReg;
            stamp := portCounter;
            valid := false;
            events := events + NoteWake(true, writer, time);
            writer := None;
          } else if !timed && p.pausedIn.Some? {
            nextOutputPort := false;
            entries := 0;
          }
        }
      }
      var pins := if nextOutputPort then Mask(nextShiftReg, c.width) else 0;
      events := events + Note(Mask(p.shiftReg, c.width) != pins, Pins(c.Effective(pins), nextOutputPort, time));
      pipe := p.(timeRegValid := timed, validShiftRegEntries := entries, portShiftCount := count, timestampReg := stamp,
                 transferRegValid := valid, pausedSync := sync, pausedOut := writer, shiftReg := nextShiftReg,
                 outputPort := nextOutputPort, log := events);
    }

    method UpdateReadyOut()
      modifies this
      ensures StateOf() == old(StateOf()).(pipe := PortState.UpdateReadyOut(c, old(pipe), portCounter,
          Go(c, readyIn), time))
    {
      var level := ComputeReadyOut(c, pipe, portCounter, Go(c, readyIn));
      if level != pipe.readyOut {
        pipe := pipe.(readyOut := level, log := pipe.log + [ReadyOut(level, time)]);
      }
    }

    method SeeFallingEdge()
      modifies this
      ensures var counter := CountEdge(old(portCounter), Falling);
              StateOf() == old(StateOf()).(portCounter := counter,
                pipe := FallingEdge(c, old(pipe), counter, Go(c, old(readyIn)), old(time)))
    {
      portCounter := (portCounter + 1) % COUNTER;
      if pipe.outputPort {
        SeeFallingEdgeOutputPort();
      } else if c.UseReadyOut() && pipe.timeRegValid && portCounter == c.timeReg {
        pipe := pipe.(timeRegValid := false, validShiftRegEntries := 0);
      }
      UpdateReadyOut();
    }

    method CaptureShiftReg()
      modifies this
      ensures StateOf() == old(StateOf()).(pipe := Capture(c, old(pipe), portCounter, time))
    {
      var p := pipe;
      var entries, count, stamp, transfer, valid, timed :=
        p.validShiftRegEntries, p.portShiftCount, p.timestampReg, p.transferReg, p.transferRegValid, p.timeRegValid;
      var reader, hold, permitted, events := p.pausedIn, p.holdTransferReg, p.eventsPermitted, p.log;
      if entries == count && (!c.UseReadyOut() || !valid || timed || p.condition != Full) {
        entries := 0;
        if !hold {
          count := c.shiftRegEntries;
          stamp, transfer, valid := portCounter, p.shiftReg, true;
          if (!timed || stamp == c.timeReg)
            && (p.condition == Full || (!c.buffered && c.MeetsCondition(p.condition, transfer))) {
            timed := false;
            events := events + NoteWake(true, reader, time);
            reader := None;
            if permitted {
              events := events + [Raised(time)];
              if !c.ownerExecuting {
                hold, permitted := true, false;
              }
            }
          }
        }
      }
      pipe := p.(validShiftRegEntries := entries, portShiftCount := count, timestampReg := stamp,
                 transferReg := transfer, transferRegValid := valid, timeRegValid := timed, pausedIn := reader,
                 holdTransferReg := hold, eventsPermitted := permitted, log := events);
    }

    /** The first half of `seeSamplingEdge`: sample the pins, and realign if they meet a condition. */
    method ShiftPinsIn(currentValue: nat)
      modifies this
      ensures StateOf() == old(StateOf()).(pipe := ShiftIn(c, old(pipe), old(portCounter), currentValue))
    {
      var reg := c.SampledShiftReg(pipe.shiftReg, currentValue);
      if ShouldRealign(c, pipe, portCounter, currentValue) {
        pipe := pipe.(shiftReg := reg, validShiftRegEntries := pipe.portShiftCount, transferRegValid := false,
                      timeRegValid := false, condition := Full);
      } else {
        pipe := pipe.(shiftReg := reg, validShiftRegEntries := pipe.validShiftRegEntries + 1);
        if c.buffered && pipe.timeRegValid && !c.UseReadyOut() && portCounter == c.timeReg {
          pipe := pipe.(timeRegValid := false);
        }
      }
    }

    method SeeSamplingEdge()
      modifies this
      ensures StateOf() == old(StateOf()).(pipe := SamplingEdge(c, old(pipe), portCounter, Go(c, readyIn), time))
    {
      if pipe.outputPort { return; }
      if c.UseReadyOut() && (!pipe.readyOut || pipe.timeRegValid) { return; }
      if c.UseReadyIn() && !readyIn { return; }
      ShiftPinsIn(c.EffectivePins().GetValue(time));
      CaptureShiftReg();
    }

    /** `seeEdge(nextEdge++)` */
    method SeeNextEdge()
      modifies this
      ensures StateOf() == SeeEdge(c, old(StateOf()))
    {
      var kind := nextEdge.kind;
      time := nextEdge.time;
      nextEdge := Next(nextEdge);
      if kind == Falling {
        SeeFallingEdge();
      }
      if kind == c.samplingEdge {
        readyIn := c.readyInPins.GetValue(time) != 0;
        SeeSamplingEdge();
      }
    }

    /** `updateSlow`: every edge up to the given time, one at a time. */
    method UpdateSlow(newTime: nat)
      requires nextEdge.halfPeriod > 0
      modifies this
      ensures StateOf() == Iterate(c, old(StateOf()), EdgesUpTo(old(nextEdge), newTime)).(time := newTime)
    {
      ghost var k := 0;
      while nextEdge.time <= newTime
        invariant nextEdge.halfPeriod > 0
        invariant StateOf() == Iterate(c, old(StateOf()), k)
        invariant EdgesUpTo(old(nextEdge), newTime) == k + EdgesUpTo(nextEdge, newTime)
        decreases EdgesUpTo(nextEdge, newTime)
      {
        SeeNextEdge();
        IterateLast(c, old(StateOf()), k);
        k := k + 1;
      }
      time := newTime;
    }

    /** `updatePortCounter(n); nextEdge += n` */
    method JumpEdges(n: nat)
      modifies this
      ensures StateOf() == Jump(old(StateOf()), n)
    {
      FallingAmongIs(nextEdge.kind, n);
      var numFalling := (n + (if nextEdge.kind == Falling then 1 else 0)) / 2;
      portCounter := (portCounter + numFalling) % COUNTER;
      nextEdge := Plus(nextEdge, n);
    }

    /** Jump over the remaining n edges and set the time to the last of them. */
    method SkipEdges(n: nat)
      requires n > 0
      modifies this
      ensures StateOf() == Skip(old(StateOf()), n)
      ensures Advanced(old(StateOf()), StateOf(), n)
    {
      var newTime := Plus(nextEdge, n - 1).time;
      JumpEdges(n);
      time := newTime;
    }

    method StepUntilDrained(n: nat) returns (left: nat)
      modifies this
      ensures (StateOf(), left) == Drain(c, old(StateOf()), n)
    {
      left := n;
      while left > 0 && !Drained(c, pipe)
        invariant Drain(c, StateOf(), left) == Drain(c, old(StateOf()), n)
      {
        SeeNextEdge();
        left := left - 1;
      }
    }

    method StepUntilUntimed(n: nat) returns (left: nat)
      modifies this
      ensures (StateOf(), left) == StepWhileTimed(c, old(StateOf()), n)
    {
      left := n;
      while left > 0 && pipe.timeRegValid
        invariant StepWhileTimed(c, StateOf(), left) == StepWhileTimed(c, old(StateOf()), n)
      {
        SeeNextEdge();
        left := left - 1;
      }
    }

    /** Jump to just before the port time. */
    method JumpToTime() returns (edges: nat)
      modifies this
      ensures edges == EdgesUntilTimeMet(c, old(StateOf())) - 1 && StateOf() == Jump(old(StateOf()), edges)
    {
      edges := EdgesUntilTimeMet(c, StateOf()) - 1;
      FallingBeforeTime(c, StateOf());
      portCounter := (portCounter + (FallingEdgesUntilTimeMet(c, StateOf()) - 1)) % COUNTER;
      nextEdge := Plus(nextEdge, edges);
    }

    /** Jump to just before the port time, step over it, and fast-forward the rest. */
    method PassPortTime(n: nat)
      requires n >= EdgesUntilTimeMet(c, StateOf())
      modifies this
      ensures StateOf() == PassTime(c, old(StateOf()), EdgesUntilTimeMet(c, old(StateOf())) - 1, n)
    {
      var edges := JumpToTime();
      var left := StepUntilUntimed(n - edges);
      if left == 0 { return; }
      left := StepUntilDrained(left);
      if left == 0 { return; }
      SkipEdges(left);
    }

    /** The output branch of `updateNoExternalChange`. */
    method FastForwardOutput(n: nat)
      modifies this
      ensures StateOf() == FastOutput(c, old(StateOf()), n)
    {
      var left := StepUntilDrained(n);
      if left == 0 { return; }
      if !pipe.timeRegValid {
        SkipEdges(left);
        return;
      }
      FallingAmongIs(nextEdge.kind, left);
      var numFalling := (left + (if nextEdge.kind == Falling then 1 else 0)) / 2;
      if numFalling < FallingEdgesUntilTimeMet(c, StateOf()) {
        SkipEdges(left);
        return;
      }
      PassPortTime(left);
    }

    /** `computeSteadyStateInputShiftReg` */
    method ComputeSteadyState() returns (val: nat)
      ensures val == SteadyReg(c, PinsLevel(c))
    {
      val := PinsLevel(c);
      var width, shift := c.shiftRegEntries, c.width;
      while width > 1
        invariant Doubled(val, shift, width) == Doubled(PinsLevel(c), c.width, c.shiftRegEntries)
      {
        val := Or(Shl(val, shift), val);
        width := width / 2;
        shift := shift * 2;
      }
      val := Mask(val, c.transferWidth);
    }

    /** `updateInputValidShiftRegEntries` */
    method UpdateInputEntries(n: nat)
      requires c.shiftRegEntries > 0
      modifies this`pipe
      ensures pipe == old(pipe).(validShiftRegEntries :=
                Wrap(old(pipe).validShiftRegEntries + SamplesAmong(c, nextEdge.kind, n), c.shiftRegEntries))
    {
      var numSampling := (n + (if nextEdge.kind == c.samplingEdge then 1 else 0)) / 2;
      QuotIsDiv(pipe.validShiftRegEntries + numSampling, c.shiftRegEntries);
      pipe := pipe.(validShiftRegEntries := (pipe.validShiftRegEntries + numSampling) % c.shiftRegEntries);
    }

    /** Jump over the remaining n edges of an input port, keeping the fill count in step. */
    method SkipInputEdges(n: nat)
      requires n > 0 && c.shiftRegEntries > 0
      modifies this
      ensures StateOf() == SkipInput(c, old(StateOf()), n)
    {
      ghost var s := StateOf();
      UpdateInputEntries(n);
      SkipIgnoresPipe(s, pipe, n);
      SkipEdges(n);
    }

    /** The last branch of `updateNoExternalChange`: an input port with constant pins. */
    method FastForwardInput(n: nat)
      requires c.shiftRegEntries > 0
      modifies this
      ensures StateOf() == FastInput(c, old(StateOf()), n)
    {
      var steady := ComputeSteadyState();
      var left := n;
      while left > 0 && !Settled(c, pipe, steady)
        invariant Settle(c, StateOf(), steady, left) == Settle(c, old(StateOf()), steady, n)
      {
        SeeNextEdge();
        left := left - 1;
      }
      if left > 0 { SkipInputEdges(left); }
    }

    /** Step until the shift register and the shift count have settled. */
    method StepUntilSteady(n: nat) returns (left: nat)
      modifies this
      ensures (StateOf(), left) == StepWhileUnsettled(c, old(StateOf()), n)
    {
      var steady := ComputeSteadyState();
      left := n;
      while left > 0 && (pipe.shiftReg != steady || pipe.portShiftCount != c.shiftRegEntries)
        invariant StepWhileUnsettled(c, StateOf(), left) == StepWhileUnsettled(c, old(StateOf()), n)
      {
        SeeNextEdge();
        left := left - 1;
      }
    }

    /** Step until the last sampled ready input is the level of the ready-in pin. */
    method StepUntilReadyIn(n: nat) returns (left: nat)
      modifies this
      ensures left <= n && StateOf() == Iterate(c, old(StateOf()), n - left)
    {
      left := n;
      while left > 0 && (if readyIn then 1 else 0) != c.readyInPins.GetValue(time)
        invariant left <= n && StateOf() == Iterate(c, old(StateOf()), n - left)
      {
        SeeNextEdge();
        IterateLast(c, old(StateOf()), n - left);
        left := left - 1;
      }
    }

    /** The input branch once the register has settled with a port time set: skip to just before the time
        if it comes, then step over it. */
    method FastForwardInputTime(n: nat) returns (left: nat)
      requires n > 0
      modifies this
      ensures (StateOf(), left) == FastTimed(c, old(StateOf()), n)
    {
      FallingAmongIs(nextEdge.kind, n);
      var numFalling := (n + (if nextEdge.kind == Falling then 1 else 0)) / 2;
      if numFalling < FallingEdgesUntilTimeMet(c, StateOf()) {
        SkipEdges(n);
        left := 0;
        return;
      }
      var edges := EdgesUntilTimeMet(c, StateOf()) - 1;
      JumpEdges(edges);
      left := StepUntilUntimed(n - edges);
    }

    method StepUntilFull(n: nat) returns (left: nat)
      modifies this
      ensures left <= n && StateOf() == Iterate(c, old(StateOf()), n - left)
      ensures left == 0 || pipe.condition == Full
    {
      left := n;
      while left > 0 && pipe.condition != Full
        invariant left <= n && StateOf() == Iterate(c, old(StateOf()), n - left)
      {
        SeeNextEdge();
        IterateLast(c, old(StateOf()), n - left);
        left := left - 1;
      }
    }

    method StepUntilCaptured(n: nat) returns (left: nat)
      modifies this
      ensures left <= n && StateOf() == Iterate(c, old(StateOf()), n - left)
      ensures left == 0 || (pipe.transferRegValid && pipe.portShiftCount == c.shiftRegEntries)
    {
      left := n;
      while left > 0 && (!pipe.transferRegValid || pipe.portShiftCount != c.shiftRegEntries)
        invariant left <= n && StateOf() == Iterate(c, old(StateOf()), n - left)
      {
        SeeNextEdge();
        IterateLast(c, old(StateOf()), n - left);
        left := left - 1;
      }
    }

    /** The two loops before the last skip: until the condition is met, and until a register is captured. */
    method StepUntilHeld(n: nat) returns (left: nat)
      requires portCounter < COUNTER
      modifies this
      ensures left <= n && Advanced(old(StateOf()), StateOf(), n - left)
      ensures left == 0 || (pipe.transferRegValid && pipe.portShiftCount == c.shiftRegEntries)
    {
      ghost var s0 := StateOf();
      left := StepUntilFull(n);
      IterateAdvances(c, s0, n - left);
      ghost var s1, m := StateOf(), left;
      left := StepUntilCaptured(left);
      IterateAdvances(c, s1, m - left);
      AdvancedAdd(s0, s1, StateOf(), n - m, m - left);
    }

    method FastForwardUnmet(n: nat)
      requires portCounter < COUNTER && n > 0 && c.shiftRegEntries > 0
      modifies this
      ensures Advanced(old(StateOf()), StateOf(), n)
    {
      ghost var s0 := StateOf();
      var left := StepUntilSteady(n);
      UnsettledAdvances(c, s0, n);
      ghost var s1 := StateOf();
      if left > 0 {
        SkipInputEdges(left);
        AdvancedAdd(s0, s1, StateOf(), n - left, left);
      }
    }

    /** The branch for an input port that drives a ready output. */
    method FastForwardReadyOut(n: nat)
      requires portCounter < COUNTER && n > 0 && c.shiftRegEntries > 0
      modifies this
      ensures Advanced(old(StateOf()), StateOf(), n)
    {
      if !c.MeetsCondition(pipe.condition, c.EffectivePins().GetValue(time)) {
        FastForwardUnmet(n);
        return;
      }
      ghost var s0 := StateOf();
      var left := StepUntilHeld(n);
      ghost var s1 := StateOf();
      if left > 0 {
        SkipEdges(left);
        AdvancedAdd(s0, s1, StateOf(), n - left, left);
      }
    }

    /** The branch for a port whose ready input is low: only a met port time is noticed. */
    method FastForwardNotReady(n: nat)
      requires n > 0
      modifies this
      ensures StateOf() == FastNotReady(c, old(StateOf()), n)
      ensures Advanced(old(StateOf()), StateOf(), n)
    {
      if pipe.timeRegValid && n >= FallingEdgesUntilTimeMet(c, StateOf()) {
        if pipe.outputPort || c.UseReadyOut() {
          pipe := pipe.(timeRegValid := false, validShiftRegEntries := 0);
        }
      }
      SkipEdges(n);
    }

    /** The input branch without a ready output while a port time is set. */
    method FastForwardTimed(n: nat)
      requires n > 0 && c.shiftRegEntries > 0
      modifies this
      ensures StateOf() == FastTimedInput(c, old(StateOf()), n)
    {
      var left := StepUntilSteady(n);
      if left == 0 { return; }
      left := FastForwardInputTime(left);
      if left == 0 { return; }
      FastForwardInput(left);
    }

    /** The input branches, once any ready input has settled. */
    method FastForwardInputs(n: nat)
      requires portCounter < COUNTER && n > 0 && c.shiftRegEntries > 0 && nextEdge.halfPeriod > 0
      modifies this
      ensures Advanced(old(StateOf()), StateOf(), n)
      ensures !c.UseReadyOut() && !c.pins.IsClock() ==>
                StateOf() == if old(pipe).timeRegValid then FastTimedInput(c, old(StateOf()), n)
                             else FastInput(c, old(StateOf()), n)
    {
      ghost var s0 := StateOf();
      if c.pins.IsClock() {
        StepEdges(n);
        return;
      }
      if !c.UseReadyOut() {
        if pipe.timeRegValid {
          FastForwardTimed(n);
          FastTimedInputAdvances(c, s0, n);
        } else {
          FastForwardInput(n);
          FastInputAdvances(c, s0, n);
        }
        return;
      }
      var left := n;
      PlusOne(nextEdge, 0);
      if pipe.timeRegValid {
        left := FastForwardInputTime(n);
        FastTimedAdvances(c, s0, n);
        if left == 0 { return; }
      }
      ghost var s1 := StateOf();
      FastForwardReadyOut(left);
      AdvancedAdd(s0, s1, StateOf(), n - left, left);
    }

    /** `updateSlow` up to the last of the next n edges. */
    method StepEdges(n: nat)
      requires n > 0 && nextEdge.halfPeriod > 0 && portCounter < COUNTER
      modifies this
      ensures StateOf().pipe == Iterate(c, old(StateOf()), n).pipe
      ensures Advanced(old(StateOf()), StateOf(), n)
    {
      var newTime := Plus(nextEdge, n - 1).time;
      PlusOne(nextEdge, n - 1);
      EdgesUpToIs(nextEdge, newTime, n);
      IterateAdvances(c, StateOf(), n);
      UpdateSlow(newTime);
    }

    /** `updateNoExternalChange`: in every mode n edges are consumed and counted; without ready signals the
        result is the fast-forward whose agreement with single steps is proved separately. */
    method UpdateNoExternalChange(n: nat)
      requires portCounter < COUNTER && c.shiftRegEntries > 0 && nextEdge.halfPeriod > 0
      modifies this
      ensures Advanced(old(StateOf()), StateOf(), n)
      ensures c.readyMode == NoReady && old(pipe).outputPort ==> StateOf() == FastOutput(c, old(StateOf()), n)
      ensures c.readyMode == NoReady && !old(pipe).outputPort && !c.pins.IsClock() ==>
                StateOf() == if old(pipe).timeRegValid then FastTimedInput(c, old(StateOf()), n)
                             else FastInput(c, old(StateOf()), n)
    {
      ghost var s0 := StateOf();
      PlusOne(nextEdge, 0);
      if n == 0 { return; }
      var left := n;
      if c.UseReadyIn() {
        if c.readyInPins.IsClock() {
          StepEdges(n);
          return;
        }
        left := StepUntilReadyIn(left);
        IterateAdvances(c, s0, n - left);
        if left == 0 { return; }
      }
      ghost var s1 := StateOf();
      if c.UseReadyIn() && !readyIn {
        FastForwardNotReady(left);
      } else if pipe.outputPort {
        FastForwardOutput(left);
        FastOutputAdvances(c, s1, left);
      } else {
        FastForwardInputs(left);
      }
      AdvancedAdd(s0, s1, StateOf(), n - left, left);
    }

    /** Is the port clocked at all? */
    predicate Clocked() { c.clockRunning && c.clock.IsClock() && c.inUse && c.dataPort }

    /** The iterator stands on the first edge after the time the port has been updated to. */
    ghost predicate Valid()
      reads this
    {
      && portCounter < COUNTER && c.shiftRegEntries > 0
      && (Clocked() ==> c.clock.Covers(time) && nextEdge == c.clock.GetEdgeIterator(time))
    }

    /** The slow half of `update`. */
    method UpdateFew(newTime: nat)
      requires Valid() && Clocked() && time <= newTime
      requires nextEdge.halfPeriod > 0 && EdgesUpTo(nextEdge, newTime) <= 2
      modifies this
      ensures Valid() && time == newTime
      ensures var n := EdgesUpTo(old(nextEdge), newTime);
        Advanced(old(StateOf()), StateOf(), n) && Lossless(c, old(StateOf()), StateOf(), n, newTime)
    {
      ghost var s := StateOf();
      EdgesBetween(c.clock, time, newTime);
      ghost var n := EdgesUpTo(nextEdge, newTime);
      UpdateSlow(newTime);
      IterateAdvances(c, s, n);
      SteppingIsLossless(c, s, n, newTime);
    }

    /** The fast half: all edges but the last at once, then the last. */
    method UpdateMany(n: nat, newTime: nat)
      requires Valid() && nextEdge.halfPeriod > 0 && n > 2
      modifies this
      ensures Advanced(old(StateOf()), StateOf(), n) && time == newTime
      ensures Lossless(c, old(StateOf()), StateOf(), n, newTime)
    {
      ghost var s := StateOf();
      UpdateNoExternalChange(n - 1);
      ghost var x := StateOf();
      SeeNextEdge();
      time := newTime;
      AdvancesOnce(c, s, x, n, newTime);
      if !s.pipe.outputPort {
        InputIsLossless(c, s, x, n, newTime);
      } else if NoReadySignals(c) {
        OutputIsLossless(c, s, x, n, newTime);
      }
    }

    /** `update`: in every mode exactly the edges after the old time and up to the new one are consumed, the
        iterator is left on the first edge after the new time, and the counter has counted the falling ones.
        Ports that are owed it reach the state, with the visible events, of stepping every edge. */
    method Update(newTime: nat)
      requires Valid() && time <= newTime
      modifies this
      ensures Valid() && time == newTime
      ensures !Clocked() ==> StateOf() == old(StateOf()).(time := newTime)
      ensures Clocked() ==>
                && old(nextEdge).halfPeriod > 0
                && var n := EdgesUpTo(old(nextEdge), newTime);
                   Advanced(old(StateOf()), StateOf(), n) && Lossless(c, old(StateOf()), StateOf(), n, newTime)
    {
      if !c.clockRunning || !c.clock.IsClock() || !c.inUse || !c.dataPort {
        time := newTime;
        return;
      }
      EdgesBetween(c.clock, time, newTime);
      FewEdges(nextEdge, newTime);
      if Plus(nextEdge, 2).time > newTime {
        UpdateFew(newTime);
      } else {
        var numEdges := Distance(c.clock.GetEdgeIterator(newTime), nextEdge);
        UpdateMany(numEdges, newTime);
      }
    }
  }
}
