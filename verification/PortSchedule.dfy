/** When an output port asks to be woken (`scheduleUpdateIfNeededOutputPort`, lib/Port.cpp), that it
    never sleeps past a visible change, and that an update which comes in time loses nothing. */
module PortSchedule {
  import opened Options
  import opened Signals
  import opened Arith
  import opened Bits
  import opened PortState
  import opened PortOutput
  import opened PortCalls

  /** `readyOutIsInSteadyState` for an output port */
  predicate ReadyOutSteady(c: Config, s: State) {
    if !c.UseReadyOut() then !s.pipe.readyOut
    else
      && !s.pipe.readyOut
      && s.pipe.readyOut == ComputeReadyOut(c, s.pipe, s.portCounter, Go(c, s.readyIn))
      && (s.pipe.validShiftRegEntries == 0 || c.readyInPins == Signal(0, 0))
  }

  /** The edge, counted from the next one, at which an output port asks to be updated. */
  function OutputWake(c: Config, s: State): Option<nat> {
    var readyInKnownZero := c.UseReadyIn() && c.readyInPins == Signal(0, 0);
    if s.nextEdge.kind == Falling then Some(0)
    else if !ReadyOutSteady(c, s) then Some(1)
    else if !readyInKnownZero && c.NextShiftReg(s.pipe.shiftReg) != s.pipe.shiftReg then Some(1)
    else if !readyInKnownZero && c.UseReadyOut() && s.pipe.readyOut then Some(1)
    else if s.pipe.timeRegValid then Some(2 * FallingEdgesUntilTimeMet(c, s) - 1)
    else if !readyInKnownZero && (s.pipe.pausedIn.Some? || s.pipe.pausedSync.Some? || s.pipe.transferRegValid)
    then Some(1)
    else None
  }

  /** The port has not been asked to wake before edge k. */
  predicate Asleep(c: Config, s: State, k: nat) {
    OutputWake(c, s).None? || k <= OutputWake(c, s).value
  }

  /** k edges changed no pin, woke no thread, raised no event and did not turn the port around. */
  predicate Silent(c: Config, s: State, k: nat) {
    var r := Iterate(c, s, k).pipe;
    r.log == s.pipe.log && r.outputPort
  }

  /** The shift register shows the same slice however far it is shifted, so nothing but
      the fill count moves until the deadline. */
  predicate Resting(c: Config, s: State) {
    && s.nextEdge.kind == Rising && s.pipe.outputPort && !s.pipe.readyOut
    && c.NextShiftReg(s.pipe.shiftReg) == s.pipe.shiftReg
  }

  lemma CountsToTime(counter: nat, timeReg: nat)
    requires counter < COUNTER && timeReg < COUNTER
    ensures CountEdge((counter + (timeReg - (counter + 1)) % COUNTER) % COUNTER, Falling) == timeReg
  {
  }

  /** A port that rests until its time asks for the very falling edge that brings its counter there. */
  lemma WakesAtTheTime(c: Config, s: State)
    requires NoReadySignals(c) && s.portCounter < COUNTER && Resting(c, s) && s.pipe.timeRegValid
    ensures var k := OutputWake(c, s);
      && k.Some? && var r := Iterate(c, s, k.value);
         r.nextEdge.kind == Falling && CountEdge(r.portCounter, Falling) == c.timeReg
  {
    var k := 2 * FallingEdgesUntilTimeMet(c, s) - 1;
    assert OutputWake(c, s) == Some(k);
    IterateAdvances(c, s, k);
    ArrivesAtTime(c, s, Iterate(c, s, k), k);
  }

  lemma ArrivesAtTime(c: Config, s: State, r: State, k: nat)
    requires c.timeReg < COUNTER && s.portCounter < COUNTER && s.nextEdge.kind == Rising && Advanced(s, r, k)
    requires k == 2 * FallingEdgesUntilTimeMet(c, s) - 1
    ensures r.nextEdge.kind == Falling && CountEdge(r.portCounter, Falling) == c.timeReg
  {
    FallingAmongIs(Rising, k);
    assert FallingAmong(Rising, k) == (c.timeReg - (s.portCounter + 1)) % COUNTER;
    CountsToTime(s.portCounter, c.timeReg);
    KindAfterIs(Rising, k);
  }

  /** A thread in `sync` with a time set but no data: the shift register runs dry, which wakes
      the thread, before the time the port asks to be woken at. */
  predicate SyncDrainsEarly(c: Config, s: State) {
    && Resting(c, s) && s.pipe.timeRegValid && !s.pipe.transferRegValid && s.pipe.pausedSync.Some?
    && Max1(s.pipe.validShiftRegEntries) < FallingEdgesUntilTimeMet(c, s)
  }

  /** The same with the shift register already drained. */
  predicate SyncStarved(c: Config, s: State) {
    && Resting(c, s) && s.pipe.timeRegValid && !s.pipe.transferRegValid && s.pipe.pausedSync.Some?
    && Drained(c, s.pipe) && 1 < FallingEdgesUntilTimeMet(c, s)
  }

  /** A falling edge before the deadline of a settled port only uses up one entry. */
  lemma DozingFallingEdge(c: Config, p: Pipe, counter: nat, time: nat)
    requires NoReadySignals(c) && p.outputPort && !p.readyOut && c.NextShiftReg(p.shiftReg) == p.shiftReg
    requires p.timeRegValid ==> c.timeReg != counter
    requires p.timeRegValid ==> p.pausedSync.None? || p.transferRegValid || p.validShiftRegEntries > 1
    requires !p.timeRegValid ==> !p.transferRegValid && p.pausedIn.None? && p.pausedSync.None?
    ensures FallingEdge(c, p, counter, true, time) == p.(validShiftRegEntries := Less(p.validShiftRegEntries, 1))
  {
    assert FallingOutput(c, p, counter, true, time) == p.(validShiftRegEntries := Less(p.validShiftRegEntries, 1));
  }

  /** Nothing falls due within the next k edges. */
  predicate Dozing(c: Config, s: State, k: nat) {
    var falls := FallingAmong(s.nextEdge.kind, k);
    && s.pipe.outputPort && !s.pipe.readyOut && c.NextShiftReg(s.pipe.shiftReg) == s.pipe.shiftReg
    && if s.pipe.timeRegValid
       then && falls < FallingEdgesUntilTimeMet(c, s)
            && (s.pipe.pausedSync.None? || s.pipe.transferRegValid || falls < Max1(s.pipe.validShiftRegEntries))
       else !s.pipe.transferRegValid && s.pipe.pausedIn.None? && s.pipe.pausedSync.None?
  }

  lemma DozingEdge(c: Config, s: State, k: nat)
    requires NoReadySignals(c) && s.portCounter < COUNTER && k > 0 && Dozing(c, s, k)
    ensures var falls := if s.nextEdge.kind == Falling then 1 else 0;
            SeeEdge(c, s).pipe == s.pipe.(validShiftRegEntries := Less(s.pipe.validShiftRegEntries, falls))
    ensures Dozing(c, SeeEdge(c, s), k - 1)
  {
    if s.nextEdge.kind == Falling {
      DozingFallingEdge(c, s.pipe, CountEdge(s.portCounter, Falling), s.nextEdge.time);
      if s.pipe.timeRegValid && k > 1 { DeadlineStep(c, s, SeeEdge(c, s)); }
    }
  }

  lemma {:induction false} DozingIterate(c: Config, s: State, k: nat)
    requires NoReadySignals(c) && s.portCounter < COUNTER && Dozing(c, s, k)
    ensures Iterate(c, s, k).pipe ==
            s.pipe.(validShiftRegEntries := Less(s.pipe.validShiftRegEntries, FallingAmong(s.nextEdge.kind, k)))
    decreases k
  {
    if k != 0 {
      DozingEdge(c, s, k);
      DozingIterate(c, SeeEdge(c, s), k - 1);
    }
  }

  /** The edge that wakes a thread in `sync`: the shift register runs dry with nothing to transfer. */
  lemma DrainWakesSync(c: Config, p: Pipe, counter: nat, time: nat)
    requires NoReadySignals(c) && p.outputPort && p.validShiftRegEntries <= 1
    requires p.timeRegValid && c.timeReg != counter && !p.transferRegValid && p.pausedSync.Some?
    ensures FallingEdge(c, p, counter, true, time).pausedSync.None?
    ensures |FallingEdge(c, p, counter, true, time).log| > |p.log|
    ensures FallingEdge(c, p, counter, true, time).outputPort
  {
  }

  lemma SilentBeforeWake(c: Config, s: State, k: nat)
    requires NoReadySignals(c) && s.portCounter < COUNTER && s.pipe.outputPort
    requires Asleep(c, s, k) && !SyncDrainsEarly(c, s)
    ensures Silent(c, s, k)
  {
    FallingAmongIs(s.nextEdge.kind, k);
    if Resting(c, s) && Dozing(c, s, k) {
      DozingIterate(c, s, k);
    } else {
      assert k <= 1;
      assert k == 1 ==> Iterate(c, s, 1) == Iterate(c, SeeEdge(c, s), 0);
    }
  }

  /** `update` over n edges: step when there are at most two, else skip all but the last. */
  function UpdateEdges(c: Config, s: State, n: nat): State {
    if n <= 2 then Iterate(c, s, n) else SeeEdge(c, FastOutput(c, s, n - 1))
  }

  /** The update over n edges comes no later than the port asked. */
  predicate InTime(c: Config, s: State, n: nat) { n == 0 || Asleep(c, s, n - 1) }

  /** While a time is set: a thread in `sync` with no data to wait for means entries are left. */
  predicate SyncFed(p: Pipe) {
    p.validShiftRegEntries > 0 || p.pausedSync.None? || p.transferRegValid
  }

  lemma TimedEdge(c: Config, p: Pipe, counter: nat, time: nat)
    requires NoReadySignals(c) && p.outputPort && !p.readyOut && p.timeRegValid && c.timeReg != counter
    ensures var r := FallingEdge(c, p, counter, true, time);
            && r.outputPort && !r.readyOut && r.timeRegValid && r.portShiftCount == p.portShiftCount
            && (SyncFed(p) ==> SyncFed(r))
  {
  }

  lemma DeadlineAfter(c: Config, s: State, r: State, falls: nat)
    requires c.timeReg < COUNTER && s.portCounter < COUNTER
    requires r.portCounter == (s.portCounter + falls) % COUNTER && falls < FallingEdgesUntilTimeMet(c, s)
    ensures FallingEdgesUntilTimeMet(c, r) == FallingEdgesUntilTimeMet(c, s) - falls
  {
  }

  /** Before the port time nothing is loaded and the port keeps its direction. */
  lemma TimedIterate(c: Config, s: State, k: nat)
    requires NoReadySignals(c) && s.portCounter < COUNTER
    requires s.pipe.outputPort && !s.pipe.readyOut && s.pipe.timeRegValid
    requires FallingAmong(s.nextEdge.kind, k) < FallingEdgesUntilTimeMet(c, s)
    ensures var r := Iterate(c, s, k);
            && r.pipe.outputPort && !r.pipe.readyOut && r.pipe.timeRegValid
            && r.pipe.portShiftCount == s.pipe.portShiftCount && (SyncFed(s.pipe) ==> SyncFed(r.pipe))
            && FallingEdgesUntilTimeMet(c, r) == FallingEdgesUntilTimeMet(c, s) - FallingAmong(s.nextEdge.kind, k)
  {
    TimedKeeps(c, s, k);
    IterateBookkeeping(c, s, k);
    DeadlineAfter(c, s, Iterate(c, s, k), FallingAmong(s.nextEdge.kind, k));
  }

  lemma {:induction false} TimedKeeps(c: Config, s: State, k: nat)
    requires NoReadySignals(c) && s.portCounter < COUNTER
    requires s.pipe.outputPort && !s.pipe.readyOut && s.pipe.timeRegValid
    requires FallingAmong(s.nextEdge.kind, k) < FallingEdgesUntilTimeMet(c, s)
    ensures var r := Iterate(c, s, k).pipe;
            && r.outputPort && !r.readyOut && r.timeRegValid
            && r.portShiftCount == s.pipe.portShiftCount && (SyncFed(s.pipe) ==> SyncFed(r))
    decreases k
  {
    if k != 0 {
      var a := SeeEdge(c, s);
      if s.nextEdge.kind == Falling {
        TimedEdge(c, s.pipe, CountEdge(s.portCounter, Falling), s.nextEdge.time);
        DeadlineStep(c, s, a);
      }
      TimedKeeps(c, a, k - 1);
    }
  }

  lemma DryEdge(c: Config, a: State)
    requires NoReadySignals(c) && a.portCounter < COUNTER && a.nextEdge.kind == Falling
    requires a.pipe.outputPort && a.pipe.validShiftRegEntries <= 1
    requires a.pipe.timeRegValid && !a.pipe.transferRegValid && a.pipe.pausedSync.Some?
    requires FallingEdgesUntilTimeMet(c, a) > 1
    ensures SeeEdge(c, a).pipe.pausedSync.None?
    ensures |SeeEdge(c, a).pipe.log| > |a.pipe.log|
  {
    DrainWakesSync(c, a.pipe, CountEdge(a.portCounter, Falling), a.nextEdge.time);
  }

  lemma SyncWakesUnasked(c: Config, s: State)
    requires NoReadySignals(c) && s.portCounter < COUNTER && SyncDrainsEarly(c, s)
    ensures var k := 2 * Max1(s.pipe.validShiftRegEntries);
            Asleep(c, s, k) && !Silent(c, s, k)
  {
    var k := 2 * Max1(s.pipe.validShiftRegEntries) - 1;
    var a := Iterate(c, s, k);
    FallingAmongIs(s.nextEdge.kind, k);
    KindAfterIs(s.nextEdge.kind, k);
    DozingIterate(c, s, k);
    TimedIterate(c, s, k);
    IterateBookkeeping(c, s, k);
    IterateLast(c, s, k);
    DryEdge(c, a);
  }

  /** An output port never sleeps past a visible change: no pin moves, no thread wakes and the port
      does not turn around before the edge it asked to be woken at (or ever, if it did not ask). The
      one exception, exactly, is a thread in `sync` on a port that runs dry before its port time. */
  lemma NeverSleepsPastAChange(c: Config, s: State)
    requires NoReadySignals(c) && s.portCounter < COUNTER && s.pipe.outputPort
    ensures (forall k: nat | Asleep(c, s, k) :: Silent(c, s, k)) <==> !SyncDrainsEarly(c, s)
  {
    if SyncDrainsEarly(c, s) {
      SyncWakesUnasked(c, s);
    } else {
      forall k: nat | Asleep(c, s, k) ensures Silent(c, s, k) { SilentBeforeWake(c, s, k); }
    }
  }

  lemma IdleOnceDrained(c: Config, s: State, k: nat, m: nat)
    requires NoReadySignals(c) && s.portCounter < COUNTER
    requires s.pipe.outputPort && !s.pipe.readyOut && s.pipe.timeRegValid
    requires SyncFed(s.pipe) || !Drained(c, s.pipe)
    requires FallingAmong(s.nextEdge.kind, k + m) < FallingEdgesUntilTimeMet(c, s)
    requires Drained(c, Iterate(c, s, k).pipe)
    ensures var a := Iterate(c, s, k);
            Idle(c, a, m) && a.portCounter < COUNTER && a.pipe.timeRegValid
  {
    IterateBookkeeping(c, s, k);
    FallingAmongAdd(s.nextEdge.kind, k, m);
    TimedIterate(c, s, k);
  }

  lemma AfterDrainSkips(c: Config, a: State, m: nat)
    requires m > 0 && a.pipe.timeRegValid && Idle(c, a, m)
    ensures AfterDrain(c, a, m) == Skip(a, m)
  {
  }

  /** Before the deadline the fast-forward is exact even with threads waiting, unless one waits in
      `sync` on a register that is already drained. */
  lemma FastBeforeTime(c: Config, s: State, n: nat)
    requires NoReadySignals(c) && s.portCounter < COUNTER
    requires s.pipe.outputPort && !s.pipe.readyOut && s.pipe.timeRegValid
    requires SyncFed(s.pipe) || !Drained(c, s.pipe)
    requires FallingAmong(s.nextEdge.kind, n) < FallingEdgesUntilTimeMet(c, s)
    ensures Same(FastOutput(c, s, n), Iterate(c, s, n))
  {
    var (a, m) := Drain(c, s, n);
    DrainIterates(c, s, n);
    if m > 0 {
      IdleOnceDrained(c, s, n - m, m);
      AfterDrainSkips(c, a, m);
      SkipFrom(c, s, n - m, a, m);
    }
  }

  lemma FastInTime(c: Config, s: State, n: nat)
    requires NoReadySignals(c) && s.portCounter < COUNTER && s.pipe.outputPort && n > 2
    requires InTime(c, s, n) && !SyncStarved(c, s)
    ensures Same(FastOutput(c, s, n - 1), Iterate(c, s, n - 1))
  {
    if s.pipe.timeRegValid {
      FallingAmongIs(s.nextEdge.kind, n - 1);
      FastBeforeTime(c, s, n - 1);
    } else {
      FastOutputMatches(c, s, n - 1);
    }
  }

  lemma LastOutputEdge(c: Config, s: State, n: nat, x: State)
    requires NoReadySignals(c) && n > 0 && Same(x, Iterate(c, s, n - 1))
    ensures Same(SeeEdge(c, x), Iterate(c, s, n))
  {
    EdgeIgnoresReadyIn(c, x, Iterate(c, s, n - 1));
    IterateLast(c, s, n - 1);
  }

  lemma UpdateInTimeMatches(c: Config, s: State, n: nat)
    requires NoReadySignals(c) && s.portCounter < COUNTER && s.pipe.outputPort
    requires InTime(c, s, n) && !SyncStarved(c, s)
    ensures Same(UpdateEdges(c, s, n), Iterate(c, s, n))
  {
    if n > 2 {
      FastInTime(c, s, n);
      LastOutputEdge(c, s, n, FastOutput(c, s, n - 1));
    }
  }

  /** Two edges wake the thread of a starved port. */
  lemma StarvedWakes(c: Config, s: State)
    requires NoReadySignals(c) && s.portCounter < COUNTER && SyncStarved(c, s)
    ensures SeeEdge(c, SeeEdge(c, s)).pipe.pausedSync.None?
  {
    var a := SeeEdge(c, s);
    assert a.pipe == s.pipe && a.nextEdge.kind == Falling && a.portCounter == s.portCounter;
    DryEdge(c, a);
  }

  /** The fast path skips them. */
  lemma StarvedSkips(c: Config, s: State)
    requires NoReadySignals(c) && s.portCounter < COUNTER && SyncStarved(c, s)
    ensures InTime(c, s, 3) && FastOutput(c, s, 2) == Skip(s, 2) && Skip(s, 2).nextEdge.kind == Rising
  {
    FallingAmongIs(s.nextEdge.kind, 2);
    KindAfterIs(s.nextEdge.kind, 2);
    assert Drain(c, s, 2) == (s, 2);
  }

  /** A rising edge neither wakes nor forgets a thread in `sync`. */
  lemma RisingKeepsSync(c: Config, t: State)
    requires t.nextEdge.kind == Rising && (t.pipe.outputPort || t.pipe.pausedSync.None?)
    ensures SeeEdge(c, t).pipe.pausedSync == t.pipe.pausedSync
  {
  }

  /** Three edges of a starved port: the fast path leaves the thread in `sync`. */
  lemma StarvedUpdateDiffers(c: Config, s: State)
    requires NoReadySignals(c) && s.portCounter < COUNTER && SyncStarved(c, s)
    ensures InTime(c, s, 3) && !Same(UpdateEdges(c, s, 3), Iterate(c, s, 3))
  {
    var a := SeeEdge(c, SeeEdge(c, s));
    StarvedWakes(c, s);
    StarvedSkips(c, s);
    RisingKeepsSync(c, Skip(s, 2));
    RisingKeepsSync(c, a);
    ThreeEdges(c, s);
  }

  lemma ThreeEdges(c: Config, s: State)
    ensures Iterate(c, s, 3) == SeeEdge(c, SeeEdge(c, SeeEdge(c, s)))
  {
    IterateLast(c, s, 2);
    IterateLast(c, s, 1);
    IterateLast(c, s, 0);
  }

  /** An update that comes no later than the port asked gives the same registers, counter, time and
      visible events as stepping every edge; exactly unless a thread is starved in `sync`. */
  lemma UpdateIsLossless(c: Config, s: State)
    requires NoReadySignals(c) && s.portCounter < COUNTER && s.pipe.outputPort
    ensures (forall n: nat | InTime(c, s, n) :: Same(UpdateEdges(c, s, n), Iterate(c, s, n))) <==> !SyncStarved(c, s)
  {
    if SyncStarved(c, s) {
      StarvedUpdateDiffers(c, s);
    } else {
      forall n: nat | InTime(c, s, n) ensures Same(UpdateEdges(c, s, n), Iterate(c, s, n)) {
        UpdateInTimeMatches(c, s, n);
      }
    }
  }

  // ---- The exceptions happen ----

  predicate OneBit(c: Config) {
    NoReadySignals(c) && c.width == 1 && c.transferWidth == 1 && c.shiftRegEntries == 1 && c.timeReg == 100
  }

  /** The port after `out` of a zero and the falling edge that loads it; and after the next, on which it runs dry. */
  function Loaded(c: Config): State { SeeEdge(c, Out(TurnedOn(), 0)) }

  function Dry(c: Config): State { SeeEdge(c, SeeEdge(c, Loaded(c))) }

  lemma LoadedIs(c: Config)
    requires OneBit(c)
    ensures var s := Loaded(c);
      && s.nextEdge.kind == Rising && s.portCounter == 1
      && s.pipe == Out(TurnedOn(), 0).pipe.(timestampReg := 1, transferRegValid := false)
  {
  }

  lemma ZeroStays(c: Config)
    requires OneBit(c)
    ensures c.NextShiftReg(0) == 0
  {
    assert Shr(0, 1) == 0 && Shl(0, 0) == 0;
  }

  lemma DryIs(c: Config)
    requires OneBit(c)
    ensures var s := Dry(c);
      s.nextEdge.kind == Rising && s.portCounter == 2 && s.pipe == Loaded(c).pipe.(validShiftRegEntries := 0)
  {
    LoadedIs(c);
    var a := SeeEdge(c, Loaded(c));
    assert a.pipe == Loaded(c).pipe && a.portCounter == 1 && a.nextEdge.kind == Falling;
  }

  /** `setpt` and `sync` on a loaded port lead to the first exception, and on a dry one to both. */
  lemma SyncExceptionsHappen(c: Config)
    requires OneBit(c)
    ensures SyncDrainsEarly(c, EnterSync(SetPortTime(Loaded(c)), 0))
    ensures SyncDrainsEarly(c, EnterSync(SetPortTime(Dry(c)), 0)) && SyncStarved(c, EnterSync(SetPortTime(Dry(c)), 0))
  {
    LoadedIs(c);
    DryIs(c);
    ZeroStays(c);
  }
}
