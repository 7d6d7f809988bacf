/** One clock edge of a port, as a function on port states (lib/Port.cpp).
    A state holds everything an edge may change, and a log of what the outside sees:
    pin changes, ready-out changes, woken threads and raised events. */
module PortState {
  import opened Options
  import opened Signals
  import opened Arith
  import opened Bits

  type ThreadId = nat

  datatype Condition = Full | Eq | Neq

  datatype ReadyMode = NoReady | Strobed | Handshake

  /** What stays fixed between two operations on the port. */
  datatype Config = Config(
    width: nat,
    transferWidth: nat,
    shiftRegEntries: nat,
    buffered: bool,
    inverted: bool,
    samplingEdge: EdgeType,
    readyMode: ReadyMode,
    master: bool,
    clock: Signal,
    clockRunning: bool,
    inUse: bool,
    dataPort: bool,
    pins: Signal,
    readyInPins: Signal,
    data: nat,
    timeReg: nat,
    ownerExecuting: bool)
  {
    predicate UseReadyIn() { readyMode == Handshake || (readyMode == Strobed && !master) }

    predicate UseReadyOut() { readyMode == Handshake || (readyMode == Strobed && master) }

    /** The transfer register holds whole entries of the port's width, and the port is narrower than a
        word (a 32-bit shift of a 32-bit register is undefined). */
    predicate ValidWidths() {
      1 <= width < 32 && transferWidth <= 32 && 1 <= shiftRegEntries && transferWidth == Span(width, shiftRegEntries)
    }

    function Effective(value: nat): nat { if inverted then FlipLow(value) else value }

    function EffectivePins(): Signal { if inverted then pins.FlipLeastSignificantBit() else pins }

    /** `nextShiftRegOutputPort`: shift down one slice, repeating the top one. */
    function NextShiftReg(reg: nat): nat {
      var above := if transferWidth < width then 0 else transferWidth - width;
      Or(Shr(reg, width), Shl(Shr(reg, above), above))
    }

    /** The shift register after sampling one slice. */
    function SampledShiftReg(reg: nat, current: nat): nat {
      var above := if transferWidth < width then 0 else transferWidth - width;
      Or(Shr(reg, width), Shl(current, above))
    }

    predicate MeetsCondition(condition: Condition, value: nat) {
      match condition
      case Full => true
      case Eq => data == value
      case Neq => data != value
    }
  }

  datatype Event =
    | Pins(value: nat, driving: bool, time: nat)
    | ReadyOut(level: bool, time: nat)
    | Wake(thread: ThreadId, time: nat)
    | Raised(time: nat)

  /** The registers and flags an edge may change, and the log. */
  datatype Pipe = Pipe(
    condition: Condition,
    pausedOut: Option<ThreadId>,
    pausedIn: Option<ThreadId>,
    pausedSync: Option<ThreadId>,
    portShiftCount: nat,
    validShiftRegEntries: nat,
    shiftReg: nat,
    transferReg: nat,
    readyOut: bool,
    timeRegValid: bool,
    transferRegValid: bool,
    timestampReg: nat,
    holdTransferReg: bool,
    outputPort: bool,
    eventsPermitted: bool,
    log: seq<Event>)

  /** The pipe with the 16-bit port counter, the last sampled ready input and the clock. */
  datatype State = State(pipe: Pipe, portCounter: nat, readyIn: bool, time: nat, nextEdge: EdgeIterator)

  const COUNTER: nat := 0x1_0000

  /** A port just turned on by `setCInUse`. */
  const TURNED_ON: Pipe :=
    Pipe(Full, None, None, None, 1, 0, 0, 0, false, false, false, 0, false, false, false, [])

  function Note(happens: bool, e: Event): seq<Event> {
    if happens then [e] else []
  }

  function NoteWake(happens: bool, t: Option<ThreadId>, time: nat): seq<Event> {
    if happens && t.Some? then [Wake(t.value, time)] else []
  }

  /** What the pins show after the edge, noted if it differs from what they showed before. */
  function NotePins(c: Config, p: Pipe, nextReg: nat, dir: bool, time: nat): seq<Event> {
    var pins := if dir then Mask(nextReg, c.width) else 0;
    Note(Mask(p.shiftReg, c.width) != pins, Pins(c.Effective(pins), dir, time))
  }

  /** `seeFallingEdgeOutputPort`: `go` says whether the ready input lets the port shift. The port
      waits, shifts one entry, loads the pending transfer, or has run dry. */
  function FallingOutput(c: Config, p: Pipe, counter: nat, go: bool, time: nat): Pipe {
    var hit := p.timeRegValid && c.timeReg == counter;
    var timed := p.timeRegValid && !hit;
    var dir := if hit then p.transferRegValid else p.outputPort;
    var entries := if hit then 0 else p.validShiftRegEntries;
    if !go then
      p.(timeRegValid := timed, validShiftRegEntries := entries, outputPort := dir,
         log := p.log + NotePins(c, p, p.shiftReg, dir, time))
    else if entries > 1 then
      var next := c.NextShiftReg(p.shiftReg);
      p.(timeRegValid := timed, validShiftRegEntries := entries - 1, shiftReg := next, outputPort := dir,
         log := p.log + NotePins(c, p, next, dir, time))
    else if p.transferRegValid && !timed then
      p.(timeRegValid := timed, validShiftRegEntries := p.portShiftCount, portShiftCount := c.shiftRegEntries,
         timestampReg := counter, transferRegValid := false, shiftReg := p.transferReg, outputPort := dir,
         pausedOut := None,
         log := p.log + NoteWake(true, p.pausedOut, time) + NotePins(c, p, p.transferReg, dir, time))
    else
      var synced := !p.transferRegValid && p.pausedSync.Some?;
      var keep := dir && (timed || p.pausedIn.None?);
      p.(timeRegValid := timed, validShiftRegEntries := 0, outputPort := keep,
         pausedSync := if synced then None else p.pausedSync,
         log := p.log + NoteWake(synced, p.pausedSync, time) + NotePins(c, p, p.shiftReg, keep, time))
  }

  function ComputeReadyOut(c: Config, p: Pipe, counter: nat, go: bool): bool {
    if !c.UseReadyOut() then false
    else if p.outputPort then go && p.validShiftRegEntries != 0
    else if p.timeRegValid then counter == c.timeReg
    else p.validShiftRegEntries != p.portShiftCount
  }

  function UpdateReadyOut(c: Config, p: Pipe, counter: nat, go: bool, time: nat): Pipe {
    var level := ComputeReadyOut(c, p, counter, go);
    p.(readyOut := level, log := p.log + Note(level != p.readyOut, ReadyOut(level, time)))
  }

  /** `seeFallingEdge`, after the port counter has been incremented */
  function FallingEdge(c: Config, p: Pipe, counter: nat, go: bool, time: nat): Pipe {
    if p.outputPort then UpdateReadyOut(c, FallingOutput(c, p, counter, go, time), counter, go, time)
    else
      var hit := c.UseReadyOut() && p.timeRegValid && counter == c.timeReg;
      UpdateReadyOut(c, p.(timeRegValid := p.timeRegValid && !hit,
                           validShiftRegEntries := if hit then 0 else p.validShiftRegEntries), counter, go, time)
  }

  /** `shouldRealignShiftRegister` */
  predicate ShouldRealign(c: Config, p: Pipe, counter: nat, value: nat) {
    && c.buffered
    && (p.pausedIn.Some? || p.eventsPermitted)
    && !p.holdTransferReg
    && c.MeetsCondition(p.condition, value)
    && (if p.timeRegValid then !c.UseReadyOut() && counter == c.timeReg else p.condition != Full)
  }

  /** The first half of `seeSamplingEdge`: shift the pins in and realign to a met condition. */
  function ShiftIn(c: Config, p: Pipe, counter: nat, value: nat): Pipe {
    var realign := ShouldRealign(c, p, counter, value);
    var hit := c.buffered && !c.UseReadyOut() && counter == c.timeReg;
    p.(shiftReg := c.SampledShiftReg(p.shiftReg, value),
       condition := if realign then Full else p.condition,
       validShiftRegEntries := if realign then p.portShiftCount else p.validShiftRegEntries + 1,
       transferRegValid := p.transferRegValid && !realign,
       timeRegValid := p.timeRegValid && !realign && !hit)
  }

  /** The second half: a full register that is not held is captured into the transfer register. If time and
      condition are met, the waiting thread is woken and an event raised; an owner that is not executing takes
      the event at once, which holds the transfer register and disables further events. */
  function Capture(c: Config, p: Pipe, counter: nat, time: nat): Pipe {
    if p.validShiftRegEntries != p.portShiftCount ||
       (c.UseReadyOut() && p.transferRegValid && !p.timeRegValid && p.condition == Full) then p
    else if p.holdTransferReg then p.(validShiftRegEntries := 0)
    else
      var met := (!p.timeRegValid || counter == c.timeReg)
                 && (p.condition == Full || (!c.buffered && c.MeetsCondition(p.condition, p.shiftReg)));
      var raised := met && p.eventsPermitted;
      var taken := raised && !c.ownerExecuting;
      p.(validShiftRegEntries := 0, portShiftCount := c.shiftRegEntries, timestampReg := counter,
         transferReg := p.shiftReg, transferRegValid := true, timeRegValid := p.timeRegValid && !met,
         pausedIn := if met then None else p.pausedIn, holdTransferReg := taken,
         eventsPermitted := p.eventsPermitted && !taken,
         log := p.log + NoteWake(met, p.pausedIn, time) + Note(raised, Raised(time)))
  }

  function Sample(c: Config, p: Pipe, counter: nat, time: nat, value: nat): Pipe {
    Capture(c, ShiftIn(c, p, counter, value), counter, time)
  }

  function SamplingEdge(c: Config, p: Pipe, counter: nat, go: bool, time: nat): Pipe {
    if p.outputPort || (c.UseReadyOut() && (!p.readyOut || p.timeRegValid)) || !go then p
    else Sample(c, p, counter, time, c.EffectivePins().GetValue(time))
  }

  /** Does the ready input let the port shift? */
  predicate Go(c: Config, readyIn: bool) { !c.UseReadyIn() || readyIn }

  function CountEdge(counter: nat, kind: EdgeType): nat {
    if kind == Falling then (counter + 1) % COUNTER else counter
  }

  /** `seeEdge(nextEdge++)` on a data port */
  function SeeEdge(c: Config, s: State): State {
    var kind, time := s.nextEdge.kind, s.nextEdge.time;
    var counter := CountEdge(s.portCounter, kind);
    var p := if kind == Falling then FallingEdge(c, s.pipe, counter, Go(c, s.readyIn), time) else s.pipe;
    if kind == c.samplingEdge
    then
      var level := c.readyInPins.GetValue(time) != 0;
      State(SamplingEdge(c, p, counter, Go(c, level), time), counter, level, time, Next(s.nextEdge))
    else State(p, counter, s.readyIn, time, Next(s.nextEdge))
  }

  /** The reference: n edges, one at a time. */
  function Iterate(c: Config, s: State, n: nat): State
    decreases n
  {
    if n == 0 then s else Iterate(c, SeeEdge(c, s), n - 1)
  }

  lemma {:induction false} IterateAdd(c: Config, s: State, m: nat, n: nat)
    ensures Iterate(c, s, m + n) == Iterate(c, Iterate(c, s, m), n)
    decreases m
  {
    if m != 0 { IterateAdd(c, SeeEdge(c, s), m - 1, n); }
  }

  lemma IterateLast(c: Config, s: State, n: nat)
    ensures Iterate(c, s, n + 1) == SeeEdge(c, Iterate(c, s, n))
  {
    IterateAdd(c, s, n, 1);
    assert Iterate(c, Iterate(c, s, n), 1) == Iterate(c, SeeEdge(c, Iterate(c, s, n)), 0);
  }

  /** The last m of n edges. */
  lemma SplitOff(c: Config, s: State, n: nat, a: State, m: nat)
    requires m <= n && a == Iterate(c, s, n - m)
    ensures Iterate(c, s, n) == Iterate(c, a, m)
  {
    IterateAdd(c, s, n - m, m);
  }

  /** One falling-edge increment followed by the rest is the whole increment. */
  lemma CounterStep(counter: nat, kind: EdgeType, n: nat)
    requires n > 0
    ensures (CountEdge(counter, kind) + FallingAmong(Flip(kind), n - 1)) % COUNTER
            == (counter + FallingAmong(kind, n)) % COUNTER
  {
  }

  /** n edges at once, for everything that only counts edges: whatever the mode, the iterator
      moves by n, the counter by the falling edges among them, and the time is that of the last one. */
  lemma {:induction false} IterateBookkeeping(c: Config, s: State, n: nat)
    requires s.portCounter < COUNTER
    ensures var r := Iterate(c, s, n);
            && r.nextEdge == Plus(s.nextEdge, n)
            && r.portCounter == (s.portCounter + FallingAmong(s.nextEdge.kind, n)) % COUNTER
            && (n > 0 ==> r.time + s.nextEdge.halfPeriod == r.nextEdge.time)
    decreases n
  {
    PlusOne(s.nextEdge, 0);
    if n == 0 {
      assert FallingAmong(s.nextEdge.kind, 0) == 0;
    } else {
      var a := SeeEdge(c, s);
      assert a.nextEdge == Next(s.nextEdge) && a.time == s.nextEdge.time;
      assert a.portCounter == CountEdge(s.portCounter, s.nextEdge.kind);
      PlusOne(s.nextEdge, n - 1);
      IterateBookkeeping(c, a, n - 1);
      CounterStep(s.portCounter, s.nextEdge.kind, n);
    }
  }

  /** n edges have been consumed, however it was done. */
  predicate Advanced(s: State, r: State, n: nat) {
    && r.nextEdge == Plus(s.nextEdge, n)
    && r.portCounter == (s.portCounter + FallingAmong(s.nextEdge.kind, n)) % COUNTER
  }

  lemma IterateAdvances(c: Config, s: State, n: nat)
    requires s.portCounter < COUNTER
    ensures Advanced(s, Iterate(c, s, n), n)
  {
    IterateBookkeeping(c, s, n);
  }

  lemma SteppedAdvances(c: Config, s: State, a: State, n: nat)
    requires s.portCounter < COUNTER && a == Iterate(c, s, n)
    ensures Advanced(s, a, n) && a.portCounter < COUNTER
  {
    IterateAdvances(c, s, n);
  }

  lemma CounterAdd(counter: nat, m: nat, n: nat)
    ensures ((counter + m) % COUNTER + n) % COUNTER == (counter + (m + n)) % COUNTER
  {
  }

  lemma PlusPlus(it: EdgeIterator, m: nat, n: nat)
    ensures Plus(Plus(it, m), n) == Plus(it, m + n)
  {
    SpanAdd(it.halfPeriod, m, n);
    KindAfterAdd(it.kind, m, n);
  }

  lemma AdvancedAdd(s: State, a: State, b: State, m: nat, n: nat)
    requires Advanced(s, a, m) && Advanced(a, b, n)
    ensures Advanced(s, b, m + n)
  {
    PlusPlus(s.nextEdge, m, n);
    FallingAmongAdd(s.nextEdge.kind, m, n);
    CounterAdd(s.portCounter, FallingAmong(s.nextEdge.kind, m), FallingAmong(a.nextEdge.kind, n));
  }

  /** How many edges from the iterator on come no later than t. */
  function EdgesUpTo(it: EdgeIterator, t: nat): nat
    requires it.halfPeriod > 0
    decreases if it.time <= t then t - it.time + 1 else 0
  {
    if it.time <= t then 1 + EdgesUpTo(Next(it), t) else 0
  }

  /** It is the only n such that edge n - 1 comes in time and edge n does not. */
  lemma {:induction false} EdgesUpToIs(it: EdgeIterator, t: nat, n: nat)
    requires it.halfPeriod > 0
    requires Plus(it, n).time > t && (n > 0 ==> Plus(it, n - 1).time <= t)
    ensures EdgesUpTo(it, t) == n
    decreases n
  {
    PlusOne(it, 0);
    if n > 0 {
      PlusOne(it, n - 1);
      if n > 1 { PlusOne(it, n - 2); }
      SpanMono(it.halfPeriod, 0, n - 1);
      EdgesUpToIs(Next(it), t, n - 1);
    }
  }

  /** The edges `update` finds between two times are those in the half-open interval. */
  lemma EdgesBetween(clock: Signal, t: nat, u: nat)
    requires clock.IsClock() && clock.Covers(t) && t <= u
    ensures var x, y := clock.GetEdgeIterator(t), clock.GetEdgeIterator(u);
            && x.halfPeriod > 0 && x.time <= y.time && Distance(y, x) == EdgesUpTo(x, u)
            && y == Plus(x, EdgesUpTo(x, u))
  {
    var n := IteratorDistance(clock, t, u);
    var x := clock.GetEdgeIterator(t);
    assert !(n < n) && (n > 0 ==> n - 1 < n);
    EdgesUpToIs(x, u, n);
  }

  /** At most two edges come in time exactly when the edge after the next one does not. */
  lemma FewEdges(it: EdgeIterator, t: nat)
    requires it.halfPeriod > 0
    ensures Plus(it, 2).time > t <==> EdgesUpTo(it, t) <= 2
  {
    PlusOne(it, 0);
    PlusOne(it, 1);
    var after := Next(Next(it));
    assert Plus(it, 2) == after;
    if after.time <= t {
      assert EdgesUpTo(it, t) == 1 + EdgesUpTo(Next(it), t) == 2 + EdgesUpTo(after, t);
    }
  }
}
