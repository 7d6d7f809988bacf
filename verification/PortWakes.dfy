/** Who is let go on by a port, and when: every thread that waits on it is woken once or still waits, and an input
    answers its condition (`seeFallingEdgeOutputPort`, `seeSamplingEdge`, lib/Port.cpp). */
module PortWakes {
  import opened Options
  import opened Signals
  import opened Arith
  import opened Bits
  import opened PortState
  import opened PortOutput
  import opened PortPins

  // ---- Nobody is forgotten and nobody is woken twice ----

  function One(t: Option<ThreadId>): multiset<ThreadId> { if t.Some? then multiset{t.value} else multiset{} }

  function Waiters(p: Pipe): multiset<ThreadId> { One(p.pausedOut) + One(p.pausedIn) + One(p.pausedSync) }

  function Woken(log: seq<Event>): multiset<ThreadId> {
    if log == [] then multiset{}
    else
      var e := log[|log| - 1];
      Woken(log[..|log| - 1]) + if e.Wake? then multiset{e.thread} else multiset{}
  }

  lemma WokenNote(log: seq<Event>, happens: bool, e: Event)
    ensures Woken(log + Note(happens, e)) ==
              Woken(log) + if happens && e.Wake? then multiset{e.thread} else multiset{}
  {
    if happens {
      assert (log + [e])[..|log|] == log;
    } else {
      assert log + [] == log;
    }
  }

  lemma WokenWake(log: seq<Event>, happens: bool, t: Option<ThreadId>, time: nat)
    ensures Woken(log + NoteWake(happens, t, time)) == Woken(log) + if happens then One(t) else multiset{}
  {
    var e := Wake(if t.Some? then t.value else 0, time);
    assert NoteWake(happens, t, time) == Note(happens && t.Some?, e);
    WokenNote(log, happens && t.Some?, e);
  }

  /** Everybody who was waiting has been woken since, or still waits. */
  predicate Kept(p: Pipe, r: Pipe) { Woken(p.log) + Waiters(p) == Woken(r.log) + Waiters(r) }

  lemma WaitersLess(p: Pipe, r: Pipe, wakes: bool, thread: Option<ThreadId>)
    requires LetsGo(p, r, wakes, thread)
    ensures (if wakes then One(thread) else multiset{}) + Waiters(r) == Waiters(p)
  {
  }

  lemma MovedOver(log: multiset<ThreadId>, gone: multiset<ThreadId>, left: multiset<ThreadId>)
    ensures (log + gone) + left == log + (gone + left)
  {
  }

  lemma FallingWakes(c: Config, p: Pipe, r: Pipe, wakes: bool, thread: Option<ThreadId>, time: nat)
    requires Noted(c, p, r, wakes, thread, time)
    ensures Woken(r.log) == Woken(p.log) + if wakes then One(thread) else multiset{}
  {
    var pins := if r.outputPort then Mask(r.shiftReg, c.width) else 0;
    WokenWake(p.log, wakes, thread, time);
    WokenNote(p.log + NoteWake(wakes, thread, time), Mask(p.shiftReg, c.width) != pins,
              Pins(c.Effective(pins), r.outputPort, time));
  }

  lemma FallingKeeps(c: Config, p: Pipe, counter: nat, go: bool, time: nat)
    ensures Kept(p, FallingOutput(c, p, counter, go, time))
  {
    var r := FallingOutput(c, p, counter, go, time);
    var wakes, thread := FallingLog(c, p, counter, go, time);
    FallingWakes(c, p, r, wakes, thread, time);
    WaitersLess(p, r, wakes, thread);
    MovedOver(Woken(p.log), if wakes then One(thread) else multiset{}, Waiters(r));
  }

  lemma ReadyOutKeeps(c: Config, p: Pipe, counter: nat, go: bool, time: nat)
    ensures Kept(p, UpdateReadyOut(c, p, counter, go, time))
  {
    var level := ComputeReadyOut(c, p, counter, go);
    WokenNote(p.log, level != p.readyOut, ReadyOut(level, time));
  }

  lemma FallingEdgeKeeps(c: Config, p: Pipe, counter: nat, go: bool, time: nat)
    ensures Kept(p, FallingEdge(c, p, counter, go, time))
  {
    if p.outputPort {
      FallingKeeps(c, p, counter, go, time);
      ReadyOutKeeps(c, FallingOutput(c, p, counter, go, time), counter, go, time);
    } else {
      var hit := c.UseReadyOut() && p.timeRegValid && counter == c.timeReg;
      ReadyOutKeeps(c, p.(timeRegValid := p.timeRegValid && !hit,
                          validShiftRegEntries := if hit then 0 else p.validShiftRegEntries), counter, go, time);
    }
  }

  lemma CaptureKeeps(c: Config, p: Pipe, counter: nat, time: nat)
    ensures Kept(p, Capture(c, p, counter, time))
  {
    var wakes, raised := CaptureLog(c, p, counter, time);
    WokenWake(p.log, wakes, p.pausedIn, time);
    WokenNote(p.log + NoteWake(wakes, p.pausedIn, time), raised, Raised(time));
    ReaderLess(p, Capture(c, p, counter, time), wakes);
    MovedOver(Woken(p.log), if wakes then One(p.pausedIn) else multiset{}, Waiters(Capture(c, p, counter, time)));
  }

  lemma ReaderLess(p: Pipe, r: Pipe, wakes: bool)
    requires r.pausedOut == p.pausedOut && r.pausedSync == p.pausedSync
    requires r.pausedIn == if wakes then None else p.pausedIn
    ensures (if wakes then One(p.pausedIn) else multiset{}) + Waiters(r) == Waiters(p)
  {
  }

  lemma SampleKeeps(c: Config, p: Pipe, counter: nat, time: nat, v: nat)
    ensures Kept(p, Sample(c, p, counter, time, v))
  {
    var a := ShiftIn(c, p, counter, v);
    CaptureKeeps(c, a, counter, time);
    assert Waiters(a) == Waiters(p) && a.log == p.log;
  }

  lemma EdgeKeeps(c: Config, s: State)
    ensures Kept(s.pipe, SeeEdge(c, s).pipe)
  {
    var counter, time := CountEdge(s.portCounter, s.nextEdge.kind), s.nextEdge.time;
    EdgeHalves(c, s);
    FallingEdgeKeeps(c, s.pipe, counter, Go(c, s.readyIn), time);
    SampleKeeps(c, Fallen(c, s), counter, time, c.EffectivePins().GetValue(time));
  }

  /** After any number of edges, in every mode, everybody who was waiting has been woken once or still waits, and nobody
      else has been woken. */
  lemma {:induction false} NobodyIsForgotten(c: Config, s: State, n: nat)
    ensures Kept(s.pipe, Iterate(c, s, n).pipe)
    decreases n
  {
    if n != 0 {
      EdgeKeeps(c, s);
      NobodyIsForgotten(c, SeeEdge(c, s), n - 1);
    }
  }

  // ---- An output is taken up in its turn ----

  /** The register is used up with this edge, or the port time cuts it short. */
  predicate UsedUp(c: Config, p: Pipe, counter: nat) {
    p.validShiftRegEntries <= 1 || (p.timeRegValid && counter == c.timeReg)
  }

  /** A pending transfer is taken up exactly when the register is used up and no port time is in the way; only then does
      its writer go on, and the register then lasts for as many entries as were asked for. */
  lemma OutputTakesTurn(c: Config, p: Pipe, counter: nat, go: bool, time: nat)
    requires p.outputPort
    ensures var r := FallingOutput(c, p, counter, go, time);
      if go && UsedUp(c, p, counter) && p.transferRegValid && (p.timeRegValid ==> counter == c.timeReg) then
        && r.shiftReg == p.transferReg && r.validShiftRegEntries == p.portShiftCount
        && r.portShiftCount == c.shiftRegEntries && r.timestampReg == counter
        && r.outputPort && !r.transferRegValid && !r.timeRegValid && r.pausedOut.None?
      else
        && r.transferRegValid == p.transferRegValid && r.transferReg == p.transferReg && r.pausedOut == p.pausedOut
        && r.portShiftCount == p.portShiftCount && r.timestampReg == p.timestampReg
        && (r.timeRegValid <==> p.timeRegValid && counter != c.timeReg)
  {
  }

  /** Without one, the register shows its next entry, or the last one on, and when it is used up a thread in `sync` goes
      on; an input port is made of it at the port time, or if a thread waits for input and no time is set. */
  lemma OutputRunsDry(c: Config, p: Pipe, counter: nat, go: bool, time: nat)
    requires p.outputPort && !p.transferRegValid
    ensures var r := FallingOutput(c, p, counter, go, time);
      var hit, dry := p.timeRegValid && counter == c.timeReg, go && UsedUp(c, p, counter);
      && r.shiftReg == (if go && !dry then c.NextShiftReg(p.shiftReg) else p.shiftReg)
      && r.validShiftRegEntries ==
           (if dry || hit then 0 else if go then p.validShiftRegEntries - 1 else p.validShiftRegEntries)
      && r.pausedSync == (if dry then None else p.pausedSync)
      && (r.outputPort <==> !hit && !(dry && !p.timeRegValid && p.pausedIn.Some?))
  {
  }

  // ---- An input answers its condition ----

  /** The data of the port is met by the value, or missed by it, as the condition asks. */
  predicate Compares(c: Config, condition: Condition, value: nat) {
    (condition == Eq ==> value == c.data) && (condition == Neq ==> value != c.data)
  }

  /** A sample is what an input waits for: at the port time if there is one, and on a buffered port with a time or a
      condition the pins, but else the whole register once it is full, must compare. */
  predicate Answers(c: Config, p: Pipe, counter: nat, v: nat) {
    && (p.timeRegValid ==> counter == c.timeReg)
    && if c.buffered && (p.timeRegValid || p.condition != Full) then Compares(c, p.condition, v)
       else p.validShiftRegEntries + 1 == p.portShiftCount
            && Compares(c, p.condition, c.SampledShiftReg(p.shiftReg, v))
  }

  /** An input port that a thread or an event waits on, with room in its register and nothing held. */
  predicate Asked(p: Pipe) {
    && !p.outputPort && (p.pausedIn.Some? || p.eventsPermitted) && !p.holdTransferReg
    && p.validShiftRegEntries < p.portShiftCount
  }

  /** A sample wakes the thread and raises the event exactly if it answers; the transfer register then has the sampled
      register and the timestamp is the counter of this edge. */
  lemma InputAnswers(c: Config, p: Pipe, counter: nat, time: nat, v: nat)
    requires NoReadySignals(c) && Asked(p)
    ensures var r := Sample(c, p, counter, time, v);
      if Answers(c, p, counter, v) then
        && r.pausedIn.None? && r.transferRegValid && r.transferReg == c.SampledShiftReg(p.shiftReg, v)
        && r.timestampReg == counter && !r.timeRegValid
        && r.log == p.log + (if p.pausedIn.Some? then [Wake(p.pausedIn.value, time)] else [])
                    + (if p.eventsPermitted then [Raised(time)] else [])
        && r.holdTransferReg == (p.eventsPermitted && !c.ownerExecuting)
        && r.eventsPermitted == (p.eventsPermitted && c.ownerExecuting)
      else
        && r.pausedIn == p.pausedIn && r.log == p.log && r.eventsPermitted == p.eventsPermitted && !r.holdTransferReg
        && (r.timeRegValid <==> p.timeRegValid && !(c.buffered && counter == c.timeReg))
  {
    var a := ShiftIn(c, p, counter, v);
    assert ShouldRealign(c, p, counter, v) <==>
             c.buffered && Compares(c, p.condition, v)
             && (if p.timeRegValid then counter == c.timeReg else p.condition != Full);
    assert a.shiftReg == c.SampledShiftReg(p.shiftReg, v);
  }

  /** The sample cuts the register short: a buffered port that is waited on, at its time or with a condition. */
  predicate CutsShort(c: Config, p: Pipe, counter: nat, v: nat) {
    && c.buffered && (p.pausedIn.Some? || p.eventsPermitted) && !p.holdTransferReg && Compares(c, p.condition, v)
    && if p.timeRegValid then counter == c.timeReg else p.condition != Full
  }

  /** Waited on or not, a full register goes to the transfer register with the counter as its timestamp, and is dropped
      if that is held; one that is not full has one entry more. */
  lemma InputCaptures(c: Config, p: Pipe, counter: nat, time: nat, v: nat)
    requires NoReadySignals(c) && !p.outputPort && p.validShiftRegEntries < p.portShiftCount
    ensures var r := Sample(c, p, counter, time, v);
      var full := CutsShort(c, p, counter, v) || p.validShiftRegEntries + 1 == p.portShiftCount;
      && r.shiftReg == c.SampledShiftReg(p.shiftReg, v)
      && r.validShiftRegEntries == (if full then 0 else p.validShiftRegEntries + 1)
      && (if full && !p.holdTransferReg
          then r.transferReg == r.shiftReg && r.transferRegValid && r.timestampReg == counter
               && r.portShiftCount == c.shiftRegEntries
          else r.transferReg == p.transferReg && r.transferRegValid == p.transferRegValid
               && r.timestampReg == p.timestampReg && r.portShiftCount == p.portShiftCount)
  {
    assert ShouldRealign(c, p, counter, v) <==> CutsShort(c, p, counter, v);
  }

  // ---- Input at a time, with a ready output ----

  /** An input port that is ready only once its time has come. */
  predicate Awaits(c: Config, p: Pipe) { c.UseReadyOut() && !p.outputPort && p.timeRegValid }

  /** An edge before the time takes no sample, and a falling one lowers the ready output. */
  lemma AwaitsOn(c: Config, s: State)
    requires Awaits(c, s.pipe) && (s.nextEdge.kind == Falling ==> CountEdge(s.portCounter, Falling) != c.timeReg)
    ensures var r := SeeEdge(c, s).pipe;
      && Awaits(c, r) && r == s.pipe.(readyOut := r.readyOut, log := r.log)
      && (r.readyOut <==> s.pipe.readyOut && s.nextEdge.kind == Rising)
  {
  }

  /** Until the falling edge that meets the time nothing is sampled, however many edges there are. */
  lemma {:induction false} NothingBeforeTime(c: Config, s: State, n: nat)
    requires Awaits(c, s.pipe) && s.portCounter < COUNTER && c.timeReg < COUNTER
    requires FallingAmong(s.nextEdge.kind, n) < FallingEdgesUntilTimeMet(c, s)
    ensures var r := Iterate(c, s, n).pipe;
      && Awaits(c, r) && r == s.pipe.(readyOut := r.readyOut, log := r.log)
      && (r.readyOut <==> s.pipe.readyOut && FallingAmong(s.nextEdge.kind, n) == 0)
    decreases n
  {
    if n == 0 {
      FallingAmongIs(s.nextEdge.kind, 0);
    } else {
      var a := SeeEdge(c, s);
      FallingCloser(c, s, a, n);
      AwaitsOn(c, s);
      NothingBeforeTime(c, a, n - 1);
    }
  }

  lemma FallingCloser(c: Config, s: State, a: State, n: nat)
    requires n > 0 && s.portCounter < COUNTER && c.timeReg < COUNTER && a.nextEdge.kind == Flip(s.nextEdge.kind)
    requires a.portCounter == CountEdge(s.portCounter, s.nextEdge.kind)
    requires FallingAmong(s.nextEdge.kind, n) < FallingEdgesUntilTimeMet(c, s)
    ensures a.portCounter < COUNTER && (s.nextEdge.kind == Falling ==> a.portCounter != c.timeReg)
    ensures FallingAmong(a.nextEdge.kind, n - 1) < FallingEdgesUntilTimeMet(c, a)
    ensures FallingAmong(s.nextEdge.kind, n) ==
              FallingAmong(a.nextEdge.kind, n - 1) + (if s.nextEdge.kind == Falling then 1 else 0)
  {
    FallingAmongIs(s.nextEdge.kind, n);
    FallingAmongIs(a.nextEdge.kind, n - 1);
    if s.nextEdge.kind == Falling { DeadlineStep(c, s, a); }
  }

  /** That edge clears the time, empties the register and makes the port ready. */
  lemma ReadyAtTime(c: Config, s: State)
    requires Awaits(c, s.pipe) && s.nextEdge.kind == Falling && CountEdge(s.portCounter, Falling) == c.timeReg
    ensures var r := Fallen(c, s);
      && r == s.pipe.(timeRegValid := false, validShiftRegEntries := 0, readyOut := r.readyOut, log := r.log)
      && (r.readyOut <==> s.pipe.portShiftCount != 0)
  {
  }
}
