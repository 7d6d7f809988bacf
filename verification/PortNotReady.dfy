/** Fast-forwarding a port whose ready input is low (`updateNoExternalChange`, lib/Port.cpp) against stepping it
    edge by edge. */
module PortNotReady {
  import opened Signals
  import opened PortState
  import opened PortOutput
  import opened PortCalls

  /** The ready input is low and stays low. */
  predicate NotReady(c: Config, s: State) {
    && c.UseReadyIn() && !s.readyIn && !c.readyInPins.IsClock() && c.readyInPins.value == 0
    && c.timeReg < COUNTER && s.portCounter < COUNTER
  }

  /** Does this port notice its port time while it is not ready? */
  predicate Notices(c: Config, p: Pipe) { p.timeRegValid && (p.outputPort || c.UseReadyOut()) }

  /** The branch itself: it compares the number of edges with the falling edges left until the port time. */
  function FastNotReady(c: Config, s: State, n: nat): State
    requires n > 0
  {
    var clears := Notices(c, s.pipe) && n >= FallingEdgesUntilTimeMet(c, s);
    Skip(if clears then s.(pipe := s.pipe.(timeRegValid := false, validShiftRegEntries := 0)) else s, n)
  }

  /** The ready output shows what the next falling edge would compute for it. */
  predicate ReadySettled(c: Config, p: Pipe) {
    p.readyOut == (c.UseReadyOut() && !p.outputPort && !p.timeRegValid && p.validShiftRegEntries != p.portShiftCount)
  }

  // ---- The port time ----

  /** The next edge meets the port time, and the port notices. */
  predicate MetNow(c: Config, s: State) {
    Notices(c, s.pipe) && s.nextEdge.kind == Falling && FallingEdgesUntilTimeMet(c, s) == 1
  }

  lemma NotReadyFalling(c: Config, p: Pipe, counter: nat, time: nat)
    ensures var r := FallingEdge(c, p, counter, false, time);
      && (r.timeRegValid <==> p.timeRegValid && !(Notices(c, p) && counter == c.timeReg))
      && (r.timeRegValid ==> r.outputPort == p.outputPort)
  {
  }

  lemma NotReadyStep(c: Config, s: State)
    requires NotReady(c, s)
    ensures var r := SeeEdge(c, s);
      && NotReady(c, r)
      && (r.pipe.timeRegValid <==>
            s.pipe.timeRegValid && !MetNow(c, s))
      && (r.pipe.timeRegValid ==> r.pipe.outputPort == s.pipe.outputPort)
  {
    NotReadyFalling(c, s.pipe, CountEdge(s.portCounter, Falling), s.nextEdge.time);
  }

  lemma {:induction false} NeverTimed(c: Config, s: State, n: nat)
    requires NotReady(c, s) && !s.pipe.timeRegValid
    ensures !Iterate(c, s, n).pipe.timeRegValid
    decreases n
  {
    if n != 0 {
      NotReadyStep(c, s);
      NeverTimed(c, SeeEdge(c, s), n - 1);
    }
  }

  /** Stepped, the port time is cleared by the falling edge on which it is met. */
  lemma {:induction false} SteppedTime(c: Config, s: State, n: nat)
    requires NotReady(c, s)
    ensures Iterate(c, s, n).pipe.timeRegValid <==>
              s.pipe.timeRegValid
              && !(Notices(c, s.pipe) && FallingEdgesUntilTimeMet(c, s) <= FallingAmong(s.nextEdge.kind, n))
    decreases n
  {
    if n != 0 {
      var a := SeeEdge(c, s);
      NotReadyStep(c, s);
      if !a.pipe.timeRegValid {
        NeverTimed(c, a, n - 1);
      } else {
        if s.nextEdge.kind == Falling && FallingEdgesUntilTimeMet(c, s) > 1 { DeadlineStep(c, s, a); }
        SteppedTime(c, a, n - 1);
      }
    }
  }

  /** Enough edges, but not enough falling ones. */
  predicate Misled(c: Config, s: State, n: nat) {
    Notices(c, s.pipe) && FallingAmong(s.nextEdge.kind, n) < FallingEdgesUntilTimeMet(c, s) <= n
  }

  /** Exactly when the branch clears a port time that has not been met. */
  lemma ClearsTooEarly(c: Config, s: State, n: nat)
    requires NotReady(c, s) && n > 0
    ensures Iterate(c, s, n).pipe.timeRegValid && !FastNotReady(c, s, n).pipe.timeRegValid <==> Misled(c, s, n)
  {
    SteppedTime(c, s, n);
  }

  // ---- Everything else ----

  lemma RestingFalling(c: Config, p: Pipe, counter: nat, time: nat)
    requires ReadySettled(c, p) && (Notices(c, p) ==> counter != c.timeReg)
    ensures FallingEdge(c, p, counter, false, time) == p
  {
    if p.outputPort {
      assert FallingOutput(c, p, counter, false, time) == p;
    }
  }

  lemma RestingEdge(c: Config, s: State)
    requires NotReady(c, s) && ReadySettled(c, s.pipe)
    requires Notices(c, s.pipe) && s.nextEdge.kind == Falling ==> FallingEdgesUntilTimeMet(c, s) > 1
    ensures SeeEdge(c, s).pipe == s.pipe
  {
    if s.nextEdge.kind == Falling {
      RestingFalling(c, s.pipe, CountEdge(s.portCounter, Falling), s.nextEdge.time);
    }
  }

  lemma {:induction false} RestingIterate(c: Config, s: State, n: nat)
    requires NotReady(c, s) && ReadySettled(c, s.pipe)
    requires Notices(c, s.pipe) ==> FallingAmong(s.nextEdge.kind, n) < FallingEdgesUntilTimeMet(c, s)
    ensures Iterate(c, s, n).pipe == s.pipe
    decreases n
  {
    if n != 0 {
      var a := SeeEdge(c, s);
      RestingEdge(c, s);
      NotReadyStep(c, s);
      if s.nextEdge.kind == Falling && FallingEdgesUntilTimeMet(c, s) > 1 { DeadlineStep(c, s, a); }
      RestingIterate(c, a, n - 1);
    }
  }

  /** The port time is met, and noticed, within n edges. */
  predicate Met(c: Config, s: State, n: nat) {
    Notices(c, s.pipe) && FallingEdgesUntilTimeMet(c, s) <= FallingAmong(s.nextEdge.kind, n)
  }

  /** Clearing the time and the entries is all there is to it: an output port has data to go on with, and an input port
      has no entries to be ready for. */
  predicate NothingElse(p: Pipe) { if p.outputPort then p.transferRegValid else p.portShiftCount == 0 }

  /** What a port is like once its time has been met: it has turned around, or shows that it is ready, unless there was
      nothing else to do. */
  predicate Noticed(p: Pipe, r: Pipe) {
    && (NothingElse(p) ==> r == p.(timeRegValid := false, validShiftRegEntries := 0))
    && (!NothingElse(p) ==> if p.outputPort then !r.outputPort else r.readyOut && !p.readyOut)
  }

  lemma MetFalling(c: Config, p: Pipe, counter: nat, time: nat)
    requires ReadySettled(c, p) && Notices(c, p) && counter == c.timeReg
    ensures var r := FallingEdge(c, p, counter, false, time); Noticed(p, r) && ReadySettled(c, r) && !Notices(c, r)
  {
    if p.outputPort {
      assert NothingElse(p) ==>
          FallingOutput(c, p, counter, false, time) == p.(timeRegValid := false, validShiftRegEntries := 0);
    }
  }

  lemma MetEdge(c: Config, s: State)
    requires NotReady(c, s) && ReadySettled(c, s.pipe) && MetNow(c, s)
    ensures var r := SeeEdge(c, s).pipe; Noticed(s.pipe, r) && ReadySettled(c, r) && !Notices(c, r)
  {
    MetFalling(c, s.pipe, CountEdge(s.portCounter, Falling), s.nextEdge.time);
  }

  lemma {:induction false} MetIterate(c: Config, s: State, n: nat)
    requires NotReady(c, s) && ReadySettled(c, s.pipe) && Met(c, s, n)
    ensures Noticed(s.pipe, Iterate(c, s, n).pipe)
    decreases n
  {
    var a := SeeEdge(c, s);
    NotReadyStep(c, s);
    if MetNow(c, s) {
      MetEdge(c, s);
      RestingIterate(c, a, n - 1);
    } else {
      RestingEdge(c, s);
      if s.nextEdge.kind == Falling { DeadlineStep(c, s, a); }
      MetIterate(c, a, n - 1);
    }
  }

  lemma EnoughEdges(kind: EdgeType, n: nat)
    ensures FallingAmong(kind, n) <= n
  {
    FallingAmongIs(kind, n);
  }

  /** The branch reaches the state of edge stepping if and only if, where the port time is met, clearing it is all there
      is to do, and where it is not, the number of edges does not mislead. */
  lemma NotReadyMatches(c: Config, s: State, n: nat)
    requires NotReady(c, s) && ReadySettled(c, s.pipe) && n > 0
    ensures Same(FastNotReady(c, s, n), Iterate(c, s, n)) <==>
              if Met(c, s, n) then NothingElse(s.pipe) else !Misled(c, s, n)
  {
    var r := Iterate(c, s, n);
    IterateBookkeeping(c, s, n);
    EnoughEdges(s.nextEdge.kind, n);
    if Met(c, s, n) {
      MetIterate(c, s, n);
      SkipCounts(s.(pipe := s.pipe.(timeRegValid := false, validShiftRegEntries := 0)), r, n);
    } else {
      RestingIterate(c, s, n);
      SkipCounts(s, r, n);
    }
  }

  /** Such an update: four edges, two of them falling, when the port time is three falling edges away. */
  lemma FourEdgesAreEnough(c: Config, s: State)
    requires NotReady(c, s) && Notices(c, s.pipe) && c.timeReg == (s.portCounter + 3) % COUNTER
    ensures Misled(c, s, 4)
  {
    FallingAmongIs(s.nextEdge.kind, 4);
  }

  // ---- Both failures happen ----

  /** A one-bit slave port of a strobed transfer, sampled on rising edges, whose ready input is low now. */
  predicate Slave(c: Config) {
    && c.readyMode == Strobed && !c.master && c.samplingEdge == Rising && c.readyInPins == Signal(0, 0)
    && c.width == 1 && c.transferWidth == 1 && c.shiftRegEntries == 1 && c.timeReg < COUNTER
  }

  /** `out` of a zero, the edges that see the ready input high and load the zero, the edge that sees it low again, and
      `setpt`. */
  function Unready(c: Config): State {
    var d := c.(readyInPins := Signal(0, 1));
    var s := Out(State(TURNED_ON, 0, false, 0, EdgeIterator(2, Rising, 2)), 0);
    SetPortTime(SeeEdge(c, SeeEdge(d, SeeEdge(d, s))))
  }

  lemma UnreadyIs(c: Config)
    requires Slave(c)
    ensures var s := Unready(c); var p := s.pipe;
      && NotReady(c, s) && ReadySettled(c, p) && Notices(c, p) && !NothingElse(p)
      && s.portCounter == 1 && s.nextEdge.kind == Falling
  {
    var d := c.(readyInPins := Signal(0, 1));
    var s := Out(State(TURNED_ON, 0, false, 0, EdgeIterator(2, Rising, 2)), 0);
    var a := SeeEdge(d, s);
    assert a.pipe == s.pipe && a.readyIn && a.nextEdge.kind == Falling;
    var b := SeeEdge(d, a);
    assert b.pipe.outputPort && !b.pipe.transferRegValid && !b.pipe.readyOut && b.portCounter == 1;
    assert SeeEdge(c, b).pipe == b.pipe;
  }

  /** A port time one falling edge away is met without turning the port around; one three away is cleared after two. */
  lemma NotReadyFailuresHappen(c: Config)
    requires Slave(c)
    ensures c.timeReg == 2 ==> !Same(FastNotReady(c, Unready(c), 2), Iterate(c, Unready(c), 2))
    ensures c.timeReg == 4 ==> !Same(FastNotReady(c, Unready(c), 4), Iterate(c, Unready(c), 4))
  {
    var s := Unready(c);
    UnreadyIs(c);
    FallingAmongIs(Falling, 2);
    FallingAmongIs(Falling, 4);
    NotReadyMatches(c, s, 2);
    NotReadyMatches(c, s, 4);
  }
}
