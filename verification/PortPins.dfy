/** What the outside has been told about a port, against what its registers hold: the level of its pins, its ready
    output and the threads it has let go on (`getPinsOutputValue`, `outputValue`, lib/Port.cpp). */
module PortPins {
  import opened Options
  import opened Signals
  import opened Arith
  import opened Bits
  import opened PortState
  import opened PortOutput
  import opened PortCalls

  // ---- The pins ----

  /** The level last announced, or the one from before. */
  function Shown(log: seq<Event>, before: nat): nat {
    if log == [] then before
    else if log[|log| - 1].Pins? then log[|log| - 1].value
    else Shown(log[..|log| - 1], before)
  }

  /** `getPinsOutputValue`: the low bits of the register while the port drives, else zero, inverted if it inverts. */
  function Driven(c: Config, p: Pipe): nat {
    var low := if p.outputPort then Mask(p.shiftReg, c.width) else 0;
    if !c.inverted then low else if low % 2 == 0 then low + 1 else low - 1
  }

  predicate Announced(c: Config, p: Pipe, before: nat) { Shown(p.log, before) == Driven(c, p) }

  lemma ShownNote(log: seq<Event>, happens: bool, e: Event, before: nat)
    ensures Shown(log + Note(happens, e), before) == if happens && e.Pins? then e.value else Shown(log, before)
  {
    if happens {
      assert (log + [e])[..|log|] == log;
    } else {
      assert log + [] == log;
    }
  }

  lemma ShownWake(log: seq<Event>, happens: bool, t: Option<ThreadId>, time: nat, before: nat)
    ensures Shown(log + NoteWake(happens, t, time), before) == Shown(log, before)
  {
    var e := Wake(if t.Some? then t.value else 0, time);
    assert NoteWake(happens, t, time) == Note(happens && t.Some?, e);
    ShownNote(log, happens && t.Some?, e, before);
  }

  /** A note of the pins brings what is announced up to date. */
  lemma PinsNoted(c: Config, p: Pipe, log: seq<Event>, r: Pipe, time: nat, before: nat)
    requires p.outputPort && Announced(c, p, before) && Shown(log, before) == Shown(p.log, before)
    requires r.log == log + NotePins(c, p, r.shiftReg, r.outputPort, time)
    ensures Announced(c, r, before)
  {
    var pins := if r.outputPort then Mask(r.shiftReg, c.width) else 0;
    ShownNote(log, Mask(p.shiftReg, c.width) != pins, Pins(c.Effective(pins), r.outputPort, time), before);
  }

  /** Nobody but the given thread, waiting in `out` or `sync`, is let go on. */
  predicate LetsGo(p: Pipe, r: Pipe, wakes: bool, thread: Option<ThreadId>) {
    && r.pausedIn == p.pausedIn
    && if !wakes || thread.None? then r.pausedOut == p.pausedOut && r.pausedSync == p.pausedSync
       else || (thread == p.pausedOut && r.pausedOut.None? && r.pausedSync == p.pausedSync)
            || (thread == p.pausedSync && r.pausedSync.None? && r.pausedOut == p.pausedOut)
  }

  /** Does the port load its transfer register on this falling edge? */
  predicate Loads(c: Config, p: Pipe, counter: nat, go: bool) {
    var hit := p.timeRegValid && c.timeReg == counter;
    go && (hit || p.validShiftRegEntries <= 1) && p.transferRegValid && (hit || !p.timeRegValid)
  }

  predicate Noted(c: Config, p: Pipe, r: Pipe, wakes: bool, thread: Option<ThreadId>, time: nat) {
    && LetsGo(p, r, wakes, thread)
    && r.log == p.log + NoteWake(wakes, thread, time) + NotePins(c, p, r.shiftReg, r.outputPort, time)
  }

  lemma LoadNoted(c: Config, p: Pipe, counter: nat, go: bool, time: nat)
    requires Loads(c, p, counter, go)
    ensures Noted(c, p, FallingOutput(c, p, counter, go, time), true, p.pausedOut, time)
  {
  }

  predicate HoldsOn(c: Config, p: Pipe, counter: nat, go: bool) {
    !go || (p.validShiftRegEntries > 1 && !(p.timeRegValid && c.timeReg == counter))
  }

  lemma ShiftNoted(c: Config, p: Pipe, counter: nat, go: bool, time: nat)
    requires HoldsOn(c, p, counter, go)
    ensures Noted(c, p, FallingOutput(c, p, counter, go, time), false, None, time)
  {
    assert p.log + [] == p.log;
  }

  lemma DryNoted(c: Config, p: Pipe, counter: nat, go: bool, time: nat)
    requires !Loads(c, p, counter, go) && !HoldsOn(c, p, counter, go)
    ensures Noted(c, p, FallingOutput(c, p, counter, go, time), !p.transferRegValid, p.pausedSync, time)
  {
  }

  /** A falling edge of an output port lets at most one thread go on, and notes its pins. */
  lemma FallingLog(c: Config, p: Pipe, counter: nat, go: bool, time: nat)
      returns (wakes: bool, thread: Option<ThreadId>)
    ensures Noted(c, p, FallingOutput(c, p, counter, go, time), wakes, thread, time)
  {
    if Loads(c, p, counter, go) {
      LoadNoted(c, p, counter, go, time);
      wakes, thread := true, p.pausedOut;
    } else if HoldsOn(c, p, counter, go) {
      ShiftNoted(c, p, counter, go, time);
      wakes, thread := false, None;
    } else {
      DryNoted(c, p, counter, go, time);
      wakes, thread := !p.transferRegValid, p.pausedSync;
    }
  }

  lemma FallingShows(c: Config, p: Pipe, counter: nat, go: bool, time: nat, before: nat)
    requires p.outputPort && Announced(c, p, before)
    ensures Announced(c, FallingOutput(c, p, counter, go, time), before)
  {
    var wakes, thread := FallingLog(c, p, counter, go, time);
    ShownWake(p.log, wakes, thread, time, before);
    PinsNoted(c, p, p.log + NoteWake(wakes, thread, time), FallingOutput(c, p, counter, go, time), time, before);
  }

  lemma ReadyOutShows(c: Config, p: Pipe, counter: nat, go: bool, time: nat, before: nat)
    requires Announced(c, p, before)
    ensures Announced(c, UpdateReadyOut(c, p, counter, go, time), before)
  {
    var level := ComputeReadyOut(c, p, counter, go);
    ShownNote(p.log, level != p.readyOut, ReadyOut(level, time), before);
    DrivenAlike(c, p, UpdateReadyOut(c, p, counter, go, time));
  }

  lemma DrivenAlike(c: Config, p: Pipe, r: Pipe)
    requires r.shiftReg == p.shiftReg && r.outputPort == p.outputPort
    ensures Driven(c, r) == Driven(c, p)
  {
  }

  /** An input port drives nothing, and announces nothing about its pins. */
  lemma SampleShows(c: Config, p: Pipe, counter: nat, time: nat, v: nat, before: nat)
    requires !p.outputPort && Announced(c, p, before)
    ensures Announced(c, Sample(c, p, counter, time, v), before)
  {
    var a := ShiftIn(c, p, counter, v);
    var r := Capture(c, a, counter, time);
    if r.log != a.log {
      var wakes, raised := CaptureLog(c, a, counter, time);
      ShownWake(a.log, wakes, a.pausedIn, time, before);
      ShownNote(a.log + NoteWake(wakes, a.pausedIn, time), raised, Raised(time), before);
    }
  }

  /** The reader is let go on or waits on, and nobody else is. */
  lemma CaptureLog(c: Config, p: Pipe, counter: nat, time: nat) returns (wakes: bool, raised: bool)
    ensures var r := Capture(c, p, counter, time);
      && r.log == p.log + NoteWake(wakes, p.pausedIn, time) + Note(raised, Raised(time))
      && r.pausedOut == p.pausedOut && r.pausedSync == p.pausedSync
      && r.pausedIn == if wakes then None else p.pausedIn
  {
    wakes := Capture(c, p, counter, time).pausedIn != p.pausedIn;
    raised := |Capture(c, p, counter, time).log| > |p.log + NoteWake(wakes, p.pausedIn, time)|;
  }

  /** The first half of an edge: a falling one. */
  function Fallen(c: Config, s: State): Pipe {
    if s.nextEdge.kind == Rising then s.pipe
    else FallingEdge(c, s.pipe, CountEdge(s.portCounter, Falling), Go(c, s.readyIn), s.nextEdge.time)
  }

  /** The second half: a sample or nothing. */
  lemma EdgeHalves(c: Config, s: State)
    ensures var p, r := Fallen(c, s), SeeEdge(c, s).pipe;
      var counter, time := CountEdge(s.portCounter, s.nextEdge.kind), s.nextEdge.time;
      r == p || (!p.outputPort && r == Sample(c, p, counter, time, c.EffectivePins().GetValue(time)))
  {
  }

  lemma FallenShows(c: Config, s: State, before: nat)
    requires Announced(c, s.pipe, before)
    ensures Announced(c, Fallen(c, s), before)
  {
    var counter, go, time, p := CountEdge(s.portCounter, Falling), Go(c, s.readyIn), s.nextEdge.time, s.pipe;
    if p.outputPort {
      FallingShows(c, p, counter, go, time, before);
      ReadyOutShows(c, FallingOutput(c, p, counter, go, time), counter, go, time, before);
    } else {
      var hit := c.UseReadyOut() && p.timeRegValid && counter == c.timeReg;
      ReadyOutShows(c, p.(timeRegValid := p.timeRegValid && !hit,
                          validShiftRegEntries := if hit then 0 else p.validShiftRegEntries),
                    counter, go, time, before);
    }
  }

  lemma EdgeShows(c: Config, s: State, before: nat)
    requires Announced(c, s.pipe, before)
    ensures Announced(c, SeeEdge(c, s).pipe, before)
  {
    var counter, time, p := CountEdge(s.portCounter, s.nextEdge.kind), s.nextEdge.time, Fallen(c, s);
    EdgeHalves(c, s);
    FallenShows(c, s, before);
    if !p.outputPort { SampleShows(c, p, counter, time, c.EffectivePins().GetValue(time), before); }
  }

  /** After any number of edges, in every mode, the level last announced is what the port drives. */
  lemma {:induction false} PinsAreAnnounced(c: Config, s: State, before: nat, n: nat)
    requires Announced(c, s.pipe, before)
    ensures Announced(c, Iterate(c, s, n).pipe, before)
    decreases n
  {
    if n != 0 {
      EdgeShows(c, s, before);
      PinsAreAnnounced(c, SeeEdge(c, s), before, n - 1);
    }
  }

  // ---- The ready output ----

  /** The level of the ready output last announced, or the one from before. */
  predicate ReadyShown(log: seq<Event>, before: bool) {
    if log == [] then before
    else if log[|log| - 1].ReadyOut? then log[|log| - 1].level
    else ReadyShown(log[..|log| - 1], before)
  }

  predicate ReadyAnnounced(p: Pipe, before: bool) { ReadyShown(p.log, before) <==> p.readyOut }

  lemma ReadyNote(log: seq<Event>, happens: bool, e: Event, before: bool)
    ensures ReadyShown(log + Note(happens, e), before) <==>
              if happens && e.ReadyOut? then e.level else ReadyShown(log, before)
  {
    if happens {
      assert (log + [e])[..|log|] == log;
    } else {
      assert log + [] == log;
    }
  }

  lemma ReadyWake(log: seq<Event>, happens: bool, t: Option<ThreadId>, time: nat, before: bool)
    ensures ReadyShown(log + NoteWake(happens, t, time), before) <==> ReadyShown(log, before)
  {
    var e := Wake(if t.Some? then t.value else 0, time);
    assert NoteWake(happens, t, time) == Note(happens && t.Some?, e);
    ReadyNote(log, happens && t.Some?, e, before);
  }

  lemma NotedReady(c: Config, p: Pipe, r: Pipe, wakes: bool, thread: Option<ThreadId>, time: nat, before: bool)
    requires Noted(c, p, r, wakes, thread, time)
    ensures ReadyShown(r.log, before) <==> ReadyShown(p.log, before)
  {
    var pins := if r.outputPort then Mask(r.shiftReg, c.width) else 0;
    ReadyWake(p.log, wakes, thread, time, before);
    ReadyNote(p.log + NoteWake(wakes, thread, time), Mask(p.shiftReg, c.width) != pins,
              Pins(c.Effective(pins), r.outputPort, time), before);
  }

  lemma FallingReady(c: Config, p: Pipe, counter: nat, go: bool, time: nat, before: bool)
    requires ReadyAnnounced(p, before)
    ensures ReadyAnnounced(FallingOutput(c, p, counter, go, time), before)
  {
    var r := FallingOutput(c, p, counter, go, time);
    var wakes, thread := FallingLog(c, p, counter, go, time);
    NotedReady(c, p, r, wakes, thread, time, before);
    FallingKeepsReady(c, p, counter, go, time);
  }

  lemma FallingKeepsReady(c: Config, p: Pipe, counter: nat, go: bool, time: nat)
    ensures FallingOutput(c, p, counter, go, time).readyOut == p.readyOut
  {
  }

  lemma UpdatedReady(c: Config, p: Pipe, counter: nat, go: bool, time: nat, before: bool)
    requires ReadyAnnounced(p, before)
    ensures ReadyAnnounced(UpdateReadyOut(c, p, counter, go, time), before)
  {
    var level := ComputeReadyOut(c, p, counter, go);
    ReadyNote(p.log, level != p.readyOut, ReadyOut(level, time), before);
  }

  lemma FallenReady(c: Config, s: State, before: bool)
    requires ReadyAnnounced(s.pipe, before)
    ensures ReadyAnnounced(Fallen(c, s), before)
  {
    var counter, go, time, p := CountEdge(s.portCounter, Falling), Go(c, s.readyIn), s.nextEdge.time, s.pipe;
    if p.outputPort {
      FallingReady(c, p, counter, go, time, before);
      UpdatedReady(c, FallingOutput(c, p, counter, go, time), counter, go, time, before);
    } else {
      var hit := c.UseReadyOut() && p.timeRegValid && counter == c.timeReg;
      UpdatedReady(c, p.(timeRegValid := p.timeRegValid && !hit,
                         validShiftRegEntries := if hit then 0 else p.validShiftRegEntries),
                   counter, go, time, before);
    }
  }

  lemma SampleReady(c: Config, p: Pipe, counter: nat, time: nat, v: nat, before: bool)
    ensures var r := Sample(c, p, counter, time, v);
      r.readyOut == p.readyOut && (ReadyShown(r.log, before) <==> ReadyShown(p.log, before))
  {
    var a := ShiftIn(c, p, counter, v);
    var wakes, raised := CaptureLog(c, a, counter, time);
    ReadyWake(a.log, wakes, a.pausedIn, time, before);
    ReadyNote(a.log + NoteWake(wakes, a.pausedIn, time), raised, Raised(time), before);
  }

  lemma EdgeReady(c: Config, s: State, before: bool)
    requires ReadyAnnounced(s.pipe, before)
    ensures ReadyAnnounced(SeeEdge(c, s).pipe, before)
  {
    var counter, time := CountEdge(s.portCounter, s.nextEdge.kind), s.nextEdge.time;
    EdgeHalves(c, s);
    FallenReady(c, s, before);
    SampleReady(c, Fallen(c, s), counter, time, c.EffectivePins().GetValue(time), before);
  }

  /** After any number of edges the ready output last announced is the one the port has. */
  lemma {:induction false} ReadyIsAnnounced(c: Config, s: State, before: bool, n: nat)
    requires ReadyAnnounced(s.pipe, before)
    ensures ReadyAnnounced(Iterate(c, s, n).pipe, before)
    decreases n
  {
    if n != 0 {
      EdgeReady(c, s, before);
      ReadyIsAnnounced(c, SeeEdge(c, s), before, n - 1);
    }
  }

  // ---- Turning a port around for output ----

  /** The falling edge after `out` on an untimed input port loads the value. */
  lemma OutLoads(c: Config, s: State, value: nat)
    requires NoReadySignals(c) && !s.pipe.outputPort && !s.pipe.timeRegValid && !s.pipe.readyOut
    requires s.nextEdge.kind == Falling
    ensures var p, r := s.pipe, SeeEdge(c, Out(s, value)).pipe;
      && r.outputPort && r.shiftReg == value
      && r.log == p.log + NoteWake(true, p.pausedOut, s.nextEdge.time)
                  + Note(Mask(p.shiftReg, c.width) != Mask(value, c.width),
                         Pins(c.Effective(Mask(value, c.width)), true, s.nextEdge.time))
  {
    var q := Out(s, value).pipe;
    assert Loads(c, q, CountEdge(s.portCounter, Falling), true);
  }

  /** `out` does not announce what the register holds from sampling, but compares with it: the new level is announced,
      if and only if nothing was left in the low bits or the value differs from it. */
  lemma OutIsAnnounced(c: Config, s: State, value: nat, before: nat)
    requires NoReadySignals(c) && !s.pipe.outputPort && !s.pipe.timeRegValid && !s.pipe.readyOut
    requires s.nextEdge.kind == Falling && Announced(c, s.pipe, before)
    ensures Announced(c, SeeEdge(c, Out(s, value)).pipe, before) <==>
              Mask(s.pipe.shiftReg, c.width) == 0 || Mask(s.pipe.shiftReg, c.width) != Mask(value, c.width)
  {
    var p, time := s.pipe, s.nextEdge.time;
    OutLoads(c, s, value);
    ShownWake(p.log, true, p.pausedOut, time, before);
    ShownNote(p.log + NoteWake(true, p.pausedOut, time), Mask(p.shiftReg, c.width) != Mask(value, c.width),
              Pins(c.Effective(Mask(value, c.width)), true, time), before);
  }

  /** A one-bit port just turned on samples a high pin, and then outputs a one: nobody is told. */
  lemma HighAfterHighIsMissed(c: Config)
    requires NoReadySignals(c) && c.width == 1 && c.transferWidth == 1 && c.samplingEdge == Rising && !c.inverted
    requires c.pins == Signal(0, 1)
    ensures var s := Iterate(c, TurnedOn(), 2);
      && s.pipe.log == [] && !s.pipe.outputPort && s.nextEdge.kind == Falling
      && Announced(c, s.pipe, 0) && !Announced(c, SeeEdge(c, Out(s, 1)).pipe, 0)
  {
    var s := TurnedOn();
    var a, b := SeeEdge(c, s), SeeEdge(c, SeeEdge(c, s));
    assert Iterate(c, s, 2) == Iterate(c, a, 1) == Iterate(c, b, 0);
    assert a.pipe == s.pipe;
    assert b.pipe == Sample(c, a.pipe, a.portCounter, a.nextEdge.time, 1);
    assert b.pipe.shiftReg == 1;
    assert Mask(1, 1) == 1;
    OutIsAnnounced(c, b, 1, 0);
  }
}
