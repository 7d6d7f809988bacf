/** Fast-forwarding an output port (the output branch of `updateNoExternalChange`, lib/Port.cpp)
    against stepping it edge by edge. */
module PortOutput {
  import opened Options
  import opened Signals
  import opened PortState

  /** Equal up to the last sampled ready input, which a port without ready signalling never reads. */
  predicate Same(a: State, b: State) {
    a.pipe == b.pipe && a.portCounter == b.portCounter && a.time == b.time && a.nextEdge == b.nextEdge
  }

  predicate Drained(c: Config, p: Pipe) {
    p.validShiftRegEntries == 0 && p.portShiftCount == c.shiftRegEntries
  }

  /** The same count of edges, at the same time and before the same edge. */
  predicate SamePlace(a: State, b: State) {
    a.portCounter == b.portCounter && a.time == b.time && a.nextEdge == b.nextEdge
  }

  /** Jump over n edges: `updatePortCounter(n); nextEdge += n`. */
  function Jump(s: State, n: nat): State {
    s.(portCounter := (s.portCounter + FallingAmong(s.nextEdge.kind, n)) % COUNTER,
       nextEdge := Plus(s.nextEdge, n))
  }

  /** Jump over the last n > 0 edges of an update, which also sets the time. */
  function Skip(s: State, n: nat): State
    requires n > 0
  {
    Jump(s, n).(time := Plus(s.nextEdge, n - 1).time)
  }

  /** A skip counts and times n edges as stepping them does. */
  lemma SkipCounts(s: State, r: State, n: nat)
    requires n > 0 && Advanced(s, r, n) && r.time + s.nextEdge.halfPeriod == r.nextEdge.time
    ensures var x := Skip(s, n); x.pipe == s.pipe && SamePlace(x, r)
  {
    TimeBefore(s.nextEdge, n, r.time);
  }

  lemma TimeBefore(it: EdgeIterator, n: nat, time: nat)
    requires n > 0 && time + it.halfPeriod == Plus(it, n).time
    ensures Plus(it, n - 1).time == time
  {
    PlusOne(it, n - 1);
  }

  /** The loop that steps until the shift register is drained or n edges are used up;
      returns the state and the edges left. */
  function Drain(c: Config, s: State, n: nat): (State, nat)
    decreases n
  {
    if n == 0 || Drained(c, s.pipe) then (s, n) else Drain(c, SeeEdge(c, s), n - 1)
  }

  /** The loop that steps until the port time is no longer set. */
  function StepWhileTimed(c: Config, s: State, n: nat): (State, nat)
    decreases n
  {
    if n == 0 || !s.pipe.timeRegValid then (s, n) else StepWhileTimed(c, SeeEdge(c, s), n - 1)
  }

  /** `fallingEdgesUntilTimeMet`, with its 16-bit wrap-around */
  function FallingEdgesUntilTimeMet(c: Config, s: State): (f: nat)
    ensures 1 <= f <= COUNTER
  {
    (c.timeReg - (s.portCounter + 1)) % COUNTER + 1
  }

  function EdgesUntilTimeMet(c: Config, s: State): nat {
    var f := FallingEdgesUntilTimeMet(c, s);
    if s.nextEdge.kind == Falling then 2 * f - 1 else 2 * f
  }

  /** Drain, then jump to the end. */
  function DrainAndSkip(c: Config, s: State, n: nat): State {
    var (a, m) := Drain(c, s, n);
    if m == 0 then a else Skip(a, m)
  }

  /** Jump over e edges to just before the port time, step over it, and fast-forward the rest. */
  function PassTime(c: Config, s: State, e: nat, n: nat): State
    requires e < n
  {
    var (a, k) := StepWhileTimed(c, Jump(s, e), n - e);
    if k == 0 then a else DrainAndSkip(c, a, k)
  }

  function AfterDrain(c: Config, s: State, n: nat): State
    requires n > 0
  {
    if !s.pipe.timeRegValid || FallingAmong(s.nextEdge.kind, n) < FallingEdgesUntilTimeMet(c, s) then Skip(s, n)
    else
      FallingAmongIs(s.nextEdge.kind, n);
      PassTime(c, s, EdgesUntilTimeMet(c, s) - 1, n)
  }

  /** The output branch of `updateNoExternalChange(n)`. */
  function FastOutput(c: Config, s: State, n: nat): State {
    var (a, m) := Drain(c, s, n);
    if m == 0 then a else AfterDrain(c, a, m)
  }

  /** A port without ready signalling whose next n edges only count: nothing to shift, load,
      wake or turn around. */
  predicate Idle(c: Config, s: State, n: nat) {
    && s.pipe.outputPort && !s.pipe.readyOut && s.pipe.validShiftRegEntries == 0
    && if s.pipe.timeRegValid
       then && FallingAmong(s.nextEdge.kind, n) < FallingEdgesUntilTimeMet(c, s)
            && (s.pipe.pausedSync.None? || s.pipe.transferRegValid)
       else !s.pipe.transferRegValid && s.pipe.pausedIn.None? && s.pipe.pausedSync.None?
  }

  predicate NoReadySignals(c: Config) { c.readyMode == NoReady && c.timeReg < COUNTER }

  /** An edge depends neither on the time nor on the ready input recorded before it. */
  lemma EdgeIgnoresReadyIn(c: Config, s: State, t: State)
    requires NoReadySignals(c)
    requires s.pipe == t.pipe && s.portCounter == t.portCounter && s.nextEdge == t.nextEdge
    ensures Same(SeeEdge(c, s), SeeEdge(c, t))
  {
  }

  lemma {:induction false} IterateIgnoresReadyIn(c: Config, s: State, t: State, n: nat)
    requires NoReadySignals(c) && Same(s, t)
    ensures Same(Iterate(c, s, n), Iterate(c, t, n))
    decreases n
  {
    if n != 0 {
      EdgeIgnoresReadyIn(c, s, t);
      IterateIgnoresReadyIn(c, SeeEdge(c, s), SeeEdge(c, t), n - 1);
    }
  }

  lemma IdleFallingEdge(c: Config, p: Pipe, counter: nat, time: nat)
    requires NoReadySignals(c) && p.outputPort && !p.readyOut && p.validShiftRegEntries == 0
    requires p.timeRegValid ==> c.timeReg != counter && (p.pausedSync.None? || p.transferRegValid)
    requires !p.timeRegValid ==> !p.transferRegValid && p.pausedIn.None? && p.pausedSync.None?
    ensures FallingEdge(c, p, counter, true, time) == p
  {
    assert FallingOutput(c, p, counter, true, time) == p;
  }

  lemma IdleEdge(c: Config, s: State)
    requires NoReadySignals(c) && Idle(c, s, 1) && s.portCounter < COUNTER
    ensures Same(SeeEdge(c, s), Skip(s, 1))
  {
    PlusOne(s.nextEdge, 0);
    if s.nextEdge.kind == Falling {
      IdleFallingEdge(c, s.pipe, CountEdge(s.portCounter, Falling), s.nextEdge.time);
    }
  }

  /** The deadline comes one falling edge closer with each falling edge. */
  lemma DeadlineStep(c: Config, s: State, t: State)
    requires c.timeReg < COUNTER && s.portCounter < COUNTER
    requires t.portCounter == (s.portCounter + 1) % COUNTER && FallingEdgesUntilTimeMet(c, s) > 1
    ensures FallingEdgesUntilTimeMet(c, t) == FallingEdgesUntilTimeMet(c, s) - 1
  {
  }

  lemma PlusTwice(it: EdgeIterator, n: nat)
    requires n > 1
    ensures Plus(Plus(it, 1), n - 1) == Plus(it, n) && Plus(Plus(it, 1), n - 2).time == Plus(it, n - 1).time
    ensures Plus(it, 1).kind == Flip(it.kind)
  {
    PlusOne(it, 0);
    PlusOne(it, n - 1);
    PlusOne(it, n - 2);
  }

  lemma CounterSplit(counter: nat, kind: EdgeType, n: nat)
    requires n > 1 && counter < COUNTER
    ensures ((counter + FallingAmong(kind, 1)) % COUNTER + FallingAmong(Flip(kind), n - 1)) % COUNTER
            == (counter + FallingAmong(kind, n)) % COUNTER
  {
    CounterStep(counter, kind, n);
  }

  lemma SkipSkip(s: State, n: nat)
    requires s.portCounter < COUNTER && n > 1
    ensures Skip(s, n) == Skip(Skip(s, 1), n - 1)
  {
    CounterSplit(s.portCounter, s.nextEdge.kind, n);
    PlusTwice(s.nextEdge, n);
  }

  lemma IdleRest(c: Config, s: State, n: nat)
    requires c.timeReg < COUNTER && s.portCounter < COUNTER && n > 1 && Idle(c, s, n)
    ensures Idle(c, s, 1) && Idle(c, Skip(s, 1), n - 1)
  {
    PlusOne(s.nextEdge, 0);
    if s.pipe.timeRegValid && s.nextEdge.kind == Falling {
      DeadlineStep(c, s, Skip(s, 1));
    }
  }

  /** Jumping over n idle edges is stepping over them. */
  lemma {:induction false} SkipIsIterate(c: Config, s: State, n: nat)
    requires NoReadySignals(c) && s.portCounter < COUNTER && n > 0 && Idle(c, s, n)
    ensures Same(Iterate(c, s, n), Skip(s, n))
    decreases n
  {
    if n == 1 {
      IdleEdge(c, s);
      assert Iterate(c, s, 1) == Iterate(c, SeeEdge(c, s), 0);
    } else {
      IdleRest(c, s, n);
      SkipSkip(s, n);
      IdleEdge(c, s);
      IterateIgnoresReadyIn(c, SeeEdge(c, s), Skip(s, 1), n - 1);
      SkipIsIterate(c, Skip(s, 1), n - 1);
    }
  }

  /** The state a fast-forward may start from: nobody waits to input or synchronise, a time is set only
      together with a transfer, and no untimed transfer waits on a drained shift register. */
  predicate Quiet(c: Config, p: Pipe) {
    && p.outputPort && !p.readyOut && p.pausedIn.None? && p.pausedSync.None?
    && (p.timeRegValid ==> p.transferRegValid)
    && !(p.transferRegValid && !p.timeRegValid && Drained(c, p))
  }

  lemma QuietFallingEdge(c: Config, p: Pipe, counter: nat, time: nat)
    requires NoReadySignals(c) && Quiet(c, p)
    ensures var r := FallingEdge(c, p, counter, true, time);
            Quiet(c, r) && (r.timeRegValid ==> p.timeRegValid)
  {
  }

  lemma {:induction false} QuietIterate(c: Config, s: State, n: nat)
    requires NoReadySignals(c) && Quiet(c, s.pipe)
    ensures var r := Iterate(c, s, n).pipe; Quiet(c, r) && (r.timeRegValid ==> s.pipe.timeRegValid)
    decreases n
  {
    if n != 0 {
      QuietFallingEdge(c, s.pipe, CountEdge(s.portCounter, s.nextEdge.kind), s.nextEdge.time);
      QuietIterate(c, SeeEdge(c, s), n - 1);
    }
  }

  lemma {:induction false} DrainIterates(c: Config, s: State, n: nat)
    ensures var (a, m) := Drain(c, s, n);
            m <= n && a == Iterate(c, s, n - m) && (m == 0 || Drained(c, a.pipe))
    decreases n
  {
    if n != 0 && !Drained(c, s.pipe) { DrainIterates(c, SeeEdge(c, s), n - 1); }
  }

  lemma {:induction false} StepWhileTimedIterates(c: Config, s: State, n: nat)
    ensures var (a, m) := StepWhileTimed(c, s, n);
            && m <= n && a == Iterate(c, s, n - m) && (m == 0 || !a.pipe.timeRegValid)
            && (n > 0 && s.pipe.timeRegValid ==> m < n)
    decreases n
  {
    if n != 0 && s.pipe.timeRegValid { StepWhileTimedIterates(c, SeeEdge(c, s), n - 1); }
  }

  /** Two stretches of edges in a row. */
  lemma Continue(c: Config, s: State, k: nat, x: State, m: nat, y: State)
    requires NoReadySignals(c) && Same(x, Iterate(c, s, k)) && Same(y, Iterate(c, x, m))
    ensures Same(y, Iterate(c, s, k + m))
  {
    IterateIgnoresReadyIn(c, x, Iterate(c, s, k), m);
    IterateAdd(c, s, k, m);
  }

  /** Skipping the idle rest of a stretch. */
  lemma SkipFrom(c: Config, s: State, k: nat, a: State, m: nat)
    requires NoReadySignals(c) && a == Iterate(c, s, k) && a.portCounter < COUNTER && m > 0 && Idle(c, a, m)
    ensures Same(Skip(a, m), Iterate(c, s, k + m))
  {
    SkipIsIterate(c, a, m);
    Continue(c, s, k, a, m, Skip(a, m));
  }

  lemma DrainAndSkipMatches(c: Config, s: State, n: nat)
    requires NoReadySignals(c) && s.portCounter < COUNTER && Quiet(c, s.pipe) && !s.pipe.timeRegValid
    ensures Same(DrainAndSkip(c, s, n), Iterate(c, s, n))
  {
    var (a, m) := Drain(c, s, n);
    DrainIterates(c, s, n);
    QuietIterate(c, s, n - m);
    SteppedAdvances(c, s, a, n - m);
    if m > 0 { SkipFrom(c, s, n - m, a, m); }
  }

  /** The jump leaves the time alone, but the next edge does not read it. */
  lemma IterateAfterJump(c: Config, s: State, e: nat, k: nat)
    requires NoReadySignals(c) && s.portCounter < COUNTER && k > 0 && (e > 0 ==> Idle(c, s, e))
    ensures Same(Iterate(c, Jump(s, e), k), Iterate(c, s, e + k))
  {
    var j, i := Jump(s, e), Iterate(c, s, e);
    PlusOne(s.nextEdge, 0);
    if e > 0 { SkipIsIterate(c, s, e); }
    EdgeIgnoresReadyIn(c, j, i);
    IterateIgnoresReadyIn(c, SeeEdge(c, j), SeeEdge(c, i), k - 1);
    IterateAdd(c, s, e, k);
  }

  lemma FallingBeforeTime(c: Config, s: State)
    ensures FallingAmong(s.nextEdge.kind, EdgesUntilTimeMet(c, s) - 1) == FallingEdgesUntilTimeMet(c, s) - 1
  {
    FallingAmongIs(s.nextEdge.kind, EdgesUntilTimeMet(c, s) - 1);
  }

  lemma IdleBeforeTime(c: Config, s: State)
    requires NoReadySignals(c) && Quiet(c, s.pipe) && Drained(c, s.pipe) && s.pipe.timeRegValid
    ensures Idle(c, s, EdgesUntilTimeMet(c, s) - 1)
  {
    FallingBeforeTime(c, s);
  }

  lemma StepsUntilTime(c: Config, j: State, m: nat)
    requires NoReadySignals(c) && j.portCounter < COUNTER && Quiet(c, j.pipe) && j.pipe.timeRegValid && m > 0
    ensures var (a, k) := StepWhileTimed(c, j, m);
            && k < m && a == Iterate(c, j, m - k)
            && (k > 0 ==> Quiet(c, a.pipe) && !a.pipe.timeRegValid && a.portCounter < COUNTER)
  {
    var (a, k) := StepWhileTimed(c, j, m);
    StepWhileTimedIterates(c, j, m);
    QuietIterate(c, j, m - k);
    SteppedAdvances(c, j, a, m - k);
  }

  /** Jumping to just before the port time and stepping over it. */
  lemma StepPastTime(c: Config, s: State, e: nat, n: nat)
    requires NoReadySignals(c) && s.portCounter < COUNTER && e < n
    requires Quiet(c, s.pipe) && s.pipe.timeRegValid && Idle(c, s, e)
    ensures var (a, k) := StepWhileTimed(c, Jump(s, e), n - e);
            && k <= n && Same(a, Iterate(c, s, n - k))
            && (k > 0 ==> Quiet(c, a.pipe) && !a.pipe.timeRegValid && a.portCounter < COUNTER)
  {
    var j := Jump(s, e);
    StepsUntilTime(c, j, n - e);
    IterateAfterJump(c, s, e, n - e - StepWhileTimed(c, j, n - e).1);
  }

  lemma PassTimeMatches(c: Config, s: State, e: nat, n: nat)
    requires NoReadySignals(c) && s.portCounter < COUNTER && e < n
    requires Quiet(c, s.pipe) && s.pipe.timeRegValid && Idle(c, s, e)
    ensures Same(PassTime(c, s, e, n), Iterate(c, s, n))
  {
    StepPastTime(c, s, e, n);
    var (a, k) := StepWhileTimed(c, Jump(s, e), n - e);
    if k > 0 {
      DrainAndSkipMatches(c, a, k);
      Continue(c, s, n - k, a, k, DrainAndSkip(c, a, k));
    }
  }

  lemma AfterDrainMatches(c: Config, a: State, m: nat)
    requires NoReadySignals(c) && a.portCounter < COUNTER && m > 0
    requires Quiet(c, a.pipe) && Drained(c, a.pipe)
    ensures Same(AfterDrain(c, a, m), Iterate(c, a, m))
  {
    if !a.pipe.timeRegValid || FallingAmong(a.nextEdge.kind, m) < FallingEdgesUntilTimeMet(c, a) {
      SkipIsIterate(c, a, m);
    } else {
      IdleBeforeTime(c, a);
      FallingAmongIs(a.nextEdge.kind, m);
      PassTimeMatches(c, a, EdgesUntilTimeMet(c, a) - 1, m);
    }
  }

  /** Fast-forwarding n edges is n edges one at a time: same registers, same counter through every
      wrap-around, same time, and the same pin changes and woken threads in the log. */
  lemma FastOutputMatches(c: Config, s: State, n: nat)
    requires NoReadySignals(c) && s.portCounter < COUNTER && Quiet(c, s.pipe)
    ensures Same(FastOutput(c, s, n), Iterate(c, s, n))
  {
    var (a, m) := Drain(c, s, n);
    DrainIterates(c, s, n);
    if m > 0 {
      QuietIterate(c, s, n - m);
      IterateBookkeeping(c, s, n - m);
      AfterDrainMatches(c, a, m);
      Continue(c, s, n - m, a, m, AfterDrain(c, a, m));
    }
  }

  // ---- Counting edges, whatever the mode ----

  /** Of n edges, all but those left have been counted. */
  predicate Counted(s: State, end: (State, nat), n: nat) {
    end.1 <= n && Advanced(s, end.0, n - end.1) && end.0.portCounter < COUNTER
  }

  /** What one part counts and what the next counts. */
  lemma CountedAdd(s: State, a: State, m: nat, end: (State, nat), n: nat)
    requires Advanced(s, a, m) && Counted(a, end, n)
    ensures Counted(s, end, m + n)
  {
    AdvancedAdd(s, a, end.0, m, n - end.1);
  }

  lemma TimedStepsAdvance(c: Config, a: State, m: nat)
    requires a.portCounter < COUNTER
    ensures Counted(a, StepWhileTimed(c, a, m), m)
  {
    var (b, k) := StepWhileTimed(c, a, m);
    StepWhileTimedIterates(c, a, m);
    SteppedAdvances(c, a, b, m - k);
  }

  lemma DrainAdvances(c: Config, s: State, n: nat)
    requires s.portCounter < COUNTER
    ensures Counted(s, Drain(c, s, n), n)
  {
    var (a, m) := Drain(c, s, n);
    DrainIterates(c, s, n);
    SteppedAdvances(c, s, a, n - m);
  }

  lemma TimeIsWithin(c: Config, s: State, n: nat)
    requires FallingAmong(s.nextEdge.kind, n) >= FallingEdgesUntilTimeMet(c, s)
    ensures EdgesUntilTimeMet(c, s) <= n
  {
    FallingAmongIs(s.nextEdge.kind, n);
  }

  lemma DrainAndSkipAdvances(c: Config, s: State, n: nat)
    requires s.portCounter < COUNTER
    ensures Advanced(s, DrainAndSkip(c, s, n), n)
  {
    var end := Drain(c, s, n);
    DrainAdvances(c, s, n);
    if end.1 > 0 { AdvancedAdd(s, end.0, Skip(end.0, end.1), n - end.1, end.1); }
  }

  lemma PassTimeAdvances(c: Config, s: State, e: nat, n: nat)
    requires e < n
    ensures Advanced(s, PassTime(c, s, e, n), n)
  {
    var end := StepWhileTimed(c, Jump(s, e), n - e);
    TimedStepsAdvance(c, Jump(s, e), n - e);
    CountedAdd(s, Jump(s, e), e, end, n - e);
    if end.1 > 0 {
      DrainAndSkipAdvances(c, end.0, end.1);
      AdvancedAdd(s, end.0, DrainAndSkip(c, end.0, end.1), n - end.1, end.1);
    }
  }

  lemma AfterDrainAdvances(c: Config, a: State, m: nat)
    requires a.portCounter < COUNTER && m > 0
    ensures Advanced(a, AfterDrain(c, a, m), m)
  {
    if a.pipe.timeRegValid && FallingAmong(a.nextEdge.kind, m) >= FallingEdgesUntilTimeMet(c, a) {
      TimeIsWithin(c, a, m);
      PassTimeAdvances(c, a, EdgesUntilTimeMet(c, a) - 1, m);
    }
  }

  /** Whatever the mode and whichever branch is taken, n edges are consumed and counted. */
  lemma FastOutputAdvances(c: Config, s: State, n: nat)
    requires s.portCounter < COUNTER
    ensures Advanced(s, FastOutput(c, s, n), n)
  {
    var end := Drain(c, s, n);
    DrainAdvances(c, s, n);
    if end.1 > 0 {
      AfterDrainAdvances(c, end.0, end.1);
      AdvancedAdd(s, end.0, AfterDrain(c, end.0, end.1), n - end.1, end.1);
    }
  }
}
