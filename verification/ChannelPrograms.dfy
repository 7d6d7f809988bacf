/** What the sending threads meant to send: read off the steps of a run, and compared with what became of it. */
module ChannelPrograms {
  import opened Options
  import opened ChannelState
  import opened ChannelSafety
  import opened ChannelHistory
  import opened ChannelRuns

  /** A sender as its thread sees it: the destination it set, the destination of the packet it is in the middle of
      (none of a junked one), and the outputs it has issued, each with its destination. */
  datatype Program = Program(target: Option<nat>, packet: Option<Option<nat>>, issued: seq<Posted>)

  /** Is the thread of j in the middle of an output, paused or about to repeat it? */
  predicate Repeating(y: System, steps: seq<Step>, j: nat) {
    var r := Run(y, steps); r.Some? && j < |r.value.tx| && r.value.tx[j].retry.Some?
  }

  predicate Listening(y: System, steps: seq<Step>, d: Option<nat>) {
    var r := Run(y, steps); d.Some? && r.Some? && d.value < |r.value.rx| && r.value.rx[d.value].inUse
  }

  /** A packet goes to the destination set before it began; it is junked if nobody was listening there when it
      began. An output counts when it is first executed, not when it is repeated. */
  function ProgramOf(y: System, steps: seq<Step>, j: nat): Program {
    if steps == [] then Program(None, None, [])
    else
      var before, step := steps[..|steps| - 1], steps[|steps| - 1];
      var p := ProgramOf(y, before, j);
      if step.who != j then p
      else if step.SetsDest? then (if p.packet.Some? then p else p.(target := step.target))
      else if step.Sends? && !Repeating(y, before, j) then
        var d := if p.packet.Some? then p.packet.value else if Listening(y, before, p.target) then p.target else None;
        p.(packet := if Closes(step.out) then None else Some(d), issued := p.issued + [Posted(d, step.out)])
      else p
  }

  /** Where the output in progress goes. */
  function Addressed(t: Tx): Option<nat> {
    if !t.inPacket then t.target else if t.junkPacket then None else t.dest
  }

  function Pending(t: Tx): seq<Posted> { if t.retry.Some? then [Posted(Addressed(t), t.retry.value)] else [] }

  function Packet(t: Tx): Option<Option<nat>> {
    if t.retry.Some? then (if Closes(t.retry.value) then None else Some(Addressed(t)))
    else if t.inPacket then Some(Addressed(t)) else None
  }

  /** What was issued is what was delivered or junked, in order, and then what is in progress. */
  predicate Tracks(s: Net, p: Program, j: nat)
    requires j < |s.tx| == |s.past|
  {
    p == Program(s.tx[j].target, Packet(s.tx[j]), s.past[j].sent + Pending(s.tx[j]))
  }

  /** Nothing changed for the sender but that it may have been woken. */
  predicate Untouched(s: Net, t: Net, j: nat)
    requires j < |s.tx| == |s.past| && j < |t.tx| == |t.past|
  {
    t.tx[j].(pausedOut := s.tx[j].pausedOut) == s.tx[j] && t.past[j].sent == s.past[j].sent
  }

  lemma DeliverUntouched(s: Net, i: nat, d: nat, op: Out, j: nat)
    requires Shape(s) && i < |s.tx| && d < |s.tx| && j < |s.tx| && j != i
    ensures var t := Deliver(s, i, d, op); |t.tx| == |t.past| == |s.tx| && Untouched(s, t, j)
  {
    var a := Accept(s, i, d, op);
    assert Untouched(s, a, j) && Shape(a);
    if Closes(op) { CloseUntouched(a, i, d, j); }
  }

  lemma CloseUntouched(s: Net, i: nat, d: nat, j: nat)
    requires Shape(s) && i < |s.tx| && d < |s.tx| && j < |s.tx| && j != i
    ensures var t := Close(s, i, d); |t.tx| == |t.past| == |s.tx| && Untouched(s, t, j)
  {
  }

  lemma SendUntouched(s: Net, i: nat, op: Out, j: nat)
    requires Shape(s) && i < |s.tx| && s.tx[i].inPacket && Bound(s, i) && j < |s.tx| && j != i
    ensures var t := Send(s, i, op); |t.tx| == |t.past| == |s.tx| && Untouched(s, t, j)
  {
    if !s.tx[i].junkPacket && HasRoom(s, s.tx[i].dest.value, op) {
      DeliverUntouched(s, i, s.tx[i].dest.value, op, j);
    }
  }

  lemma OpenUntouched(s: Net, i: nat, j: nat)
    requires Shape(s) && i < |s.tx| && Bound(s, i) && RouteOpens(s, i) && j < |s.tx| && j != i
    ensures var t := OpenRoute(s, i);
      && |t.tx| == |t.past| == |s.tx| && t.tx[j] == s.tx[j] && t.past == s.past
      && Shape(t) && t.tx[i].inPacket && Bound(t, i)
  {
  }

  lemma OthersUntouched(s: Net, i: nat, op: Out, j: nat)
    requires Shape(s) && i < |s.tx| && Bound(s, i) && j < |s.tx| && j != i
    ensures var t := Output(s, i, op); |t.tx| == |t.past| == |s.tx| && Untouched(s, t, j)
  {
    if RouteOpens(s, i) {
      OpenUntouched(s, i, j);
      SendUntouched(OpenRoute(s, i), i, op, j);
    }
  }

  lemma InputUntouched(s: Net, d: nat, op: In, j: nat)
    requires Shape(s) && d < |s.tx| && j < |s.tx|
    ensures var t := Input(s, d, op); |t.tx| == |t.past| == |s.tx| && Untouched(s, t, j)
  {
  }

  /** An output to `a` has been made: it is done, or it is in progress. */
  predicate Made(s: Net, t: Net, i: nat, a: Option<nat>, op: Out)
    requires i < |s.tx| == |s.past| && i < |t.tx| == |t.past|
  {
    && t.past[i].sent + Pending(t.tx[i]) == s.past[i].sent + [Posted(a, op)]
    && t.tx[i].target == s.tx[i].target && Packet(t.tx[i]) == (if Closes(op) then None else Some(a))
  }

  lemma DeliverMakes(s: Net, i: nat, d: nat, op: Out)
    requires Shape(s) && i < |s.tx| && d < |s.tx|
    requires s.tx[i].inPacket && !s.tx[i].junkPacket && s.tx[i].dest == Some(d)
    ensures var t := Deliver(s, i, d, op); |t.tx| == |t.past| == |s.tx| && Made(s, t, i, Some(d), op)
  {
    var a := Accept(s, i, d, op);
    assert Shape(a) && a.past[i].sent == s.past[i].sent + [Posted(Some(d), op)] && a.tx[i] == s.tx[i].(retry := None);
    if Closes(op) { CloseMakes(a, i, d); }
  }

  lemma CloseMakes(s: Net, i: nat, d: nat)
    requires Shape(s) && i < |s.tx| && d < |s.tx| && s.tx[i].retry.None?
    ensures var t := Close(s, i, d);
      && |t.tx| == |t.past| == |s.tx| && t.past[i].sent == s.past[i].sent
      && t.tx[i].target == s.tx[i].target && t.tx[i].retry.None? && !t.tx[i].inPacket
  {
  }

  /** With the route open nothing is dropped and nothing done twice. */
  lemma SendMakes(s: Net, i: nat, op: Out)
    requires Shape(s) && i < |s.tx| && s.tx[i].inPacket && Bound(s, i)
    ensures var t := Send(s, i, op); |t.tx| == |t.past| == |s.tx| && Made(s, t, i, Addressed(s.tx[i]), op)
  {
    if !s.tx[i].junkPacket && HasRoom(s, s.tx[i].dest.value, op) { DeliverMakes(s, i, s.tx[i].dest.value, op); }
  }

  /** Where a packet that begins now goes: to the destination set, if it is in use. */
  function Heading(s: Net, i: nat): Option<nat>
    requires Shape(s) && i < |s.tx|
  {
    if s.tx[i].inPacket then Addressed(s.tx[i]) else if Junked(s, i) then None else s.tx[i].target
  }

  lemma OpenHeads(s: Net, i: nat)
    requires Shape(s) && i < |s.tx| && Bound(s, i) && TxOk(s.tx[i]) && RouteOpens(s, i)
    ensures var t := OpenRoute(s, i);
      && Shape(t) && |t.tx| == |s.tx| && t.past == s.past && t.tx[i].inPacket && Bound(t, i)
      && t.tx[i].target == s.tx[i].target && Addressed(t.tx[i]) == Heading(s, i)
  {
  }

  lemma OutputMakes(s: Net, i: nat, op: Out)
    requires Shape(s) && i < |s.tx| && Bound(s, i) && TxOk(s.tx[i])
    ensures var t := Output(s, i, op); |t.tx| == |t.past| == |s.tx| && Made(s, t, i, Heading(s, i), op)
  {
    if RouteOpens(s, i) {
      OpenHeads(s, i);
      SendMakes(OpenRoute(s, i), i, op);
    }
  }

  /** A repeated output heads where it was going: its route has been granted, and cannot have been freed. */
  lemma RepeatHeads(s: Net, i: nat)
    requires Inv(s) && i < |s.tx| && s.tx[i].retry.Some? && !s.tx[i].pausedOut
    ensures Heading(s, i) == Addressed(s.tx[i])
  {
    assert TxOk(s.tx[i]);
    if !s.tx[i].inPacket {
      var d := s.tx[i].target.value;
      assert SourceOk(s, d, i) && RxOk(s.rx[d], s.capacity);
    }
  }

  // ---- Runs ----

  /** What a step that is not an output of j does to j's program. */
  lemma OtherTracks(s: Net, step: Step, p: Program, j: nat)
    requires Safe(s) && Legal(s, step) && j < |s.tx| && Tracks(s, p, j) && (step.who != j || !step.Sends?)
    ensures Bound(s, step.who)
    ensures var t := Apply(s, step);
      && |t.tx| == |t.past| == |s.tx|
      && Tracks(t, if step.who == j && step.SetsDest? && p.packet.None? then p.(target := step.target) else p, j)
  {
    StepIsSafe(s, step);
    assert TxOk(s.tx[j]) && UnusedOk(s, j);
    match step
    case Sends(i, op) => OthersUntouched(s, i, op, j);
    case Receives(i, op) => InputUntouched(s, i, op, j);
    case SetsDest(i, target) =>
    case Allocates(i) =>
    case Frees(i) =>
  }

  lemma NewOutputTracks(s: Net, p: Program, j: nat, op: Out)
    requires Safe(s) && j < |s.tx| && Idle(s, j, op) && s.tx[j].retry.None? && Tracks(s, p, j)
    ensures Bound(s, j)
    ensures var t, a := Output(s, j, op), Heading(s, j);
      && |t.tx| == |t.past| == |s.tx|
      && Tracks(t, p.(packet := if Closes(op) then None else Some(a), issued := p.issued + [Posted(a, op)]), j)
  {
    assert TxOk(s.tx[j]);
    OutputMakes(s, j, op);
  }

  lemma RepeatTracks(s: Net, p: Program, j: nat, op: Out)
    requires Safe(s) && j < |s.tx| && Idle(s, j, op) && s.tx[j].retry.Some? && Tracks(s, p, j)
    ensures Bound(s, j)
    ensures var t := Output(s, j, op); |t.tx| == |t.past| == |s.tx| && Tracks(t, p, j)
  {
    assert TxOk(s.tx[j]);
    RepeatHeads(s, j);
    OutputMakes(s, j, op);
  }

  /** In every run, what a thread issued is what was delivered or junked, in order, and then what it is still busy
      with. */
  lemma {:induction false} RunTracks(y: System, steps: seq<Step>, s: Net, j: nat)
    requires Run(y, steps) == Some(s) && j < |s.tx|
    ensures |s.past| == |s.tx| && Tracks(s, ProgramOf(y, steps, j), j)
    decreases |steps|
  {
    RunIsSafe(y, steps, s);
    if steps != [] {
      var before, step := steps[..|steps| - 1], steps[|steps| - 1];
      var r, p := Run(y, before).value, ProgramOf(y, before, j);
      RunIsSafe(y, before, r);
      StepKeepsSize(r, step);
      RunTracks(y, before, r, j);
      if step.who != j || !step.Sends? {
        OtherTracks(r, step, p, j);
      } else if r.tx[j].retry.None? {
        NewOutputTracks(r, p, j, step.out);
      } else {
        RepeatTracks(r, p, j, step.out);
      }
    }
  }

  lemma StepKeepsSize(s: Net, step: Step)
    requires Safe(s) && Legal(s, step)
    ensures Bound(s, step.who) && |Apply(s, step).tx| == |s.tx|
  {
    StepIsSafe(s, step);
    match step
    case Sends(i, op) => assert TxOk(s.tx[i]); OutputMakes(s, i, op);
    case Receives(i, op) => InputUntouched(s, i, op, i);
    case SetsDest(i, target) =>
    case Allocates(i) =>
    case Frees(i) =>
  }
}
