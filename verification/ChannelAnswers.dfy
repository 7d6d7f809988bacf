/** What the receiving threads are told: read off the answers to their instructions, and compared with what left the
    buffers and with what was sent. */
module ChannelAnswers {
  import opened Options
  import opened ChannelState
  import opened ChannelSafety
  import opened ChannelHistory
  import opened ChannelRuns
  import opened ChannelPrograms

  /** The most significant byte of a word is sent first. */
  lemma WordBytes(w: Word)
    ensures var t := Tokens(OutWord(w));
      && |t| == 4 && t[0].Data? && t[1].Data? && t[2].Data? && t[3].Data?
      && t[0].value * 0x100_0000 + t[1].value * 0x1_0000 + t[2].value * 0x100 + t[3].value == w
  {
    SplitJoins(w);
  }

  /** The tokens a thread has got with the answer to an input; a test gets none. */
  function Told(op: In, answer: nat): seq<Token> {
    match op
    case InToken => [Data(answer % 0x100)]
    case InCt => [Ctrl(answer % 0x100)]
    case CheckCt(v) => [Ctrl(v)]
    case InWord => Split(answer % 0x1_0000_0000)
    case TestCt => []
    case TestWct => []
  }

  /** An input is answered with what it takes from the front of the buffer. */
  lemma AnswerIsFront(buf: seq<Token>, op: In)
    requires Look(buf, op).Continue?
    ensures Width(op) <= |buf| && Told(op, Look(buf, op).value) == buf[..Width(op)]
  {
    if op.InWord? { JoinSplits(buf); }
  }

  /** The tokens the thread of d has been told of. */
  function Heard(y: System, steps: seq<Step>, d: nat): seq<Token> {
    if steps == [] then []
    else
      var before, step := steps[..|steps| - 1], steps[|steps| - 1];
      var heard, r := Heard(y, before, d), Run(y, before);
      if step.Receives? && step.who == d && r.Some? && d < |r.value.rx|
         && Look(r.value.rx[d].buf, step.in_).Continue?
      then heard + Told(step.in_, Look(r.value.rx[d].buf, step.in_).value)
      else heard
  }

  predicate TakesNothing(s: Net, t: Net, d: nat)
    requires d < |s.past|
  {
    |t.past| == |s.past| && t.past[d].taken == s.past[d].taken
  }

  lemma DeliverTakesNothing(s: Net, i: nat, c: nat, op: Out, d: nat)
    requires Shape(s) && i < |s.tx| && c < |s.tx| && d < |s.tx|
    ensures TakesNothing(s, Deliver(s, i, c, op), d)
  {
    var a := Accept(s, i, c, op);
    assert Shape(a) && TakesNothing(s, a, d);
  }

  lemma SendTakesNothing(s: Net, i: nat, op: Out, d: nat)
    requires Shape(s) && i < |s.tx| && s.tx[i].inPacket && Bound(s, i) && d < |s.tx|
    ensures TakesNothing(s, Send(s, i, op), d)
  {
    if !s.tx[i].junkPacket && HasRoom(s, s.tx[i].dest.value, op) {
      DeliverTakesNothing(s, i, s.tx[i].dest.value, op, d);
    }
  }

  lemma OpenTakesNothing(s: Net, i: nat)
    requires Shape(s) && i < |s.tx| && Bound(s, i) && RouteOpens(s, i)
    ensures var a := OpenRoute(s, i);
      Shape(a) && |a.tx| == |s.tx| && a.past == s.past && a.tx[i].inPacket && Bound(a, i)
  {
  }

  lemma OutputTakesNothing(s: Net, i: nat, op: Out, d: nat)
    requires Shape(s) && i < |s.tx| && Bound(s, i) && d < |s.tx|
    ensures TakesNothing(s, Output(s, i, op), d)
  {
    if RouteOpens(s, i) {
      OpenTakesNothing(s, i);
      SendTakesNothing(OpenRoute(s, i), i, op, d);
    }
  }

  lemma StepHears(s: Net, step: Step, d: nat)
    requires Safe(s) && Legal(s, step) && d < |s.tx|
    ensures Bound(s, step.who)
    ensures var t := Apply(s, step);
      && d < |t.past|
      && t.past[d].taken == s.past[d].taken +
           if step.Receives? && step.who == d && Look(s.rx[d].buf, step.in_).Continue?
           then Told(step.in_, Look(s.rx[d].buf, step.in_).value) else []
  {
    StepIsSafe(s, step);
    match step
    case Sends(i, op) => OutputTakesNothing(s, i, op, d);
    case Receives(i, op) =>
      if Look(s.rx[i].buf, op).Continue? { AnswerIsFront(s.rx[i].buf, op); }
    case SetsDest(i, target) =>
    case Allocates(i) =>
    case Frees(i) =>
  }

  /** In every run, the thread has been told exactly of the tokens that left the buffer. */
  lemma {:induction false} RunIsHeard(y: System, steps: seq<Step>, s: Net, d: nat)
    requires Run(y, steps) == Some(s) && d < |s.tx|
    ensures d < |s.past| && Heard(y, steps, d) == s.past[d].taken
    decreases |steps|
  {
    RunIsSafe(y, steps, s);
    if steps != [] {
      var before, step := steps[..|steps| - 1], steps[|steps| - 1];
      var r := Run(y, before).value;
      RunIsSafe(y, before, r);
      StepKeepsSize(r, step);
      RunIsHeard(y, before, r, d);
      StepHears(r, step, d);
    }
  }
}
