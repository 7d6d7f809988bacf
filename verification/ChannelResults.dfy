/** What the channel protocol gives its users, in every run. */
module ChannelResults {
  import opened Options
  import opened Sequences
  import opened ChannelState
  import opened ChannelSafety
  import opened ChannelHistory
  import opened ChannelRuns
  import opened ChannelPrograms
  import opened ChannelAnswers

  // ---- Packets ----

  lemma {:induction false} OneSource(log: seq<Sent>, a: nat, b: nat)
    requires OneSourcePerPacket(log) && a <= b < |log|
    requires forall k | a <= k < b :: !Closes(log[k].op)
    ensures log[a].source == log[b].source
    decreases b - a
  {
    if a < b { OneSource(log, a + 1, b); }
  }

  /** The output j is busy with, if it goes to d. */
  function PendingTo(t: Tx, d: nat): seq<Out> {
    if t.retry.Some? && Addressed(t) == Some(d) then [t.retry.value] else []
  }

  /** Everything a destination accepts between two releases of its route comes from one sender; what it has accepted
      from each sender is, in order, what that sender's thread issued to it, but for an output the thread is still
      busy with; the tokens the thread has been told of, and then those in the buffer, are the tokens of what was
      accepted; and routes that had to wait are granted first come, first served. */
  lemma PacketsArrive(y: System, steps: seq<Step>, s: Net, d: nat)
    requires Run(y, steps) == Some(s) && d < |s.tx|
    ensures |s.past| == |s.rx| == |s.tx|
    ensures forall a, b | 0 <= a <= b < |s.past[d].accepted|
          && (forall k | a <= k < b :: s.past[d].accepted[k].op !in {OutCt(1), OutCt(2)}) ::
              s.past[d].accepted[a].source == s.past[d].accepted[b].source
    ensures forall j | 0 <= j < |s.tx| ::
              From(s.past[d].accepted, j) + PendingTo(s.tx[j], d) == To(ProgramOf(y, steps, j).issued, d)
    ensures Heard(y, steps, d) + s.rx[d].buf == Stream(s.past[d].accepted) && |s.rx[d].buf| <= s.capacity
    ensures s.past[d].granted + s.rx[d].queue == s.past[d].queued
  {
    RunIsSafe(y, steps, s);
    RunIsHeard(y, steps, s, d);
    assert Recorded(s, d) && RxOk(s.rx[d], s.capacity);
    forall a, b | 0 <= a <= b < |s.past[d].accepted|
                  && (forall k | a <= k < b :: s.past[d].accepted[k].op !in {OutCt(1), OutCt(2)})
      ensures s.past[d].accepted[a].source == s.past[d].accepted[b].source
    {
      OneSource(s.past[d].accepted, a, b);
    }
    forall j | 0 <= j < |s.tx|
      ensures From(s.past[d].accepted, j) + PendingTo(s.tx[j], d) == To(ProgramOf(y, steps, j).issued, d)
    {
      IssuedArrives(y, steps, s, d, j);
    }
  }

  lemma IssuedArrives(y: System, steps: seq<Step>, s: Net, d: nat, j: nat)
    requires Run(y, steps) == Some(s) && d < |s.tx| && j < |s.tx| && Safe(s)
    ensures From(s.past[d].accepted, j) + PendingTo(s.tx[j], d) == To(ProgramOf(y, steps, j).issued, d)
  {
    assert Ordered(s, d, j);
    RunTracks(y, steps, s, j);
    var sent := s.past[j].sent;
    if s.tx[j].retry.Some? {
      ToAppended(sent, Posted(Addressed(s.tx[j]), s.tx[j].retry.value), d);
    } else {
      assert sent + [] == sent && To(sent, d) + [] == To(sent, d);
    }
  }

  /** Nothing is lost, done twice or reordered by pausing and repeating: what a thread has issued is what was delivered
      or junked, in the order it was issued, and then the output it is still busy with. */
  lemma NothingIsLost(y: System, steps: seq<Step>, s: Net, j: nat)
    requires Run(y, steps) == Some(s) && j < |s.tx|
    ensures |s.past| == |s.tx| && ProgramOf(y, steps, j).issued == s.past[j].sent + Pending(s.tx[j])
  {
    RunTracks(y, steps, s, j);
  }

  // ---- Words ----

  lemma Regroup(a: seq<Token>, b: seq<Token>, c: seq<Token>, d: seq<Token>)
    ensures a + (b + c) + d == a + (b + (c + d))
  {
  }

  lemma {:induction false} StreamSplits(log: seq<Sent>, k: nat) returns (rest: seq<Token>)
    requires k < |log|
    ensures Stream(log) == Stream(log[..k]) + (Tokens(log[k].op) + rest)
    decreases |log|
  {
    var init, last := log[..|log| - 1], Tokens(log[|log| - 1].op);
    if k == |log| - 1 {
      rest := [];
      assert last + rest == last;
    } else {
      var middle := StreamSplits(init, k);
      assert init[..k] == log[..k] && init[k] == log[k];
      rest := middle + last;
      Regroup(Stream(log[..k]), Tokens(log[k].op), middle, last);
    }
  }

  lemma LookAtWord(w: Word, rest: seq<Token>)
    ensures Look(Split(w) + rest, InWord) == Continue(w)
  {
    var buf := Split(w) + rest;
    assert buf[0].Data? && buf[1].Data? && buf[2].Data? && buf[3].Data?;
    SplitJoins(w);
    assert Join(buf) == Join(Split(w));
  }

  lemma Cancel(a: seq<Token>, b: seq<Token>, c: seq<Token>)
    requires a + b == a + c
    ensures b == c
  {
    assert (a + b)[|a|..] == b && (a + c)[|a|..] == c;
  }

  lemma WordAhead(log: seq<Sent>, taken: seq<Token>, buf: seq<Token>, k: nat, w: Word)
    requires Stream(log) == taken + buf
    requires k < |log| && log[k].op == OutWord(w) && taken == Stream(log[..k])
    ensures Look(buf, InWord) == Continue(w)
  {
    var rest := StreamSplits(log, k);
    Cancel(taken, buf, Split(w) + rest);
    LookAtWord(w, rest);
  }

  /** Whenever the reader has consumed everything sent before a word, `in` returns that word. */
  lemma WordArrivesIntact(y: System, steps: seq<Step>, s: Net, d: nat, k: nat, w: Word)
    requires Run(y, steps) == Some(s) && d < |s.rx| && d < |s.past|
    requires k < |s.past[d].accepted| && s.past[d].accepted[k].op == OutWord(w)
    requires s.past[d].taken == Stream(s.past[d].accepted[..k])
    ensures Look(s.rx[d].buf, InWord) == Continue(w)
  {
    RunIsSafe(y, steps, s);
    assert Recorded(s, d);
    WordAhead(s.past[d].accepted, s.past[d].taken, s.rx[d].buf, k, w);
  }

  // ---- Wake-ups ----

  /** A paused sender is queued exactly once, at its destination, behind another packet; or it is the current source
      of its destination and there is too little room for its output. */
  lemma PausedSenderIsBlocked(y: System, steps: seq<Step>, s: Net, i: nat)
    requires Run(y, steps) == Some(s) && i < |s.tx| && s.tx[i].pausedOut
    ensures Shape(s) && s.tx[i].retry.Some? && !s.tx[i].junkPacket
    ensures s.tx[i].inPacket ==>
      && s.tx[i].dest.Some? && s.rx[s.tx[i].dest.value].source == Some(i)
      && |s.rx[s.tx[i].dest.value].buf| + (if s.tx[i].retry.value.OutWord? then 4 else 1) > s.capacity
      && forall d | 0 <= d < |s.tx| :: i !in s.rx[d].queue
    ensures !s.tx[i].inPacket ==>
      && !RouteOpens(s, i)
      && forall d | 0 <= d < |s.tx| :: multiset(s.rx[d].queue)[i] == (if s.tx[i].target == Some(d) then 1 else 0)
  {
    RunIsSafe(y, steps, s);
    assert TxOk(s.tx[i]) && RoomOk(s, i);
    forall d | 0 <= d < |s.tx| ensures multiset(s.rx[d].queue)[i] == if Queued(s.tx[i], d) then 1 else 0 {
      assert QueueOk(s, d, i) && RxOk(s.rx[d], s.capacity);
      CountDistinct(s.rx[d].queue, i);
    }
    var d := if s.tx[i].inPacket then s.tx[i].dest.value else s.tx[i].target.value;
    assert SourceOk(s, d, i) && QueueOk(s, d, i) && RxOk(s.rx[d], s.capacity);
  }

  lemma {:induction false} CountDistinct(q: seq<nat>, i: nat)
    requires Distinct(q)
    ensures multiset(q)[i] == if i in q then 1 else 0
  {
    if q != [] {
      assert q == [q[0]] + q[1..];
      CountDistinct(q[1..], i);
      Rest(q, i);
    }
  }

  /** A paused receiver's instruction would pause again, unless it waits for a word and a control token has
      arrived among the first three: that receiver could go on, and is not woken. */
  lemma PausedReceiverIsBlocked(y: System, steps: seq<Step>, s: Net, d: nat, op: In)
    requires Run(y, steps) == Some(s) && d < |s.rx| && s.rx[d].pausedIn == Some(op.InWord? || op.TestWct?)
    ensures s.rx[d].buf == [] || ((op.InWord? || op.TestWct?) && |s.rx[d].buf| < 4)
    ensures Look(s.rx[d].buf, op).Deschedule? <==> !(exists t :: t in s.rx[d].buf && t.Ctrl?)
  {
    RunIsSafe(y, steps, s);
    var buf := s.rx[d].buf;
    assert RxOk(s.rx[d], s.capacity);
    if op.InWord? || op.TestWct? {
      var p := CtrlPosition(buf, |buf|);
      if p != 0 { assert buf[p - 1] in buf; }
    }
  }

  /** A program may make this step, and it leads there. */
  predicate Goes(s: Net, step: Step, t: Net) {
    Shape(s) && Legal(s, step) && Bound(s, step.who) && t == Apply(s, step)
  }

  lemma RunMore(y: System, steps: seq<Step>, s: Net, step: Step, t: Net)
    requires Run(y, steps) == Some(s) && Goes(s, step, t)
    ensures Run(y, steps + [step]) == Some(t)
  {
    assert (steps + [step])[..|steps|] == steps;
  }

  lemma RunTwo(y: System, a: Step, b: Step, s: Net, t: Net, u: Net)
    requires Init(y.ends, y.capacity) == s && Goes(s, a, t) && Goes(t, b, u)
    ensures Run(y, [a, b]) == Some(u)
  {
    RunMore(y, [], s, a, t);
    assert [] + [a] == [a] && [a] + [b] == [a, b];
    RunMore(y, [a], t, b, u);
  }

  // ---- An early control token ----

  /** One channel end, sending to itself. */
  function Alone(capacity: nat, target: Option<nat>, inUse: bool, pausedIn: Option<bool>): Net {
    Net(capacity, [Fresh().(target := target)], [Rx(inUse, None, [], [], pausedIn)], [Past([], [], [], [], [])])
  }

  /** The same with a thread waiting for a word. */
  function Sleeper(capacity: nat): Net { Alone(capacity, Some(0), true, Some(true)) }

  lemma SleeperSleeps(capacity: nat)
    requires capacity > 0
    ensures var t := Output(Sleeper(capacity), 0, OutCt(CT_END));
            |t.rx| == 1 && t.rx[0].pausedIn == Some(true) && t.rx[0].buf == [Ctrl(CT_END)]
  {
    var s := OpenFree(Sleeper(capacity), 0, 0);
    assert OpenRoute(Sleeper(capacity), 0) == s && RouteOpens(Sleeper(capacity), 0);
    assert Send(s, 0, OutCt(CT_END)) == Close(Accept(s, 0, 0, OutCt(CT_END)), 0, 0);
  }

  lemma AloneSteps(n: nat)
    ensures Init(1, n) == Alone(n, None, false, None)
    ensures Goes(Alone(n, None, false, None), Allocates(0), Alone(n, None, true, None))
    ensures Goes(Alone(n, None, true, None), SetsDest(0, Some(0)), Alone(n, Some(0), true, None))
    ensures Goes(Alone(n, Some(0), true, None), Receives(0, InWord), Sleeper(n))
  {
    var s := Alone(n, None, false, None);
    assert Init(1, n).tx == s.tx && Init(1, n).rx == s.rx && Init(1, n).past == s.past;
  }

  /** The end is allocated, set to send to itself, and waits for a word. */
  function Waiting(): seq<Step> { [Allocates(0), SetsDest(0, Some(0))] + [Receives(0, InWord)] }

  lemma SleeperIsReached(y: System)
    requires y.ends == 1
    ensures Run(y, Waiting()) == Some(Sleeper(y.capacity))
  {
    var n := y.capacity;
    AloneSteps(n);
    RunTwo(y, Allocates(0), SetsDest(0, Some(0)), Alone(n, None, false, None), Alone(n, None, true, None),
           Alone(n, Some(0), true, None));
    RunMore(y, [Allocates(0), SetsDest(0, Some(0))], Alone(n, Some(0), true, None), Receives(0, InWord), Sleeper(n));
  }

  /** A run in which a receiver waiting for a word is not woken although its instruction could complete. */
  lemma EarlyControlTokenIsMissed(capacity: nat) returns (steps: seq<Step>)
    requires capacity > 0
    ensures var r := Run(System(1, capacity), steps);
      r.Some? && |r.value.rx| == 1 && r.value.rx[0].pausedIn == Some(true)
      && Look(r.value.rx[0].buf, TestWct) == Continue(1)
  {
    var s, op := Sleeper(capacity), OutCt(CT_END);
    SleeperIsReached(System(1, capacity));
    SleeperSleeps(capacity);
    RunMore(System(1, capacity), Waiting(), s, Sends(0, op), Output(s, 0, op));
    steps := Waiting() + [Sends(0, op)];
  }

  // ---- A second sender ----

  /** Why one thread per output side: an output made while another is queued queues the channel end twice, and no other
      output puts any channel end twice in a queue. */
  lemma SecondSenderQueuesTwice(s: Net, i: nat, op: Out)
    requires Inv(s) && i < |s.tx|
    ensures Bound(s, i)
    ensures (forall d | 0 <= d < |s.rx| :: Distinct(Output(s, i, op).rx[d].queue))
            <==> !(s.tx[i].pausedOut && !s.tx[i].inPacket)
  {
    assert TxOk(s.tx[i]);
    if s.tx[i].pausedOut && !s.tx[i].inPacket {
      QueuedTwice(s, i, op);
    } else {
      forall d | 0 <= d < |s.rx| ensures Distinct(Output(s, i, op).rx[d].queue) { QueuedOnce(s, i, op, d); }
    }
  }

  lemma QueuedTwice(s: Net, i: nat, op: Out)
    requires Inv(s) && i < |s.tx| && s.tx[i].pausedOut && !s.tx[i].inPacket
    ensures Bound(s, i) && s.tx[i].target.Some? && !Distinct(Output(s, i, op).rx[s.tx[i].target.value].queue)
  {
    assert TxOk(s.tx[i]);
    var d := s.tx[i].target.value;
    assert QueueOk(s, d, i) && SourceOk(s, d, i) && RxOk(s.rx[d], s.capacity);
    var q := s.rx[d].queue;
    var k :| 0 <= k < |q| && q[k] == i;
    assert (q + [i])[k] == (q + [i])[|q|];
  }

  lemma QueuedOnce(s: Net, i: nat, op: Out, d: nat)
    requires Inv(s) && i < |s.tx| && d < |s.rx| && !(s.tx[i].pausedOut && !s.tx[i].inPacket)
    ensures Bound(s, i) && Distinct(Output(s, i, op).rx[d].queue)
  {
    assert TxOk(s.tx[i]) && RxOk(s.rx[d], s.capacity);
    if RouteOpens(s, i) {
      SendQueue(OpenRoute(s, i), i, op, d);
    } else {
      assert QueueOk(s, s.tx[i].target.value, i);
      DistinctWith(s.rx[d].queue, |s.rx[d].queue|, if d == s.tx[i].target.value then i else |s.tx|);
      assert s.rx[d].queue[..|s.rx[d].queue|] + [i] + s.rx[d].queue[|s.rx[d].queue|..] == s.rx[d].queue + [i];
    }
  }

  /** With the route open a queue only loses its front. */
  lemma SendQueue(s: Net, i: nat, op: Out, d: nat)
    requires Shape(s) && i < |s.tx| && s.tx[i].inPacket && Bound(s, i) && d < |s.rx| && Distinct(s.rx[d].queue)
    ensures Distinct(Send(s, i, op).rx[d].queue)
  {
    if s.rx[d].queue != [] { Rest(s.rx[d].queue, 0); }
  }

  /** Two channel ends, not yet sending. */
  function Pair(n: nat, a: Option<nat>, b: Option<nat>, first: bool, second: bool): Net {
    Net(n, [Fresh().(target := a), Fresh().(target := b)],
        [Rx(first, None, [], [], None), Rx(second, None, [], [], None)],
        [Past([], [], [], [], []), Past([], [], [], [], [])])
  }

  lemma PairSteps(n: nat)
    ensures Init(2, n) == Pair(n, None, None, false, false)
    ensures Goes(Pair(n, None, None, false, false), Allocates(0), Pair(n, None, None, true, false))
    ensures Goes(Pair(n, None, None, true, false), Allocates(1), Pair(n, None, None, true, true))
    ensures Goes(Pair(n, None, None, true, true), SetsDest(0, Some(0)), Pair(n, Some(0), None, true, true))
    ensures Goes(Pair(n, Some(0), None, true, true), SetsDest(1, Some(0)), Pair(n, Some(0), Some(0), true, true))
  {
    var s := Pair(n, None, None, false, false);
    assert Init(2, n).tx == s.tx && Init(2, n).rx == s.rx && Init(2, n).past == s.past;
  }

  /** The two ends are allocated and set to send to the first. */
  function Setup(): seq<Step> { [Allocates(0), Allocates(1)] + [SetsDest(0, Some(0))] + [SetsDest(1, Some(0))] }

  lemma SetupIsReached(y: System)
    requires y.ends == 2
    ensures Run(y, Setup()) == Some(Pair(y.capacity, Some(0), Some(0), true, true))
  {
    var n := y.capacity;
    var s, t := Pair(n, None, None, true, true), Pair(n, Some(0), None, true, true);
    PairSteps(n);
    RunTwo(y, Allocates(0), Allocates(1), Pair(n, None, None, false, false), Pair(n, None, None, true, false), s);
    RunMore(y, [Allocates(0), Allocates(1)], s, SetsDest(0, Some(0)), t);
    RunMore(y, [Allocates(0), Allocates(1)] + [SetsDest(0, Some(0))], t, SetsDest(1, Some(0)),
            Pair(n, Some(0), Some(0), true, true));
  }

  /** An output that does not close its packet changes no route and not the other sender. */
  lemma SendStays(s: Net, op: Out)
    requires Shape(s) && |s.tx| == 2 && !Closes(op) && Bound(s, 0)
    requires s.tx[0].inPacket && !s.tx[0].junkPacket && s.tx[0].dest == Some(0)
    ensures var t := Send(s, 0, op);
      && Shape(t) && |t.tx| == 2 && t.tx[1] == s.tx[1] && t.rx[0].source == s.rx[0].source
      && t.rx[0].inUse == s.rx[0].inUse && t.rx[1].inUse == s.rx[1].inUse
  {
  }

  lemma FirstClaims(n: nat, op: Out)
    ensures var s, t := Pair(n, Some(0), Some(0), true, true), Output(Pair(n, Some(0), Some(0), true, true), 0, op);
      !Closes(op) ==>
        Shape(t) && |t.tx| == 2 && t.tx[1] == s.tx[1] && t.rx[1].inUse && t.rx[0].inUse && t.rx[0].source == Some(0)
  {
    var s := Pair(n, Some(0), Some(0), true, true);
    assert RouteOpens(s, 0) && OpenRoute(s, 0) == OpenFree(s, 0, 0);
    if !Closes(op) { SendStays(OpenFree(s, 0, 0), op); }
  }

  /** A run in which a sender is queued: another is in the middle of a packet to the same destination. */
  lemma QueuedSenderIsReached(n: nat) returns (steps: seq<Step>)
    ensures var r := Run(System(2, n), steps);
      r.Some? && |r.value.tx| == 2 && r.value.tx[1].pausedOut && !r.value.tx[1].inPacket
  {
    var y, op := System(2, n), OutToken(0);
    var s := Pair(n, Some(0), Some(0), true, true);
    var t := Output(s, 0, op);
    SetupIsReached(y);
    FirstClaims(n, op);
    RunMore(y, Setup(), s, Sends(0, op), t);
    RunMore(y, Setup() + [Sends(0, op)], t, Sends(1, op), Output(t, 1, op));
    steps := Setup() + [Sends(0, op)] + [Sends(1, op)];
  }
}
