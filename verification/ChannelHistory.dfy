/** What a channel end has accepted, from whom and in which order: kept by every step, hence true of every run. */
module ChannelHistory {
  import opened Options
  import opened ChannelState
  import opened ChannelSafety

  /** All tokens of the accepted outputs, in order. */
  function Stream(log: seq<Sent>): seq<Token> {
    if log == [] then [] else Stream(log[..|log| - 1]) + Tokens(log[|log| - 1].op)
  }

  /** The outputs accepted from one source, and the outputs one sender delivered to one destination. */
  function From(log: seq<Sent>, j: nat): seq<Out> {
    if log == [] then []
    else
      var rest := From(log[..|log| - 1], j);
      if log[|log| - 1].source == j then rest + [log[|log| - 1].op] else rest
  }

  function To(log: seq<Posted>, d: nat): seq<Out> {
    if log == [] then []
    else
      var rest := To(log[..|log| - 1], d);
      if log[|log| - 1].dest == Some(d) then rest + [log[|log| - 1].op] else rest
  }

  lemma StreamAppended(log: seq<Sent>, e: Sent)
    ensures Stream(log + [e]) == Stream(log) + Tokens(e.op)
  {
    assert (log + [e])[..|log|] == log;
  }

  lemma FromAppended(log: seq<Sent>, e: Sent, j: nat)
    ensures From(log + [e], j) == From(log, j) + (if e.source == j then [e.op] else [])
  {
    assert (log + [e])[..|log|] == log;
  }

  lemma ToAppended(sent: seq<Posted>, p: Posted, d: nat)
    ensures To(sent + [p], d) == To(sent, d) + (if p.dest == Some(d) then [p.op] else [])
  {
    assert (sent + [p])[..|sent|] == sent;
  }

  /** Only a closing output lets the next one come from somebody else. */
  predicate OneSourcePerPacket(log: seq<Sent>) {
    forall k | 0 <= k < |log| - 1 :: Closes(log[k].op) || log[k].source == log[k + 1].source
  }

  predicate OpenPacketIsSources(log: seq<Sent>, source: Option<nat>) {
    log != [] && !Closes(log[|log| - 1].op) ==> source == Some(log[|log| - 1].source)
  }

  predicate Recorded(s: Net, d: nat)
    requires Shape(s) && d < |s.tx|
  {
    && Stream(s.past[d].accepted) == s.past[d].taken + s.rx[d].buf
    && s.past[d].queued == s.past[d].granted + s.rx[d].queue
    && OneSourcePerPacket(s.past[d].accepted)
    && OpenPacketIsSources(s.past[d].accepted, s.rx[d].source)
  }

  predicate Ordered(s: Net, d: nat, j: nat)
    requires Shape(s) && d < |s.tx| && j < |s.tx|
  {
    From(s.past[d].accepted, j) == To(s.past[j].sent, d)
  }

  ghost predicate History(s: Net)
    requires Shape(s)
  {
    && (forall d | 0 <= d < |s.tx| :: Recorded(s, d))
    && (forall d, j | 0 <= d < |s.tx| && 0 <= j < |s.tx| :: Ordered(s, d, j))
  }

  /** A step that changes no route and no buffer changes no history. */
  predicate Quiet(s: Net, t: Net)
    requires Shape(s) && Shape(t)
  {
    |s.tx| == |t.tx| && s.past == t.past && forall d | 0 <= d < |s.tx| ::
      s.rx[d].buf == t.rx[d].buf && s.rx[d].queue == t.rx[d].queue && s.rx[d].source == t.rx[d].source
  }

  lemma QuietKeeps(s: Net, t: Net)
    requires Shape(s) && Shape(t) && History(s) && Quiet(s, t)
    ensures History(t)
  {
    forall d | 0 <= d < |s.tx| ensures Recorded(t, d) { assert Recorded(s, d); }
    forall d, j | 0 <= d < |s.tx| && 0 <= j < |s.tx| ensures Ordered(t, d, j) { assert Ordered(s, d, j); }
  }

  lemma OpenFreeRecords(s: Net, i: nat, d: nat)
    requires Shape(s) && i < |s.tx| && d < |s.tx| && s.rx[d].source in {None, Some(i)} && History(s)
    ensures Shape(OpenFree(s, i, d)) && History(OpenFree(s, i, d))
  {
    var t := OpenFree(s, i, d);
    forall d' | 0 <= d' < |s.tx| ensures Recorded(t, d') { assert Recorded(s, d'); }
    forall d', j | 0 <= d' < |s.tx| && 0 <= j < |s.tx| ensures Ordered(t, d', j) { assert Ordered(s, d', j); }
  }

  lemma EnqueueRecords(s: Net, i: nat, d: nat, op: Out)
    requires Shape(s) && i < |s.tx| && d < |s.tx| && History(s)
    ensures Shape(Enqueue(s, i, d, op)) && History(Enqueue(s, i, d, op))
  {
    var t := Enqueue(s, i, d, op);
    forall d' | 0 <= d' < |s.tx| ensures Recorded(t, d') { assert Recorded(s, d'); }
    forall d', j | 0 <= d' < |s.tx| && 0 <= j < |s.tx| ensures Ordered(t, d', j) { assert Ordered(s, d', j); }
  }

  lemma LogGrows(log: seq<Sent>, e: Sent)
    requires OneSourcePerPacket(log) && OpenPacketIsSources(log, Some(e.source))
    ensures OneSourcePerPacket(log + [e]) && OpenPacketIsSources(log + [e], Some(e.source))
  {
  }

  lemma StreamGrows(log: seq<Sent>, e: Sent, taken: seq<Token>, buf: seq<Token>)
    requires Stream(log) == taken + buf
    ensures Stream(log + [e]) == taken + (buf + Tokens(e.op))
  {
    StreamAppended(log, e);
    assert taken + buf + Tokens(e.op) == taken + (buf + Tokens(e.op));
  }

  lemma AcceptRecorded(s: Net, i: nat, d: nat, op: Out)
    requires Shape(s) && i < |s.tx| && d < |s.tx| && s.rx[d].source == Some(i) && Recorded(s, d)
    ensures Shape(Accept(s, i, d, op)) && Recorded(Accept(s, i, d, op), d)
  {
    var p, t := s.past[d], Accept(s, i, d, op);
    LogGrows(p.accepted, Sent(i, op));
    StreamGrows(p.accepted, Sent(i, op), p.taken, s.rx[d].buf);
    assert t.past[d].accepted == p.accepted + [Sent(i, op)] && t.past[d].taken == p.taken;
    assert t.rx[d].buf == s.rx[d].buf + Tokens(op) && t.rx[d].source == Some(i);
  }

  lemma AcceptOrdered(s: Net, i: nat, d: nat, op: Out, d': nat, j: nat)
    requires Shape(s) && i < |s.tx| && d < |s.tx| && d' < |s.tx| && j < |s.tx| && Ordered(s, d', j)
    ensures Shape(Accept(s, i, d, op)) && Ordered(Accept(s, i, d, op), d', j)
  {
    var t := Accept(s, i, d, op);
    assert t.past[d'].accepted == if d' == d then s.past[d].accepted + [Sent(i, op)] else s.past[d'].accepted;
    assert t.past[j].sent == if j == i then s.past[i].sent + [Posted(Some(d), op)] else s.past[j].sent;
    FromAppended(s.past[d'].accepted, Sent(i, op), j);
    ToAppended(s.past[j].sent, Posted(Some(d), op), d');
  }

  lemma AcceptRecords(s: Net, i: nat, d: nat, op: Out)
    requires Shape(s) && i < |s.tx| && d < |s.tx| && s.rx[d].source == Some(i) && History(s)
    ensures Shape(Accept(s, i, d, op)) && History(Accept(s, i, d, op))
  {
    AcceptRecorded(s, i, d, op);
    forall d' | 0 <= d' < |s.tx| ensures Recorded(Accept(s, i, d, op), d') { assert Recorded(s, d'); }
    forall d', j | 0 <= d' < |s.tx| && 0 <= j < |s.tx| ensures Ordered(Accept(s, i, d, op), d', j) {
      AcceptOrdered(s, i, d, op, d', j);
    }
  }

  lemma VanishRecords(s: Net, i: nat, op: Out)
    requires Shape(s) && i < |s.tx| && History(s)
    ensures Shape(Vanish(s, i, op)) && History(Vanish(s, i, op))
  {
    var t := Vanish(s, i, op);
    forall d | 0 <= d < |s.tx| ensures Recorded(t, d) { assert Recorded(s, d); }
    forall d, j | 0 <= d < |s.tx| && 0 <= j < |s.tx| ensures Ordered(t, d, j) {
      assert Ordered(s, d, j);
      ToAppended(s.past[j].sent, Posted(None, op), d);
    }
  }

  lemma CloseRecorded(s: Net, i: nat, d: nat)
    requires Shape(s) && i < |s.tx| && d < |s.tx| && Recorded(s, d)
    requires s.past[d].accepted != [] && Closes(s.past[d].accepted[|s.past[d].accepted| - 1].op)
    ensures Shape(Close(s, i, d)) && Recorded(Close(s, i, d), d)
  {
    var q := s.rx[d].queue;
    if q != [] { assert s.past[d].granted + q == s.past[d].granted + [q[0]] + q[1..]; }
  }

  lemma CloseRecords(s: Net, i: nat, d: nat)
    requires Shape(s) && i < |s.tx| && d < |s.tx| && History(s)
    requires s.past[d].accepted != [] && Closes(s.past[d].accepted[|s.past[d].accepted| - 1].op)
    ensures Shape(Close(s, i, d)) && History(Close(s, i, d))
  {
    CloseRecorded(s, i, d);
    var t := Close(s, i, d);
    forall d' | 0 <= d' < |s.tx| ensures Recorded(t, d') { assert Recorded(s, d'); }
    forall d', j | 0 <= d' < |s.tx| && 0 <= j < |s.tx| ensures Ordered(t, d', j) {
      assert Ordered(s, d', j) && t.past[d'].accepted == s.past[d'].accepted && t.past[j].sent == s.past[j].sent;
    }
  }

  lemma TakeRecorded(s: Net, d: nat, n: nat)
    requires Shape(s) && d < |s.tx| && n <= |s.rx[d].buf| && Recorded(s, d)
    ensures Shape(Take(s, d, n)) && Recorded(Take(s, d, n), d)
  {
    var buf := s.rx[d].buf;
    assert s.past[d].taken + buf == (s.past[d].taken + buf[..n]) + buf[n..];
  }

  lemma TakeRecords(s: Net, d: nat, n: nat)
    requires Shape(s) && d < |s.tx| && n <= |s.rx[d].buf| && History(s)
    ensures Shape(Take(s, d, n)) && History(Take(s, d, n))
  {
    TakeRecorded(s, d, n);
    var t := Take(s, d, n);
    forall d' | 0 <= d' < |s.tx| ensures Recorded(t, d') { assert Recorded(s, d'); }
    forall d', j | 0 <= d' < |s.tx| && 0 <= j < |s.tx| ensures Ordered(t, d', j) {
      assert Ordered(s, d', j) && t.past[d'].accepted == s.past[d'].accepted && t.past[j].sent == s.past[j].sent;
    }
  }

  lemma SendRecords(s: Net, i: nat, op: Out)
    requires Inv(s) && History(s) && i < |s.tx| && s.tx[i].inPacket && Idle(s, i, op)
    ensures Inv(Send(s, i, op)) && History(Send(s, i, op))
  {
    SendKeeps(s, i, op);
    assert TxOk(s.tx[i]);
    if s.tx[i].junkPacket {
      VanishRecords(s, i, op);
    } else if !HasRoom(s, s.tx[i].dest.value, op) {
      QuietKeeps(s, Send(s, i, op));
    } else {
      var d := s.tx[i].dest.value;
      assert SourceOk(s, d, i);
      AcceptRecords(s, i, d, op);
      if Closes(op) { CloseRecords(Accept(s, i, d, op), i, d); }
    }
  }

  lemma OutputRecords(s: Net, i: nat, op: Out)
    requires Inv(s) && History(s) && i < |s.tx| && Idle(s, i, op)
    ensures Bound(s, i) && Inv(Output(s, i, op)) && History(Output(s, i, op))
  {
    assert TxOk(s.tx[i]);
    if RouteOpens(s, i) {
      OpenRouteKeeps(s, i, op);
      if s.tx[i].inPacket || Junked(s, i) { QuietKeeps(s, OpenRoute(s, i)); }
      else { OpenFreeRecords(s, i, s.tx[i].target.value); }
      SendRecords(OpenRoute(s, i), i, op);
    } else {
      OutputKeeps(s, i, op);
      EnqueueRecords(s, i, s.tx[i].target.value, op);
    }
  }

  lemma InputRecords(s: Net, d: nat, op: In)
    requires Inv(s) && History(s) && d < |s.tx| && s.rx[d].inUse && s.rx[d].pausedIn.None?
    ensures Inv(Input(s, d, op)) && History(Input(s, d, op))
  {
    InputKeeps(s, d, op);
    if Look(s.rx[d].buf, op).Continue? && Width(op) != 0 { TakeRecords(s, d, Width(op)); }
    else { QuietKeeps(s, Input(s, d, op)); }
  }
}
