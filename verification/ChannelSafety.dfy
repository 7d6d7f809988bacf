/** What every step of the channel protocol keeps, and what that means for whole runs. */
module ChannelSafety {
  import opened Sequences
  import opened Options
  import opened ChannelState

  // ---- The routes ----

  /** The sender owns the route to d: in a live packet to d, or granted the route and about to repeat its output. */
  predicate Owns(t: Tx, d: nat) {
    (t.inPacket && !t.junkPacket && t.dest == Some(d)) ||
    (!t.inPacket && t.retry.Some? && !t.pausedOut && t.target == Some(d))
  }

  /** The sender is paused until the route to d is granted. */
  predicate Queued(t: Tx, d: nat) { !t.inPacket && t.pausedOut && t.target == Some(d) }

  predicate TxOk(t: Tx) {
    && (t.junkPacket ==> t.inPacket && !t.pausedOut)
    && (t.pausedOut ==> t.retry.Some?)
    && (t.inPacket && !t.junkPacket ==> t.dest.Some?)
    && (!t.inPacket && t.retry.Some? ==> t.target.Some?)
  }

  predicate RxOk(r: Rx, capacity: nat) {
    && Distinct(r.queue) && (r.source.None? ==> r.queue == [])
    && |r.buf| <= capacity
    && (r.pausedIn.Some? ==> r.buf == [] || (r.pausedIn.value && |r.buf| < 4))
    && (!r.inUse ==> r.source.None? && r.buf == [] && r.pausedIn.None?)
  }

  /** A route's source is exactly the sender that owns it. */
  predicate SourceOk(s: Net, d: nat, j: nat)
    requires d < |s.rx| && j < |s.tx|
  {
    s.rx[d].source == Some(j) <==> Owns(s.tx[j], d)
  }

  /** A route's queue holds exactly the senders paused for it. */
  predicate QueueOk(s: Net, d: nat, j: nat)
    requires d < |s.rx| && j < |s.tx|
  {
    j in s.rx[d].queue <==> Queued(s.tx[j], d)
  }

  /** A sender paused in its packet lacks room for what it wants to send. */
  predicate RoomOk(s: Net, j: nat)
    requires Shape(s) && j < |s.tx|
  {
    s.tx[j].pausedOut && s.tx[j].inPacket && s.tx[j].retry.Some? && s.tx[j].dest.Some?
    ==> !HasRoom(s, s.tx[j].dest.value, s.tx[j].retry.value)
  }

  /** A channel end that is not in use sends nothing. */
  predicate UnusedOk(s: Net, j: nat)
    requires Shape(s) && j < |s.tx|
  {
    !s.rx[j].inUse ==> !s.tx[j].inPacket && s.tx[j].retry.None?
  }

  ghost predicate Inv(s: Net) {
    && Shape(s)
    && (forall j | 0 <= j < |s.tx| :: TxOk(s.tx[j]) && RoomOk(s, j) && UnusedOk(s, j))
    && (forall d | 0 <= d < |s.tx| :: RxOk(s.rx[d], s.capacity))
    && (forall d, j | 0 <= d < |s.tx| && 0 <= j < |s.tx| :: SourceOk(s, d, j))
    && (forall d, j | 0 <= d < |s.tx| && 0 <= j < |s.tx| :: QueueOk(s, d, j))
  }

  predicate Idle(s: Net, i: nat, op: Out)
    requires Shape(s) && i < |s.tx|
  {
    s.rx[i].inUse && !s.tx[i].pausedOut && s.tx[i].retry in {None, Some(op)}
  }

  lemma OpenJunkKeeps(s: Net, i: nat, op: Out)
    requires Inv(s) && i < |s.tx| && Idle(s, i, op) && !s.tx[i].inPacket && Junked(s, i)
    ensures Inv(OpenJunk(s, i))
  {
    var t := OpenJunk(s, i);
    if s.tx[i].target.Some? { var d := s.tx[i].target.value; assert SourceOk(s, d, i); }
    assert s.tx[i].retry.None?;
    forall d, j | 0 <= d < |s.tx| && 0 <= j < |s.tx| ensures SourceOk(t, d, j) && QueueOk(t, d, j) {
      assert SourceOk(s, d, j) && QueueOk(s, d, j);
    }
  }

  lemma OpenFreeKeeps(s: Net, i: nat, d: nat, op: Out)
    requires Inv(s) && i < |s.tx| && d < |s.tx| && Idle(s, i, op)
    requires !s.tx[i].inPacket && s.tx[i].target == Some(d) && s.rx[d].inUse && s.rx[d].source in {None, Some(i)}
    ensures Inv(OpenFree(s, i, d))
  {
    var t := OpenFree(s, i, d);
    forall d', j | 0 <= d' < |s.tx| && 0 <= j < |s.tx| ensures SourceOk(t, d', j) && QueueOk(t, d', j) {
      assert SourceOk(s, d', j) && QueueOk(s, d', j);
    }
  }

  lemma EnqueueKeeps(s: Net, i: nat, d: nat, op: Out)
    requires Inv(s) && i < |s.tx| && d < |s.tx| && Idle(s, i, op)
    requires !s.tx[i].inPacket && s.tx[i].target == Some(d) && s.rx[d].inUse && s.rx[d].source !in {None, Some(i)}
    ensures Inv(Enqueue(s, i, d, op))
  {
    var t := Enqueue(s, i, d, op);
    assert SourceOk(s, d, i) && QueueOk(s, d, i);
    forall d', j | 0 <= d' < |s.tx| && 0 <= j < |s.tx| ensures SourceOk(t, d', j) && QueueOk(t, d', j) {
      assert SourceOk(s, d', j) && QueueOk(s, d', j);
    }
  }

  lemma WaitKeeps(s: Net, i: nat, op: Out)
    requires Inv(s) && i < |s.tx| && Idle(s, i, op) && s.tx[i].inPacket && !s.tx[i].junkPacket
    requires !HasRoom(s, s.tx[i].dest.value, op)
    ensures Inv(Wait(s, i, op))
  {
    var t := Wait(s, i, op);
    forall d, j | 0 <= d < |s.tx| && 0 <= j < |s.tx| ensures SourceOk(t, d, j) && QueueOk(t, d, j) {
      assert SourceOk(s, d, j) && QueueOk(s, d, j);
    }
  }

  lemma VanishKeeps(s: Net, i: nat, op: Out)
    requires Inv(s) && i < |s.tx| && s.rx[i].inUse && s.tx[i].junkPacket
    ensures Inv(Vanish(s, i, op))
  {
    var t := Vanish(s, i, op);
    forall d, j | 0 <= d < |s.tx| && 0 <= j < |s.tx| ensures SourceOk(t, d, j) && QueueOk(t, d, j) {
      assert SourceOk(s, d, j) && QueueOk(s, d, j);
    }
  }

  lemma AcceptKeeps(s: Net, i: nat, d: nat, op: Out)
    requires Inv(s) && i < |s.tx| && d < |s.tx| && s.rx[i].inUse && !s.tx[i].pausedOut
    requires s.tx[i].inPacket && !s.tx[i].junkPacket && s.tx[i].dest == Some(d) && HasRoom(s, d, op)
    ensures Inv(Accept(s, i, d, op))
  {
    var t := Accept(s, i, d, op);
    assert |Tokens(op)| <= Room(op);
    assert SourceOk(s, d, i);
    forall j | 0 <= j < |s.tx| ensures RoomOk(t, j) { assert RoomOk(s, j); }
    forall d', j | 0 <= d' < |s.tx| && 0 <= j < |s.tx| ensures SourceOk(t, d', j) && QueueOk(t, d', j) {
      assert SourceOk(s, d', j) && QueueOk(s, d', j);
    }
  }

  lemma Rest(q: seq<nat>, j: nat)
    requires q != [] && Distinct(q)
    ensures Distinct(q[1..]) && (j in q[1..] <==> j in q && j != q[0])
  {
    if j in q && j != q[0] {
      var k :| 0 <= k < |q| && q[k] == j;
      assert q[1..][k - 1] == j;
    }
  }

  /** Who owns or awaits which route after a release. */
  lemma CloseRoutes(s: Net, i: nat, d: nat, d': nat, j: nat)
    requires Inv(s) && i < |s.tx| && d < |s.tx| && !s.tx[i].pausedOut && s.tx[i].retry.None?
    requires s.tx[i].inPacket && !s.tx[i].junkPacket && s.tx[i].dest == Some(d)
    requires d' < |s.tx| && j < |s.tx|
    ensures SourceOk(Close(s, i, d), d', j) && QueueOk(Close(s, i, d), d', j)
  {
    assert SourceOk(s, d, i) && SourceOk(s, d', j) && QueueOk(s, d', j);
    if s.rx[d].queue != [] {
      assert QueueOk(s, d, s.rx[d].queue[0]);
      Rest(s.rx[d].queue, j);
    }
  }

  lemma CloseLocal(s: Net, i: nat, d: nat, j: nat)
    requires Inv(s) && i < |s.tx| && d < |s.tx| && j < |s.tx| && !s.tx[i].pausedOut && s.tx[i].retry.None?
    requires s.tx[i].inPacket && !s.tx[i].junkPacket && s.tx[i].dest == Some(d)
    ensures var t := Close(s, i, d);
      Shape(t) && TxOk(t.tx[j]) && RoomOk(t, j) && UnusedOk(t, j) && RxOk(t.rx[j], t.capacity)
  {
    CloseSender(s, i, d, j);
    assert SourceOk(s, d, i) && RxOk(s.rx[j], s.capacity);
    if s.rx[d].queue != [] { Rest(s.rx[d].queue, 0); }
  }

  lemma CloseSender(s: Net, i: nat, d: nat, j: nat)
    requires Inv(s) && i < |s.tx| && d < |s.tx| && j < |s.tx| && !s.tx[i].pausedOut && s.tx[i].retry.None?
    requires s.tx[i].inPacket && !s.tx[i].junkPacket && s.tx[i].dest == Some(d)
    ensures var t := Close(s, i, d); Shape(t) && TxOk(t.tx[j]) && RoomOk(t, j) && UnusedOk(t, j)
  {
    assert SourceOk(s, d, i) && RoomOk(s, j) && TxOk(s.tx[j]) && UnusedOk(s, j);
    if s.rx[d].queue != [] { assert QueueOk(s, d, s.rx[d].queue[0]); }
  }

  lemma CloseKeeps(s: Net, i: nat, d: nat)
    requires Inv(s) && i < |s.tx| && d < |s.tx| && !s.tx[i].pausedOut && s.tx[i].retry.None?
    requires s.tx[i].inPacket && !s.tx[i].junkPacket && s.tx[i].dest == Some(d)
    ensures Inv(Close(s, i, d))
  {
    forall j: nat | j < |s.tx|
      ensures var t := Close(s, i, d);
        Shape(t) && TxOk(t.tx[j]) && RoomOk(t, j) && UnusedOk(t, j) && RxOk(t.rx[j], t.capacity)
    {
      CloseLocal(s, i, d, j);
    }
    CloseLocal(s, i, d, i);
    forall d', j: nat | 0 <= d' < |s.tx| && j < |s.tx|
      ensures SourceOk(Close(s, i, d), d', j) && QueueOk(Close(s, i, d), d', j)
    {
      CloseRoutes(s, i, d, d', j);
    }
  }

  lemma TakeLocal(s: Net, d: nat, n: nat, j: nat)
    requires Inv(s) && d < |s.tx| && 0 < n <= |s.rx[d].buf| && s.rx[d].pausedIn.None? && j < |s.tx|
    ensures var t := Take(s, d, n);
      Shape(t) && TxOk(t.tx[j]) && RoomOk(t, j) && UnusedOk(t, j) && RxOk(t.rx[j], t.capacity)
  {
    assert SourceOk(s, d, j) && RoomOk(s, j) && TxOk(s.tx[j]) && UnusedOk(s, j) && RxOk(s.rx[j], s.capacity);
  }

  lemma TakeRoutes(s: Net, d: nat, n: nat, d': nat, j: nat)
    requires Inv(s) && d < |s.tx| && 0 < n <= |s.rx[d].buf| && d' < |s.tx| && j < |s.tx|
    ensures var t := Take(s, d, n); Shape(t) && SourceOk(t, d', j) && QueueOk(t, d', j)
  {
    assert SourceOk(s, d', j) && QueueOk(s, d', j) && SourceOk(s, d, j);
  }

  lemma TakeKeeps(s: Net, d: nat, n: nat)
    requires Inv(s) && d < |s.tx| && 0 < n <= |s.rx[d].buf| && s.rx[d].pausedIn.None?
    ensures Inv(Take(s, d, n))
  {
    var t := Take(s, d, n);
    assert Shape(t);
    forall d', j: nat | 0 <= d' < |s.tx| && j < |s.tx| ensures SourceOk(t, d', j) && QueueOk(t, d', j) {
      TakeRoutes(s, d, n, d', j);
    }
    forall j: nat | j < |s.tx| ensures TxOk(t.tx[j]) && RoomOk(t, j) && UnusedOk(t, j) && RxOk(t.rx[j], t.capacity) {
      TakeLocal(s, d, n, j);
    }
  }

  lemma DeliverKeeps(s: Net, i: nat, d: nat, op: Out)
    requires Inv(s) && i < |s.tx| && d < |s.tx| && s.rx[i].inUse && !s.tx[i].pausedOut
    requires s.tx[i].inPacket && !s.tx[i].junkPacket && s.tx[i].dest == Some(d) && HasRoom(s, d, op)
    ensures Inv(Deliver(s, i, d, op))
  {
    AcceptKeeps(s, i, d, op);
    if Closes(op) { CloseKeeps(Accept(s, i, d, op), i, d); }
  }

  lemma SendKeeps(s: Net, i: nat, op: Out)
    requires Inv(s) && i < |s.tx| && Idle(s, i, op) && s.tx[i].inPacket
    ensures Inv(Send(s, i, op))
  {
    assert TxOk(s.tx[i]);
    if s.tx[i].junkPacket {
      VanishKeeps(s, i, op);
    } else if !HasRoom(s, s.tx[i].dest.value, op) {
      WaitKeeps(s, i, op);
    } else {
      DeliverKeeps(s, i, s.tx[i].dest.value, op);
    }
  }

  lemma OpenRouteKeeps(s: Net, i: nat, op: Out)
    requires Inv(s) && i < |s.tx| && Idle(s, i, op) && RouteOpens(s, i)
    ensures Inv(OpenRoute(s, i)) && Idle(OpenRoute(s, i), i, op) && OpenRoute(s, i).tx[i].inPacket
  {
    if s.tx[i].inPacket {
    } else if Junked(s, i) {
      OpenJunkKeeps(s, i, op);
    } else {
      OpenFreeKeeps(s, i, s.tx[i].target.value, op);
    }
  }

  lemma OutputKeeps(s: Net, i: nat, op: Out)
    requires Inv(s) && i < |s.tx| && Idle(s, i, op)
    ensures Inv(Output(s, i, op))
  {
    assert TxOk(s.tx[i]);
    if RouteOpens(s, i) {
      OpenRouteKeeps(s, i, op);
      SendKeeps(OpenRoute(s, i), i, op);
    } else {
      EnqueueKeeps(s, i, s.tx[i].target.value, op);
    }
  }

  lemma InputKeeps(s: Net, d: nat, op: In)
    requires Inv(s) && d < |s.tx| && s.rx[d].inUse && s.rx[d].pausedIn.None?
    ensures Inv(Input(s, d, op))
  {
    if Look(s.rx[d].buf, op).Deschedule? {
      PauseInKeeps(s, d, op.InWord? || op.TestWct?);
    } else if Look(s.rx[d].buf, op).Continue? && Width(op) != 0 {
      TakeKeeps(s, d, Width(op));
    }
  }

  lemma PauseInKeeps(s: Net, d: nat, word: bool)
    requires Inv(s) && d < |s.tx| && s.rx[d].inUse && (s.rx[d].buf == [] || (word && |s.rx[d].buf| < 4))
    ensures Inv(PauseIn(s, d, word))
  {
    var t := PauseIn(s, d, word);
    forall d', j | 0 <= d' < |s.tx| && 0 <= j < |s.tx| ensures SourceOk(t, d', j) && QueueOk(t, d', j) {
      assert SourceOk(s, d', j) && QueueOk(s, d', j);
    }
    forall j | 0 <= j < |s.tx| ensures RoomOk(t, j) { assert RoomOk(s, j); }
  }

  lemma SetDestKeeps(s: Net, i: nat, target: Option<nat>)
    requires Inv(s) && i < |s.tx| && s.tx[i].retry.None? && (target.Some? ==> target.value < |s.tx|)
    ensures Inv(SetDest(s, i, target))
  {
    var t := SetDest(s, i, target);
    forall d, j | 0 <= d < |s.tx| && 0 <= j < |s.tx| ensures SourceOk(t, d, j) && QueueOk(t, d, j) {
      assert SourceOk(s, d, j) && QueueOk(s, d, j) && TxOk(s.tx[j]);
    }
    forall j | 0 <= j < |s.tx| ensures RoomOk(t, j) { assert RoomOk(s, j); }
  }

  lemma AllocKeeps(s: Net, i: nat)
    requires Inv(s) && i < |s.tx| && !s.rx[i].inUse
    ensures Inv(Alloc(s, i))
  {
    var t := Alloc(s, i);
    assert UnusedOk(s, i) && TxOk(s.tx[i]);
    forall d, j | 0 <= d < |s.tx| && 0 <= j < |s.tx| ensures SourceOk(t, d, j) && QueueOk(t, d, j) {
      assert SourceOk(s, d, j) && QueueOk(s, d, j);
    }
    forall j | 0 <= j < |s.tx| ensures RoomOk(t, j) { assert RoomOk(s, j); }
  }

  lemma FreeKeeps(s: Net, i: nat)
    requires Inv(s) && i < |s.tx| && s.tx[i].retry.None? && s.rx[i].pausedIn.None?
    ensures Inv(Free(s, i))
  {
    var t := Free(s, i);
    forall d, j | 0 <= d < |s.tx| && 0 <= j < |s.tx| ensures SourceOk(t, d, j) && QueueOk(t, d, j) {
      assert SourceOk(s, d, j) && QueueOk(s, d, j);
    }
    forall j | 0 <= j < |s.tx| ensures RoomOk(t, j) { assert RoomOk(s, j); }
  }
}
