/** The channel ends of a system as mutable state (lib/ChanEndpoint.cpp, lib/Chanend.cpp). The instructions `Out` and
    `In`, and `SetData`, `Alloc` and `Free`, do what the value-level protocol says and keep everything proved of it; the
    methods before them are the parts they are made of. */
module ChannelEnds {
  import opened Options
  import opened ChannelState
  import opened ChannelSafety
  import opened ChannelHistory
  import opened ChannelRuns

  class Chanends {
    const capacity: nat
    var tx: seq<Tx>
    var rx: seq<Rx>
    ghost var past: seq<Past>

    ghost function Net(): Net
      reads this
    {
      ChannelState.Net(capacity, tx, rx, past)
    }

    ghost predicate Shaped()
      reads this
    {
      Shape(Net())
    }

    /** Routes, queues and paused threads are as they must be, and nothing has been lost or reordered. */
    ghost predicate Valid()
      reads this
    {
      Safe(Net())
    }

    constructor (n: nat, size: nat)
      ensures Valid() && Net() == Init(n, size)
    {
      capacity := size;
      tx := seq(n, _ => Fresh());
      rx := seq(n, _ => Rx(false, None, [], [], None));
      past := seq(n, _ => Past([], [], [], [], []));
      new;
      InitIsSafe(n, size);
      assert tx == Init(n, size).tx && rx == Init(n, size).rx && past == Init(n, size).past;
    }

    /** `ChanEndpoint::claim`, called on d by the sender i. */
    method Claim(d: nat, i: nat) returns (open: bool, junk: bool)
      requires Shaped() && d < |tx| && i < |tx|
      modifies this
      ensures tx == old(tx)
      ensures junk == !old(rx[d].inUse)
      ensures open == (junk || old(rx[d].source) in {None, Some(i)})
      ensures rx == if junk then old(rx)
                    else if open then old(rx)[d := old(rx[d]).(source := Some(i))]
                    else old(rx)[d := old(rx[d]).(queue := old(rx[d].queue) + [i])]
      ensures past == if open then old(past) else old(past)[d := old(past[d]).(queued := old(past[d].queued) + [i])]
    {
      open, junk := true, false;
      if !rx[d].inUse { junk := true; return; }
      if rx[d].source == Some(i) { assert rx[d].(source := Some(i)) == rx[d]; return; }
      if rx[d].source.Some? {
        rx := rx[d := rx[d].(queue := rx[d].queue + [i])];
        past := past[d := past[d].(queued := past[d].queued + [i])];
        open := false;
        return;
      }
      rx := rx[d := rx[d].(source := Some(i))];
    }

    /** `notifyDestClaimed` and `notifyDestCanAcceptTokens`: wake the thread paused on output, if any. */
    method Notify(j: nat)
      requires Shaped() && j < |tx|
      modifies this`tx
      ensures tx == old(tx)[j := old(tx[j]).(pausedOut := false)]
    {
      if tx[j].pausedOut { tx := tx[j := tx[j].(pausedOut := false)]; }
    }

    /** `ChanEndpoint::release`. */
    method Release(d: nat)
      requires Shaped() && d < |tx|
      modifies this
      ensures old(rx[d].queue) == [] ==>
                rx == old(rx)[d := old(rx[d]).(source := None)] && tx == old(tx) && past == old(past)
      ensures old(rx[d].queue) != [] ==>
                var next := old(rx[d].queue[0]);
                && rx == old(rx)[d := old(rx[d]).(source := Some(next), queue := old(rx[d].queue)[1..])]
                && tx == old(tx)[next := old(tx)[next].(pausedOut := false)]
                && past == old(past)[d := old(past[d]).(granted := old(past[d].granted) + [next])]
    {
      if rx[d].queue == [] {
        rx := rx[d := rx[d].(source := None)];
        return;
      }
      var next := rx[d].queue[0];
      rx := rx[d := rx[d].(source := Some(next), queue := rx[d].queue[1..])];
      past := past[d := past[d].(granted := past[d].granted + [next])];
      Notify(next);
    }

    /** The sender i has joined the queue of d and its thread is about to pause. */
    ghost predicate QueuedFor(i: nat, d: nat, oldTx: seq<Tx>, oldRx: seq<Rx>, oldPast: seq<Past>)
      requires i < |oldTx| && d < |oldRx| && d < |oldPast|
      reads this
    {
      && tx == oldTx[i := oldTx[i].(dest := Some(d))]
      && rx == oldRx[d := oldRx[d].(queue := oldRx[d].queue + [i])]
      && past == oldPast[d := oldPast[d].(queued := oldPast[d].queued + [i])]
    }

    /** `openRoute`: false when the sender had to queue. */
    method OpenRoute(i: nat) returns (open: bool)
      requires Shaped() && i < |tx|
      modifies this
      ensures Shaped() && |tx| == old(|tx|)
      ensures open == old(RouteOpens(Net(), i))
      ensures open ==> Net() == old(ChannelState.OpenRoute(Net(), i))
      ensures !open ==> old(tx[i].target).Some? && old(tx[i].target.value) < |rx|
      ensures !open ==> QueuedFor(i, old(tx[i].target.value), old(tx), old(rx), old(past))
    {
      if tx[i].inPacket { return true; }
      tx := tx[i := tx[i].(dest := tx[i].target)];
      if tx[i].dest.None? {
        tx := tx[i := tx[i].(inPacket := true, junkPacket := true)];
        return true;
      }
      open := EnterRoute(i, tx[i].dest.value);
    }

    /** Claim the destination d and, unless the sender had to queue, begin its packet. */
    method EnterRoute(i: nat, d: nat) returns (open: bool)
      requires Shaped() && i < |tx| && d < |tx|
      modifies this
      ensures |tx| == old(|tx|)
      ensures open == (!old(rx[d].inUse) || old(rx[d].source) in {None, Some(i)})
      ensures tx == if open then old(tx)[i := old(tx[i]).(inPacket := true,
          junkPacket := !old(rx[d].inUse) || old(tx[i].junkPacket))]
                    else old(tx)
      ensures rx == if !old(rx[d].inUse) then old(rx)
                    else if open then old(rx)[d := old(rx[d]).(source := Some(i))]
                    else old(rx)[d := old(rx[d]).(queue := old(rx[d].queue) + [i])]
      ensures past == if open then old(past) else old(past)[d := old(past[d]).(queued := old(past[d].queued) + [i])]
    {
      var junk;
      open, junk := Claim(d, i);
      if open {
        tx := tx[i := tx[i].(inPacket := true, junkPacket := if junk then true else tx[i].junkPacket)];
      }
    }

    /** `update`: wake a thread waiting for input that now can go on. */
    method Update(d: nat)
      requires Shaped() && d < |tx| && rx[d].buf != []
      modifies this`rx
      ensures rx == old(rx)[d := old(rx[d]).(pausedIn := StillPaused(old(rx[d].pausedIn), old(rx[d].buf)))]
    {
      if rx[d].pausedIn.None? { return; }
      if rx[d].pausedIn.value && |rx[d].buf| < 4 { return; }
      rx := rx[d := rx[d].(pausedIn := None)];
    }

    /** `receiveDataToken` and `receiveDataTokens`. */
    method ReceiveData(d: nat, values: seq<Token>)
      requires Shaped() && d < |tx| && values != []
      modifies this`rx
      ensures var buf := old(rx[d].buf) + values;
              rx == old(rx)[d := old(rx[d]).(buf := buf, pausedIn := StillPaused(old(rx[d].pausedIn), buf))]
    {
      assert old(rx[d].buf) + values[..0] == rx[d].buf;
      for k := 0 to |values|
        invariant rx == old(rx)[d := old(rx[d]).(buf := old(rx[d].buf) + values[..k])]
      {
        rx := rx[d := rx[d].(buf := rx[d].buf + [values[k]])];
        assert old(rx[d].buf) + values[..k] + [values[k]] == old(rx[d].buf) + values[..k + 1];
      }
      assert values[..|values|] == values;
      Update(d);
    }

    method PauseOut(i: nat, op: Out)
      requires Shaped() && i < |tx|
      modifies this`tx
      ensures Shaped() && Net() == old(Wait(Net(), i, op))
    {
      tx := tx[i := tx[i].(pausedOut := true, retry := Some(op))];
    }

    /** The output is done: the thread moves on, and the delivery is on record. */
    method Delivered(i: nat, d: nat, op: Out)
      requires Shaped() && i < |tx| && d < |tx|
      modifies this`tx, this`past
      ensures tx == old(tx)[i := old(tx[i]).(retry := None)]
      ensures past == var p := old(past)[d := old(past[d]).(accepted := old(past[d].accepted) + [Sent(i, op)])];
                      p[i := p[i].(sent := p[i].sent + [Posted(Some(d), op)])]
    {
      tx := tx[i := tx[i].(retry := None)];
      past := past[d := past[d].(accepted := past[d].accepted + [Sent(i, op)])];
      past := past[i := past[i].(sent := past[i].sent + [Posted(Some(d), op)])];
    }

    /** The output of a junked packet is done, and the packet with it if the output closes it. */
    method Vanished(i: nat, op: Out)
      requires Shaped() && i < |tx| && tx[i].inPacket && tx[i].junkPacket
      modifies this`tx, this`past
      ensures Shaped() && Net() == old(Vanish(Net(), i, op))
    {
      tx := tx[i := tx[i].(retry := None)];
      if op.OutCt? && (op.value == CT_END || op.value == CT_PAUSE) {
        tx := tx[i := tx[i].(inPacket := false, junkPacket := false)];
      }
      past := past[i := past[i].(sent := past[i].sent + [Posted(None, op)])];
    }

    /** `receiveCtrlToken` up to the release: the token, unless it is CT_PAUSE. */
    method ReceiveCtrl(i: nat, d: nat, op: Out)
      requires Shaped() && i < |tx| && d < |tx| && op.OutCt?
      modifies this
      ensures Shaped() && Net() == old(Accept(Net(), i, d, op))
    {
      if op.value != CT_PAUSE {
        rx := rx[d := rx[d].(buf := rx[d].buf + [Ctrl(op.value)])];
        Update(d);
      } else {
        assert rx[d].buf + Tokens(op) == rx[d].buf;
      }
      Delivered(i, d, op);
    }

    /** The end of a packet, at both ends. */
    method EndPacket(i: nat, d: nat)
      requires Shaped() && i < |tx| && d < |tx|
      modifies this
      ensures Shaped() && Net() == old(Close(Net(), i, d))
    {
      tx := tx[i := tx[i].(inPacket := false, dest := None)];
      Release(d);
    }

    /** `outt` and `out` with the route open: a data token, or a word as four tokens, most significant first. */
    method SendData(i: nat, op: Out) returns (r: Result)
      requires Shaped() && i < |tx| && tx[i].inPacket && Bound(Net(), i) && !op.OutCt?
      modifies this
      ensures Shaped() && Net() == old(Send(Net(), i, op))
      ensures r == if old(tx[i].junkPacket || HasRoom(Net(), tx[i].dest.value, op)) then Continue(0) else Deschedule
    {
      if tx[i].junkPacket {
        Vanished(i, op);
        return Continue(0);
      }
      var d := tx[i].dest.value;
      if |rx[d].buf| + (if op.OutWord? then 4 else 1) > capacity {
        PauseOut(i, op);
        return Deschedule;
      }
      ReceiveData(d, if op.OutWord? then Split(op.word) else [Data(op.value)]);
      Delivered(i, d, op);
      return Continue(0);
    }

    /** `outct` with the route open: CT_END and CT_PAUSE end the packet and release the route. */
    method SendCtrl(i: nat, op: Out) returns (r: Result)
      requires Shaped() && i < |tx| && tx[i].inPacket && Bound(Net(), i) && op.OutCt?
      modifies this
      ensures Shaped() && Net() == old(Send(Net(), i, op))
      ensures r == if old(tx[i].junkPacket || HasRoom(Net(), tx[i].dest.value, op)) then Continue(0) else Deschedule
    {
      if tx[i].junkPacket {
        Vanished(i, op);
        return Continue(0);
      }
      var d := tx[i].dest.value;
      if |rx[d].buf| >= capacity {
        PauseOut(i, op);
        return Deschedule;
      }
      ReceiveCtrl(i, d, op);
      if op.value == CT_END || op.value == CT_PAUSE { EndPacket(i, d); }
      return Continue(0);
    }

    method Transmit(i: nat, op: ChannelState.Out) returns (r: Result)
      requires Shaped() && i < |tx| && Bound(Net(), i) && !tx[i].pausedOut
      modifies this
      ensures Shaped() && Net() == old(Output(Net(), i, op))
      ensures r == if tx[i].pausedOut then Deschedule else Continue(0)
    {
      var open := OpenRoute(i);
      if !open {
        PauseOut(i, op);
        return Deschedule;
      }
      if op.OutCt? { r := SendCtrl(i, op); } else { r := SendData(i, op); }
    }

    /** `testct` fails on an empty buffer and pauses. */
    method TestCtrl(d: nat) returns (ready: bool, isCt: bool)
      requires Shaped() && d < |tx|
      modifies this`rx
      ensures ready == (old(rx[d].buf) != []) && (ready ==> isCt == old(rx[d].buf[0]).Ctrl?)
      ensures rx == if ready then old(rx) else old(rx)[d := old(rx[d]).(pausedIn := Some(false))]
    {
      if rx[d].buf == [] {
        rx := rx[d := rx[d].(pausedIn := Some(false))];
        return false, false;
      }
      return true, rx[d].buf[0].Ctrl?;
    }

    /** `testwct`: the position of the first control token in the next word, or 0. */
    method TestWord(d: nat) returns (ready: bool, position: nat)
      requires Shaped() && d < |tx|
      modifies this`rx
      ensures var buf := old(rx[d].buf);
              var p := CtrlPosition(buf, if |buf| < 4 then |buf| else 4);
              && ready == (p != 0 || |buf| >= 4) && (ready ==> position == p)
              && rx == if ready then old(rx) else old(rx)[d := old(rx[d]).(pausedIn := Some(true))]
    {
      var buf := rx[d].buf;
      position := 0;
      var num := if |buf| < 4 then |buf| else 4;
      for k := 0 to num
        invariant CtrlPosition(buf, k) == 0
      {
        if buf[k].Ctrl? {
          FirstCtrl(buf, k + 1, num);
          return true, k + 1;
        }
      }
      if |buf| < 4 {
        rx := rx[d := rx[d].(pausedIn := Some(true))];
        return false, 0;
      }
      return true, 0;
    }

    /** `poptoken`, and the same for a word: tokens leave, and the current source is told of the room. */
    method Pop(d: nat, n: nat)
      requires Shaped() && d < |tx| && n <= |rx[d].buf|
      modifies this
      ensures Shaped() && Net() == old(Take(Net(), d, n))
    {
      past := past[d := past[d].(taken := past[d].taken + rx[d].buf[..n])];
      rx := rx[d := rx[d].(buf := rx[d].buf[n..])];
      if rx[d].source.Some? { Notify(rx[d].source.value); }
    }

    /** `intoken`, `inct`, `chkct` and `testct`. */
    method InShort(d: nat, op: In) returns (r: Result)
      requires Shaped() && d < |tx| && !op.InWord? && !op.TestWct?
      modifies this
      ensures Shaped() && Net() == old(Input(Net(), d, op)) && r == old(Look(rx[d].buf, op))
    {
      var ready, isCt := TestCtrl(d);
      if !ready { return Deschedule; }
      var front := rx[d].buf[0];
      match op {
        case TestCt => return Continue(if isCt then 1 else 0);
        case InToken => if isCt { return Illegal; }
        case InCt => if !isCt { return Illegal; }
        case CheckCt(v) => if !isCt || front.value != v { return Illegal; }
      }
      Pop(d, 1);
      return Continue(front.value);
    }

    /** `in` and `testwct`. */
    method InWide(d: nat, op: In) returns (r: Result)
      requires Shaped() && d < |tx| && (op.InWord? || op.TestWct?)
      modifies this
      ensures Shaped() && Net() == old(Input(Net(), d, op)) && r == old(Look(rx[d].buf, op))
    {
      var ready, position := TestWord(d);
      if !ready { return Deschedule; }
      if op.TestWct? { return Continue(position); }
      if position != 0 { return Illegal; }
      var value := Join(rx[d].buf);
      Pop(d, 4);
      return Continue(value);
    }

    /** `outt`, `out` and `outct`, by a thread that is not paused and repeats what it was paused in. */
    method Out(i: nat, op: ChannelState.Out) returns (r: Result)
      requires Valid() && i < |tx| && Idle(Net(), i, op)
      modifies this
      ensures old(Bound(Net(), i)) && Valid() && Net() == old(Output(Net(), i, op))
      ensures r == if tx[i].pausedOut then Deschedule else Continue(0)
    {
      StepIsSafe(Net(), Sends(i, op));
      r := Transmit(i, op);
    }

    /** The input instructions, by a thread that is not paused. */
    method In(d: nat, op: ChannelState.In) returns (r: Result)
      requires Valid() && d < |tx| && rx[d].inUse && rx[d].pausedIn.None?
      modifies this
      ensures Valid() && Net() == old(Input(Net(), d, op)) && r == old(Look(rx[d].buf, op))
    {
      StepIsSafe(Net(), Receives(d, op));
      if op.InWord? || op.TestWct? { r := InWide(d, op); } else { r := InShort(d, op); }
    }

    /** `setData`, given whether the identifier is one of a channel end or of a switch, and what it refers to. */
    method SetData(i: nat, channel: bool, target: Option<nat>) returns (ok: bool)
      requires Valid() && i < |tx| && rx[i].inUse && tx[i].retry.None? && (target.Some? ==> target.value < |tx|)
      modifies this`tx
      ensures Valid() && ok == (channel && !old(tx[i].inPacket))
      ensures Net() == if ok then old(SetDest(Net(), i, target)) else old(Net())
    {
      StepIsSafe(Net(), SetsDest(i, target));
      if tx[i].inPacket { return false; }
      if !channel { return false; }
      tx := tx[i := tx[i].(target := target)];
      return true;
    }

    method Alloc(i: nat)
      requires Valid() && i < |tx| && !rx[i].inUse
      modifies this`tx, this`rx
      ensures Valid() && Net() == old(ChannelState.Alloc(Net(), i))
    {
      StepIsSafe(Net(), Allocates(i));
      tx := tx[i := Fresh().(target := tx[i].target)];
      rx := rx[i := rx[i].(inUse := true, pausedIn := None)];
    }

    method Free(i: nat) returns (ok: bool)
      requires Valid() && i < |tx| && rx[i].inUse && tx[i].retry.None? && rx[i].pausedIn.None?
      modifies this`rx
      ensures Valid() && ok == old(CanFree(Net(), i)) && Net() == old(ChannelState.Free(Net(), i))
    {
      StepIsSafe(Net(), Frees(i));
      if rx[i].buf != [] || rx[i].source.Some? || tx[i].inPacket { return false; }
      rx := rx[i := rx[i].(inUse := false)];
      return true;
    }
  }

  lemma {:induction false} FirstCtrl(buf: seq<Token>, k: nat, n: nat)
    requires 0 < k <= n <= |buf| && CtrlPosition(buf, k) != 0
    ensures CtrlPosition(buf, n) == CtrlPosition(buf, k)
    decreases n
  {
    if k < n { FirstCtrl(buf, k, n - 1); }
  }
}
