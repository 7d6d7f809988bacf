/** Channel ends exchanging packets of tokens (lib/ChanEndpoint.cpp, lib/Chanend.cpp), as values. A channel end is an
    index; its sending half and its receiving half are kept in two tables, beside a record of its past. */
module ChannelState {
  import opened Options

  type Byte = x: nat | x < 0x100
  type Word = x: nat | x < 0x1_0000_0000

  datatype Token = Data(value: Byte) | Ctrl(value: Byte)

  const CT_END: nat := 1
  const CT_PAUSE: nat := 2

  /** An output instruction: one data token, a word, one control token. */
  datatype Out = OutToken(value: Byte) | OutWord(word: Word) | OutCt(value: Byte)

  /** An input instruction; the last two only look. */
  datatype In = InToken | InCt | CheckCt(value: Byte) | InWord | TestCt | TestWct

  /** The sending half: where output goes, the packet being sent, and the instruction a paused thread will repeat. */
  datatype Tx = Tx(target: Option<nat>, dest: Option<nat>, inPacket: bool, junkPacket: bool,
                   pausedOut: bool, retry: Option<Out>)

  /** The receiving half. `pausedIn` says whether the paused thread waits for a word. */
  datatype Rx = Rx(inUse: bool, source: Option<nat>, queue: seq<nat>, buf: seq<Token>, pausedIn: Option<bool>)

  datatype Sent = Sent(source: nat, op: Out)
  /** An output that is done; one without a destination was junked. */
  datatype Posted = Posted(dest: Option<nat>, op: Out)

  /** What happened at a channel end: outputs it accepted and tokens taken from it, routes to it that had to queue
      and were granted later, and its own outputs, delivered or junked. */
  datatype Past = Past(accepted: seq<Sent>, taken: seq<Token>, queued: seq<nat>, granted: seq<nat>, sent: seq<Posted>)

  /** All channel ends, with the size of their buffers. */
  datatype Net = Net(capacity: nat, tx: seq<Tx>, rx: seq<Rx>, past: seq<Past>)

  predicate Shape(s: Net) {
    |s.rx| == |s.tx| == |s.past| && forall j | 0 <= j < |s.tx| ::
      && (s.tx[j].target.Some? ==> s.tx[j].target.value < |s.tx|)
      && (s.tx[j].dest.Some? ==> s.tx[j].dest.value < |s.tx|)
      && (s.rx[j].source.Some? ==> s.rx[j].source.value < |s.tx|)
      && (forall k | 0 <= k < |s.rx[j].queue| :: s.rx[j].queue[k] < |s.tx|)
  }

  /** The big-endian tokens of a word, and the word back. */
  function Split(w: Word): seq<Token> {
    [Data(w / 0x100_0000 % 0x100), Data(w / 0x1_0000 % 0x100), Data(w / 0x100 % 0x100), Data(w % 0x100)]
  }

  function Join(t: seq<Token>): nat
    requires |t| >= 4
  {
    t[0].value * 0x100_0000 + t[1].value * 0x1_0000 + t[2].value * 0x100 + t[3].value
  }

  lemma SplitJoins(w: Word)
    ensures Join(Split(w)) == w
  {
    DivideOn(w, 0x100);
    DivideOn(w, 0x1_0000);
  }

  /** Dividing by a power of 256 and going on by one more byte. */
  lemma DivideOn(w: nat, b: nat)
    requires b == 0x100 || b == 0x1_0000
    ensures w / b == w / (0x100 * b) * 0x100 + w / b % 0x100
  {
  }

  lemma LowByte(x: nat, b: Byte)
    ensures (x * 0x100 + b) % 0x100 == b
  {
  }

  lemma Quotients(a: Byte, b: Byte, c: Byte, d: Byte, w: nat)
    requires w == a * 0x100_0000 + b * 0x1_0000 + c * 0x100 + d
    ensures w < 0x1_0000_0000 && w / 0x100_0000 == a && w / 0x1_0000 == a * 0x100 + b
    ensures w / 0x100 == (a * 0x100 + b) * 0x100 + c
  {
  }

  lemma BytesOf(a: Byte, b: Byte, c: Byte, d: Byte, w: nat)
    requires w == a * 0x100_0000 + b * 0x1_0000 + c * 0x100 + d
    ensures w < 0x1_0000_0000 && w / 0x100_0000 % 0x100 == a && w / 0x1_0000 % 0x100 == b
    ensures w / 0x100 % 0x100 == c && w % 0x100 == d
  {
    Quotients(a, b, c, d, w);
    LowByte(a, b);
    LowByte(a * 0x100 + b, c);
    LowByte((a * 0x100 + b) * 0x100 + c, d);
  }

  lemma JoinSplits(t: seq<Token>)
    requires |t| >= 4 && t[0].Data? && t[1].Data? && t[2].Data? && t[3].Data?
    ensures Join(t) < 0x1_0000_0000 && Split(Join(t)) == t[..4]
  {
    BytesOf(t[0].value, t[1].value, t[2].value, t[3].value, Join(t));
    assert t[..4] == [t[0], t[1], t[2], t[3]];
  }

  /** The tokens an output puts in the buffer: CT_PAUSE closes the route without one. */
  function Tokens(op: Out): seq<Token> {
    match op
    case OutToken(v) => [Data(v)]
    case OutWord(w) => Split(w)
    case OutCt(v) => if v == CT_PAUSE then [] else [Ctrl(v)]
  }

  predicate Closes(op: Out) { op.OutCt? && (op.value == CT_END || op.value == CT_PAUSE) }

  /** The room an output asks for; CT_PAUSE asks for one token too. */
  function Room(op: Out): nat { if op.OutWord? then 4 else 1 }

  function Fresh(): Tx { Tx(None, None, false, false, false, None) }

  // ---- Sending ----

  /** The packet is junked: there is no destination or it is not in use. */
  function OpenJunk(s: Net, i: nat): Net
    requires Shape(s) && i < |s.tx|
  {
    s.(tx := s.tx[i := s.tx[i].(inPacket := true, junkPacket := true, dest := s.tx[i].target)])
  }

  /** The route is free or already this sender's. */
  function OpenFree(s: Net, i: nat, d: nat): Net
    requires Shape(s) && i < |s.tx| && d < |s.tx|
  {
    s.(tx := s.tx[i := s.tx[i].(inPacket := true, dest := Some(d))],
       rx := s.rx[d := s.rx[d].(source := Some(i))])
  }

  /** Another packet is in the way: queue for the route and pause. */
  function Enqueue(s: Net, i: nat, d: nat, op: Out): Net
    requires Shape(s) && i < |s.tx| && d < |s.tx|
  {
    s.(tx := s.tx[i := s.tx[i].(dest := Some(d), pausedOut := true, retry := Some(op))],
       rx := s.rx[d := s.rx[d].(queue := s.rx[d].queue + [i])],
       past := s.past[d := s.past[d].(queued := s.past[d].queued + [i])])
  }

  predicate Junked(s: Net, i: nat)
    requires Shape(s) && i < |s.tx|
  {
    s.tx[i].target.None? || !s.rx[s.tx[i].target.value].inUse
  }

  predicate RouteOpens(s: Net, i: nat)
    requires Shape(s) && i < |s.tx|
  {
    s.tx[i].inPacket || Junked(s, i) || s.rx[s.tx[i].target.value].source in {None, Some(i)}
  }

  /** `openRoute`, when it succeeds. */
  function OpenRoute(s: Net, i: nat): Net
    requires Shape(s) && i < |s.tx|
  {
    if s.tx[i].inPacket then s
    else if Junked(s, i) then OpenJunk(s, i)
    else OpenFree(s, i, s.tx[i].target.value)
  }

  function Wait(s: Net, i: nat, op: Out): Net
    requires Shape(s) && i < |s.tx|
  {
    s.(tx := s.tx[i := s.tx[i].(pausedOut := true, retry := Some(op))])
  }

  /** An output of a junked packet vanishes; a closing one ends the packet. */
  function Vanish(s: Net, i: nat, op: Out): Net
    requires Shape(s) && i < |s.tx|
  {
    s.(tx := s.tx[i := s.tx[i].(retry := None, inPacket := !Closes(op), junkPacket := !Closes(op))],
       past := s.past[i := s.past[i].(sent := s.past[i].sent + [Posted(None, op)])])
  }

  /** `update`: does a thread waiting for input wake with this buffer? */
  function StillPaused(pausedIn: Option<bool>, buf: seq<Token>): Option<bool> {
    if pausedIn == Some(true) && |buf| < 4 then pausedIn else None
  }

  /** The tokens reach the buffer, and a waiting thread is woken (CT_PAUSE delivers nothing and wakes nobody). */
  function Accept(s: Net, i: nat, d: nat, op: Out): Net
    requires Shape(s) && i < |s.tx| && d < |s.tx|
  {
    var buf := s.rx[d].buf + Tokens(op);
    var pausedIn := if Tokens(op) == [] then s.rx[d].pausedIn else StillPaused(s.rx[d].pausedIn, buf);
    var past := s.past[d := s.past[d].(accepted := s.past[d].accepted + [Sent(i, op)])];
    s.(tx := s.tx[i := s.tx[i].(retry := None)],
       rx := s.rx[d := s.rx[d].(buf := buf, pausedIn := pausedIn)],
       past := past[i := past[i].(sent := past[i].sent + [Posted(Some(d), op)])])
  }

  /** The packet is over: `release` hands the route to the first in the queue and wakes it. */
  function Close(s: Net, i: nat, d: nat): Net
    requires Shape(s) && i < |s.tx| && d < |s.tx|
  {
    var done := s.tx[i := s.tx[i].(inPacket := false, dest := None)];
    if s.rx[d].queue == [] then s.(tx := done, rx := s.rx[d := s.rx[d].(source := None)])
    else
      var next := s.rx[d].queue[0];
      s.(tx := done[next := done[next].(pausedOut := false)],
         rx := s.rx[d := s.rx[d].(source := Some(next), queue := s.rx[d].queue[1..])],
         past := s.past[d := s.past[d].(granted := s.past[d].granted + [next])])
  }

  function Deliver(s: Net, i: nat, d: nat, op: Out): Net
    requires Shape(s) && i < |s.tx| && d < |s.tx|
  {
    if Closes(op) then Close(Accept(s, i, d, op), i, d) else Accept(s, i, d, op)
  }

  predicate HasRoom(s: Net, d: nat, op: Out)
    requires d < |s.rx|
  {
    |s.rx[d].buf| + Room(op) <= s.capacity
  }

  /** `out`, `outt` and `outct` with the route open. */
  function Send(s: Net, i: nat, op: Out): Net
    requires Shape(s) && i < |s.tx| && s.tx[i].inPacket && (!s.tx[i].junkPacket ==> s.tx[i].dest.Some?)
  {
    if s.tx[i].junkPacket then Vanish(s, i, op)
    else if !HasRoom(s, s.tx[i].dest.value, op) then Wait(s, i, op)
    else Deliver(s, i, s.tx[i].dest.value, op)
  }

  /** A sender in a live packet knows its destination. */
  predicate Bound(s: Net, i: nat)
    requires i < |s.tx|
  {
    s.tx[i].inPacket && !s.tx[i].junkPacket ==> s.tx[i].dest.Some?
  }

  function Output(s: Net, i: nat, op: Out): Net
    requires Shape(s) && i < |s.tx| && Bound(s, i)
  {
    if RouteOpens(s, i) then Send(OpenRoute(s, i), i, op)
    else Enqueue(s, i, s.tx[i].target.value, op)
  }

  // ---- Receiving ----

  /** Tokens leave the buffer, and the current source is told that there is room. */
  function Take(s: Net, d: nat, n: nat): Net
    requires Shape(s) && d < |s.tx| && n <= |s.rx[d].buf|
  {
    var tx := match s.rx[d].source
      case None => s.tx
      case Some(j) => s.tx[j := s.tx[j].(pausedOut := false)];
    s.(tx := tx, rx := s.rx[d := s.rx[d].(buf := s.rx[d].buf[n..])],
       past := s.past[d := s.past[d].(taken := s.past[d].taken + s.rx[d].buf[..n])])
  }

  function PauseIn(s: Net, d: nat, word: bool): Net
    requires Shape(s) && d < |s.tx|
  {
    s.(rx := s.rx[d := s.rx[d].(pausedIn := Some(word))])
  }

  /** The position, from 1, of the first control token among the first n; 0 if there is none. */
  function CtrlPosition(buf: seq<Token>, n: nat): (p: nat)
    requires n <= |buf|
    ensures p <= n && (p != 0 ==> buf[p - 1].Ctrl?)
    ensures forall k | 0 <= k < (if p == 0 then n else p - 1) :: buf[k].Data?
    decreases n
  {
    if n == 0 then 0
    else
      var p := CtrlPosition(buf, n - 1);
      if p != 0 then p else if buf[n - 1].Ctrl? then n else 0
  }

  datatype Result = Continue(value: nat) | Deschedule | Illegal

  /** What an input instruction finds in the buffer. */
  function Look(buf: seq<Token>, op: In): Result {
    if op.InWord? || op.TestWct? then
      var p := CtrlPosition(buf, if |buf| < 4 then |buf| else 4);
      if p == 0 && |buf| < 4 then Deschedule
      else if op.TestWct? then Continue(p)
      else if p != 0 then Illegal
      else Continue(Join(buf))
    else if buf == [] then Deschedule
    else match op
      case TestCt => Continue(if buf[0].Ctrl? then 1 else 0)
      case InToken => if buf[0].Ctrl? then Illegal else Continue(buf[0].value)
      case InCt => if buf[0].Data? then Illegal else Continue(buf[0].value)
      case CheckCt(v) => if buf[0] != Ctrl(v) then Illegal else Continue(v)
  }

  /** How many tokens a completed input removes. */
  function Width(op: In): nat { if op.TestCt? || op.TestWct? then 0 else if op.InWord? then 4 else 1 }

  function Input(s: Net, d: nat, op: In): Net
    requires Shape(s) && d < |s.tx|
  {
    match Look(s.rx[d].buf, op)
    case Deschedule => PauseIn(s, d, op.InWord? || op.TestWct?)
    case Illegal => s
    case Continue(_) => if Width(op) == 0 then s else Take(s, d, Width(op))
  }

  // ---- Life cycle ----

  /** `setData`: refused in the middle of a packet. */
  function SetDest(s: Net, i: nat, target: Option<nat>): Net
    requires Shape(s) && i < |s.tx|
  {
    if s.tx[i].inPacket then s else s.(tx := s.tx[i := s.tx[i].(target := target)])
  }

  function Alloc(s: Net, i: nat): Net
    requires Shape(s) && i < |s.tx|
  {
    s.(tx := s.tx[i := Fresh().(target := s.tx[i].target)],
       rx := s.rx[i := s.rx[i].(inUse := true, pausedIn := None)])
  }

  predicate CanFree(s: Net, i: nat)
    requires Shape(s) && i < |s.tx|
  {
    s.rx[i].buf == [] && s.rx[i].source.None? && !s.tx[i].inPacket
  }

  /** `free`: refused while tokens are buffered or a packet is open in either direction. */
  function Free(s: Net, i: nat): Net
    requires Shape(s) && i < |s.tx|
  {
    if CanFree(s, i) then s.(rx := s.rx[i := s.rx[i].(inUse := false)]) else s
  }
}
