/** The configuration requests a switch understands (lib/SSwitch.cpp), and how it tells them from other packets. */
module SwitchRequest {
  import opened Options
  import opened ChannelState

  const CT_ACK: Byte := 3
  const CT_NACK: Byte := 4
  const CT_WRITEC: Byte := 0xc0
  const CT_READC: Byte := 0xc1
  const READ_LENGTH: nat := 6
  const WRITE_LENGTH: nat := 10

  type Half = x: nat | x < 0x1_0000

  datatype Request = Request(write: bool, returnNode: Half, returnNum: Byte, regNum: Half, data: Word)

  /** The tokens of a request, CT_END excluded: what a sender is to put on the link. */
  function Encode(r: Request): seq<Token> {
    [Ctrl(if r.write then CT_WRITEC else CT_READC),
     Data(r.returnNode / 0x100), Data(r.returnNode % 0x100), Data(r.returnNum),
     Data(r.regNum / 0x100), Data(r.regNum % 0x100)]
    + if r.write then Split(r.data) else []
  }

  predicate AllData(t: seq<Token>) { forall k | 0 <= k < |t| :: t[k].Data? }

  function Read16(t: seq<Token>): Half
    requires |t| >= 2
  {
    t[0].value * 0x100 + t[1].value
  }

  /** `parseRequest` */
  function Parse(t: seq<Token>): Option<Request> {
    if t == [] || t[0].Data? || t[0].value !in {CT_READC, CT_WRITEC} then None
    else
      var write := t[0].value == CT_WRITEC;
      if |t| != (if write then WRITE_LENGTH else READ_LENGTH) || !AllData(t[1..]) then None
      else Some(Request(write, Read16(t[1..]), t[3].value, Read16(t[4..]), if write then JoinWord(t[6..]) else 0))
  }

  function JoinWord(t: seq<Token>): Word
    requires |t| >= 4
  {
    Join(t)
  }

  lemma ParseEncoded(r: Request)
    requires !r.write ==> r.data == 0
    ensures Parse(Encode(r)) == Some(r)
  {
    var t := Encode(r);
    assert t[1..][0] == t[1] && t[1..][1] == t[2] && t[4..][0] == t[4] && t[4..][1] == t[5];
    if r.write {
      assert t[6..] == Split(r.data) + [];
      SplitJoins(r.data);
    }
  }

  /** A packet is acted on as a request exactly if it is that request's encoding. */
  lemma ParseIff(t: seq<Token>, r: Request)
    ensures Parse(t) == Some(r) <==> t == Encode(r) && (r.write || r.data == 0)
  {
    if Parse(t) == Some(r) {
      forall k | 1 <= k < |t| ensures t[k].Data? { assert t[1..][k - 1].Data?; }
      if r.write {
        var data := t[6..];
        assert data[0].Data? && data[1].Data? && data[2].Data? && data[3].Data?;
        JoinSplits(data);
        assert data == data[..4] && t == t[..6] + data;
      }
    }
    if t == Encode(r) && (r.write || r.data == 0) { ParseEncoded(r); }
  }

  /** A request token by token: the kind, the node and channel end to answer to, the register, and what to write, the
      most significant byte of each first. */
  predicate IsRequest(t: seq<Token>, r: Request) {
    && |t| == (if r.write then 10 else 6) && t[0] == Ctrl(if r.write then 0xc0 else 0xc1)
    && t[1].Data? && t[2].Data? && t[3].Data? && t[4].Data? && t[5].Data?
    && t[1].value * 0x100 + t[2].value == r.returnNode && t[3].value == r.returnNum
    && t[4].value * 0x100 + t[5].value == r.regNum
    && (r.write ==> t[6].Data? && t[7].Data? && t[8].Data? && t[9].Data? && Join(t[6..]) == r.data)
  }

  lemma EncodeIs(r: Request)
    ensures IsRequest(Encode(r), r)
  {
    if r.write {
      assert Encode(r)[6..] == Split(r.data);
      SplitJoins(r.data);
    }
  }

  // ---- Receiving ----

  /** One call of the switch's receive methods, other than with CT_END. */
  datatype Delivery = One(token: Token) | Batch(values: seq<Byte>)

  /** CT_PAUSE only releases the route. */
  function Carries(d: Delivery): seq<Token> {
    match d
    case One(t) => if t == Ctrl(CT_PAUSE) then [] else [t]
    case Batch(values) => seq(|values|, i requires 0 <= i < |values| => Data(values[i]))
  }

  /** The tokens kept, and whether the rest of the packet is junked. */
  datatype Buffer = Buffer(tokens: seq<Token>, junk: bool)

  function Receive(b: Buffer, d: Delivery): Buffer {
    if Carries(d) == [] || b.junk then b
    else if |b.tokens| + |Carries(d)| > WRITE_LENGTH then b.(junk := true)
    else b.(tokens := b.tokens + Carries(d))
  }

  /** CT_END: the request to act on, if any. The buffer is then empty again. */
  function Finish(b: Buffer): Option<Request> { if b.junk then None else Parse(b.tokens) }

  function Received(ds: seq<Delivery>): Buffer {
    if ds == [] then Buffer([], false) else Receive(Received(ds[..|ds| - 1]), ds[|ds| - 1])
  }

  /** All tokens of a packet, however they were delivered. */
  function Packet(ds: seq<Delivery>): seq<Token> {
    if ds == [] then [] else Packet(ds[..|ds| - 1]) + Carries(ds[|ds| - 1])
  }

  lemma {:induction false} ReceivedIs(ds: seq<Delivery>)
    ensures var b := Received(ds);
      && |b.tokens| <= WRITE_LENGTH
      && (b.junk <==> |Packet(ds)| > WRITE_LENGTH) && (!b.junk ==> b.tokens == Packet(ds))
  {
    if ds != [] { ReceivedIs(ds[..|ds| - 1]); }
  }

  lemma EncodedLength(r: Request)
    ensures |Encode(r)| <= WRITE_LENGTH
  {
  }

  /** For every packet, delivered in any mix of single and batched tokens, the switch acts on a request exactly if
      the packet is its encoding. */
  lemma ActsIff(ds: seq<Delivery>, r: Request)
    ensures Finish(Received(ds)) == Some(r) <==> Packet(ds) == Encode(r) && (r.write || r.data == 0)
  {
    ReceivedIs(ds);
    ParseIff(Packet(ds), r);
    EncodedLength(r);
  }

  // ---- Responding ----

  /** The response: acknowledged, with the register's value for a read, or refused. */
  function Response(write: bool, ack: bool, value: Word): seq<Token> {
    if !ack then [Ctrl(CT_NACK), Ctrl(CT_END)]
    else if write then [Ctrl(CT_ACK), Ctrl(CT_END)]
    else [Ctrl(CT_ACK)] + Split(value) + [Ctrl(CT_END)]
  }

  /** What the requester reads: three or four tells whether it was acknowledged, the value comes with its most
      significant byte first, and one ends the packet. */
  predicate IsResponse(t: seq<Token>, write: bool, ack: bool, value: Word) {
    && |t| == (if ack && !write then 6 else 2) && t[0] == Ctrl(if ack then 3 else 4) && t[|t| - 1] == Ctrl(1)
    && (ack && !write ==> t[1].Data? && t[2].Data? && t[3].Data? && t[4].Data? && Join(t[1..]) == value)
  }

  lemma ResponseIs(write: bool, ack: bool, value: Word)
    ensures IsResponse(Response(write, ack, value), write, ack, value)
  {
    if ack && !write {
      assert Response(write, ack, value)[1..5] == Split(value);
      SplitJoins(value);
    }
  }

  /** The requester can tell every two responses to its request apart. */
  lemma ResponsesDiffer(write: bool, ack: bool, value: Word, ack': bool, value': Word)
    requires Response(write, ack, value) == Response(write, ack', value')
    ensures ack == ack' && (ack && !write ==> value == value')
  {
    if ack && ack' && !write {
      assert Response(write, ack, value)[1..5] == Split(value);
      assert Response(write, ack', value')[1..5] == Split(value');
      SplitJoins(value);
      SplitJoins(value');
    }
  }
}
