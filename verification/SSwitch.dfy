/** A switch as the end point of configuration packets (lib/SSwitch.cpp): ten tokens of buffer, filled in place. */
module SSwitchDevice {
  import opened Options
  import opened ChannelState
  import opened SwitchRequest

  class SSwitch {
    const buf: array<Token>
    var receivedTokens: nat
    var junkIncomingTokens: bool

    ghost predicate Valid()
      reads this
    {
      buf.Length == WRITE_LENGTH && receivedTokens <= WRITE_LENGTH
    }

    ghost function State(): Buffer
      requires Valid()
      reads this, buf
    {
      Buffer(buf[..receivedTokens], junkIncomingTokens)
    }

    constructor ()
      ensures Valid() && fresh(buf) && State() == Buffer([], false)
    {
      buf := new Token[WRITE_LENGTH](_ => Data(0));
      receivedTokens, junkIncomingTokens := 0, false;
    }

    /** `receiveDataToken`, and `receiveCtrlToken` for a token that neither ends nor pauses. */
    method ReceiveToken(t: Token)
      requires Valid() && t != Ctrl(CT_END) && t != Ctrl(CT_PAUSE)
      modifies this, buf
      ensures Valid() && State() == old(Receive(State(), One(t)))
    {
      if junkIncomingTokens { return; }
      if receivedTokens == WRITE_LENGTH {
        junkIncomingTokens := true;
        return;
      }
      buf[receivedTokens] := t;
      receivedTokens := receivedTokens + 1;
    }

    /** `receiveDataTokens` */
    method ReceiveDataTokens(values: seq<Byte>)
      requires Valid()
      modifies this, buf
      ensures Valid() && State() == old(Receive(State(), Batch(values)))
    {
      if junkIncomingTokens { return; }
      if receivedTokens + |values| > WRITE_LENGTH {
        junkIncomingTokens := true;
        return;
      }
      ghost var tokens := Carries(Batch(values));
      for i := 0 to |values|
        invariant receivedTokens == old(receivedTokens) + i && !junkIncomingTokens
        invariant buf[..receivedTokens] == old(buf[..receivedTokens]) + tokens[..i]
      {
        buf[receivedTokens] := Data(values[i]);
        receivedTokens := receivedTokens + 1;
      }
      assert tokens[..|values|] == tokens;
    }

    /** `containsControlToken` */
    method ContainsControlToken(from: nat, size: nat) returns (b: bool)
      requires from + size <= buf.Length
      ensures b == !AllData(buf[from..from + size])
    {
      ghost var part := buf[from..from + size];
      for i := 0 to size
        invariant forall k | 0 <= k < i :: part[k].Data?
      {
        assert part[i] == buf[from + i];
        if buf[from + i].Ctrl? { return true; }
      }
      return false;
    }

    /** `parseRequest` */
    method ParseRequest() returns (r: Option<Request>)
      requires Valid()
      ensures r == Parse(buf[..receivedTokens])
    {
      ghost var t := buf[..receivedTokens];
      if receivedTokens == 0 || buf[0].Data? { return None; }
      var kind := buf[0].value;
      if kind != CT_READC && kind != CT_WRITEC { return None; }
      var write := kind == CT_WRITEC;
      var expected := if write then WRITE_LENGTH else READ_LENGTH;
      if receivedTokens != expected { return None; }
      assert t[1..] == buf[1..1 + (expected - 1)];
      var control := ContainsControlToken(1, expected - 1);
      if control { return None; }
      assert t[1..][0] == buf[1] && t[1..][1] == buf[2] && t[4..][0] == buf[4] && t[4..][1] == buf[5];
      var data: Word := 0;
      if write {
        data := JoinWord(buf[6..]);
        assert t[6..] == buf[6..];
      }
      return Some(Request(write, Read16(buf[1..3]), buf[3].value, Read16(buf[4..6]), data));
    }

    /** `receiveCtrlToken` with CT_END: the request to act on, if any; the next packet starts afresh. */
    method ReceiveEnd() returns (r: Option<Request>)
      requires Valid()
      modifies this
      ensures Valid() && r == old(Finish(State())) && State() == Buffer([], false)
    {
      r := None;
      if !junkIncomingTokens { r := ParseRequest(); }
      receivedTokens := 0;
      junkIncomingTokens := false;
    }

    /** The response part of `handleRequest`, built in the same buffer. */
    method BuildResponse(request: Request, ack: bool, value: Word) returns (length: nat)
      requires Valid()
      modifies buf
      ensures length <= WRITE_LENGTH && buf[..length] == Response(request.write, ack, value)
      ensures IsResponse(buf[..length], request.write, ack, value)
    {
      ResponseIs(request.write, ack, value);
      length := 0;
      if ack {
        buf[0] := Ctrl(CT_ACK);
        length := 1;
        if !request.write {
          var bytes := Split(value);
          buf[1], buf[2], buf[3], buf[4] := bytes[0], bytes[1], bytes[2], bytes[3];
          length := 5;
        }
      } else {
        buf[0] := Ctrl(CT_NACK);
        length := 1;
      }
      buf[length] := Ctrl(CT_END);
      length := length + 1;
    }
  }
}
