/** The simulated Ethernet PHY (lib/EthernetPhy.cpp): the receiving side that pads a frame, appends its check sequence
    and drives it onto four lines, and the transmitting side that puts it together again. */
module EthernetPhy {
  import opened Options
  import opened WordBits
  import opened Crc
  import opened EthernetFrame

  function Zeroes(n: nat): seq<bv8> { seq(n, _ => 0) }

  /** The payload filled up with zeros to the minimum frame size. */
  function Padded(payload: seq<bv8>): seq<bv8> {
    if |payload| < MIN_FRAME - 4 then payload + Zeroes(MIN_FRAME - 4 - |payload|) else payload
  }

  /** Payloads below sixty bytes are filled up to sixty with zeros, and others are left alone. */
  lemma PaddingIs(payload: seq<bv8>)
    ensures var f := Padded(payload);
      && |f| == (if |payload| < 60 then 60 else |payload|) && payload <= f
      && forall k | |payload| <= k < |f| :: f[k] == 0
  {
  }

  /** There is room for the check sequence in the frame buffer, which the link may fill up to its end. */
  predicate Fits(payload: seq<bv8>) { |payload| + 4 <= MAX_FRAME }

  /** The link's longest payloads do not fit: those of 1515 to 1518 bytes, and no others. */
  lemma LongPayloadsDoNotFit(payload: seq<bv8>)
    requires |payload| <= MAX_FRAME
    ensures |Padded(payload)| + 4 > MAX_FRAME <==> 1515 <= |payload|
    ensures Fits(payload) <==> |Padded(payload)| + 4 <= MAX_FRAME
  {
  }

  /** A frame built from a payload: padded, and followed by its check sequence. */
  ghost predicate IsFrameOf(f: seq<bv8>, payload: seq<bv8>) {
    var body := Padded(payload);
    |f| == |body| + 4 && f[..|body|] == body && FromBytes(f[|body|..]) == CheckSequence(body)
  }

  lemma FrameIsAccepted(f: seq<bv8>, payload: seq<bv8>)
    requires IsFrameOf(f, payload)
    ensures Accepts(f) && f[..|f| - 4] == Padded(payload)
  {
    var body := Padded(payload);
    assert f == body + f[|body|..];
    CheckSequenceIsUnique(body, f[|body|..]);
  }

  /** The lines between the two sides: data valid, error and data. */
  datatype Lines = Lines(enable: bool, error: bool, data: bv8)

  datatype RxState = Idle | SecondDelimiter | InFrame | EndOfFrame

  /** The receiving side between two falling edges, with the lines it drives. */
  datatype Rx = Rx(state: RxState, frame: seq<bv8>, nibbles: nat, lines: Lines)
  {
    predicate Valid() {
      (state == InFrame ==> nibbles < 2 * |frame|) && (state == SecondDelimiter ==> frame != [])
    }
  }

  const SFD: bv8 := 0xd

  /** What is driven for the k-th nibble. The source masks with eight bits rather than four, so on even turns it drives
      the whole byte; of that the four data lines carry the low half. */
  function Driven(f: seq<bv8>, k: nat): bv8
    requires k < 2 * |f|
  {
    if k % 2 == 0 then f[k / 2] else f[k / 2] >> 4
  }

  /** `run` on a falling edge; `arrived` is the frame built from what the link has, if it has anything. */
  function Drive(r: Rx, arrived: Option<seq<bv8>>): (q: Rx)
    requires r.Valid() && (arrived.Some? ==> arrived.value != [])
    ensures q.Valid()
  {
    match r.state
    case Idle =>
      if arrived.None? then r else Rx(SecondDelimiter, arrived.value, r.nibbles, Lines(true, r.lines.error, 0x5))
    case SecondDelimiter => Rx(InFrame, r.frame, 0, r.lines.(data := SFD))
    case InFrame =>
      Rx(if r.nibbles + 1 == 2 * |r.frame| then EndOfFrame else InFrame, r.frame, r.nibbles + 1,
         r.lines.(data := Driven(r.frame, r.nibbles)))
    case EndOfFrame => Rx(Idle, r.frame, r.nibbles, Lines(false, r.lines.error, 0))
  }

  class EthernetPhyRx {
    const frame: array<bv8>
    var frameSize: nat
    var nibblesReceived: nat
    var state: RxState
    var lines: Lines

    ghost predicate Valid()
      reads this
    {
      && frame.Length == MAX_FRAME && frameSize <= MAX_FRAME
      && (state == InFrame ==> nibblesReceived < 2 * frameSize) && (state == SecondDelimiter ==> frameSize > 0)
    }

    ghost function StateOf(): Rx
      requires Valid()
      reads this, frame
    {
      Rx(state, frame[..frameSize], nibblesReceived, lines)
    }

    constructor ()
      ensures Valid() && fresh(frame) && StateOf() == Rx(Idle, [], 0, Lines(false, false, 0))
    {
      frame := new bv8[MAX_FRAME];
      frameSize, nibblesReceived, state, lines := 0, 0, Idle, Lines(false, false, 0);
    }

    /** The checksum over the frame so far. */
    method FrameChecksum() returns (crc: bv32)
      requires Valid()
      ensures FromWord(crc) == Checksum(frame[..frameSize])
    {
      crc := INITIAL;
      ghost var f := frame[..frameSize];
      assert f[..0] == [] && f[..frameSize] == f;
      for i := 0 to frameSize
        invariant FromWord(crc) == Checksum(f[..i])
      {
        crc := Crc.Crc(crc, frame[i] as bv32, 8);
        NextByte(f, i);
      }
    }

    /** The check sequence of the frame so far: the checksum after a zero word, inverted. */
    method FrameCheck() returns (crc: bv32)
      requires Valid()
      ensures FromWord(crc) == CheckSequence(frame[..frameSize])
    {
      var sum := FrameChecksum();
      crc := Crc.Crc(sum, 0, 32);
      ZeroWord();
      NotWord(crc);
      crc := !crc;
    }

    /** The bytes of a word go at the end of the frame, least significant first. */
    method Append(w: bv32)
      requires Valid() && frameSize + 4 <= MAX_FRAME
      modifies this`frameSize, frame
      ensures Valid() && frame[..frameSize] == old(frame[..frameSize]) + Octets(w)
    {
      frame[frameSize] := Low(w);
      frame[frameSize + 1] := Low(w >> 8);
      frame[frameSize + 2] := Low(w >> 16);
      frame[frameSize + 3] := Low(w >> 24);
      frameSize := frameSize + 4;
    }

    method AppendCRC32()
      requires Valid() && frameSize + 4 <= MAX_FRAME
      modifies this`frameSize, frame
      ensures Valid() && exists fcs :: |fcs| == 4 && frame[..frameSize] == old(frame[..frameSize]) + fcs
                                       && FromBytes(fcs) == CheckSequence(old(frame[..frameSize]))
    {
      var crc := FrameCheck();
      FromOctets(crc);
      Append(crc);
      assert |Octets(crc)| == 4;
    }

    /** Take a payload from the link, and pad it. */
    method Load(payload: seq<bv8>)
      requires Valid() && state == Idle && |payload| <= MAX_FRAME
      modifies this`frameSize, frame
      ensures Valid() && frame[..frameSize] == Padded(payload)
    {
      for i := 0 to |payload|
        invariant frame[..i] == payload[..i]
      {
        frame[i] := payload[i];
      }
      frameSize := |payload|;
      if frameSize < MIN_FRAME - 4 {
        for i := frameSize to MIN_FRAME - 4
          invariant frame[..|payload|] == payload && frameSize == |payload|
          invariant forall k | |payload| <= k < i :: frame[k] == 0
        {
          frame[i] := 0;
        }
        frameSize := MIN_FRAME - 4;
      }
    }

    /** `receiveFrame`: the payload becomes a frame. The link may fill the whole buffer, and then there is no room for
        the check sequence: the code writes on, and what it does is not defined. The method stops there. */
    method ReceiveFrame(payload: seq<bv8>) returns (fits: bool)
      requires Valid() && state == Idle && |payload| <= MAX_FRAME
      modifies this`frameSize, frame
      ensures Valid() && (fits <==> Fits(payload))
      ensures if fits then IsFrameOf(frame[..frameSize], payload) else frame[..frameSize] == payload
    {
      Load(payload);
      if frameSize + 4 > MAX_FRAME { return false; }
      ghost var body := frame[..frameSize];
      AppendCRC32();
      assert frame[..frameSize][..|body|] == body;
      return true;
    }

    /** `run`: in every state, what the lines become and what comes next, if that is defined. */
    method Run(payload: Option<seq<bv8>>) returns (defined: bool)
      requires Valid() && (payload.Some? ==> |payload.value| <= MAX_FRAME)
      modifies this, frame
      ensures Valid() && (defined <==> !(old(state) == Idle && payload.Some? && !Fits(payload.value)))
      ensures defined && old(state) == Idle && payload.Some? ==>
                && IsFrameOf(frame[..frameSize], payload.value) && frameSize > 0
                && StateOf() == Drive(old(StateOf()), Some(frame[..frameSize]))
      ensures old(state) != Idle || payload.None? ==> StateOf() == Drive(old(StateOf()), None)
    {
      defined := true;
      match state
      case Idle =>
        if payload.Some? {
          defined := ReceiveFrame(payload.value);
          if !defined { return; }
          lines := lines.(data := 0x5);
          lines := lines.(enable := true);
          state := SecondDelimiter;
        }
      case SecondDelimiter =>
        lines := lines.(data := SFD);
        nibblesReceived := 0;
        state := InFrame;
      case InFrame =>
        var byteNum, nibbleNum := nibblesReceived / 2, nibblesReceived % 2;
        lines := lines.(data := if nibbleNum == 0 then frame[byteNum] else frame[byteNum] >> 4);
        nibblesReceived := nibblesReceived + 1;
        if nibblesReceived == frameSize * 2 { state := EndOfFrame; }
      case EndOfFrame =>
        lines := lines.(data := 0);
        lines := lines.(enable := false);
        state := Idle;
    }
  }

  lemma ZeroWord()
    ensures FromWord(0)[..32] == Zeros(32)
  {
    forall i: nat | i < 32 ensures !Bit(0, i) { ZeroMask(Mask(i)); }
  }

  lemma ZeroMask(m: bv32)
    ensures 0 & m == 0
  {
  }

  lemma NotWord(x: bv32)
    ensures FromWord(!x) == Not(FromWord(x))
  {
    forall i: nat | i < 32 ensures Bit(!x, i) == !Bit(x, i) { BitNot(x, i); }
  }

  // ---- Crossing the wire ----

  /** The transmitting side between two clock edges. */
  datatype Tx = Tx(inFrame: bool, hadError: bool, frame: seq<bv8>, prevNibble: Option<bv8>)

  const RESET: Tx := Tx(false, false, [], None)

  function Sample(t: Tx, w: Lines): Tx {
    if !t.inFrame then
      if w.enable && w.data == SFD then t.(inFrame := true, hadError := w.error) else t
    else if !w.enable then RESET
    else if w.error then t.(hadError := true)
    else match t.prevNibble
      case None => t.(prevNibble := Some(w.data))
      case Some(low) => t.(frame := t.frame + [(w.data << 4) | low], prevNibble := None)
  }

  /** What the transmitting side passes on when it samples the lines. */
  ghost function Passes(t: Tx, w: Lines): Option<seq<bv8>> {
    if t.inFrame && !w.enable && !t.hadError && Accepts(t.frame) then Some(t.frame[..|t.frame| - 4]) else None
  }

  /** `EthernetPhyTx` as an object: `run` samples the lines, and passes on a frame that ends well. */
  class EthernetPhyTx {
    var inFrame: bool
    var hadError: bool
    var frame: seq<bv8>
    var prevNibble: Option<bv8>

    function State(): Tx
      reads this
    {
      Tx(inFrame, hadError, frame, prevNibble)
    }

    constructor ()
      ensures State() == RESET
    {
      inFrame, hadError, frame, prevNibble := false, false, [], None;
    }

    method Run(w: Lines) returns (passed: Option<seq<bv8>>)
      modifies this
      ensures State() == old(Sample(State(), w))
      ensures passed == Passes(old(State()), w)
    {
      passed := None;
      if inFrame {
        if w.enable {
          if w.error {
            hadError := true;
          } else if prevNibble.Some? {
            frame := frame + [(w.data << 4) | prevNibble.value];
            prevNibble := None;
          } else {
            prevNibble := Some(w.data);
          }
        } else {
          if !hadError {
            var sent, data := TransmitFrame(frame);
            if sent { passed := Some(data); }
          }
          inFrame, hadError, frame, prevNibble := false, false, [], None;
        }
      } else if w.enable && w.data == SFD {
        inFrame, hadError := true, w.error;
      }
    }
  }

  // ---- What is passed on ----

  function SampleAll(t: Tx, ws: seq<Lines>): Tx {
    if ws == [] then t else Sample(SampleAll(t, ws[..|ws| - 1]), ws[|ws| - 1])
  }

  /** Two nibbles make a byte, the low one first; a nibble without a second one is dropped. */
  function Bytes(ws: seq<Lines>): seq<bv8> {
    if |ws| < 2 then [] else [(ws[1].data << 4) | ws[0].data] + Bytes(ws[2..])
  }

  predicate Faulty(ws: seq<Lines>) { exists k :: 0 <= k < |ws| && ws[k].error }

  predicate AllEnabled(ws: seq<Lines>) { forall k | 0 <= k < |ws| :: ws[k].enable }

  lemma {:induction false} BytesAppend(ws: seq<Lines>, a: Lines, b: Lines)
    requires |ws| % 2 == 0
    ensures Bytes(ws + [a, b]) == Bytes(ws) + [(b.data << 4) | a.data]
    decreases |ws|
  {
    if ws == [] {
      assert ws + [a, b] == [a, b];
      assert Bytes([a, b][2..]) == [];
    } else {
      assert (ws + [a, b])[2..] == ws[2..] + [a, b];
      BytesAppend(ws[2..], a, b);
    }
  }

  lemma {:induction false} BytesOdd(ws: seq<Lines>, a: Lines)
    requires |ws| % 2 == 0
    ensures Bytes(ws + [a]) == Bytes(ws)
    decreases |ws|
  {
    if ws != [] {
      assert (ws + [a])[2..] == ws[2..] + [a];
      BytesOdd(ws[2..], a);
    }
  }

  /** The transmitting side in the middle of a frame without an error: the bytes so far, and the nibble left over. */
  function Clean(ws: seq<Lines>): Tx {
    Tx(true, false, Bytes(ws), if |ws| % 2 == 0 then None else Some(ws[|ws| - 1].data))
  }

  lemma CleanStep(init: seq<Lines>, w: Lines)
    requires w.enable && !w.error
    ensures Sample(Clean(init), w) == Clean(init + [w])
  {
    if |init| % 2 == 0 {
      BytesOdd(init, w);
    } else {
      var before, v := init[..|init| - 1], init[|init| - 1];
      assert init == before + [v] && init + [w] == before + [v, w];
      BytesOdd(before, v);
      BytesAppend(before, v, w);
    }
  }

  lemma {:induction false} CleanFrame(ws: seq<Lines>)
    requires AllEnabled(ws) && !Faulty(ws)
    ensures SampleAll(Tx(true, false, [], None), ws) == Clean(ws)
    decreases |ws|
  {
    if ws != [] {
      var init, w := ws[..|ws| - 1], ws[|ws| - 1];
      assert ws == init + [w];
      CleanFrame(init);
      CleanStep(init, w);
    }
  }

  /** Once there was an error it is remembered to the end of the frame. */
  lemma {:induction false} ErrorStays(t: Tx, ws: seq<Lines>)
    requires t.inFrame && AllEnabled(ws)
    ensures var u := SampleAll(t, ws); u.inFrame && (u.hadError <==> t.hadError || Faulty(ws))
    decreases |ws|
  {
    if ws != [] {
      var init := ws[..|ws| - 1];
      ErrorStays(t, init);
      assert Faulty(ws) <==> Faulty(init) || ws[|ws| - 1].error by {
        if Faulty(init) { var k :| 0 <= k < |init| && init[k].error; assert ws[k].error; }
        if Faulty(ws) { var k :| 0 <= k < |ws| && ws[k].error; assert k < |init| ==> init[k].error; }
      }
    }
  }

  /** From the start delimiter to the line that ends a frame: it is passed on, without its last four bytes, exactly if
      there was no error at all, there are 64 bytes or more and their checksum is right. */
  lemma PassedIff(start: Lines, ws: seq<Lines>, quiet: Lines)
    requires start.enable && start.data == 0xd && AllEnabled(ws) && !quiet.enable
    ensures var f := Bytes(ws);
      Passes(SampleAll(Sample(RESET, start), ws), quiet) ==
        if !start.error && !Faulty(ws) && |f| >= 64 && Checksum(f) == FromWord(0xffff_ffff)
        then Some(f[..|f| - 4]) else None
  {
    var t := Sample(RESET, start);
    ErrorStays(t, ws);
    if !start.error && !Faulty(ws) { CleanFrame(ws); }
  }

  /** Four lines carry four bits. */
  function Carried(w: Lines): Lines { w.(data := w.data & 0xf) }

  /** The two sides over n periods, in each of which the receiving side drives and the transmitting side samples. */
  function Cross(r: Rx, t: Tx, n: nat): (end: (Rx, Tx))
    requires r.Valid()
    ensures end.0.Valid()
    decreases n
  {
    if n == 0 then (r, t)
    else
      var q := Drive(r, None);
      Cross(q, Sample(t, Carried(q.lines)), n - 1)
  }

  /** Two periods carry one byte. */
  lemma TwoNibbles(b: bv8)
    ensures (((b >> 4) & 0xf) << 4) | (b & 0xf) == b
  {
  }

  lemma ByteCrosses(t: Tx, b: bv8)
    requires t.inFrame && t.prevNibble.None?
    ensures Sample(Sample(t, Carried(Lines(true, false, b))), Carried(Lines(true, false, b >> 4)))
            == t.(frame := t.frame + [b])
  {
    TwoNibbles(b);
  }

  /** In the middle of a frame, with an even number of nibbles driven. */
  predicate Halfway(r: Rx, t: Tx, k: nat) {
    && r.Valid() && r.lines.enable && !r.lines.error && k <= |r.frame| && r.nibbles == 2 * k
    && (if k == |r.frame| then r.state == EndOfFrame else r.state == InFrame)
    && t == Tx(true, false, r.frame[..k], None)
  }

  lemma ByteStep(r: Rx, t: Tx, k: nat)
    requires Halfway(r, t, k) && k < |r.frame|
    ensures var (q, u) := Cross(r, t, 2); Halfway(q, u, k + 1) && q.frame == r.frame
  {
    var a := Drive(r, None);
    var b := Drive(a, None);
    var x := Sample(t, Carried(a.lines));
    ByteCrosses(t, r.frame[k]);
    assert Cross(r, t, 2) == Cross(a, x, 1) == Cross(b, Sample(x, Carried(b.lines)), 0);
    assert r.frame[..k] + [r.frame[k]] == r.frame[..k + 1];
  }

  lemma {:induction false} CrossAdd(r: Rx, t: Tx, m: nat, n: nat)
    requires r.Valid()
    ensures var (q, u) := Cross(r, t, m); q.Valid() && Cross(q, u, n) == Cross(r, t, m + n)
    decreases m
  {
    if m != 0 {
      var q := Drive(r, None);
      CrossAdd(q, Sample(t, Carried(q.lines)), m - 1, n);
    }
  }

  /** Whatever the frame, its bytes arrive in order. */
  lemma {:induction false} FrameCrosses(r: Rx, t: Tx, k: nat)
    requires Halfway(r, t, k)
    ensures var (q, u) := Cross(r, t, 2 * (|r.frame| - k)); Halfway(q, u, |r.frame|) && q.frame == r.frame
    decreases |r.frame| - k
  {
    if k < |r.frame| {
      var (q, u) := Cross(r, t, 2);
      ByteStep(r, t, k);
      FrameCrosses(q, u, k + 1);
      CrossAdd(r, t, 2, 2 * (|r.frame| - k - 1));
    }
  }

  /** The two sides, both idle, from the period in which a frame arrives to the one that drives its last nibble. */
  function Arrival(r: Rx, f: seq<bv8>): (end: (Rx, Tx))
    requires r.Valid() && f != []
    ensures end.0.Valid()
  {
    var q := Drive(r, Some(f));
    Cross(q, Sample(RESET, Carried(q.lines)), 2 * |f| + 1)
  }

  lemma Delimiter()
    ensures (0x5 as bv8) & 0xf != SFD && SFD & 0xf == SFD
  {
  }

  /** The start delimiter is found in its second nibble and every byte follows, in order; then the lines go quiet. */
  lemma ArrivalCrosses(r: Rx, f: seq<bv8>)
    requires r.state == Idle && !r.lines.error && f != []
    ensures var (p, u) := Arrival(r, f);
      p.state == EndOfFrame && u == Tx(true, false, f, None) && !Drive(p, None).lines.enable
  {
    var q := Drive(r, Some(f));
    var t := Sample(RESET, Carried(q.lines));
    Delimiter();
    assert t == RESET;
    var a := Drive(q, None);
    var x := Sample(t, Carried(a.lines));
    assert f[..0] == [] && f[..|f|] == f;
    FrameCrosses(a, x, 0);
  }

  lemma QuietEnds(u: Tx, w: Lines, f: seq<bv8>)
    requires u == Tx(true, false, f, None) && !w.enable && Accepts(f)
    ensures Passes(u, w) == Some(f[..|f| - 4])
  {
  }

  /** So every frame the receiving side builds is accepted at the other end, which passes on the padded payload. */
  lemma PayloadCrosses(r: Rx, f: seq<bv8>, payload: seq<bv8>)
    requires r.state == Idle && !r.lines.error && IsFrameOf(f, payload) && f != []
    ensures var (p, u) := Arrival(r, f); Passes(u, Carried(Drive(p, None).lines)) == Some(Padded(payload))
  {
    FrameIsAccepted(f, payload);
    ArrivalCrosses(r, f);
    QuietEnds(Arrival(r, f).1, Carried(Drive(Arrival(r, f).0, None).lines), f);
  }
}
