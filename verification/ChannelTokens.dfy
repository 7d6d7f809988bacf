/** What an input is answered, in terms of the outputs that are on their way to it, in every run. */
module ChannelTokens {
  import opened Options
  import opened Sequences
  import opened ChannelState
  import opened ChannelSafety
  import opened ChannelHistory
  import opened ChannelRuns
  import opened ChannelAnswers
  import opened ChannelResults

  /** The thread of d has heard everything sent before the k-th output to it, and that output has been accepted. */
  predicate Next(y: System, steps: seq<Step>, s: Net, d: nat, k: nat) {
    && Run(y, steps) == Some(s) && d < |s.tx| && d < |s.past| && d < |s.rx|
    && k < |s.past[d].accepted| && Heard(y, steps, d) == Stream(s.past[d].accepted[..k])
  }

  /** The next tokens in the buffer are those of that output. */
  lemma NextInBuffer(y: System, steps: seq<Step>, s: Net, d: nat, k: nat) returns (rest: seq<Token>)
    requires Next(y, steps, s, d, k)
    ensures s.rx[d].buf == Tokens(s.past[d].accepted[k].op) + rest
  {
    var log := s.past[d].accepted;
    RunIsSafe(y, steps, s);
    RunIsHeard(y, steps, s, d);
    assert Recorded(s, d);
    rest := StreamSplits(log, k);
    Cancel(Stream(log[..k]), s.rx[d].buf, Tokens(log[k].op) + rest);
  }

  /** A data token is had by a token input and by no input of control tokens. */
  predicate AnswersData(buf: seq<Token>, v: Byte) {
    && Look(buf, InToken) == Continue(v) && Look(buf, TestCt) == Continue(0) && Look(buf, InCt) == Illegal
    && forall u: Byte :: Look(buf, CheckCt(u)) == Illegal
  }

  /** A control token is had the other way round, and checked for its value. */
  predicate AnswersControl(buf: seq<Token>, v: Byte) {
    && Look(buf, InCt) == Continue(v) && Look(buf, TestCt) == Continue(1) && Look(buf, InToken) == Illegal
    && forall u: Byte :: Look(buf, CheckCt(u)) == if u == v then Continue(v) else Illegal
  }

  lemma DataIsAnswered(v: Byte, rest: seq<Token>)
    ensures AnswersData([Data(v)] + rest, v)
  {
  }

  lemma ControlIsAnswered(v: Byte, rest: seq<Token>)
    ensures AnswersControl([Ctrl(v)] + rest, v)
  {
  }

  /** A word is had as a whole, or by its bytes, the most significant one first. */
  lemma WordIsAnswered(w: Word, rest: seq<Token>)
    ensures var buf := Split(w) + rest;
      Look(buf, InWord) == Continue(w) && Look(buf, TestWct) == Continue(0) && AnswersData(buf, w / 0x100_0000)
  {
    LookAtWord(w, rest);
    TopByte(w);
    var t := Split(w);
    assert t == [t[0]] + t[1..] && t + rest == [t[0]] + (t[1..] + rest);
    DataIsAnswered(w / 0x100_0000, t[1..] + rest);
    assert CtrlPosition(t + rest, 4) == 0;
  }

  lemma TopByte(w: Word)
    ensures w / 0x100_0000 < 0x100 && Split(w)[0] == Data(w / 0x100_0000)
  {
  }

  /** What the thread gets with its next input. */
  lemma NextIsAnswered(y: System, steps: seq<Step>, s: Net, d: nat, k: nat)
    requires Next(y, steps, s, d, k)
    ensures var buf := s.rx[d].buf;
      match s.past[d].accepted[k].op
      case OutToken(v) => AnswersData(buf, v)
      case OutCt(v) => v != 2 ==> AnswersControl(buf, v)
      case OutWord(w) =>
        Look(buf, InWord) == Continue(w) && Look(buf, TestWct) == Continue(0) && AnswersData(buf, w / 0x100_0000)
  {
    var rest := NextInBuffer(y, steps, s, d, k);
    match s.past[d].accepted[k].op
    case OutToken(v) => DataIsAnswered(v, rest);
    case OutCt(v) => if v != CT_PAUSE { ControlIsAnswered(v, rest); }
    case OutWord(w) => WordIsAnswered(w, rest);
  }

  // ---- Control tokens where a word is expected ----

  /** The output is one token. */
  predicate IsSingle(op: Out) { op.OutToken? || (op.OutCt? && op.value != CT_PAUSE) }

  function SingleToken(op: Out): Token
    requires IsSingle(op)
  {
    if op.OutToken? then Data(op.value) else Ctrl(op.value)
  }

  lemma SingleIs(op: Out)
    requires IsSingle(op)
    ensures Tokens(op) == [SingleToken(op)]
  {
  }

  predicate Singles(log: seq<Sent>, k: nat, m: nat) {
    k + m <= |log| && forall i | k <= i < k + m :: IsSingle(log[i].op)
  }

  /** The tokens that follow the first k outputs, if each output is one token. */
  lemma {:induction false} SingleTokens(log: seq<Sent>, buf: seq<Token>, k: nat, m: nat, i: nat)
    requires Singles(log, k, m) && i < m && Stream(log) == Stream(log[..k]) + buf
    ensures IsSingle(log[k + i].op) && i < |buf| && buf[i] == SingleToken(log[k + i].op)
    decreases i
  {
    var rest := StreamSplits(log, k);
    Cancel(Stream(log[..k]), buf, Tokens(log[k].op) + rest);
    SingleIs(log[k].op);
    if i != 0 {
      StreamGoesOn(log, k, rest);
      SingleTokens(log, rest, k + 1, m - 1, i - 1);
    }
  }

  lemma StreamGoesOn(log: seq<Sent>, k: nat, rest: seq<Token>)
    requires k < |log|
    ensures Stream(log[..k]) + (Tokens(log[k].op) + rest) == Stream(log[..k + 1]) + rest
  {
    assert log[..k + 1][..k] == log[..k];
    Reassociate(Stream(log[..k]), Tokens(log[k].op), rest);
  }

  lemma Reassociate(a: seq<Token>, b: seq<Token>, c: seq<Token>)
    ensures a + (b + c) == (a + b) + c
  {
  }

  lemma LookAtControl(buf: seq<Token>, m: nat)
    requires m < 4 && m < |buf| && buf[m].Ctrl? && forall i | 0 <= i < m :: buf[i].Data?
    ensures Look(buf, TestWct) == Continue(m + 1) && Look(buf, InWord) == Illegal
  {
    var n := if |buf| < 4 then |buf| else 4;
    var p := CtrlPosition(buf, n);
    assert p == m + 1;
  }

  /** A control token behind fewer than four data tokens is found at its place, and no word is made of them. */
  lemma EarlyControlIsFound(y: System, steps: seq<Step>, s: Net, d: nat, k: nat, m: nat)
    requires Next(y, steps, s, d, k) && Early(s.past[d].accepted, k, m)
    ensures Look(s.rx[d].buf, TestWct) == Continue(m + 1) && Look(s.rx[d].buf, InWord) == Illegal
  {
    RunIsSafe(y, steps, s);
    RunIsHeard(y, steps, s, d);
    assert Recorded(s, d);
    ControlAhead(s.past[d].accepted, s.rx[d].buf, k, m);
  }

  /** Fewer than four data tokens and then a control token. */
  predicate Early(log: seq<Sent>, k: nat, m: nat) {
    && k + m < |log| && m < 4 && (forall i | k <= i < k + m :: log[i].op.OutToken?)
    && log[k + m].op.OutCt? && log[k + m].op.value != CT_PAUSE
  }

  lemma EarlyTokens(log: seq<Sent>, k: nat, m: nat, i: nat)
    requires Early(log, k, m) && i <= m
    ensures Singles(log, k, m + 1) && IsSingle(log[k + i].op) && (SingleToken(log[k + i].op).Data? <==> i < m)
  {
  }

  lemma ControlAhead(log: seq<Sent>, buf: seq<Token>, k: nat, m: nat)
    requires Early(log, k, m) && Stream(log) == Stream(log[..k]) + buf
    ensures Look(buf, TestWct) == Continue(m + 1) && Look(buf, InWord) == Illegal
  {
    EarlyTokens(log, k, m, m);
    SingleTokens(log, buf, k, m + 1, m);
    forall i | 0 <= i < m ensures buf[i].Data? {
      EarlyTokens(log, k, m, i);
      SingleTokens(log, buf, k, m + 1, i);
    }
    LookAtControl(buf, m);
  }
}
