/** Who waits on an unbuffered input port with constant pins, and which of the coming samples will let them go on
    (lib/Port.cpp, `seeSamplingEdge`). */
module PortWaiters {
  import opened Options
  import opened Signals
  import opened Arith
  import opened Bits
  import opened PortState
  import opened PortOutput
  import opened Slices

  /** The constant level the port samples. */
  function PinsLevel(c: Config): nat { c.EffectivePins().value }

  predicate Waiting(p: Pipe) { p.pausedIn.Some? || p.eventsPermitted }

  /** The pins are constant and do not meet the condition. */
  predicate Misses(c: Config, p: Pipe) { !c.pins.IsClock() && !c.MeetsCondition(p.condition, PinsLevel(c)) }

  /** Somebody waits on an unbuffered port for a condition that its pins do not meet. */
  predicate Blind(c: Config, p: Pipe) {
    !c.buffered && !p.outputPort && !p.readyOut && !p.timeRegValid && Waiting(p) && Misses(c, p)
  }

  /** The j-th sample from now fills the register, and it is captured: first when the port's shift count is reached,
      then once every register's worth of entries. */
  predicate Captures(c: Config, p: Pipe, j: nat)
    requires c.shiftRegEntries > 0
  {
    && !p.holdTransferReg && p.validShiftRegEntries < p.portShiftCount
    && var first := p.portShiftCount - p.validShiftRegEntries;
       j >= first && Wrap(j - first, c.shiftRegEntries) == 0
  }

  /** What that sample captures meets the condition. */
  predicate Meets(c: Config, p: Pipe, j: nat)
    requires c.shiftRegEntries > 0
  {
    Captures(c, p, j) && c.MeetsCondition(p.condition, SampleTimes(c, p.shiftReg, PinsLevel(c), j))
  }

  ghost predicate NeverMet(c: Config, p: Pipe)
    requires c.shiftRegEntries > 0
  {
    forall j: nat :: !Meets(c, p, j)
  }

  /** One more sample in the register, whatever else changes. */
  predicate OneMoreSample(c: Config, p: Pipe, r: Pipe) {
    && r.shiftReg == c.SampledShiftReg(p.shiftReg, PinsLevel(c))
    && r.condition == p.condition && r.holdTransferReg == p.holdTransferReg
    && if p.validShiftRegEntries + 1 != p.portShiftCount
       then r.validShiftRegEntries == p.validShiftRegEntries + 1 && r.portShiftCount == p.portShiftCount
       else r.validShiftRegEntries == 0 && (!p.holdTransferReg ==> r.portShiftCount == c.shiftRegEntries)
  }

  lemma CapturesNext(c: Config, p: Pipe, r: Pipe, j: nat)
    requires c.shiftRegEntries > 0 && OneMoreSample(c, p, r) && j > 0
    ensures Captures(c, r, j) <==> Captures(c, p, j + 1)
  {
  }

  /** The samples to come are the same ones after one of them. */
  lemma MeetsNext(c: Config, p: Pipe, r: Pipe, j: nat)
    requires c.shiftRegEntries > 0 && OneMoreSample(c, p, r) && j > 0
    ensures Meets(c, r, j) <==> Meets(c, p, j + 1)
  {
    CapturesNext(c, p, r, j);
  }

  lemma NeverMetNext(c: Config, p: Pipe, r: Pipe)
    requires c.shiftRegEntries > 0 && OneMoreSample(c, p, r) && NeverMet(c, p)
    ensures NeverMet(c, r)
  {
    forall j: nat ensures !Meets(c, r, j) {
      if j > 0 { MeetsNext(c, p, r, j); }
    }
  }

  /** One sample: it lets whoever waits go on if it meets the condition, and otherwise leaves them waiting. */
  lemma BlindSample(c: Config, p: Pipe, counter: nat, time: nat)
    requires NoReadySignals(c) && c.shiftRegEntries > 0 && Blind(c, p)
    ensures var r := Sample(c, p, counter, time, PinsLevel(c));
      if Meets(c, p, 1) then r.log != p.log else Blind(c, r) && r.log == p.log && OneMoreSample(c, p, r)
  {
    MeetsFirst(c, p);
  }

  lemma MeetsFirst(c: Config, p: Pipe)
    requires c.shiftRegEntries > 0
    ensures Meets(c, p, 1) <==>
              && !p.holdTransferReg && p.validShiftRegEntries + 1 == p.portShiftCount
              && c.MeetsCondition(p.condition, c.SampledShiftReg(p.shiftReg, PinsLevel(c)))
  {
    assert SampleTimes(c, p.shiftReg, PinsLevel(c), 1)
        == SampleTimes(c, c.SampledShiftReg(p.shiftReg, PinsLevel(c)), PinsLevel(c), 0);
    assert Wrap(0, c.shiftRegEntries) == 0;
  }

  /** A sample that lets nobody go on: shifted in, and captured if it fills a register that is not held. */
  function Taken(c: Config, p: Pipe, counter: nat, v: nat): Pipe {
    var reg := c.SampledShiftReg(p.shiftReg, v);
    if p.validShiftRegEntries + 1 != p.portShiftCount then
      p.(shiftReg := reg, validShiftRegEntries := p.validShiftRegEntries + 1)
    else if p.holdTransferReg then p.(shiftReg := reg, validShiftRegEntries := 0)
    else p.(shiftReg := reg, validShiftRegEntries := 0, portShiftCount := c.shiftRegEntries, timestampReg := counter,
            transferReg := reg, transferRegValid := true)
  }

  lemma TakenIsOneMore(c: Config, p: Pipe, counter: nat)
    ensures OneMoreSample(c, p, Taken(c, p, counter, PinsLevel(c)))
  {
  }

  /** Nobody waits, or the pins miss the condition and so does what an unbuffered port captures now. */
  predicate LetsNobodyGo(c: Config, p: Pipe, v: nat) {
    && !p.outputPort && !p.timeRegValid
    && (Waiting(p) ==>
          && !c.MeetsCondition(p.condition, v)
          && (c.buffered || p.holdTransferReg || p.validShiftRegEntries + 1 != p.portShiftCount
              || !c.MeetsCondition(p.condition, c.SampledShiftReg(p.shiftReg, v))))
  }

  lemma SampleIsTaken(c: Config, p: Pipe, counter: nat, time: nat, v: nat)
    requires NoReadySignals(c) && LetsNobodyGo(c, p, v)
    ensures Sample(c, p, counter, time, v) == Taken(c, p, counter, v)
  {
  }

  // ---- The condition looks ahead only a few samples ----

  /** As many samples as a word has bits, and then one register's worth. */
  function Horizon(c: Config, p: Pipe): nat {
    32 + c.shiftRegEntries + Less(p.portShiftCount, p.validShiftRegEntries)
  }

  lemma MeetsEarlier(c: Config, p: Pipe, j: nat, word: nat)
    requires c.shiftRegEntries > 0 && c.width > 0 && p.shiftReg < WORD && Pow2(word) == WORD
    requires Meets(c, p, j) && j >= word + c.shiftRegEntries + Less(p.portShiftCount, p.validShiftRegEntries)
    ensures Meets(c, p, j - c.shiftRegEntries)
  {
    SameRegister(c, p.shiftReg, PinsLevel(c), word, j - c.shiftRegEntries, c.shiftRegEntries);
  }

  lemma {:induction false} SameRegister(c: Config, reg: nat, v: nat, word: nat, n: nat, k: nat)
    requires c.width > 0 && Pow2(word) == WORD && reg < WORD && n >= word
    ensures SampleTimes(c, reg, v, n) == SampleTimes(c, reg, v, n + k)
  {
    if k != 0 {
      SameRegister(c, reg, v, word, n, k - 1);
      SamplesSettle(c, reg, v, word, n + k - 1);
    }
  }

  lemma {:induction false} MeetsWithin(c: Config, p: Pipe, j: nat, word: nat) returns (i: nat)
    requires c.shiftRegEntries > 0 && c.width > 0 && p.shiftReg < WORD && Pow2(word) == WORD && Meets(c, p, j)
    ensures i <= word + c.shiftRegEntries + Less(p.portShiftCount, p.validShiftRegEntries) && Meets(c, p, i)
    decreases j
  {
    if j <= word + c.shiftRegEntries + Less(p.portShiftCount, p.validShiftRegEntries) {
      i := j;
    } else {
      MeetsEarlier(c, p, j, word);
      i := MeetsWithin(c, p, j - c.shiftRegEntries, word);
    }
  }

  /** Whether a sample ever meets the condition shows within the horizon, for registers of a word. */
  lemma NeverMetIff(c: Config, p: Pipe)
    requires c.shiftRegEntries > 0 && c.width > 0 && p.shiftReg < WORD
    ensures NeverMet(c, p) <==> forall j: nat | j <= Horizon(c, p) :: !Meets(c, p, j)
  {
    Pow2Word();
    if j: nat :| Meets(c, p, j) {
      var i := MeetsWithin(c, p, j, 32);
      assert Meets(c, p, i);
    }
  }

  /** A transfer as wide as the port holds one sample, which is the pins. */
  lemma {:induction false} OwnWidth(c: Config, reg: nat, v: nat, j: nat)
    requires c.transferWidth == c.width < 32 && reg < Pow2(c.width) && v < Pow2(c.width) && j > 0
    ensures SampleTimes(c, reg, v, j) == v
    decreases j
  {
    ShrSmall(reg, c.width);
    BelowWord(v, c.width);
    assert c.SampledShiftReg(reg, v) == v;
    if j > 1 { OwnWidth(c, v, v, j - 1); }
  }

  lemma OwnWidthIsNeverMet(c: Config, p: Pipe)
    requires c.shiftRegEntries > 0 && Misses(c, p)
    requires c.transferWidth == c.width < 32 && p.shiftReg < Pow2(c.width) && PinsLevel(c) < Pow2(c.width)
    ensures NeverMet(c, p)
  {
    forall j: nat ensures !Meets(c, p, j) {
      if j > 0 { OwnWidth(c, p.shiftReg, PinsLevel(c), j); }
    }
  }
}
