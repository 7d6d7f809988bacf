/** A stream of words through two ports: a buffered output port serialises each word slice by slice on
    falling edges, an input port on the same clock samples one slice on every rising edge
    (lib/Port.cpp, `nextShiftRegOutputPort`, `seeFallingEdgeOutputPort`, `seeSamplingEdge`). */
module PortStream {
  import opened Options
  import opened Signals
  import opened Arith
  import opened Bits
  import opened PortState
  import opened PortOutput
  import opened Slices
  import opened PortPins

  /** Both ports, the words still to be written and the words read so far. */
  datatype Link = Link(o: State, i: State, pending: seq<nat>, received: seq<nat>)

  /** The writer puts the next word into the transfer register as soon as it is free (`out`). */
  function Write(s: State, pending: seq<nat>): (State, seq<nat>) {
    if pending == [] || s.pipe.transferRegValid then (s, pending)
    else (s.(pipe := s.pipe.(transferReg := pending[0], transferRegValid := true)), pending[1..])
  }

  /** The reader takes a word as soon as there is one (`in`). */
  function Read(s: State, received: seq<nat>): (State, seq<nat>) {
    if !s.pipe.transferRegValid then (s, received)
    else (s.(pipe := s.pipe.(transferRegValid := false)), received + [s.pipe.transferReg])
  }

  /** The level the output port has announced; before it announced any, its pins were low. */
  function Level(co: Config, o: State): nat { Shown(o.pipe.log, co.Effective(0)) }

  /** The output port's half of a clock period: falling edge, refill, rising edge. */
  function SendPeriod(co: Config, o: State, pending: seq<nat>): (State, seq<nat>) {
    var (o1, rest) := Write(SeeEdge(co, o), pending);
    (SeeEdge(co, o1), rest)
  }

  /** The input port's half: falling edge, then the rising edge with the pins at the given level. */
  function ReceivePeriod(ci: Config, i: State, level: nat, received: seq<nat>): (State, seq<nat>) {
    Read(SeeEdge(ci.(pins := Signal(0, level)), SeeEdge(ci, i)), received)
  }

  /** One clock period; the input port samples what the output port has announced after its
      falling edge. */
  function Period(co: Config, ci: Config, l: Link): Link {
    var (o, pending) := SendPeriod(co, l.o, l.pending);
    var (i, received) := ReceivePeriod(ci, l.i, Level(co, SeeEdge(co, l.o)), l.received);
    Link(o, i, pending, received)
  }

  /** n applications of a step. */
  function Times<T>(step: T -> T, x: T, n: nat): T
    decreases n
  {
    if n == 0 then x else Times(step, step(x), n - 1)
  }

  lemma {:induction false} TimesAdd<T>(step: T -> T, x: T, m: nat, n: nat)
    ensures Times(step, x, m + n) == Times(step, Times(step, x, m), n)
    decreases m
  {
    if m != 0 { TimesAdd(step, step(x), m - 1, n); }
  }

  /** Steps along a known trajectory. */
  lemma {:induction false} Trajectory<T>(step: T -> T, at: nat -> T, a: nat, b: nat)
    requires a <= b && forall i: nat | a <= i < b :: step(at(i)) == at(i + 1)
    ensures Times(step, at(a), b - a) == at(b)
    decreases b - a
  {
    if a < b { Trajectory(step, at, a + 1, b); }
  }

  /** If every step from a good state is a step of its view, so are n steps. */
  lemma {:induction false} Simulation<S(!new), V>(step: S -> S, good: S -> bool, view: S -> V, vstep: V -> V,
      x: S, n: nat)
    requires forall y | good(y) :: good(step(y)) && view(step(y)) == vstep(view(y))
    requires good(x)
    ensures view(Times(step, x, n)) == Times(vstep, view(x), n)
    decreases n
  {
    if n != 0 { Simulation(step, good, view, vstep, step(x), n - 1); }
  }

  function Clock(co: Config, ci: Config): Link -> Link { l => Period(co, ci, l) }

  /** Same widths and polarity, no ready signals, the input sampling on the rising edge. */
  predicate Matched(co: Config, ci: Config) {
    && NoReadySignals(co) && NoReadySignals(ci) && co.ValidWidths()
    && ci.width == co.width && ci.transferWidth == co.transferWidth && ci.shiftRegEntries == co.shiftRegEntries
    && co.inverted == ci.inverted && co.buffered && ci.buffered && ci.samplingEdge == Rising
    && (co.inverted ==> co.width == 1)
  }

  /** The flags of an output port that only shifts and loads: nobody waits on it but the writer. */
  predicate SendingPipe(co: Config, p: Pipe) {
    p == p.(outputPort := true, timeRegValid := false, readyOut := false, pausedIn := None, pausedSync := None,
            portShiftCount := co.shiftRegEntries)
  }

  predicate Sending(co: Config, s: State) { SendingPipe(co, s.pipe) && s.nextEdge.kind == Falling }

  /** The flags of an input port that only samples and captures. */
  predicate ReceivingPipe(ci: Config, p: Pipe) {
    p == p.(outputPort := false, timeRegValid := false, readyOut := false, eventsPermitted := false,
            holdTransferReg := false, condition := Full, portShiftCount := ci.shiftRegEntries,
            transferRegValid := false)
  }

  predicate Receiving(ci: Config, s: State) { ReceivingPipe(ci, s.pipe) && s.nextEdge.kind == Falling }

  lemma SendFalling(co: Config, s: State)
    requires NoReadySignals(co) && Sending(co, s)
    ensures var p := s.pipe; var t := SeeEdge(co, s); var r := t.pipe;
            && Sending(co, t.(nextEdge := s.nextEdge)) && t.nextEdge.kind == Rising
            && (p.validShiftRegEntries > 1 ==>
                  && r.validShiftRegEntries == p.validShiftRegEntries - 1 && r.transferReg == p.transferReg
                  && r.shiftReg == co.NextShiftReg(p.shiftReg) && r.transferRegValid == p.transferRegValid)
            && (p.validShiftRegEntries <= 1 && p.transferRegValid ==>
                  && r.validShiftRegEntries == co.shiftRegEntries
                  && r.shiftReg == p.transferReg && !r.transferRegValid)
            && (p.validShiftRegEntries <= 1 && !p.transferRegValid ==>
                  && r.validShiftRegEntries == 0 && r.shiftReg == p.shiftReg && !r.transferRegValid)
  {
    var r := FallingOutput(co, s.pipe, CountEdge(s.portCounter, Falling), true, s.nextEdge.time);
    assert r.outputPort && !r.timeRegValid && !r.readyOut;
  }

  lemma SendRising(co: Config, s: State)
    requires NoReadySignals(co) && s.pipe.outputPort && s.nextEdge.kind == Rising
    ensures SeeEdge(co, s).pipe == s.pipe && SeeEdge(co, s).nextEdge.kind == Falling
  {
  }

  lemma SendPeriodStep(co: Config, o: State, pending: seq<nat>)
    requires NoReadySignals(co) && Sending(co, o)
    ensures var (r, rest) := SendPeriod(co, o, pending); var o1 := SeeEdge(co, o);
            && Sending(co, r) && r.pipe.shiftReg == o1.pipe.shiftReg
            && r.pipe.validShiftRegEntries == o1.pipe.validShiftRegEntries
            && (r.pipe, rest) == (Write(o1, pending).0.pipe, Write(o1, pending).1)
  {
    SendFalling(co, o);
    SendRising(co, Write(SeeEdge(co, o), pending).0);
  }

  lemma ReceiveFalling(ci: Config, s: State)
    requires NoReadySignals(ci) && ci.samplingEdge == Rising && Receiving(ci, s)
    ensures SeeEdge(ci, s).pipe == s.pipe && SeeEdge(ci, s).nextEdge.kind == Rising
  {
  }

  lemma ReceiveRising(ci: Config, p: Pipe, counter: nat, time: nat, v: nat)
    requires !ci.UseReadyOut() && p.validShiftRegEntries < p.portShiftCount == ci.shiftRegEntries
    requires !p.timeRegValid && !p.readyOut && !p.eventsPermitted && !p.holdTransferReg && p.condition == Full
    requires !p.transferRegValid && !p.outputPort
    ensures var r := Sample(ci, p, counter, time, v);
            && !r.outputPort && !r.timeRegValid && !r.readyOut && !r.eventsPermitted && !r.holdTransferReg
            && r.condition == Full && r.portShiftCount == ci.shiftRegEntries
            && r.shiftReg == ci.SampledShiftReg(p.shiftReg, v)
            && (if p.validShiftRegEntries + 1 == ci.shiftRegEntries
                then r.validShiftRegEntries == 0 && r.transferRegValid && r.transferReg == r.shiftReg
                else r.validShiftRegEntries == p.validShiftRegEntries + 1 && !r.transferRegValid)
  {
  }

  /** The pins are inverted twice on the way, or not at all. */
  lemma RisingSamples(ci: Config, s: State, v: nat)
    requires NoReadySignals(ci) && ci.samplingEdge == Rising && s.nextEdge.kind == Rising && !s.pipe.outputPort
    ensures var c := ci.(pins := Signal(0, ci.Effective(v)));
            && SeeEdge(c, s).pipe == Sample(c, s.pipe, s.portCounter, s.nextEdge.time, v)
            && SeeEdge(c, s).nextEdge.kind == Falling
  {
    var c := ci.(pins := Signal(0, ci.Effective(v)));
    assert c.EffectivePins().GetValue(s.nextEdge.time) == v;
  }

  /** The rising edge of the input port, whatever the pins were before. */
  lemma ReceiveEdge(ci: Config, s: State, v: nat)
    requires NoReadySignals(ci) && ci.samplingEdge == Rising && ReceivingPipe(ci, s.pipe) && s.nextEdge.kind == Rising
    requires s.pipe.validShiftRegEntries < ci.shiftRegEntries
    ensures var t := SeeEdge(ci.(pins := Signal(0, ci.Effective(v))), s); var r := t.pipe;
            && t.nextEdge.kind == Falling && ReceivingPipe(ci, r.(transferRegValid := false))
            && r.shiftReg == ci.SampledShiftReg(s.pipe.shiftReg, v)
            && (if s.pipe.validShiftRegEntries + 1 == ci.shiftRegEntries
                then r.validShiftRegEntries == 0 && r.transferRegValid && r.transferReg == r.shiftReg
                else r.validShiftRegEntries == s.pipe.validShiftRegEntries + 1 && !r.transferRegValid)
  {
    RisingSamples(ci, s, v);
    ReceiveRising(ci.(pins := Signal(0, ci.Effective(v))), s.pipe, s.portCounter, s.nextEdge.time, v);
  }

  lemma ReceivePeriodStep(ci: Config, i: State, v: nat, received: seq<nat>)
    requires NoReadySignals(ci) && ci.samplingEdge == Rising && Receiving(ci, i)
    requires i.pipe.validShiftRegEntries < ci.shiftRegEntries
    ensures var (r, got) := ReceivePeriod(ci, i, ci.Effective(v), received); var p := i.pipe;
            var reg := ci.SampledShiftReg(p.shiftReg, v);
            && Receiving(ci, r) && r.pipe.shiftReg == reg
            && (if p.validShiftRegEntries + 1 == ci.shiftRegEntries
                then r.pipe.validShiftRegEntries == 0 && got == received + [reg]
                else r.pipe.validShiftRegEntries == p.validShiftRegEntries + 1 && got == received)
  {
    ReceiveFalling(ci, i);
    ReceiveEdge(ci, SeeEdge(ci, i), v);
  }

  /** What matters of a link: the two registers with their fill counts, and the words around them. */
  datatype View = View(out: nat, left: nat, next: Option<nat>, pending: seq<nat>,
                       reg: nat, fill: nat, received: seq<nat>)

  function ViewOf(l: Link): View {
    View(l.o.pipe.shiftReg, l.o.pipe.validShiftRegEntries,
         if l.o.pipe.transferRegValid then Some(l.o.pipe.transferReg) else None, l.pending,
         l.i.pipe.shiftReg, l.i.pipe.validShiftRegEntries, l.received)
  }

  predicate Running(co: Config, ci: Config, l: Link) {
    && Matched(co, ci) && Sending(co, l.o) && Receiving(ci, l.i) && l.i.pipe.validShiftRegEntries < ci.shiftRegEntries
    && Announced(co, l.o.pipe, co.Effective(0))
  }

  /** The output port's half of a period on views; the writer writes if `offers`. */
  function Sent(c: Config, v: View, offers: bool): View {
    var load := v.left <= 1 && v.next.Some?;
    var next := if load then None else v.next;
    var refill := offers && next.None? && v.pending != [];
    v.(out := if load then v.next.value else if v.left > 1 then c.NextShiftReg(v.out) else v.out,
       left := if load then c.shiftRegEntries else if v.left > 1 then v.left - 1 else 0,
       next := if refill then Some(v.pending[0]) else next,
       pending := if refill then v.pending[1..] else v.pending)
  }

  /** The input port's half. */
  function Got(c: Config, v: View): View {
    var reg := c.SampledShiftReg(v.reg, Mask(v.out, c.width));
    var full := v.fill + 1 == c.shiftRegEntries;
    v.(reg := reg, fill := if full then 0 else v.fill + 1, received := if full then v.received + [reg] else v.received)
  }

  /** One period on views. */
  function ViewStep(c: Config, v: View): View { Got(c, Sent(c, v, true)) }

  lemma SendView(co: Config, l: Link)
    requires NoReadySignals(co) && Sending(co, l.o)
    ensures var (o, pending) := SendPeriod(co, l.o, l.pending);
            var (v, r) := (ViewStep(co, ViewOf(l)), o.pipe);
            && Sending(co, o) && r.shiftReg == v.out && r.validShiftRegEntries == v.left && pending == v.pending
            && v.next == (if r.transferRegValid then Some(r.transferReg) else None)
            && r.shiftReg == SeeEdge(co, l.o).pipe.shiftReg
  {
    SendFalling(co, l.o);
    SendPeriodStep(co, l.o, l.pending);
  }

  /** What is announced after the falling edge is the low slice of the register. */
  lemma SendShows(co: Config, o: State, pending: seq<nat>)
    requires NoReadySignals(co) && Sending(co, o) && Announced(co, o.pipe, co.Effective(0))
    ensures Announced(co, SendPeriod(co, o, pending).0.pipe, co.Effective(0))
    ensures Level(co, SeeEdge(co, o)) == co.Effective(Mask(SeeEdge(co, o).pipe.shiftReg, co.width))
  {
    SendFalling(co, o);
    EdgeShows(co, o, co.Effective(0));
    SendRising(co, Write(SeeEdge(co, o), pending).0);
  }

  /** A period of the two ports is a step of the view. */
  lemma PeriodIsViewStep(co: Config, ci: Config, l: Link)
    requires Running(co, ci, l)
    ensures Running(co, ci, Period(co, ci, l)) && ViewOf(Period(co, ci, l)) == ViewStep(co, ViewOf(l))
  {
    SendView(co, l);
    SendShows(co, l.o, l.pending);
    ReceivePeriodStep(ci, l.i, Mask(SeeEdge(co, l.o).pipe.shiftReg, co.width), l.received);
  }

  function ViewClock(c: Config): View -> View { v => ViewStep(c, v) }

  lemma PeriodsAreViewSteps(co: Config, ci: Config, l: Link, n: nat)
    requires Running(co, ci, l)
    ensures ViewOf(Times(Clock(co, ci), l, n)) == Times(ViewClock(co), ViewOf(l), n)
  {
    var good := (x: Link) => Running(co, ci, x);
    var view := (x: Link) => ViewOf(x);
    forall x | good(x)
      ensures good(Clock(co, ci)(x)) && view(Clock(co, ci)(x)) == ViewClock(co)(view(x))
    {
      PeriodIsViewStep(co, ci, x);
    }
    Simulation(Clock(co, ci), good, view, ViewClock(co), l, n);
  }

  /** The output register after i slices of a word have passed: the rest, then copies of the top one. */
  function Passed(xs: seq<nat>, i: nat): seq<nat>
    requires i < |xs|
  {
    xs[i..] + Copies(xs[|xs| - 1], i)
  }

  /** The input register after i slices of a word: what is left of the old slices, then the new ones. */
  function Filled(xs: seq<nat>, ys: seq<nat>, i: nat): seq<nat>
    requires i <= |xs| == |ys|
  {
    ys[i..] + xs[..i]
  }

  predicate Register(c: Config, xs: seq<nat>) { |xs| == c.shiftRegEntries && Fits(c.width, xs) }

  lemma PassOne(c: Config, xs: seq<nat>, i: nat)
    requires c.ValidWidths() && Register(c, xs) && i + 1 < |xs|
    ensures c.NextShiftReg(Pack(c.width, Passed(xs, i))) == Pack(c.width, Passed(xs, i + 1))
  {
    var zs := Passed(xs, i);
    ShiftSlices(c, zs);
    assert zs[1..] + [zs[|zs| - 1]] == Passed(xs, i + 1);
  }

  lemma ShownSlice(c: Config, xs: seq<nat>, i: nat)
    requires Register(c, xs) && i < |xs|
    ensures Mask(Pack(c.width, Passed(xs, i)), c.width) == xs[i]
  {
    PackSplit(c.width, Passed(xs, i));
  }

  lemma FillOne(c: Config, xs: seq<nat>, ys: seq<nat>, i: nat)
    requires c.ValidWidths() && Register(c, xs) && Register(c, ys) && i < |xs|
    ensures c.SampledShiftReg(Pack(c.width, Filled(xs, ys, i)), xs[i]) == Pack(c.width, Filled(xs, ys, i + 1))
  {
    var zs := Filled(xs, ys, i);
    SampleSlices(c, zs, xs[i]);
    assert zs[1..] + [xs[i]] == Filled(xs, ys, i + 1);
  }

  /** The view once i + 1 slices of xs have been driven and sampled. */
  function Midword(c: Config, v: View, xs: seq<nat>, ys: seq<nat>, i: nat): View
    requires Register(c, xs) && Register(c, ys) && i < |xs|
  {
    var done := i + 1 == |xs|;
    View(Pack(c.width, Passed(xs, i)), |xs| - i, v.next, v.pending,
         Pack(c.width, Filled(xs, ys, i + 1)), if done then 0 else i + 1,
         if done then v.received + [Pack(c.width, Filled(xs, ys, i + 1))] else v.received)
  }

  lemma NextSlice(c: Config, v: View, xs: seq<nat>, ys: seq<nat>, i: nat)
    requires c.ValidWidths() && Register(c, xs) && Register(c, ys) && i + 1 < |xs| && (v.next.Some? || v.pending == [])
    ensures ViewStep(c, Midword(c, v, xs, ys, i)) == Midword(c, v, xs, ys, i + 1)
  {
    PassOne(c, xs, i);
    ShownSlice(c, xs, i + 1);
    FillOne(c, xs, ys, i + 1);
  }

  /** The views of a word passing, by slice. */
  function WordAt(c: Config, v: View, xs: seq<nat>, ys: seq<nat>): nat -> View {
    (i: nat) => if Register(c, xs) && Register(c, ys) && i < |xs| then Midword(c, v, xs, ys, i) else v
  }

  lemma WordStep(c: Config, v: View, xs: seq<nat>, ys: seq<nat>, i: nat)
    requires c.ValidWidths() && Register(c, xs) && Register(c, ys) && i + 1 < |xs| && (v.next.Some? || v.pending == [])
    ensures ViewClock(c)(WordAt(c, v, xs, ys)(i)) == WordAt(c, v, xs, ys)(i + 1)
  {
    NextSlice(c, v, xs, ys, i);
  }

  predicate Follows<T(==)>(step: T -> T, at: nat -> T, i: nat) { step(at(i)) == at(i + 1) }

  lemma AllSteps<T>(step: T -> T, at: nat -> T, n: nat)
    requires forall i: nat | i < n :: Follows(step, at, i)
    ensures Times(step, at(0), n) == at(n)
  {
    forall i: nat | 0 <= i < n ensures step(at(i)) == at(i + 1) { assert Follows(step, at, i); }
    Trajectory(step, at, 0, n);
  }

  lemma WordFollows(c: Config, v: View, xs: seq<nat>, ys: seq<nat>, i: nat)
    requires c.ValidWidths() && Register(c, xs) && Register(c, ys) && i + 1 < |xs| && (v.next.Some? || v.pending == [])
    ensures Follows(ViewClock(c), WordAt(c, v, xs, ys), i)
  {
    WordStep(c, v, xs, ys, i);
  }

  lemma RestOfWord(c: Config, v: View, xs: seq<nat>, ys: seq<nat>)
    requires c.ValidWidths() && Register(c, xs) && Register(c, ys) && xs != [] && (v.next.Some? || v.pending == [])
    ensures Times(ViewClock(c), WordAt(c, v, xs, ys)(0), |xs| - 1) == WordAt(c, v, xs, ys)(|xs| - 1)
  {
    forall i: nat | i < |xs| - 1 ensures Follows(ViewClock(c), WordAt(c, v, xs, ys), i) {
      WordFollows(c, v, xs, ys, i);
    }
    AllSteps(ViewClock(c), WordAt(c, v, xs, ys), |xs| - 1);
  }

  /** The queue of words after one has been taken from it. */
  function Refilled(v: View): View {
    if v.pending == [] then v.(next := None) else v.(next := Some(v.pending[0]), pending := v.pending[1..])
  }

  /** Between words: the output register is used up, a word is waiting, the input register is empty. */
  predicate AtWord(c: Config, v: View, xs: seq<nat>, ys: seq<nat>) {
    && c.ValidWidths() && Register(c, xs) && Register(c, ys)
    && v.left <= 1 && v.next == Some(Pack(c.width, xs)) && v.fill == 0 && v.reg == Pack(c.width, ys)
  }

  lemma FirstSlice(c: Config, v: View, xs: seq<nat>, ys: seq<nat>)
    requires AtWord(c, v, xs, ys)
    ensures |xs| > 0 && ViewStep(c, v) == Midword(c, Refilled(v), xs, ys, 0)
  {
    assert Passed(xs, 0) == xs && Filled(xs, ys, 0) == ys;
    ShownSlice(c, xs, 0);
    FillOne(c, xs, ys, 0);
  }

  lemma WordArrives(c: Config, v: View, xs: seq<nat>, ys: seq<nat>)
    requires AtWord(c, v, xs, ys)
    ensures |xs| > 0 && Times(ViewClock(c), v, c.shiftRegEntries) == Midword(c, Refilled(v), xs, ys, |xs| - 1)
    ensures Filled(xs, ys, |xs|) == xs
  {
    FirstSlice(c, v, xs, ys);
    RestOfWord(c, Refilled(v), xs, ys);
  }

  /** Ready for the words: the output register is used up, the input register is empty, and the words are
      queued behind the transfer register. */
  predicate ReadyFor(c: Config, v: View, words: seq<nat>) {
    && v.left <= 1 && v.fill == 0 && v.reg < Pow2(c.transferWidth)
    && (forall j | 0 <= j < |words| :: words[j] < Pow2(c.transferWidth))
    && (words != [] ==> v.next.Some? && [v.next.value] + v.pending == words)
    && (words == [] ==> v.next.None? && v.pending == [])
  }

  lemma OneWord(c: Config, v: View, words: seq<nat>)
    requires c.ValidWidths() && ReadyFor(c, v, words) && words != []
    ensures var r := Times(ViewClock(c), v, c.shiftRegEntries);
            ReadyFor(c, r, words[1..]) && r.received == v.received + [words[0]]
  {
    var w, m := c.width, c.shiftRegEntries;
    var xs, ys := Unpack(w, m, words[0]), Unpack(w, m, v.reg);
    PackUnpack(w, m, words[0]);
    PackUnpack(w, m, v.reg);
    WordArrives(c, v, xs, ys);
    assert words[1..] == v.pending;
  }

  lemma JoinWords(got: seq<nat>, words: seq<nat>, k: nat)
    requires 0 < k <= |words|
    ensures got + [words[0]] + words[1..][..k - 1] == got + words[..k]
  {
    assert [words[0]] + words[1..][..k - 1] == words[..k];
  }

  lemma JoinSteps(c: Config, v: View, r: View, m: nat, words: seq<nat>, k: nat)
    requires 0 < k <= |words| && r == Times(ViewClock(c), v, m) && r.received == v.received + [words[0]]
    requires Times(ViewClock(c), r, Span(m, k - 1)).received == r.received + words[1..][..k - 1]
    ensures Times(ViewClock(c), v, Span(m, k)).received == v.received + words[..k]
  {
    TimesAdd(ViewClock(c), v, m, Span(m, k - 1));
    JoinWords(v.received, words, k);
  }

  lemma NoWords<T>(step: T -> T, x: T, m: nat)
    ensures Times(step, x, Span(m, 0)) == x
  {
  }

  lemma {:induction false} WordsArrive(c: Config, v: View, words: seq<nat>, k: nat)
    requires c.ValidWidths() && ReadyFor(c, v, words) && k <= |words|
    ensures Times(ViewClock(c), v, Span(c.shiftRegEntries, k)).received == v.received + words[..k]
    decreases k
  {
    if k == 0 {
      NoWords(ViewClock(c), v, c.shiftRegEntries);
      assert v.received + words[..0] == v.received;
    } else {
      var r := Times(ViewClock(c), v, c.shiftRegEntries);
      OneWord(c, v, words);
      WordsArrive(c, r, words[1..], k - 1);
      JoinSteps(c, v, r, c.shiftRegEntries, words, k);
    }
  }

  /** Every stream of words that fit the transfer width arrives unchanged: from between two words, after k
      registers' worth of clock periods the reader has received exactly the first k words. */
  lemma StreamArrives(co: Config, ci: Config, l: Link, words: seq<nat>, k: nat)
    requires Running(co, ci, l) && ReadyFor(co, ViewOf(l), words) && k <= |words|
    ensures Times(Clock(co, ci), l, Span(co.shiftRegEntries, k)).received == l.received + words[..k]
  {
    WordsArrive(co, ViewOf(l), words, k);
    PeriodsAreViewSteps(co, ci, l, Span(co.shiftRegEntries, k));
  }

  // ---- Words ----

  function Opt(w: Option<nat>): seq<nat> { if w.Some? then [w.value] else [] }

  /** Every word fits the transfer width. */
  predicate AllFit(c: Config, words: seq<nat>) { forall k | 0 <= k < |words| :: words[k] < Pow2(c.transferWidth) }

  lemma RestFits(c: Config, w: nat, rest: seq<nat>)
    requires AllFit(c, [w] + rest)
    ensures AllFit(c, rest)
  {
    forall k | 0 <= k < |rest| ensures rest[k] < Pow2(c.transferWidth) { assert ([w] + rest)[k + 1] == rest[k]; }
  }

  lemma Rejoin(a: seq<nat>, b: seq<nat>, c: seq<nat>)
    ensures a + (b + c) == a + b + c && a + [] + (b + c) == a + b + c && (a + b) + [] + c == a + b + c
  {
  }
}
