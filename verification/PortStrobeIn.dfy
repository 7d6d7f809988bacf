/** A stream of words through two strobed ports the other way round: the input port raises its ready output while it
    has room, and the output port goes on to its next slice only then, so that the reader may take its time
    (lib/Port.cpp, `computeReadyOut`, `seeFallingEdgeOutputPort`, `in`). */
module PortStrobeIn {
  import opened Options
  import opened Signals
  import opened Arith
  import opened Bits
  import opened PortState
  import opened Slices
  import opened PortPins
  import opened PortStream

  // ---- Views ----

  /** Both registers with their fill counts, whether the output port has seen that its slice was sampled, the word the
      input port holds for the reader, and the words around them. */
  datatype Pull = Pull(out: nat, left: nat, seen: bool, next: Option<nat>, pending: seq<nat>,
                       reg: nat, fill: nat, held: Option<nat>, received: seq<nat>)

  /** The output port's half of a period: on to the next slice or word, if the last one was sampled. The writer writes
      as soon as it can. */
  function ShowNext(c: Config, v: Pull): Pull {
    var load := v.seen && v.left <= 1 && v.next.Some?;
    var next := if load then None else v.next;
    var refill := next.None? && v.pending != [];
    v.(out := if load then v.next.value else if v.seen && v.left > 1 then c.NextShiftReg(v.out) else v.out,
       left := if load then c.shiftRegEntries else if !v.seen then v.left else if v.left > 1 then v.left - 1 else 0,
       next := if refill then Some(v.pending[0]) else next,
       pending := if refill then v.pending[1..] else v.pending)
  }

  /** The input port's half: a sample if there is room for it. A full register waits while a word is held. */
  function SampleNext(c: Config, v: Pull): Pull {
    var ready := v.fill != c.shiftRegEntries;
    if !ready then v.(seen := false)
    else
      var reg := c.SampledShiftReg(v.reg, Mask(v.out, c.width));
      var full := v.fill + 1 == c.shiftRegEntries && v.held.None?;
      v.(seen := true, reg := reg, fill := if full then 0 else v.fill + 1, held := if full then Some(reg) else v.held)
  }

  /** `in`: the held word, and a full register takes its place. */
  function TakeWord(c: Config, v: Pull): Pull {
    if v.held.None? then v
    else if v.fill == c.shiftRegEntries
    then v.(received := v.received + [v.held.value], held := Some(v.reg), fill := 0)
    else v.(received := v.received + [v.held.value], held := None)
  }

  function PullStep(c: Config, v: Pull, takes: bool): Pull {
    var w := SampleNext(c, ShowNext(c, v));
    if takes then TakeWord(c, w) else w
  }

  function Queue(v: Pull): seq<nat> { Opt(v.next) + v.pending }

  /** Words that have come through: read, held, and waiting in the register. */
  function Through(c: Config, v: Pull): seq<nat> {
    v.received + Opt(v.held) + if v.fill == c.shiftRegEntries then [v.reg] else []
  }

  /** The output port shows slice i of a word. */
  predicate Shows(c: Config, v: Pull, xs: seq<nat>, i: nat) {
    i < |xs| && v.left == |xs| - i && v.out == Pack(c.width, Passed(xs, i))
  }

  /** q slices of a word have been sampled, and the output port shows the last of them or the one after. */
  predicate Under(c: Config, v: Pull, xs: seq<nat>, ys: seq<nat>, q: nat) {
    && Register(c, xs) && Register(c, ys) && q < |xs|
    && (v.seen ==> q > 0) && Shows(c, v, xs, if v.seen then q - 1 else q)
    && if v.fill == c.shiftRegEntries then q == 0 && !v.seen && v.held.Some? && v.reg == Pack(c.width, ys)
       else v.fill == q && v.reg == Pack(c.width, Filled(xs, ys, q))
  }

  /** The word that was shown has come through. */
  predicate Done(c: Config, v: Pull) {
    && v.left == 1 && v.seen && v.reg < Pow2(c.transferWidth)
    && (v.fill == 0 || (v.fill == c.shiftRegEntries && v.held.Some?))
  }

  ghost predicate Carries(c: Config, v: Pull, word: Option<nat>) {
    match word
    case None => Done(c, v)
    case Some(w) => exists xs, ys, q: nat :: Under(c, v, xs, ys, q) && w == Pack(c.width, xs)
  }

  /** All words there are: come through, on their way, and not loaded yet. */
  function All(c: Config, v: Pull, word: Option<nat>): seq<nat> { Through(c, v) + Opt(word) + Queue(v) }

  ghost predicate Keeps(c: Config, v: Pull, word: Option<nat>, t: Pull, w: Option<nat>) {
    Carries(c, t, w) && AllFit(c, Queue(t)) && All(c, t, w) == All(c, v, word)
  }

  // ---- The output port's half ----

  lemma ShowQueue(c: Config, v: Pull)
    ensures var s := ShowNext(c, v);
      && s == v.(out := s.out, left := s.left, next := s.next, pending := s.pending)
      && Queue(v) == (if v.seen && v.left <= 1 then Opt(v.next) else []) + Queue(s)
  {
  }

  lemma ShowOn(c: Config, v: Pull, xs: seq<nat>, ys: seq<nat>, q: nat)
    requires c.ValidWidths() && Under(c, v, xs, ys, q)
    ensures Shows(c, ShowNext(c, v), xs, q) && Queue(ShowNext(c, v)) == Queue(v)
  {
    ShowQueue(c, v);
    if v.seen { PassOne(c, xs, q - 1); }
  }

  lemma ShowWord(c: Config, v: Pull, xs: seq<nat>)
    requires c.ValidWidths() && Register(c, xs) && v.seen && v.left == 1 && v.next == Some(Pack(c.width, xs))
    ensures Shows(c, ShowNext(c, v), xs, 0) && Queue(v) == [Pack(c.width, xs)] + Queue(ShowNext(c, v))
  {
    ShowQueue(c, v);
    assert Passed(xs, 0) == xs;
  }

  // ---- The input port's half ----

  /** A slice that is shown and sampled while the word is under way. */
  lemma MiddleSlice(c: Config, v: Pull, xs: seq<nat>, ys: seq<nat>, q: nat)
    requires c.ValidWidths() && Register(c, xs) && Register(c, ys) && Shows(c, v, xs, q) && q + 1 < |xs|
    requires v.fill == q && v.reg == Pack(c.width, Filled(xs, ys, q))
    ensures var t := SampleNext(c, v);
      Queue(t) == Queue(v) && Under(c, t, xs, ys, q + 1) && Through(c, t) == Through(c, v)
  {
    ShownSlice(c, xs, q);
    FillOne(c, xs, ys, q);
  }

  /** With the last one the word has come through. */
  lemma LastSlice(c: Config, v: Pull, xs: seq<nat>, ys: seq<nat>, q: nat)
    requires c.ValidWidths() && Register(c, xs) && Register(c, ys) && Shows(c, v, xs, q) && q + 1 == |xs|
    requires v.fill == q && v.reg == Pack(c.width, Filled(xs, ys, q))
    ensures var t := SampleNext(c, v);
      Queue(t) == Queue(v) && Done(c, t) && Through(c, t) == Through(c, v) + [Pack(c.width, xs)]
  {
    ShownSlice(c, xs, q);
    FillOne(c, xs, ys, q);
    assert Filled(xs, ys, q + 1) == xs;
    PackBound(c.width, xs);
    ComesThrough(c, v, Pack(c.width, xs));
  }

  lemma ComesThrough(c: Config, v: Pull, word: nat)
    requires v.fill + 1 == c.shiftRegEntries && v.left == 1 && word < Pow2(c.transferWidth)
    requires c.SampledShiftReg(v.reg, Mask(v.out, c.width)) == word
    ensures var t := SampleNext(c, v); Queue(t) == Queue(v) && Done(c, t) && Through(c, t) == Through(c, v) + [word]
  {
    var t := SampleNext(c, v);
    if v.held.None? {
      assert Through(c, t) == v.received + [word] + [];
      assert Through(c, v) == v.received + [] + [];
    } else {
      assert Through(c, v) == v.received + [v.held.value] + [];
    }
  }

  /** A word in the register waits, and so does the slice that is shown. */
  lemma WordWaits(c: Config, v: Pull, xs: seq<nat>, ys: seq<nat>)
    requires Register(c, xs) && Register(c, ys) && Shows(c, v, xs, 0)
    requires v.fill == c.shiftRegEntries && v.held.Some? && v.reg == Pack(c.width, ys)
    ensures var t := SampleNext(c, v);
      Under(c, t, xs, ys, 0) && Through(c, t) == Through(c, v) && Queue(t) == Queue(v)
  {
  }

  lemma UnderKeeps(c: Config, v: Pull, xs: seq<nat>, ys: seq<nat>, q: nat) returns (w: Option<nat>)
    requires c.ValidWidths() && Under(c, v, xs, ys, q) && AllFit(c, Queue(v))
    ensures Keeps(c, v, Some(Pack(c.width, xs)), SampleNext(c, ShowNext(c, v)), w)
  {
    var s := ShowNext(c, v);
    ShowQueue(c, v);
    ShowOn(c, v, xs, ys, q);
    w := Some(Pack(c.width, xs));
    if v.fill == c.shiftRegEntries {
      WordWaits(c, s, xs, ys);
    } else {
      if q + 1 == |xs| {
        LastSlice(c, s, xs, ys, q);
        w := None;
      } else {
        MiddleSlice(c, s, xs, ys, q);
      }
    }
    Rejoin(Through(c, v), [Pack(c.width, xs)], Queue(v));
  }

  lemma DoneKeeps(c: Config, v: Pull, xs: seq<nat>, ys: seq<nat>) returns (w: Option<nat>)
    requires c.ValidWidths() && Register(c, xs) && Register(c, ys) && Done(c, v) && AllFit(c, Queue(v))
    requires v.next == Some(Pack(c.width, xs)) && v.reg == Pack(c.width, ys)
    ensures Keeps(c, v, None, SampleNext(c, ShowNext(c, v)), w)
  {
    var s := ShowNext(c, v);
    ShowQueue(c, v);
    ShowWord(c, v, xs);
    RestFits(c, Pack(c.width, xs), Queue(s));
    assert Filled(xs, ys, 0) == ys;
    w := v.next;
    if v.fill == c.shiftRegEntries {
      WordWaits(c, s, xs, ys);
    } else {
      if |xs| == 1 {
        LastSlice(c, s, xs, ys, 0);
        w := None;
      } else {
        MiddleSlice(c, s, xs, ys, 0);
      }
    }
    Rejoin(Through(c, v), [Pack(c.width, xs)], Queue(s));
  }

  // ---- Whole periods ----

  lemma TakeThrough(c: Config, v: Pull)
    requires c.shiftRegEntries > 0
    ensures Through(c, TakeWord(c, v)) == Through(c, v) && Queue(TakeWord(c, v)) == Queue(v)
  {
  }

  lemma TakeUnder(c: Config, v: Pull, xs: seq<nat>, ys: seq<nat>, q: nat)
    requires c.shiftRegEntries > 0 && Under(c, v, xs, ys, q)
    ensures Under(c, TakeWord(c, v), xs, ys, q)
  {
    assert Filled(xs, ys, 0) == ys;
  }

  lemma TakeKeeps(c: Config, v: Pull, word: Option<nat>)
    requires c.shiftRegEntries > 0 && Carries(c, v, word) && AllFit(c, Queue(v))
    ensures Keeps(c, v, word, TakeWord(c, v), word)
  {
    TakeThrough(c, v);
    if word.Some? {
      var xs, ys, q: nat :| Under(c, v, xs, ys, q) && word.value == Pack(c.width, xs);
      TakeUnder(c, v, xs, ys, q);
    }
  }

  /** The writer has written if there was anything to write. */
  predicate Offered(v: Pull) { v.next.None? ==> v.pending == [] }

  /** The output port has run dry, and the words are all gone. */
  predicate Dry(v: Pull) { v.left == 0 && Queue(v) == [] }

  lemma DryStays(c: Config, v: Pull, takes: bool)
    requires Dry(v)
    ensures Dry(PullStep(c, v, takes))
  {
    ShowQueue(c, v);
  }

  lemma OfferedAgain(c: Config, v: Pull, takes: bool)
    ensures Offered(PullStep(c, v, takes))
  {
  }

  lemma HalvesKeep(c: Config, v: Pull, word: Option<nat>) returns (w: Option<nat>)
    requires c.ValidWidths() && Carries(c, v, word) && AllFit(c, Queue(v)) && (word.Some? || v.next.Some?)
    ensures Keeps(c, v, word, SampleNext(c, ShowNext(c, v)), w)
  {
    if word.Some? {
      var xs, ys, q: nat :| Under(c, v, xs, ys, q) && word.value == Pack(c.width, xs);
      w := UnderKeeps(c, v, xs, ys, q);
    } else {
      var xs, ys := Unpack(c.width, c.shiftRegEntries, v.next.value), Unpack(c.width, c.shiftRegEntries, v.reg);
      assert Queue(v)[0] == v.next.value;
      PackUnpack(c.width, c.shiftRegEntries, v.next.value);
      PackUnpack(c.width, c.shiftRegEntries, v.reg);
      w := DoneKeeps(c, v, xs, ys);
    }
  }

  lemma RunsDry(c: Config, v: Pull, takes: bool)
    requires Done(c, v) && Queue(v) == []
    ensures Dry(PullStep(c, v, takes))
  {
    ShowQueue(c, v);
  }

  /** A period in which the reader reads or not: unless the output port runs dry, no word is lost, changed, doubled or
      overtaken. */
  lemma PullKeeps(c: Config, v: Pull, word: Option<nat>, takes: bool) returns (w: Option<nat>)
    requires c.ValidWidths() && Carries(c, v, word) && AllFit(c, Queue(v)) && Offered(v)
    ensures var t := PullStep(c, v, takes); Offered(t) && (Dry(t) || Keeps(c, v, word, t, w))
  {
    w := None;
    OfferedAgain(c, v, takes);
    if word.Some? || v.next.Some? {
      w := HalvesKeep(c, v, word);
      if takes { TakeKeeps(c, SampleNext(c, ShowNext(c, v)), w); }
    } else {
      RunsDry(c, v, takes);
    }
  }

  // ---- Ports ----

  /** The input port strobes the output port; same widths and polarity, both looking on the rising edge. */
  predicate Paired(co: Config, ci: Config) {
    && co.readyMode == Strobed && !co.master && ci.readyMode == Strobed && ci.master && co.ValidWidths()
    && ci.width == co.width && ci.transferWidth == co.transferWidth && ci.shiftRegEntries == co.shiftRegEntries
    && co.inverted == ci.inverted && co.buffered && ci.buffered && co.samplingEdge == ci.samplingEdge == Rising
    && (co.inverted ==> co.width == 1)
  }

  /** `in` on an untimed input port without a condition that has a word. */
  function In(c: Config, s: State, received: seq<nat>): (State, seq<nat>) {
    var p := s.pipe;
    if !p.transferRegValid then (s, received)
    else if p.validShiftRegEntries == p.portShiftCount then
      (s.(pipe := p.(portShiftCount := c.shiftRegEntries, transferReg := p.shiftReg, validShiftRegEntries := 0,
                     timestampReg := s.portCounter, holdTransferReg := false)), received + [p.transferReg])
    else (s.(pipe := p.(transferRegValid := false, holdTransferReg := false)), received + [p.transferReg])
  }

  /** The rising edge of the output port sees the ready signal the input port has announced. */
  function Strobe(co: Config, i: State): Config {
    co.(readyInPins := Signal(0, if ReadyShown(i.pipe.log, false) then 1 else 0))
  }

  /** One clock period, in which the reader reads or not. */
  function PullPeriod(co: Config, ci: Config, l: Link, takes: bool): Link {
    var o1, i1 := SeeEdge(co, l.o), SeeEdge(ci, l.i);
    var (o2, pending) := Write(o1, l.pending);
    var i2 := SeeEdge(ci.(pins := Signal(0, Level(co, o1))), i1);
    var (i3, received) := if takes then In(ci, i2, l.received) else (i2, l.received);
    Link(SeeEdge(Strobe(co, i1), o2), i3, pending, received)
  }

  predicate SendingPipe(co: Config, p: Pipe) {
    p == p.(outputPort := true, timeRegValid := false, pausedIn := None, pausedSync := None, readyOut := false,
            portShiftCount := co.shiftRegEntries)
  }

  predicate ReceivingPipe(ci: Config, p: Pipe) {
    p == p.(outputPort := false, timeRegValid := false, eventsPermitted := false, holdTransferReg := false,
            condition := Full, portShiftCount := ci.shiftRegEntries)
  }

  predicate Linked(co: Config, ci: Config, l: Link) {
    && Paired(co, ci) && SendingPipe(co, l.o.pipe) && ReceivingPipe(ci, l.i.pipe)
    && l.o.nextEdge.kind == Falling && l.i.nextEdge.kind == Falling
    && Announced(co, l.o.pipe, co.Effective(0)) && ReadyAnnounced(l.i.pipe, false)
  }

  function PullOf(l: Link): Pull {
    var o, i := l.o.pipe, l.i.pipe;
    Pull(o.shiftReg, o.validShiftRegEntries, l.o.readyIn, if o.transferRegValid then Some(o.transferReg) else None,
         l.pending, i.shiftReg, i.validShiftRegEntries, if i.transferRegValid then Some(i.transferReg) else None,
         l.received)
  }

  /** The registers of the output port, as its view has them. */
  predicate SeesOut(p: Pipe, v: Pull) {
    && v.out == p.shiftReg && v.left == p.validShiftRegEntries
    && v.next == if p.transferRegValid then Some(p.transferReg) else None
  }

  predicate SeesIn(p: Pipe, v: Pull) {
    && v.reg == p.shiftReg && v.fill == p.validShiftRegEntries
    && v.held == if p.transferRegValid then Some(p.transferReg) else None
  }

  /** What the output port shows next, before the writer writes. */
  function ShowFirst(c: Config, v: Pull): Pull { ShowNext(c, v.(pending := [])).(pending := v.pending) }

  lemma FallsPipe(co: Config, p: Pipe, counter: nat, time: nat, v: Pull)
    requires SendingPipe(co, p) && SeesOut(p, v)
    ensures var r := FallingOutput(co, p, counter, v.seen, time); SendingPipe(co, r) && SeesOut(r, ShowFirst(co, v))
  {
  }

  lemma FallsEdge(co: Config, s: State)
    requires co.readyMode == Strobed && !co.master && co.samplingEdge == Rising
    requires SendingPipe(co, s.pipe) && s.nextEdge.kind == Falling
    ensures var t, a := SeeEdge(co, s),
                        FallingOutput(co, s.pipe, CountEdge(s.portCounter, Falling), s.readyIn, s.nextEdge.time);
      t.nextEdge.kind == Rising && t.readyIn == s.readyIn && (!a.readyOut ==> t.pipe == a)
  {
    var a := FallingOutput(co, s.pipe, CountEdge(s.portCounter, Falling), s.readyIn, s.nextEdge.time);
    assert a.log + [] == a.log;
  }

  lemma WriteIs(co: Config, v: Pull, o: State, pending: seq<nat>)
    requires SeesOut(o.pipe, ShowFirst(co, v)) && v.pending == pending
    ensures var (t, rest) := Write(o, pending); SeesOut(t.pipe, ShowNext(co, v)) && rest == ShowNext(co, v).pending
  {
  }

  lemma OutRises(co: Config, s: State, level: nat)
    requires co.readyMode == Strobed && !co.master && co.samplingEdge == Rising
    requires s.pipe.outputPort && s.nextEdge.kind == Rising
    ensures var t := SeeEdge(co.(readyInPins := Signal(0, level)), s);
      t.pipe == s.pipe && t.nextEdge.kind == Falling && (t.readyIn <==> level != 0)
  {
    assert Signal(0, level).GetValue(s.nextEdge.time) == level;
  }

  lemma OutFalls(co: Config, s: State, v: Pull)
    requires co.readyMode == Strobed && !co.master && co.samplingEdge == Rising
    requires SendingPipe(co, s.pipe) && s.nextEdge.kind == Falling && Announced(co, s.pipe, co.Effective(0))
    requires SeesOut(s.pipe, v) && v.seen == s.readyIn
    ensures var t := SeeEdge(co, s);
      && SendingPipe(co, t.pipe) && SeesOut(t.pipe, ShowFirst(co, v)) && t.nextEdge.kind == Rising
      && Announced(co, t.pipe, co.Effective(0))
  {
    FallsPipe(co, s.pipe, CountEdge(s.portCounter, Falling), s.nextEdge.time, v);
    FallsEdge(co, s);
    EdgeShows(co, s, co.Effective(0));
  }

  lemma OutWrites(co: Config, v: Pull, o: State, pending: seq<nat>)
    requires SeesOut(o.pipe, ShowFirst(co, v)) && v.pending == pending && SendingPipe(co, o.pipe)
    requires Announced(co, o.pipe, co.Effective(0))
    ensures var (t, rest) := Write(o, pending);
      && SeesOut(t.pipe, ShowNext(co, v)) && rest == ShowNext(co, v).pending && SendingPipe(co, t.pipe)
      && Announced(co, t.pipe, co.Effective(0)) && t.nextEdge == o.nextEdge
  {
    WriteIs(co, v, o, pending);
    DrivenAlike(co, o.pipe, Write(o, pending).0.pipe);
  }

  /** The output port's half of a period, given whether the input port is ready. */
  lemma OutHalf(co: Config, l: Link, ready: bool)
    requires co.readyMode == Strobed && !co.master && co.samplingEdge == Rising
    requires SendingPipe(co, l.o.pipe) && l.o.nextEdge.kind == Falling && Announced(co, l.o.pipe, co.Effective(0))
    ensures var o1, v := SeeEdge(co, l.o), PullOf(l);
      var (o2, pending) := Write(o1, l.pending);
      var r := SeeEdge(co.(readyInPins := Signal(0, if ready then 1 else 0)), o2);
      && SendingPipe(co, r.pipe) && SeesOut(r.pipe, ShowNext(co, v)) && pending == ShowNext(co, v).pending
      && r.nextEdge.kind == Falling && r.readyIn == ready && Announced(co, r.pipe, co.Effective(0))
      && o1.pipe.outputPort && Announced(co, o1.pipe, co.Effective(0)) && o1.pipe.shiftReg == ShowNext(co, v).out
  {
    var v, o1 := PullOf(l), SeeEdge(co, l.o);
    OutFalls(co, l.o, v);
    OutWrites(co, v, o1, l.pending);
    OutRises(co, Write(o1, l.pending).0, if ready then 1 else 0);
  }

  lemma InFalls(ci: Config, s: State)
    requires ci.readyMode == Strobed && ci.master && ci.samplingEdge == Rising && ReceivingPipe(ci, s.pipe)
    requires s.nextEdge.kind == Falling
    ensures var t := SeeEdge(ci, s);
      && t.nextEdge.kind == Rising && t.pipe == s.pipe.(readyOut := t.pipe.readyOut, log := t.pipe.log)
      && (t.pipe.readyOut <==> s.pipe.validShiftRegEntries != ci.shiftRegEntries)
  {
  }

  /** A sample by a port that holds a word or not. */
  lemma SamplePipe(ci: Config, p: Pipe, counter: nat, time: nat, x: nat)
    requires ci.readyMode == Strobed && ci.master && ReceivingPipe(ci, p)
    ensures var r := Sample(ci, p, counter, time, x);
      && ReceivingPipe(ci, r) && r.shiftReg == ci.SampledShiftReg(p.shiftReg, x) && r.readyOut == p.readyOut
      && (if p.validShiftRegEntries + 1 == ci.shiftRegEntries && !p.transferRegValid
          then r.validShiftRegEntries == 0 && r.transferRegValid && r.transferReg == r.shiftReg
          else r.validShiftRegEntries == p.validShiftRegEntries + 1 && r.transferRegValid == p.transferRegValid
               && r.transferReg == p.transferReg)
  {
  }

  lemma InRises(ci: Config, s: State, x: nat)
    requires ci.readyMode == Strobed && ci.master && ci.samplingEdge == Rising && ReceivingPipe(ci, s.pipe)
    requires s.nextEdge.kind == Rising
    ensures var c := ci.(pins := Signal(0, ci.Effective(x)));
      && SeeEdge(c, s).nextEdge.kind == Falling
      && SeeEdge(c, s).pipe == if s.pipe.readyOut then Sample(c, s.pipe, s.portCounter, s.nextEdge.time, x) else s.pipe
  {
    var c := ci.(pins := Signal(0, ci.Effective(x)));
    assert c.EffectivePins().GetValue(s.nextEdge.time) == x;
  }

  /** The input port's two edges, given what the output port shows. */
  lemma InSamples(ci: Config, i: State, v: Pull)
    requires ci.readyMode == Strobed && ci.master && ci.samplingEdge == Rising && ReceivingPipe(ci, i.pipe)
    requires i.nextEdge.kind == Falling && ReadyAnnounced(i.pipe, false) && SeesIn(i.pipe, v)
    ensures var i1 := SeeEdge(ci, i);
      var t := SeeEdge(ci.(pins := Signal(0, ci.Effective(Mask(v.out, ci.width)))), i1);
      && ReceivingPipe(ci, t.pipe) && t.nextEdge.kind == Falling && ReadyAnnounced(t.pipe, false)
      && SeesIn(t.pipe, SampleNext(ci, v)) && (ReadyShown(i1.pipe.log, false) <==> SampleNext(ci, v).seen)
  {
    var i1, x := SeeEdge(ci, i), Mask(v.out, ci.width);
    var c := ci.(pins := Signal(0, ci.Effective(x)));
    InFalls(ci, i);
    EdgeReady(ci, i, false);
    InRises(ci, i1, x);
    EdgeReady(c, i1, false);
    SamplePipe(c, i1.pipe, i1.portCounter, i1.nextEdge.time, x);
  }

  lemma InTakes(ci: Config, s: State, v: Pull)
    requires ReceivingPipe(ci, s.pipe) && ReadyAnnounced(s.pipe, false) && SeesIn(s.pipe, v)
    ensures var (t, received) := In(ci, s, v.received); var w := TakeWord(ci, v);
      && ReceivingPipe(ci, t.pipe) && t.nextEdge == s.nextEdge && ReadyAnnounced(t.pipe, false)
      && SeesIn(t.pipe, w) && received == w.received && w.seen == v.seen
  {
  }

  /** The input port's half. */
  lemma InHalf(ci: Config, i: State, v: Pull, takes: bool)
    requires ci.readyMode == Strobed && ci.master && ci.samplingEdge == Rising && ReceivingPipe(ci, i.pipe)
    requires i.nextEdge.kind == Falling && ReadyAnnounced(i.pipe, false) && SeesIn(i.pipe, v)
    ensures var i1 := SeeEdge(ci, i);
      var i2 := SeeEdge(ci.(pins := Signal(0, ci.Effective(Mask(v.out, ci.width)))), i1);
      var (i3, received) := if takes then In(ci, i2, v.received) else (i2, v.received);
      var w := if takes then TakeWord(ci, SampleNext(ci, v)) else SampleNext(ci, v);
      && ReceivingPipe(ci, i3.pipe) && i3.nextEdge.kind == Falling && ReadyAnnounced(i3.pipe, false)
      && SeesIn(i3.pipe, w) && received == w.received && (ReadyShown(i1.pipe.log, false) <==> w.seen)
  {
    var c := ci.(pins := Signal(0, ci.Effective(Mask(v.out, ci.width))));
    InSamples(ci, i, v);
    if takes { InTakes(ci, SeeEdge(c, SeeEdge(ci, i)), SampleNext(ci, v)); }
  }

  /** The input port's half leaves the output side of the view alone. */
  lemma OutUntouched(c: Config, v: Pull, takes: bool)
    ensures var s := SampleNext(c, v); var w := if takes then TakeWord(c, s) else s;
      w == v.(seen := w.seen, reg := w.reg, fill := w.fill, held := w.held, received := w.received)
  {
  }

  lemma IsPull(t: Link, v: Pull)
    requires SeesOut(t.o.pipe, v) && SeesIn(t.i.pipe, v) && t.o.readyIn == v.seen
    requires t.pending == v.pending && t.received == v.received
    ensures PullOf(t) == v
  {
  }

  /** A period of the two ports is a step of the view. */
  lemma PullPeriodIs(co: Config, ci: Config, l: Link, takes: bool)
    requires Linked(co, ci, l)
    ensures var t := PullPeriod(co, ci, l, takes);
      Linked(co, ci, t) && PullOf(t) == PullStep(co, PullOf(l), takes)
  {
    var v, i1 := ShowNext(co, PullOf(l)), SeeEdge(ci, l.i);
    OutHalf(co, l, ReadyShown(i1.pipe.log, false));
    assert Level(co, SeeEdge(co, l.o)) == ci.Effective(Mask(v.out, ci.width));
    InHalf(ci, l.i, v, takes);
    SameWidths(co, ci, v, takes);
    SameWidths(co, ci, SampleNext(co, v), takes);
    OutUntouched(co, v, takes);
    IsPull(PullPeriod(co, ci, l, takes), PullStep(co, PullOf(l), takes));
  }

  lemma SameWidths(co: Config, ci: Config, v: Pull, takes: bool)
    requires ci.width == co.width && ci.transferWidth == co.transferWidth && ci.shiftRegEntries == co.shiftRegEntries
    ensures SampleNext(ci, v) == SampleNext(co, v) && TakeWord(ci, v) == TakeWord(co, v)
  {
  }

  function Pulls(co: Config, ci: Config, l: Link, takes: seq<bool>): Link
    decreases |takes|
  {
    if takes == [] then l else Pulls(co, ci, PullPeriod(co, ci, l, takes[0]), takes[1..])
  }

  lemma {:induction false} DryRun(co: Config, ci: Config, l: Link, takes: seq<bool>)
    requires Linked(co, ci, l) && Dry(PullOf(l))
    ensures Dry(PullOf(Pulls(co, ci, l, takes)))
    decreases |takes|
  {
    if takes != [] {
      PullPeriodIs(co, ci, l, takes[0]);
      DryStays(co, PullOf(l), takes[0]);
      DryRun(co, ci, PullPeriod(co, ci, l, takes[0]), takes[1..]);
    }
  }

  lemma {:induction false} PullRun(co: Config, ci: Config, l: Link, takes: seq<bool>, word: Option<nat>)
      returns (w: Option<nat>)
    requires Linked(co, ci, l) && Carries(co, PullOf(l), word) && AllFit(co, Queue(PullOf(l))) && Offered(PullOf(l))
    ensures var t := PullOf(Pulls(co, ci, l, takes)); Dry(t) || Keeps(co, PullOf(l), word, t, w)
    decreases |takes|
  {
    w := word;
    if takes != [] {
      var m := PullPeriod(co, ci, l, takes[0]);
      PullPeriodIs(co, ci, l, takes[0]);
      var next := PullKeeps(co, PullOf(l), word, takes[0]);
      if Dry(PullOf(m)) {
        DryRun(co, ci, m, takes[1..]);
      } else {
        w := PullRun(co, ci, m, takes[1..], next);
      }
    }
  }

  /** The first word is shown by its first slice, nothing has been sampled, and the next one has been written. */
  predicate Starting(c: Config, v: Pull) {
    && v.out < Pow2(c.transferWidth) && v.left == c.shiftRegEntries && !v.seen && Offered(v)
    && v.reg < Pow2(c.transferWidth) && v.fill == 0 && v.held.None? && AllFit(c, Queue(v))
  }

  lemma StartCarries(c: Config, v: Pull)
    requires c.ValidWidths() && Starting(c, v)
    ensures Carries(c, v, Some(v.out)) && All(c, v, Some(v.out)) == v.received + [v.out] + Queue(v)
  {
    var xs, ys := Unpack(c.width, c.shiftRegEntries, v.out), Unpack(c.width, c.shiftRegEntries, v.reg);
    PackUnpack(c.width, c.shiftRegEntries, v.out);
    PackUnpack(c.width, c.shiftRegEntries, v.reg);
    assert Passed(xs, 0) == xs && Filled(xs, ys, 0) == ys;
    assert Under(c, v, xs, ys, 0);
  }

  /** However long the reader takes over each word, until the output port runs dry the words read, held or waiting, one
      that may be on its way, and those not loaded yet are the words there were, in order. */
  lemma PulledStreamArrives(co: Config, ci: Config, l: Link, takes: seq<bool>) returns (word: seq<nat>)
    requires Linked(co, ci, l) && Starting(co, PullOf(l))
    ensures var v, t := PullOf(l), PullOf(Pulls(co, ci, l, takes));
      |word| <= 1 && (t.left != 0 ==> Through(co, t) + word + Queue(t) == v.received + [v.out] + Queue(v))
  {
    StartCarries(co, PullOf(l));
    var w := PullRun(co, ci, l, takes, Some(PullOf(l).out));
    word := Opt(w);
  }
}
