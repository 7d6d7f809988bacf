/** A stream of words through two strobed ports: the output port raises its ready output while it has something to
    show, and the input port samples only then, so that the writer may take its time (lib/Port.cpp, `computeReadyOut`,
    `seeSamplingEdge`). */
module PortStrobeOut {
  import opened Options
  import opened Signals
  import opened Arith
  import opened Bits
  import opened PortState
  import opened Slices
  import opened PortPins
  import opened PortStream

  // ---- Views ----

  /** One period on views: the slice is sampled if there is one. */
  function StrobedStep(c: Config, v: View, offers: bool): View {
    var s := Sent(c, v, offers);
    if s.left == 0 then s else Got(c, s)
  }

  /** The words that have not been loaded yet. */
  function Queue(v: View): seq<nat> { Opt(v.next) + v.pending }

  /** No word is on its way. */
  predicate Between(c: Config, v: View) { v.left <= 1 && v.fill == 0 && v.reg < Pow2(c.transferWidth) }

  /** Slices 0 to i of a word have been driven and sampled. */
  predicate Under(c: Config, v: View, xs: seq<nat>, ys: seq<nat>, i: nat) {
    && Register(c, xs) && Register(c, ys) && i + 1 < |xs| && v.left == |xs| - i && v.fill == i + 1
    && v.out == Pack(c.width, Passed(xs, i)) && v.reg == Pack(c.width, Filled(xs, ys, i + 1))
  }

  /** Either no word is on its way, or the given one is. */
  ghost predicate Carries(c: Config, v: View, word: Option<nat>) {
    match word
    case None => Between(c, v)
    case Some(w) => exists xs, ys, i: nat :: Under(c, v, xs, ys, i) && w == Pack(c.width, xs)
  }

  /** All words there are: received, on their way, and not loaded yet. */
  function All(v: View, word: Option<nat>): seq<nat> { v.received + Opt(word) + Queue(v) }

  /** A slice of a word that is driven is sampled. */
  lemma SliceArrives(c: Config, v: View, xs: seq<nat>, ys: seq<nat>, i: nat)
    requires c.ValidWidths() && Register(c, xs) && Register(c, ys) && i < |xs|
    requires v.out == Pack(c.width, Passed(xs, i)) && v.reg == Pack(c.width, Filled(xs, ys, i)) && v.fill == i
    ensures var g := Got(c, v);
      && g == v.(reg := g.reg, fill := g.fill, received := g.received)
      && g.reg == Pack(c.width, Filled(xs, ys, i + 1))
      && (if i + 1 == |xs| then g.fill == 0 && g.received == v.received + [Pack(c.width, xs)]
          else g.fill == i + 1 && g.received == v.received)
  {
    ShownSlice(c, xs, i);
    FillOne(c, xs, ys, i);
    if i + 1 == |xs| { assert Filled(xs, ys, i + 1) == xs; }
  }

  lemma SentQueue(c: Config, v: View, offers: bool)
    ensures var s := Sent(c, v, offers);
      && s.reg == v.reg && s.fill == v.fill && s.received == v.received
      && Queue(v) == (if v.left <= 1 && v.next.Some? then [v.next.value] else []) + Queue(s)
  {
  }

  /** The first slice of a word: the next one, if there is one. */
  lemma Loads(c: Config, v: View, offers: bool, xs: seq<nat>, ys: seq<nat>)
    requires c.ValidWidths() && Register(c, xs) && Register(c, ys) && Between(c, v) && v.reg == Pack(c.width, ys)
    requires v.next == Some(Pack(c.width, xs))
    ensures var t := StrobedStep(c, v, offers);
      && (if |xs| == 1 then Between(c, t) && t.received == v.received + [Pack(c.width, xs)]
          else Under(c, t, xs, ys, 0) && t.received == v.received)
      && Queue(v) == [Pack(c.width, xs)] + Queue(t)
  {
    var s := Sent(c, v, offers);
    assert Passed(xs, 0) == xs && Filled(xs, ys, 0) == ys;
    SentQueue(c, v, offers);
    SliceArrives(c, s, xs, ys, 0);
    if |xs| == 1 {
      assert Filled(xs, ys, 1) == xs;
      PackBound(c.width, xs);
    }
  }

  lemma Shifts(c: Config, v: View, offers: bool, xs: seq<nat>, ys: seq<nat>, i: nat)
    requires c.ValidWidths() && Under(c, v, xs, ys, i)
    ensures var t := StrobedStep(c, v, offers);
      && (if i + 2 == |xs| then Between(c, t) && t.received == v.received + [Pack(c.width, xs)]
          else Under(c, t, xs, ys, i + 1) && t.received == v.received)
      && Queue(v) == Queue(t)
  {
    var s := Sent(c, v, offers);
    SentQueue(c, v, offers);
    PassOne(c, xs, i);
    SliceArrives(c, s, xs, ys, i + 1);
    if i + 2 == |xs| {
      assert Filled(xs, ys, i + 2) == xs;
      PackBound(c.width, xs);
    }
  }

  /** Nothing has been lost, changed, doubled or overtaken. */
  ghost predicate Keeps(c: Config, v: View, word: Option<nat>, t: View, w: Option<nat>) {
    Carries(c, t, w) && AllFit(c, Queue(t)) && All(t, w) == All(v, word)
  }

  lemma ShiftKeeps(c: Config, v: View, offers: bool, xs: seq<nat>, ys: seq<nat>, i: nat) returns (w: Option<nat>)
    requires c.ValidWidths() && Under(c, v, xs, ys, i) && AllFit(c, Queue(v))
    ensures Keeps(c, v, Some(Pack(c.width, xs)), StrobedStep(c, v, offers), w)
  {
    Shifts(c, v, offers, xs, ys, i);
    w := if i + 2 == |xs| then None else Some(Pack(c.width, xs));
    Rejoin(v.received, [Pack(c.width, xs)], Queue(v));
  }

  lemma WaitKeeps(c: Config, v: View, offers: bool)
    requires Between(c, v) && v.next.None? && AllFit(c, Queue(v))
    ensures Keeps(c, v, None, StrobedStep(c, v, offers), None)
  {
    SentQueue(c, v, offers);
    assert Queue(StrobedStep(c, v, offers)) == Queue(v);
  }

  lemma LoadKeeps(c: Config, v: View, offers: bool, xs: seq<nat>, ys: seq<nat>) returns (w: Option<nat>)
    requires c.ValidWidths() && Register(c, xs) && Register(c, ys) && Between(c, v) && v.reg == Pack(c.width, ys)
    requires v.next == Some(Pack(c.width, xs)) && AllFit(c, Queue(v))
    ensures Keeps(c, v, None, StrobedStep(c, v, offers), w)
  {
    var t := StrobedStep(c, v, offers);
    Loads(c, v, offers, xs, ys);
    w := if |xs| == 1 then None else v.next;
    RestFits(c, v.next.value, Queue(t));
    Rejoin(v.received, [v.next.value], Queue(t));
  }

  /** A period in which the writer writes or not: no word is lost, changed, doubled or overtaken. */
  lemma StrobedKeeps(c: Config, v: View, word: Option<nat>, offers: bool) returns (w: Option<nat>)
    requires c.ValidWidths() && Carries(c, v, word) && AllFit(c, Queue(v))
    ensures Keeps(c, v, word, StrobedStep(c, v, offers), w)
  {
    if word.Some? {
      var xs, ys, i: nat :| Under(c, v, xs, ys, i) && word.value == Pack(c.width, xs);
      w := ShiftKeeps(c, v, offers, xs, ys, i);
    } else if v.next.None? {
      WaitKeeps(c, v, offers);
      w := None;
    } else {
      var xs, ys := Unpack(c.width, c.shiftRegEntries, v.next.value), Unpack(c.width, c.shiftRegEntries, v.reg);
      assert Queue(v)[0] == v.next.value;
      PackUnpack(c.width, c.shiftRegEntries, v.next.value);
      PackUnpack(c.width, c.shiftRegEntries, v.reg);
      w := LoadKeeps(c, v, offers, xs, ys);
    }
  }

  // ---- Ports ----

  /** The output port strobes the input port; same widths and polarity, the input sampling on the rising edge. */
  predicate Paired(co: Config, ci: Config) {
    && co.readyMode == Strobed && co.master && ci.readyMode == Strobed && !ci.master && co.ValidWidths()
    && ci.width == co.width && ci.transferWidth == co.transferWidth && ci.shiftRegEntries == co.shiftRegEntries
    && co.inverted == ci.inverted && co.buffered && ci.buffered && ci.samplingEdge == Rising
    && (co.inverted ==> co.width == 1)
  }

  /** The input port's rising edge sees the level and the ready signal the output port has announced. */
  function Wired(co: Config, ci: Config, o: State): Config {
    ci.(pins := Signal(0, Level(co, o)), readyInPins := Signal(0, if ReadyShown(o.pipe.log, false) then 1 else 0))
  }

  /** One clock period, in which the writer writes or not. */
  function StrobedPeriod(co: Config, ci: Config, l: Link, offers: bool): Link {
    var o1 := SeeEdge(co, l.o);
    var (o2, pending) := if offers then Write(o1, l.pending) else (o1, l.pending);
    var (i, received) := Read(SeeEdge(Wired(co, ci, o1), SeeEdge(ci, l.i)), l.received);
    Link(SeeEdge(co, o2), i, pending, received)
  }

  /** An output port that only shifts and loads, with what it announced up to date. */
  predicate Strobing(co: Config, s: State) {
    && StrobingPipe(co, s.pipe)
    && s.nextEdge.kind == Falling && Announced(co, s.pipe, co.Effective(0)) && ReadyAnnounced(s.pipe, false)
  }

  predicate Linked(co: Config, ci: Config, l: Link) {
    && Paired(co, ci) && Strobing(co, l.o) && Receiving(ci, l.i) && l.i.pipe.validShiftRegEntries < ci.shiftRegEntries
  }

  predicate StrobingPipe(co: Config, p: Pipe) {
    p == p.(outputPort := true, timeRegValid := false, pausedIn := None, pausedSync := None,
            portShiftCount := co.shiftRegEntries)
  }

  /** The registers of the output port, as its view has them. */
  predicate Sees(p: Pipe, v: View) {
    && v.out == p.shiftReg && v.left == p.validShiftRegEntries
    && v.next == if p.transferRegValid then Some(p.transferReg) else None
  }

  lemma StrobePipe(co: Config, p: Pipe, counter: nat, time: nat, v: View)
    requires StrobingPipe(co, p) && Sees(p, v)
    ensures var r := FallingOutput(co, p, counter, true, time); StrobingPipe(co, r) && Sees(r, Sent(co, v, false))
  {
  }

  lemma StrobeReady(co: Config, p: Pipe, counter: nat, time: nat, v: View)
    requires co.readyMode == Strobed && co.master && StrobingPipe(co, p) && Sees(p, v)
    ensures var r := UpdateReadyOut(co, p, counter, true, time);
      StrobingPipe(co, r) && Sees(r, v) && (r.readyOut <==> v.left != 0)
  {
  }

  lemma StrobeEdge(co: Config, s: State)
    requires co.readyMode == Strobed && co.master && StrobingPipe(co, s.pipe) && s.nextEdge.kind == Falling
    ensures var t, counter, time := SeeEdge(co, s), CountEdge(s.portCounter, Falling), s.nextEdge.time;
      var a := FallingOutput(co, s.pipe, counter, true, time);
      t.nextEdge.kind == Rising && (a.outputPort ==> t.pipe == UpdateReadyOut(co, a, counter, true, time))
  {
  }

  /** The falling edge of the output port is its half of the view's step, and its ready output says whether there is a
      slice. */
  lemma StrobeFalling(co: Config, s: State, v: View)
    requires co.readyMode == Strobed && co.master && Strobing(co, s) && Sees(s.pipe, v)
    ensures var t, w := SeeEdge(co, s), Sent(co, v, false);
      && Strobing(co, t.(nextEdge := s.nextEdge)) && t.nextEdge.kind == Rising
      && Sees(t.pipe, w) && (t.pipe.readyOut <==> w.left != 0)
  {
    var counter, time := CountEdge(s.portCounter, Falling), s.nextEdge.time;
    var a := FallingOutput(co, s.pipe, counter, true, time);
    StrobePipe(co, s.pipe, counter, time, v);
    StrobeReady(co, a, counter, time, Sent(co, v, false));
    StrobeEdge(co, s);
    EdgeShows(co, s, co.Effective(0));
    EdgeReady(co, s, false);
  }

  lemma StrobeRising(co: Config, s: State)
    requires co.readyMode == Strobed && co.master && s.pipe.outputPort && s.nextEdge.kind == Rising
    ensures SeeEdge(co, s).pipe == s.pipe && SeeEdge(co, s).nextEdge.kind == Falling
  {
  }

  /** What the writer adds to the view. */
  lemma OfferIs(co: Config, v: View, o: State, pending: seq<nat>, offers: bool)
    requires Sees(o.pipe, Sent(co, v, false)) && v.pending == pending
    ensures var (t, rest) := if offers then Write(o, pending) else (o, pending);
      Sees(t.pipe, Sent(co, v, offers)) && rest == Sent(co, v, offers).pending
  {
  }

  /** The input port's rising edge without the ready signal does nothing. */
  lemma NotStrobed(ci: Config, s: State, level: nat)
    requires ci.readyMode == Strobed && !ci.master && ci.samplingEdge == Rising
    requires ReceivingPipe(ci, s.pipe) && s.nextEdge.kind == Rising
    ensures var t := SeeEdge(ci.(pins := Signal(0, level), readyInPins := Signal(0, 0)), s);
      t.pipe == s.pipe && t.nextEdge.kind == Falling
  {
    assert Signal(0, 0).GetValue(s.nextEdge.time) == 0;
  }

  /** With it, it takes a sample; the pins are inverted twice on the way, or not at all. */
  lemma StrobedSample(ci: Config, s: State, v: nat)
    requires ci.readyMode == Strobed && !ci.master && ci.samplingEdge == Rising
    requires ReceivingPipe(ci, s.pipe) && s.nextEdge.kind == Rising && s.pipe.validShiftRegEntries < ci.shiftRegEntries
    ensures var t := SeeEdge(ci.(pins := Signal(0, ci.Effective(v)), readyInPins := Signal(0, 1)), s); var r := t.pipe;
      && t.nextEdge.kind == Falling && ReceivingPipe(ci, r.(transferRegValid := false))
      && r.shiftReg == ci.SampledShiftReg(s.pipe.shiftReg, v)
      && (if s.pipe.validShiftRegEntries + 1 == ci.shiftRegEntries
          then r.validShiftRegEntries == 0 && r.transferRegValid && r.transferReg == r.shiftReg
          else r.validShiftRegEntries == s.pipe.validShiftRegEntries + 1 && !r.transferRegValid)
  {
    var c := ci.(pins := Signal(0, ci.Effective(v)), readyInPins := Signal(0, 1));
    assert c.readyInPins.GetValue(s.nextEdge.time) == 1;
    assert c.EffectivePins().GetValue(s.nextEdge.time) == v;
    assert SeeEdge(c, s).pipe == Sample(c, s.pipe, s.portCounter, s.nextEdge.time, v);
    ReceiveRising(c, s.pipe, s.portCounter, s.nextEdge.time, v);
  }

  lemma SlaveFalling(ci: Config, s: State)
    requires ci.readyMode == Strobed && !ci.master && ci.samplingEdge == Rising && Receiving(ci, s)
    ensures SeeEdge(ci, s).pipe == s.pipe && SeeEdge(ci, s).nextEdge.kind == Rising
  {
  }

  predicate SeesInput(p: Pipe, v: View) { v.reg == p.shiftReg && v.fill == p.validShiftRegEntries }

  /** The input port's half of a period, given what the output port shows. */
  lemma InputHalf(co: Config, ci: Config, o: State, i: State, v: View)
    requires Paired(co, ci) && Receiving(ci, i) && i.pipe.validShiftRegEntries < ci.shiftRegEntries
    requires Announced(co, o.pipe, co.Effective(0)) && ReadyAnnounced(o.pipe, false) && o.pipe.outputPort
    requires (o.pipe.readyOut <==> v.left != 0) && v.out == o.pipe.shiftReg && SeesInput(i.pipe, v)
    ensures var (r, got) := Read(SeeEdge(Wired(co, ci, o), SeeEdge(ci, i)), v.received);
      var w := if v.left == 0 then v else Got(co, v);
      && Receiving(ci, r) && r.pipe.validShiftRegEntries < ci.shiftRegEntries
      && SeesInput(r.pipe, w) && got == w.received
  {
    var a := SeeEdge(ci, i);
    SlaveFalling(ci, i);
    assert Level(co, o) == ci.Effective(Mask(v.out, co.width));
    if v.left == 0 {
      NotStrobed(ci, a, Level(co, o));
    } else {
      StrobedSample(ci, a, Mask(v.out, co.width));
    }
  }

  /** The output port's half. */
  lemma OutputHalf(co: Config, l: Link, o: State, pending: seq<nat>, offers: bool)
    requires co.readyMode == Strobed && co.master && Strobing(co, l.o)
    requires (o, pending) == if offers then Write(SeeEdge(co, l.o), l.pending) else (SeeEdge(co, l.o), l.pending)
    ensures var w, r := Sent(co, ViewOf(l), offers), SeeEdge(co, o);
      Strobing(co, r) && Sees(r.pipe, w) && pending == w.pending
  {
    StrobeFalling(co, l.o, ViewOf(l));
    OfferIs(co, ViewOf(l), SeeEdge(co, l.o), l.pending, offers);
    StrobeRising(co, o);
  }

  /** A period of the two ports is a step of the view. */
  lemma StrobedPeriodIs(co: Config, ci: Config, l: Link, offers: bool)
    requires Linked(co, ci, l)
    ensures var t := StrobedPeriod(co, ci, l, offers);
      Linked(co, ci, t) && ViewOf(t) == StrobedStep(co, ViewOf(l), offers)
  {
    var o1 := SeeEdge(co, l.o);
    var (o2, pending) := if offers then Write(o1, l.pending) else (o1, l.pending);
    OutputHalf(co, l, o2, pending, offers);
    StrobeFalling(co, l.o, ViewOf(l));
    InputHalf(co, ci, o1, l.i, Sent(co, ViewOf(l), offers));
  }

  function Strobes(co: Config, ci: Config, l: Link, offers: seq<bool>): Link
    decreases |offers|
  {
    if offers == [] then l else Strobes(co, ci, StrobedPeriod(co, ci, l, offers[0]), offers[1..])
  }

  lemma {:induction false} StrobedRun(co: Config, ci: Config, l: Link, offers: seq<bool>, word: Option<nat>)
      returns (w: Option<nat>)
    requires Linked(co, ci, l) && Carries(co, ViewOf(l), word) && AllFit(co, Queue(ViewOf(l)))
    ensures Keeps(co, ViewOf(l), word, ViewOf(Strobes(co, ci, l, offers)), w)
    decreases |offers|
  {
    w := word;
    if offers != [] {
      StrobedPeriodIs(co, ci, l, offers[0]);
      var next := StrobedKeeps(co, ViewOf(l), word, offers[0]);
      w := StrobedRun(co, ci, StrobedPeriod(co, ci, l, offers[0]), offers[1..], next);
    }
  }

  lemma KeptFromStart(c: Config, v: View, t: View, w: Option<nat>)
    requires Keeps(c, v, None, t, w)
    ensures t.received + Opt(w) + Queue(t) == v.received + Queue(v) && (t.left <= 1 ==> w.None?)
  {
    assert v.received + [] + Queue(v) == v.received + Queue(v);
  }

  /** However long the writer takes over each word, the words received, one that may be on its way, and those not loaded
      yet are the words there were, in order; and none is on its way when the output register is used up. */
  lemma StrobedStreamArrives(co: Config, ci: Config, l: Link, offers: seq<bool>) returns (word: seq<nat>)
    requires Linked(co, ci, l) && Between(co, ViewOf(l)) && AllFit(co, Queue(ViewOf(l)))
    ensures var t := Strobes(co, ci, l, offers);
      && t.received + word + Queue(ViewOf(t)) == l.received + Queue(ViewOf(l))
      && |word| <= 1 && (t.o.pipe.validShiftRegEntries <= 1 ==> word == [])
  {
    var w := StrobedRun(co, ci, l, offers, None);
    word := Opt(w);
    KeptFromStart(co, ViewOf(l), ViewOf(Strobes(co, ci, l, offers)), w);
  }
}
