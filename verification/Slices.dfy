/** A shift register of m entries of w bits, seen as the sequence of its slices, lowest first. */
module Slices {
  import opened Arith
  import opened Bits
  import opened PortState

  function Pack(w: nat, xs: seq<nat>): nat
    decreases |xs|
  {
    if xs == [] then 0 else xs[0] + Scale(Pack(w, xs[1..]), w)
  }

  function Unpack(w: nat, m: nat, x: nat): (xs: seq<nat>)
    ensures |xs| == m
    decreases m
  {
    if m == 0 then [] else [Mask(x, w)] + Unpack(w, m - 1, Shr(x, w))
  }

  predicate Fits(w: nat, xs: seq<nat>) { forall i | 0 <= i < |xs| :: xs[i] < Pow2(w) }

  lemma {:induction false} PackBound(w: nat, xs: seq<nat>)
    requires Fits(w, xs)
    ensures Pack(w, xs) < Pow2(Span(w, |xs|))
    decreases |xs|
  {
    if xs != [] {
      PackBound(w, xs[1..]);
      SumBelow(xs[0], Pack(w, xs[1..]), w, Span(w, |xs| - 1));
    }
  }

  lemma {:induction false} PackConcat(w: nat, xs: seq<nat>, ys: seq<nat>)
    ensures Pack(w, xs + ys) == Pack(w, xs) + Scale(Pack(w, ys), Span(w, |xs|))
    decreases |xs|
  {
    if xs == [] {
      assert xs + ys == ys;
    } else {
      assert (xs + ys)[1..] == xs[1..] + ys;
      PackConcat(w, xs[1..], ys);
      ScaleSum(Pack(w, xs[1..]), Scale(Pack(w, ys), Span(w, |xs| - 1)), w);
      ScaleAdd(Pack(w, ys), Span(w, |xs| - 1), w);
    }
  }

  lemma PackOne(w: nat, v: nat)
    ensures Pack(w, [v]) == v
  {
    assert [v][1..] == [];
    ScaleZero(w);
  }

  lemma {:induction false} ScaleZero(n: nat)
    ensures Scale(0, n) == 0
  {
    if n != 0 { ScaleZero(n - 1); }
  }

  lemma PackAppend(w: nat, xs: seq<nat>, v: nat)
    ensures Pack(w, xs + [v]) == Pack(w, xs) + Scale(v, Span(w, |xs|))
  {
    PackConcat(w, xs, [v]);
    PackOne(w, v);
  }

  lemma PackSplit(w: nat, xs: seq<nat>)
    requires Fits(w, xs) && xs != []
    ensures Mask(Pack(w, xs), w) == xs[0] && Shr(Pack(w, xs), w) == Pack(w, xs[1..])
  {
    MaskShr(xs[0], Pack(w, xs[1..]), w);
  }

  lemma ShrBound(x: nat, w: nat, n: nat)
    requires x < Pow2(w + n)
    ensures Shr(x, w) < Pow2(n)
  {
    SplitBits(x, w);
    ScaleAdd(1, n, w);
    if Pow2(n) <= Shr(x, w) {
      if Pow2(n) < Shr(x, w) { ScaleLess(Pow2(n), Shr(x, w), w); }
    }
  }

  lemma {:induction false} PackUnpack(w: nat, m: nat, x: nat)
    requires x < Pow2(Span(w, m))
    ensures Fits(w, Unpack(w, m, x)) && Pack(w, Unpack(w, m, x)) == x
    decreases m
  {
    if m != 0 {
      SplitBits(x, w);
      ShrBound(x, w, Span(w, m - 1));
      PackUnpack(w, m - 1, Shr(x, w));
      assert Unpack(w, m, x)[1..] == Unpack(w, m - 1, Shr(x, w));
    }
  }

  lemma TopSlice(v: nat, w: nat, above: nat)
    requires v < Pow2(w) && w + above <= 32
    ensures Shl(v, above) == Scale(v, above)
  {
    ScaleLess(v, Pow2(w), above);
    ScaleAdd(1, w, above);
    Pow2Mono(w + above, 32);
    Pow2Word();
    ShlIsScale(v, above);
  }

  lemma OrTop(w: nat, xs: seq<nat>, v: nat)
    requires Fits(w, xs) && xs != []
    ensures Or(Shr(Pack(w, xs), w), Scale(v, Span(w, |xs| - 1))) == Pack(w, xs[1..] + [v])
  {
    var rest := xs[1..];
    PackSplit(w, xs);
    PackBound(w, rest);
    OrDisjoint(Pack(w, rest), v, Span(w, |rest|));
    PackAppend(w, rest, v);
  }

  /** Sampling drops the lowest slice and puts the new one on top. */
  lemma SampleSlices(c: Config, xs: seq<nat>, v: nat)
    requires c.ValidWidths() && |xs| == c.shiftRegEntries && Fits(c.width, xs) && v < Pow2(c.width)
    ensures xs != [] && c.SampledShiftReg(Pack(c.width, xs), v) == Pack(c.width, xs[1..] + [v])
  {
    var above := Span(c.width, |xs| - 1);
    assert c.transferWidth == c.width + above;
    TopSlice(v, c.width, above);
    OrTop(c.width, xs, v);
  }

  /** The shift amount that isolates the top slice. */
  lemma TopOf(w: nat, xs: seq<nat>)
    requires Fits(w, xs) && xs != []
    ensures Shr(Pack(w, xs), Span(w, |xs| - 1)) == xs[|xs| - 1]
  {
    var low, top := xs[..|xs| - 1], xs[|xs| - 1];
    assert xs == low + [top];
    PackAppend(w, low, top);
    PackBound(w, low);
    MaskShr(Pack(w, low), top, Span(w, |low|));
  }

  /** An output shift drops the lowest slice and repeats the top one. */
  lemma ShiftSlices(c: Config, xs: seq<nat>)
    requires c.ValidWidths() && |xs| == c.shiftRegEntries && Fits(c.width, xs)
    ensures xs != [] && c.NextShiftReg(Pack(c.width, xs)) == Pack(c.width, xs[1..] + [xs[|xs| - 1]])
  {
    TopOf(c.width, xs);
    SampleSlices(c, xs, xs[|xs| - 1]);
  }

  function Copies(v: nat, m: nat): seq<nat> { seq(m, _ => v) }

  /** The loop of `computeSteadyStateInputShiftReg`: double the pattern until it fills the register. */
  function Doubled(val: nat, shift: nat, width: nat): nat
    decreases width
  {
    if width <= 1 then val else Doubled(Or(Shl(val, shift), val), shift * 2, width / 2)
  }

  function SteadyReg(c: Config, v: nat): nat {
    Mask(Doubled(v, c.width, c.shiftRegEntries), c.transferWidth)
  }

  /** `(x << k) | x` for a k-bit x repeats x. */
  lemma OrShifted(x: nat, k: nat)
    requires x < Pow2(k) && 2 * k <= 32
    ensures Or(Shl(x, k), x) == x + Scale(x, k)
  {
    SumBelow(0, x, k, k);
    BelowWord(Scale(x, k), 2 * k);
    ShlIsScale(x, k);
    OrDisjoint(x, x, k);
    OrCommutes(x, Scale(x, k));
  }

  /** The largest power of two that is at most n. */
  function TopPower(n: nat): (p: nat)
    ensures p >= 1 && (n >= 1 ==> p <= n)
  {
    if n <= 1 then 1 else 2 * TopPower(n / 2)
  }

  lemma {:induction false} TopPowerIs(n: nat)
    requires n >= 1
    ensures TopPower(n) == n <==> IsPowerOf2(n)
  {
    if n > 1 { TopPowerIs(n / 2); }
  }

  lemma DoubleOnce(w: nat, v: nat, k: nat)
    requires v < Pow2(w) && Span(w, k + k) <= 32
    ensures var x := Pack(w, Copies(v, k)); Or(Shl(x, Span(w, k)), x) == Pack(w, Copies(v, k + k))
  {
    var xs := Copies(v, k);
    assert xs + xs == Copies(v, k + k);
    SpanAdd(w, k, k);
    PackConcat(w, xs, xs);
    PackBound(w, xs);
    OrShifted(Pack(w, xs), Span(w, k));
  }

  lemma RoomToDouble(h: nat, width: nat)
    requires width > 1 && Span(h, width) <= 32
    ensures 2 * h <= 32 && Span(2 * h, width / 2) <= 32
  {
    var m := width / 2;
    SpanMono(h, m + m, width);
    SpanAdd(h, m, m);
    SpanTwice(h, m);
    assert Span(2 * h, m) == 2 * h + Span(2 * h, m - 1);
  }

  lemma {:induction false} SpanTwice(h: nat, m: nat)
    ensures Span(2 * h, m) == Span(h, m) + Span(h, m)
  {
    if m != 0 { SpanTwice(h, m - 1); }
  }

  lemma RoomForTwo(w: nat, k: nat, width: nat)
    requires width > 1 && Span(Span(w, k), width) <= 32
    ensures Span(w, k + k) == Span(w, k) + Span(w, k) <= 32 && Span(Span(w, k + k), width / 2) <= 32
  {
    SpanAdd(w, k, k);
    RoomToDouble(Span(w, k), width);
  }

  /** One turn of the loop doubles the number of copies. */
  lemma DoubledStep(w: nat, v: nat, k: nat, width: nat)
    requires v < Pow2(w) && width > 1 && Span(Span(w, k), width) <= 32
    ensures Doubled(Pack(w, Copies(v, k)), Span(w, k), width)
            == Doubled(Pack(w, Copies(v, k + k)), Span(w, k + k), width / 2)
  {
    RoomForTwo(w, k, width);
    DoubleOnce(w, v, k);
  }

  lemma CountStep(k: nat, width: nat)
    requires width > 1
    ensures Span(k + k, TopPower(width / 2)) == Span(k, TopPower(width))
  {
    var p := TopPower(width / 2);
    SpanTwice(k, p);
    SpanAdd(k, p, p);
  }

  lemma {:induction false} DoubledIsCopies(w: nat, v: nat, k: nat, width: nat)
    requires v < Pow2(w) && width >= 1 && k > 0 && Span(Span(w, k), width) <= 32
    ensures Doubled(Pack(w, Copies(v, k)), Span(w, k), width) == Pack(w, Copies(v, Span(k, TopPower(width))))
    decreases width
  {
    if width == 1 {
      assert Span(k, 1) == k + Span(k, 0);
    } else {
      RoomForTwo(w, k, width);
      DoubledIsCopies(w, v, k + k, width / 2);
      DoubledStep(w, v, k, width);
      CountStep(k, width);
    }
  }

  lemma {:induction false} SpanOne(n: nat)
    ensures Span(1, n) == n
  {
    if n != 0 { SpanOne(n - 1); }
  }

  // ---- The widths a port can have ----

  /** `checkTransferWidth`: while the transfer width is the port's own, the value is not looked at. */
  predicate CheckTransferWidth(width: nat, transferWidth: nat, value: nat) {
    transferWidth == width || (transferWidth > width && (value == 8 || value == 32))
  }

  /** `setTransferWidth` */
  function SetTransferWidth(c: Config, value: nat): Config
    requires c.width > 0
  {
    if CheckTransferWidth(c.width, c.transferWidth, value)
    then c.(transferWidth := value, shiftRegEntries := Quot(value, c.width))
    else c
  }

  /** A port just turned on takes every transfer width. */
  lemma EveryWidthIsAccepted(c: Config, value: nat)
    requires c.width > 0 && c.transferWidth == c.width
    ensures SetTransferWidth(c, value).transferWidth == value
    ensures Span(c.width, SetTransferWidth(c, value).shiftRegEntries) <= value
    ensures value < Span(c.width, SetTransferWidth(c, value).shiftRegEntries) + c.width
  {
    QuotWrap(value, c.width);
  }

  /** The transfer widths with which every shift is defined: none is by a negative amount or by a whole word. */
  predicate Shiftable(c: Config) {
    && (c.width == 1 || c.width == 4 || c.width == 8 || c.width == 16)
    && c.width <= c.transferWidth < c.width + 32
    && c.shiftRegEntries == Quot(c.transferWidth, c.width)
  }

  lemma WholeEntries(c: Config)
    requires Shiftable(c)
    ensures 1 <= c.shiftRegEntries
    ensures Span(c.width, c.shiftRegEntries) <= c.transferWidth < Span(c.width, c.shiftRegEntries) + c.width
    ensures Span(c.width, c.shiftRegEntries) <= 32
  {
    QuotWrap(c.transferWidth, c.width);
    SpanIsProduct(c.width, c.shiftRegEntries);
  }

  // ---- The steady register ----

  /** The steady register holds copies of the pins, as many as the largest power of two of entries. */
  lemma SteadyIsCopies(c: Config, v: nat)
    requires Shiftable(c) && v < Pow2(c.width)
    ensures SteadyReg(c, v) == Pack(c.width, Copies(v, TopPower(c.shiftRegEntries)))
    ensures Span(c.width, TopPower(c.shiftRegEntries)) <= 32
    ensures Span(c.width, TopPower(c.shiftRegEntries)) <= c.transferWidth
  {
    var p := TopPower(c.shiftRegEntries);
    WholeEntries(c);
    SpanMono(c.width, p, c.shiftRegEntries);
    DoubledPins(c.width, v, c.shiftRegEntries);
    PackBound(c.width, Copies(v, p));
    Pow2Mono(Span(c.width, p), c.transferWidth);
    MaskSmall(Pack(c.width, Copies(v, p)), c.transferWidth);
  }

  lemma DoubledPins(w: nat, v: nat, m: nat)
    requires v < Pow2(w) && m >= 1 && Span(w, m) <= 32
    ensures Doubled(v, w, m) == Pack(w, Copies(v, TopPower(m)))
  {
    assert Copies(v, 1) == [v];
    PackOne(w, v);
    SpanOne(TopPower(m));
    assert Span(w, 1) == w;
    DoubledIsCopies(w, v, 1, m);
  }

  /** The pins are all low, or the entries fill the transfer register and are a power of two in number. */
  predicate Repeats(c: Config, v: nat) {
    v == 0 || (c.transferWidth == Span(c.width, c.shiftRegEntries) && IsPowerOf2(c.shiftRegEntries))
  }

  lemma {:induction false} ShlIsMask(x: nat, n: nat)
    ensures Shl(x, n) == Scale(x, n) % WORD
  {
    if n != 0 {
      ShlIsMask(x, n - 1);
      DoubleMod(Scale(x, n - 1));
    }
  }

  lemma DoubleMod(y: nat)
    ensures (2 * (y % WORD)) % WORD == (2 * y) % WORD
  {
    var q, r := y / WORD, y % WORD;
    assert 2 * y == 2 * r + WORD * (2 * q);
  }

  lemma {:induction false} ScaleIsProduct(x: nat, n: nat)
    requires Pow2(n) == WORD
    ensures Scale(x, n) == WORD * x
    decreases x
  {
    if x == 0 {
      ScaleZero(n);
    } else {
      ScaleIsProduct(x - 1, n);
      ScaleSum(x - 1, 1, n);
    }
  }

  lemma MaskWord(x: nat, n: nat)
    requires Pow2(n) == WORD
    ensures Mask(x, n) == x % WORD
  {
    SplitBits(x, n);
    ScaleIsProduct(Shr(x, n), n);
  }

  lemma {:induction false} MaskScale(x: nat, a: nat, n: nat)
    requires a <= n
    ensures Mask(Scale(x, a), n) == Scale(Mask(x, n - a), a)
    decreases a
  {
    if a != 0 {
      MaskTwice(Scale(x, a - 1), n);
      MaskScale(x, a - 1, n - 1);
    }
  }

  /** The part of `v << (a + e)` that stays in a word of n bits, above its a low bits. */
  lemma ShlSplits(v: nat, a: nat, e: nat, n: nat)
    requires a <= n && Pow2(n) == WORD
    ensures Shl(v, a + e) == Scale(Mask(Scale(v, e), n - a), a)
  {
    ShlIsMask(v, a + e);
    ScaleAdd(v, e, a);
    MaskWord(Scale(v, a + e), n);
    MaskScale(Scale(v, e), a, n);
  }

  /** A number moved up is another number, even with its high bits cut off. */
  lemma {:induction false} MovedDiffers(v: nat, e: nat, n: nat)
    requires v > 0 && e > 0
    ensures Mask(Scale(v, e), n) != v
    decreases v
  {
    if n != 0 {
      MaskTwice(Scale(v, e - 1), n);
      if v % 2 == 0 {
        HalfScale(v, e);
        MovedDiffers(v / 2, e, n - 1);
      }
      TwiceDiffers(Mask(Scale(v, e - 1), n - 1), v);
    }
  }

  lemma {:induction false} ScaleDouble(h: nat, e: nat)
    ensures Scale(2 * h, e) == 2 * Scale(h, e)
  {
    if e != 0 { ScaleDouble(h, e - 1); }
  }

  lemma HalfScale(v: nat, e: nat)
    requires v % 2 == 0 && e > 0
    ensures Scale(v / 2, e) == Scale(v, e - 1)
  {
    ScaleDouble(v / 2, e - 1);
    assert v == 2 * (v / 2);
  }

  lemma TwiceDiffers(m: nat, v: nat)
    requires v % 2 == 1 || m != v / 2
    ensures 2 * m != v
  {
  }

  lemma MaskTwice(y: nat, n: nat)
    requires n > 0
    ensures Mask(2 * y, n) == 2 * Mask(y, n - 1)
  {
    assert (2 * y) / 2 == y && (2 * y) % 2 == 0;
  }

  lemma MaskSmall(v: nat, n: nat)
    requires v < Pow2(n)
    ensures Mask(v, n) == v
  {
    MaskShr(v, 0, n);
    ScaleZero(n);
  }

  lemma SameScale(x: nat, y: nat, n: nat)
    requires Scale(x, n) == Scale(y, n)
    ensures x == y
  {
    if x < y { ScaleLess(x, y, n); }
    if y < x { ScaleLess(y, x, n); }
  }

  /** Sampling p copies once more: all but the lowest stay in place, and a new one comes in e bits above the top. */
  lemma SampledCopies(w: nat, v: nat, p: nat, e: nat, n: nat)
    requires v < Pow2(w) && p > 0 && Span(w, p) <= n && Pow2(n) == WORD
    ensures var low, reg := Span(w, p - 1), Pack(w, Copies(v, p));
      Or(Shr(reg, w), Shl(v, low + e)) == reg <==> Mask(Scale(v, e), n - low) == v
  {
    var xs, rest, low := Copies(v, p), Copies(v, p - 1), Span(w, p - 1);
    assert xs[1..] == rest && xs == rest + [v];
    PackSplit(w, xs);
    PackBound(w, rest);
    PackAppend(w, rest, v);
    var u := Mask(Scale(v, e), n - low);
    ShlSplits(v, low, e, n);
    OrDisjoint(Pack(w, rest), u, low);
    if Scale(u, low) == Scale(v, low) { SameScale(u, v, low); }
  }

  lemma NewTop(w: nat, v: nat, low: nat, e: nat, n: nat)
    requires v < Pow2(w) && low + w <= n
    ensures Mask(Scale(v, e), n - low) == v <==> v == 0 || e == 0
  {
    if v == 0 {
      ScaleZero(e);
      MaskSmall(0, n - low);
    } else if e == 0 {
      Pow2Mono(w, n - low);
      MaskSmall(v, n - low);
    } else {
      MovedDiffers(v, e, n - low);
    }
  }

  lemma FillsExactly(c: Config)
    requires Shiftable(c)
    ensures c.transferWidth == Span(c.width, TopPower(c.shiftRegEntries))
            <==> c.transferWidth == Span(c.width, c.shiftRegEntries) && IsPowerOf2(c.shiftRegEntries)
  {
    var p := TopPower(c.shiftRegEntries);
    WholeEntries(c);
    TopPowerIs(c.shiftRegEntries);
    SpanMono(c.width, p, c.shiftRegEntries);
    if c.transferWidth == Span(c.width, p) { QuotIs(c.transferWidth, c.width, p); }
  }

  lemma CopiesAreFixed(w: nat, t: nat, v: nat, p: nat, n: nat)
    requires v < Pow2(w) && p > 0 && Span(w, p) <= t && Span(w, p) <= n && Pow2(n) == WORD
    ensures var reg := Pack(w, Copies(v, p)); Or(Shr(reg, w), Shl(v, t - w)) == reg <==> v == 0 || t == Span(w, p)
  {
    var low := Span(w, p - 1);
    SampledCopies(w, v, p, t - w - low, n);
    NewTop(w, v, low, t - w - low, n);
  }

  /** The computed register stays as it is when the pins are sampled again, if and only if the entries fill the
      transfer register and are a power of two in number, or the pins are low. */
  lemma SteadyIsFixedPoint(c: Config, v: nat)
    requires Shiftable(c) && v < Pow2(c.width)
    ensures c.SampledShiftReg(SteadyReg(c, v), v) == SteadyReg(c, v) <==> Repeats(c, v)
  {
    SteadyIsCopies(c, v);
    Pow2Word();
    FixedPointOf(c, v, TopPower(c.shiftRegEntries), 32);
    FillsExactly(c);
  }

  lemma FixedPointOf(c: Config, v: nat, p: nat, word: nat)
    requires v < Pow2(c.width) && p > 0 && Span(c.width, p) <= c.transferWidth && Span(c.width, p) <= word
    requires Pow2(word) == WORD && SteadyReg(c, v) == Pack(c.width, Copies(v, p))
    ensures c.SampledShiftReg(SteadyReg(c, v), v) == SteadyReg(c, v) <==> v == 0 || c.transferWidth == Span(c.width, p)
  {
    assert Span(c.width, p) == c.width + Span(c.width, p - 1);
    CopiesAreFixed(c.width, c.transferWidth, v, p, word);
  }

  // ---- Reaching it ----

  function SampleTimes(c: Config, reg: nat, v: nat, n: nat): nat
    decreases n
  {
    if n == 0 then reg else SampleTimes(c, c.SampledShiftReg(reg, v), v, n - 1)
  }

  lemma {:induction false} SampleTimesLast(c: Config, reg: nat, v: nat, n: nat)
    ensures SampleTimes(c, c.SampledShiftReg(reg, v), v, n) == c.SampledShiftReg(SampleTimes(c, reg, v, n), v)
    decreases n
  {
    if n != 0 { SampleTimesLast(c, c.SampledShiftReg(reg, v), v, n - 1); }
  }

  lemma {:induction false} SampleTimesSlices(c: Config, xs: seq<nat>, v: nat, n: nat)
    requires c.ValidWidths() && |xs| == c.shiftRegEntries && Fits(c.width, xs) && v < Pow2(c.width) && n <= |xs|
    ensures SampleTimes(c, Pack(c.width, xs), v, n) == Pack(c.width, xs[n..] + Copies(v, n))
    decreases n
  {
    if n == 0 {
      assert xs[0..] + Copies(v, 0) == xs;
    } else {
      var ys := xs[1..] + [v];
      SampleSlices(c, xs, v);
      SampleTimesSlices(c, ys, v, n - 1);
      OneMoreCopy(xs, v, n);
    }
  }

  lemma OneMoreCopy(xs: seq<nat>, v: nat, n: nat)
    requires 0 < n <= |xs|
    ensures (xs[1..] + [v])[n - 1..] + Copies(v, n - 1) == xs[n..] + Copies(v, n)
  {
    assert (xs[1..] + [v])[n - 1..] == xs[n..] + [v];
    assert Copies(v, n) == [v] + Copies(v, n - 1);
  }

  /** What n samples leave of a register, and what they bring in whatever the register was. */
  lemma {:induction false} SampleTimesSplits(c: Config, reg: nat, v: nat, n: nat)
    ensures SampleTimes(c, reg, v, n) == Or(Shr(reg, Span(c.width, n)), SampleTimes(c, 0, v, n))
    decreases n
  {
    if n == 0 {
      OrZero(reg);
    } else {
      var top := c.SampledShiftReg(0, v);
      SampledSplits(c, reg, v);
      SampleTimesSplits(c, c.SampledShiftReg(reg, v), v, n - 1);
      SampleTimesSplits(c, top, v, n - 1);
      OldPart(c, reg, top, n, SampleTimes(c, 0, v, n - 1));
    }
  }

  lemma SampledSplits(c: Config, reg: nat, v: nat)
    ensures c.SampledShiftReg(reg, v) == Or(Shr(reg, c.width), c.SampledShiftReg(0, v))
  {
    ShrOfZero(c.width);
  }

  lemma {:induction false} ShrOfZero(n: nat)
    ensures Shr(0, n) == 0
  {
    if n != 0 { ShrOfZero(n - 1); }
  }

  lemma OldPart(c: Config, reg: nat, top: nat, n: nat, rest: nat)
    requires n > 0
    ensures Or(Shr(Or(Shr(reg, c.width), top), Span(c.width, n - 1)), rest)
            == Or(Shr(reg, Span(c.width, n)), Or(Shr(top, Span(c.width, n - 1)), rest))
  {
    ShrOr(Shr(reg, c.width), top, Span(c.width, n - 1));
    ShrAdd(reg, c.width, Span(c.width, n - 1));
    OrAssociates(Shr(reg, Span(c.width, n)), Shr(top, Span(c.width, n - 1)), rest);
  }

  /** Once a word's worth of bits has been sampled, more samples of the same pins change nothing. */
  lemma SamplesSettle(c: Config, reg: nat, v: nat, word: nat, n: nat)
    requires c.width > 0 && Pow2(word) == WORD && reg < WORD && n >= word
    ensures SampleTimes(c, reg, v, n) == SampleTimes(c, reg, v, n + 1)
  {
    var next := c.SampledShiftReg(reg, v);
    SampleTimesSplits(c, reg, v, n);
    SampleTimesSplits(c, next, v, n);
    SampledFits(c, reg, v, word);
    AllGone(c.width, reg, word, n);
    AllGone(c.width, next, word, n);
  }

  lemma AllGone(w: nat, x: nat, word: nat, n: nat)
    requires w > 0 && Pow2(word) == WORD && x < WORD && n >= word
    ensures Shr(x, Span(w, n)) == 0
  {
    SpanGrows(w, n);
    Pow2Mono(word, Span(w, n));
    ShrSmall(x, Span(w, n));
  }

  lemma {:induction false} SpanGrows(w: nat, n: nat)
    requires w > 0
    ensures Span(w, n) >= n
  {
    if n != 0 { SpanGrows(w, n - 1); }
  }

  lemma SampledFits(c: Config, reg: nat, v: nat, word: nat)
    requires Pow2(word) == WORD && reg < WORD
    ensures c.SampledShiftReg(reg, v) < WORD
  {
    var above := if c.transferWidth < c.width then 0 else c.transferWidth - c.width;
    ShrSmaller(reg, c.width);
    ShlIsMask(v, above);
    OrFits(Shr(reg, c.width), Shl(v, above), word);
  }

  lemma {:induction false} ShrSmaller(x: nat, n: nat)
    ensures Shr(x, n) <= x
  {
    if n != 0 { ShrSmaller(x / 2, n - 1); }
  }

  lemma {:induction false} OrFits(a: nat, b: nat, n: nat)
    requires a < Pow2(n) && b < Pow2(n)
    ensures Or(a, b) < Pow2(n)
    decreases n
  {
    if n != 0 { OrFits(a / 2, b / 2, n - 1); }
  }

  /** Low pins sampled often enough empty the register. */
  lemma {:induction false} LowSamples(c: Config, reg: nat, n: nat)
    ensures SampleTimes(c, reg, 0, n) == Shr(reg, Span(c.width, n))
    decreases n
  {
    if n != 0 {
      ShlIsMask(0, if c.transferWidth < c.width then 0 else c.transferWidth - c.width);
      ScaleZero(if c.transferWidth < c.width then 0 else c.transferWidth - c.width);
      OrZero(Shr(reg, c.width));
      LowSamples(c, Shr(reg, c.width), n - 1);
      ShrAdd(reg, c.width, Span(c.width, n - 1));
    }
  }

  lemma {:induction false} ShrAdd(x: nat, m: nat, n: nat)
    ensures Shr(Shr(x, m), n) == Shr(x, m + n)
    decreases m
  {
    if m != 0 { ShrAdd(x / 2, m - 1, n); }
  }

  lemma ShrSmall(x: nat, n: nat)
    requires x < Pow2(n)
    ensures Shr(x, n) == 0
  {
    MaskShr(x, 0, n);
    ScaleZero(n);
  }

  lemma ReachedLow(c: Config, reg: nat)
    requires Shiftable(c) && reg < Pow2(c.transferWidth)
    ensures SampleTimes(c, reg, 0, c.shiftRegEntries + 1) == SteadyReg(c, 0)
  {
    WholeEntries(c);
    LowSamples(c, reg, c.shiftRegEntries + 1);
    Pow2Mono(c.transferWidth, Span(c.width, c.shiftRegEntries + 1));
    ShrSmall(reg, Span(c.width, c.shiftRegEntries + 1));
    SteadyIsCopies(c, 0);
    PackZeros(c.width, TopPower(c.shiftRegEntries));
  }

  lemma {:induction false} PackZeros(w: nat, m: nat)
    ensures Pack(w, Copies(0, m)) == 0
  {
    if m != 0 {
      assert Copies(0, m)[1..] == Copies(0, m - 1);
      PackZeros(w, m - 1);
      ScaleZero(w);
    }
  }

  lemma ReachedWhole(c: Config, reg: nat, v: nat)
    requires Shiftable(c) && c.transferWidth == Span(c.width, c.shiftRegEntries) && IsPowerOf2(c.shiftRegEntries)
    requires reg < Pow2(c.transferWidth) && v < Pow2(c.width)
    ensures SampleTimes(c, reg, v, c.shiftRegEntries + 1) == SteadyReg(c, v)
  {
    var m := c.shiftRegEntries;
    WholeEntries(c);
    var xs := Unpack(c.width, m, reg);
    PackUnpack(c.width, m, reg);
    SampleTimesSlices(c, xs, v, m);
    assert xs[m..] + Copies(v, m) == Copies(v, m);
    TopPowerIs(m);
    SteadyIsCopies(c, v);
    SampleTimesLast(c, reg, v, m);
    SteadyIsFixedPoint(c, v);
  }

  lemma SampledBound(c: Config, v: nat)
    requires Shiftable(c) && v < Pow2(c.width)
    ensures c.SampledShiftReg(0, v) < Pow2(c.transferWidth)
  {
    var above := c.transferWidth - c.width;
    ShrSmall(0, c.width);
    SumBelow(0, v, above, c.width);
    assert Shl(v, above) <= Scale(v, above) by { ShlIsMask(v, above); }
  }

  predicate Reaches(c: Config, reg: nat, v: nat) { SampleTimes(c, reg, v, c.shiftRegEntries + 1) == SteadyReg(c, v) }

  /** Constant pins, sampled once more than there are entries, turn every register content into the computed one,
      under the same condition and no other. */
  lemma SteadyIsReached(c: Config, v: nat)
    requires Shiftable(c) && v < Pow2(c.width)
    ensures (forall reg: nat | reg < Pow2(c.transferWidth) :: Reaches(c, reg, v)) <==> Repeats(c, v)
  {
    var m := c.shiftRegEntries + 1;
    if Repeats(c, v) {
      forall reg: nat | reg < Pow2(c.transferWidth) ensures Reaches(c, reg, v) {
        if v == 0 { ReachedLow(c, reg); } else { ReachedWhole(c, reg, v); }
      }
    } else {
      SampledBound(c, v);
      SampleTimesLast(c, 0, v, m);
      SteadyIsFixedPoint(c, v);
      assert !(Reaches(c, 0, v) && Reaches(c, c.SampledShiftReg(0, v), v));
    }
  }

  // ---- Widths that do not divide ----

  /** The output register after n shifts. */
  function ShiftTimes(c: Config, reg: nat, n: nat): nat
    decreases n
  {
    if n == 0 then reg else c.NextShiftReg(ShiftTimes(c, reg, n - 1))
  }

  /** Bits at n and above do not matter to the bits below. */
  lemma {:induction false} MaskOr(a: nat, b: nat, n: nat, j: nat)
    requires j <= n
    ensures Mask(Or(a, Scale(b, n)), j) == Mask(a, j)
    decreases j
  {
    if j != 0 {
      if a == 0 {
        MaskScale(b, j, n);
        MaskLow(b, n, j);
      } else {
        assert Scale(b, n) / 2 == Scale(b, n - 1) && Scale(b, n) % 2 == 0;
        MaskOr(a / 2, b, n - 1, j - 1);
      }
    }
  }

  lemma EvenScale(b: nat, n: nat)
    requires n > 0
    ensures Scale(b, n) / 2 == Scale(b, n - 1) && Scale(b, n) % 2 == 0
  {
    assert Scale(b, n) == 2 * Scale(b, n - 1);
  }

  lemma {:induction false} MaskLow(b: nat, n: nat, j: nat)
    requires j <= n
    ensures Mask(Scale(b, n), j) == 0 == Mask(0, j)
    decreases j
  {
    if j != 0 {
      EvenScale(b, n);
      MaskLow(b, n - 1, j - 1);
    }
  }

  lemma {:induction false} MaskOfShr(x: nat, w: nat, j: nat)
    ensures Mask(Shr(x, w), j) == Shr(Mask(x, j + w), w)
    decreases w
  {
    if w != 0 {
      assert Mask(x, j + w) / 2 == Mask(x / 2, j + w - 1);
      MaskOfShr(x / 2, w - 1, j);
    }
  }

  lemma {:induction false} MaskMask(x: nat, n: nat, j: nat)
    requires j <= n
    ensures Mask(Mask(x, n), j) == Mask(x, j)
    decreases j
  {
    if j != 0 {
      assert Mask(x, n) / 2 == Mask(x / 2, n - 1) && Mask(x, n) % 2 == x % 2;
      MaskMask(x / 2, n - 1, j - 1);
    }
  }

  lemma ShiftLow(c: Config, reg: nat, j: nat)
    requires c.width <= c.transferWidth && j + c.width <= c.transferWidth
    ensures Mask(c.NextShiftReg(reg), j) == Shr(Mask(reg, j + c.width), c.width)
  {
    var above := c.transferWidth - c.width;
    ShlLow(Shr(reg, c.width), Shr(reg, above), above, j);
    MaskOfShr(reg, c.width, j);
  }

  lemma ShlLow(a: nat, b: nat, n: nat, j: nat)
    requires j <= n
    ensures Mask(Or(a, Shl(b, n)), j) == Mask(a, j)
  {
    Pow2Word();
    ShlLowOf(a, b, n, j, 32);
  }

  lemma ShlLowOf(a: nat, b: nat, n: nat, j: nat, word: nat)
    requires j <= n && Pow2(word) == WORD
    ensures Mask(Or(a, Shl(b, n)), j) == Mask(a, j)
  {
    if n <= word {
      ShlSplits(b, n, 0, word);
      assert Scale(b, 0) == b;
      MaskOr(a, Mask(b, word - n), n, j);
    } else {
      ShlSplits(b, word, n - word, word);
      assert Mask(Scale(b, n - word), 0) == 0;
      ScaleZero(word);
      OrZero(a);
    }
  }

  /** Until the repeated top gets there, shifts show the word as it is. */
  lemma {:induction false} ShownBits(c: Config, x: nat, k: nat)
    requires c.width <= c.transferWidth && Span(c.width, k) <= c.transferWidth
    ensures Mask(ShiftTimes(c, x, k), c.transferWidth - Span(c.width, k))
            == Mask(Shr(x, Span(c.width, k)), c.transferWidth - Span(c.width, k))
    decreases k
  {
    if k != 0 {
      var j := c.transferWidth - Span(c.width, k);
      ShownBits(c, x, k - 1);
      ShiftLow(c, ShiftTimes(c, x, k - 1), j);
      MaskOfShr(Shr(x, Span(c.width, k - 1)), c.width, j);
      ShrAdd(x, Span(c.width, k - 1), c.width);
    }
  }

  lemma {:induction false} ShrPow2(n: nat, k: nat)
    requires k <= n
    ensures Shr(Pow2(n), k) == Pow2(n - k)
    decreases k
  {
    if k != 0 {
      assert Pow2(n) / 2 == Pow2(n - 1);
      ShrPow2(n - 1, k - 1);
    }
  }

  lemma ShownSliceOf(c: Config, x: nat, k: nat)
    requires c.width <= c.transferWidth && Span(c.width, k + 1) <= c.transferWidth
    ensures Mask(ShiftTimes(c, x, k), c.width) == Mask(Shr(x, Span(c.width, k)), c.width)
  {
    var rest := c.transferWidth - Span(c.width, k);
    ShownBits(c, x, k);
    MaskMask(ShiftTimes(c, x, k), rest, c.width);
    MaskMask(Shr(x, Span(c.width, k)), rest, c.width);
  }

  /** If the entries do not fill the transfer register, the top bit of a word is never shown. */
  lemma TopBitIsNotShown(c: Config, k: nat)
    requires 0 < c.width <= c.transferWidth && k < c.shiftRegEntries
    requires Span(c.width, c.shiftRegEntries) < c.transferWidth
    ensures Mask(ShiftTimes(c, Pow2(c.transferWidth - 1), k), c.width) == 0 == Mask(ShiftTimes(c, 0, k), c.width)
  {
    var at := Span(c.width, k);
    SpanMono(c.width, k + 1, c.shiftRegEntries);
    ShownSliceOf(c, Pow2(c.transferWidth - 1), k);
    ShownSliceOf(c, 0, k);
    ShrPow2(c.transferWidth - 1, at);
    MaskLow(1, c.transferWidth - 1 - at, c.width);
    Pow2Mono(0, at);
    ShrSmall(0, at);
  }
}
