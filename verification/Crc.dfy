/** The bit-serial checksum (lib/CRC.h) over registers of bits, least significant first, and its algebra: every step
    is linear and can be undone. */
module Crc {
  import opened Arith
  import opened WordBits

  predicate Reg(c: BitString) { |c| == 32 }

  const POLY: bv32 := 0xEDB88320

  /** 0xEDB88320 */
  function Poly(): (p: BitString)
    ensures Reg(p)
  {
    FromWord(POLY)
  }

  /** One turn of the loop: the register moves down, the data bit comes in at the top, and the polynomial is added
      if a one fell out. */
  function Step(c: BitString, data: bool): (r: BitString)
    requires Reg(c)
    ensures Reg(r)
  {
    seq(32, i requires 0 <= i < 32 => (if i == 31 then data else c[i + 1]) != (c[0] && Poly()[i]))
  }

  /** The checksum after some data bits. */
  function Feed(c: BitString, data: BitString): (r: BitString)
    requires Reg(c)
    ensures Reg(r)
    decreases |data|
  {
    if data == [] then c else Feed(Step(c, data[0]), data[1..])
  }

  function Xor(a: BitString, b: BitString): (r: BitString)
    requires |a| == |b|
    ensures |r| == |a|
  {
    seq(|a|, i requires 0 <= i < |a| => a[i] != b[i])
  }

  function Zeros(n: nat): BitString { seq(n, _ => false) }
  function Not(a: BitString): BitString { seq(|a|, i requires 0 <= i < |a| => !a[i]) }

  lemma StepLinear(a: BitString, b: BitString, p: bool, q: bool)
    requires Reg(a) && Reg(b)
    ensures Step(Xor(a, b), p != q) == Xor(Step(a, p), Step(b, q))
  {
  }

  lemma {:induction false} FeedLinear(a: BitString, b: BitString, u: BitString, v: BitString)
    requires Reg(a) && Reg(b) && |u| == |v|
    ensures Feed(Xor(a, b), Xor(u, v)) == Xor(Feed(a, u), Feed(b, v))
    decreases |u|
  {
    if u != [] {
      StepLinear(a, b, u[0], v[0]);
      assert Xor(u, v)[1..] == Xor(u[1..], v[1..]);
      FeedLinear(Step(a, u[0]), Step(b, v[0]), u[1..], v[1..]);
    }
  }

  lemma {:induction false} FeedAdd(c: BitString, u: BitString, v: BitString)
    requires Reg(c)
    ensures Feed(c, u + v) == Feed(Feed(c, u), v)
    decreases |u|
  {
    if u == [] {
      assert u + v == v;
    } else {
      assert (u + v)[1..] == u[1..] + v;
      FeedAdd(Step(c, u[0]), u[1..], v);
    }
  }

  /** A step loses nothing: the bit that fell out can be read off the top. */
  lemma StepInjective(a: BitString, b: BitString, p: bool)
    requires Reg(a) && Reg(b) && Step(a, p) == Step(b, p)
    ensures a == b
  {
    TopMask();
    assert Poly()[31];
    assert Step(a, p)[31] == (p != a[0]) && Step(b, p)[31] == (p != b[0]);
    forall i | 0 < i < 32 ensures a[i] == b[i] {
      assert Step(a, p)[i - 1] == Step(b, p)[i - 1];
    }
  }

  lemma {:induction false} FeedInjective(a: BitString, b: BitString, data: BitString)
    requires Reg(a) && Reg(b) && Feed(a, data) == Feed(b, data)
    ensures a == b
    decreases |data|
  {
    if data != [] {
      FeedInjective(Step(a, data[0]), Step(b, data[0]), data[1..]);
      StepInjective(a, b, data[0]);
    }
  }

  /** The register after k bits fed into an empty one: just those bits, at the top. */
  function Loaded(data: BitString): (r: BitString)
    requires |data| <= 32
    ensures Reg(r)
  {
    seq(32, i requires 0 <= i < 32 => i >= 32 - |data| && data[i - (32 - |data|)])
  }

  lemma {:induction false} FeedEmpty(data: BitString)
    requires |data| <= 32
    ensures Feed(Zeros(32), data) == Loaded(data)
    decreases |data|
  {
    if data == [] {
    } else {
      var init, last := data[..|data| - 1], data[|data| - 1];
      FeedEmpty(init);
      assert data == init + [last];
      FeedAdd(Zeros(32), init, [last]);
      assert Feed(Loaded(init), [last]) == Step(Loaded(init), last) by { assert [last][1..] == []; }
    }
  }

  /** A word fed into an empty register is the register; hence, fed into any other, it is added to what zeros give. */
  lemma FeedWord(c: BitString, w: BitString)
    requires Reg(c) && Reg(w)
    ensures Feed(Zeros(32), w) == w
    ensures Feed(c, w) == Xor(Feed(c, Zeros(32)), w)
  {
    FeedEmpty(w);
    assert Loaded(w) == w;
    assert Xor(c, Zeros(32)) == c && Xor(Zeros(32), w) == w;
    FeedLinear(c, Zeros(32), Zeros(32), w);
  }

  // ---- The loop on machine words ----

  /** The source's turn of the loop. */
  function Turn(c: bv32, data: bv32): bv32 {
    var shifted := (c >> 1) | ((data & 1) << 31);
    if c & 1 != 0 then shifted ^ POLY else shifted
  }

  lemma AddedMask(c: bv32, d: bv32, m: bv32)
    requires OneHot(m) && m != 0x8000_0000
    ensures ((((c >> 1) | ((d & 1) << 31)) ^ POLY) & m != 0) == ((c & (m << 1) != 0) != (POLY & m != 0))
  {
  }

  lemma AddedTop(c: bv32, d: bv32)
    ensures ((((c >> 1) | ((d & 1) << 31)) ^ POLY) & 0x8000_0000 != 0) == ((d & 1 != 0) != (POLY & 0x8000_0000 != 0))
  {
  }

  lemma AddedBit(c: bv32, d: bv32, i: nat)
    requires i < 32
    ensures Bit(((c >> 1) | ((d & 1) << 31)) ^ POLY, i)
      == ((if i == 31 then Bit(d, 0) else Bit(c, i + 1)) != Bit(POLY, i))
  {
    MaskOneHot(i);
    MaskInside(i);
    if i == 31 { TopMask(); AddedTop(c, d); } else { AddedMask(c, d, Mask(i)); }
  }

  lemma TurnBit(c: bv32, data: bv32, i: nat)
    requires i < 32
    ensures Bit(Turn(c, data), i) == ((if i == 31 then Bit(data, 0) else Bit(c, i + 1)) != (Bit(c, 0) && Bit(POLY, i)))
  {
    if c & 1 != 0 { AddedBit(c, data, i); } else { BitShift(c, data, i); }
  }

  lemma StepBit(c: bv32, data: bool, i: nat)
    requires i < 32
    ensures Step(FromWord(c), data)[i] == ((if i == 31 then data else Bit(c, i + 1)) != (Bit(c, 0) && Bit(POLY, i)))
  {
    assert FromWord(c)[0] == Bit(c, 0) && Poly()[i] == Bit(POLY, i) && (i < 31 ==> FromWord(c)[i + 1] == Bit(c, i + 1));
  }

  lemma TurnIsStep(c: bv32, data: bv32)
    ensures FromWord(Turn(c, data)) == Step(FromWord(c), Bit(data, 0))
  {
    forall i: nat | i < 32 ensures FromWord(Turn(c, data))[i] == Step(FromWord(c), Bit(data, 0))[i] {
      TurnBit(c, data, i);
      StepBit(c, Bit(data, 0), i);
    }
  }

  lemma FeedOne(c: BitString, u: BitString, b: bool)
    requires Reg(c)
    ensures Feed(c, u + [b]) == Step(Feed(c, u), b)
  {
    FeedAdd(c, u, [b]);
    assert [b][1..] == [];
  }

  lemma {:induction false} DownOne(w: bv32, n: nat)
    ensures Down(w, n + 1) == Down(w, n) >> 1
    decreases n
  {
    if n != 0 { DownOne(w >> 1, n - 1); }
  }

  lemma NextBit(c: bv32, r: bv32, data: bv32, i: nat)
    requires i < 32 && FromWord(r) == Feed(FromWord(c), FromWord(data)[..i])
    ensures FromWord(Turn(r, Down(data, i))) == Feed(FromWord(c), FromWord(data)[..i + 1])
  {
    var bits := FromWord(data);
    TurnIsStep(r, Down(data, i));
    BitDown(data, i, 0);
    FeedOne(FromWord(c), bits[..i], bits[i]);
    assert bits[..i + 1] == bits[..i] + [bits[i]];
  }

  method OneTurn(checksum: bv32, data: bv32) returns (r: bv32)
    ensures r == Turn(checksum, data)
  {
    var xorBit := checksum & 1;
    r := (checksum >> 1) | ((data & 1) << 31);
    if xorBit != 0 { r := r ^ POLY; }
  }

  /** `crc<T>`, for data of n bits. */
  method Crc(checksum: bv32, data: bv32, n: nat) returns (r: bv32)
    requires n <= 32
    ensures FromWord(r) == Feed(FromWord(checksum), FromWord(data)[..n])
  {
    r := checksum;
    var rest := data;
    for i := 0 to n
      invariant rest == Down(data, i) && FromWord(r) == Feed(FromWord(checksum), FromWord(data)[..i])
    {
      NextBit(checksum, r, data, i);
      DownOne(data, i);
      r := OneTurn(r, rest);
      rest := rest >> 1;
    }
  }

  // ---- The initial value ----

  const INITIAL: bv32 := 0x9226F562

  /** The checksum after n zero bits. */
  function Idle(c: bv32, n: nat): bv32
    decreases n
  {
    if n == 0 then c else Idle(Turn(c, 0), n - 1)
  }

  lemma {:induction false} IdleFeeds(c: bv32, n: nat)
    ensures FromWord(Idle(c, n)) == Feed(FromWord(c), Zeros(n))
    decreases n
  {
    if n != 0 {
      TurnIsStep(c, 0);
      assert !Bit(0, 0);
      assert Zeros(n)[1..] == Zeros(n - 1);
      IdleFeeds(Turn(c, 0), n - 1);
    }
  }

  lemma {:induction false} IdleAdd(c: bv32, m: nat, n: nat)
    ensures Idle(c, m + n) == Idle(Idle(c, m), n)
    decreases m
  {
    if m != 0 { IdleAdd(Turn(c, 0), m - 1, n); }
  }

  /** Four turns, two at a time. */
  lemma FourTurns(c: bv32, x: bv32, d: bv32, n: nat)
    requires n == 4 && Turn(Turn(c, 0), 0) == x && Turn(Turn(x, 0), 0) == d
    ensures Idle(c, n) == d
  {
    var y := Turn(c, 0);
    var z := Turn(x, 0);
    assert Idle(c, n) == Idle(y, n - 1) == Idle(x, n - 2) == Idle(z, n - 3) == Idle(d, n - 4);
  }

  lemma IdleJoin(c: bv32, m: nat, d: bv32, n: nat, e: bv32)
    requires Idle(c, m) == d && Idle(d, n) == e
    ensures Idle(c, m + n) == e
  {
    IdleAdd(c, m, n);
  }

  /** The initial value after every fourth turn. */
  function InitialAfter(k: nat): bv32
    requires k <= 8
  {
    if k == 0 then 0x9226F562
    else if k == 1 then 0x324C4F9E
    else if k == 2 then 0xA32E2681
    else if k == 3 then 0x1785F20C
    else if k == 4 then 0x9A1C9D90
    else if k == 5 then 0x09A1C9D9
    else if k == 6 then 0xF0958FD9
    else if k == 7 then 0xFF06CBB9
    else 0xFFFFFFFF
  }

  lemma FourMore(k: nat, n: nat)
    requires k < 8 && n == 4
    ensures Idle(InitialAfter(k), n) == InitialAfter(k + 1)
  {
    if k == 0 { FourTurns(0x9226F562, 0xC9313E78, 0x324C4F9E, n); }
    else if k == 1 { FourTurns(0x324C4F9E, 0xE12B90C7, 0xA32E2681, n); }
    else if k == 2 { FourTurns(0xA32E2681, 0x5E17C830, 0x1785F20C, n); }
    else if k == 3 { FourTurns(0x1785F20C, 0x05E17C83, 0x9A1C9D90, n); }
    else if k == 4 { FourTurns(0x9A1C9D90, 0x26872764, 0x09A1C9D9, n); }
    else if k == 5 { FourTurns(0x09A1C9D9, 0x74B433E6, 0xF0958FD9, n); }
    else if k == 6 { FourTurns(0xF0958FD9, 0x4AF92266, 0xFF06CBB9, n); }
    else { FourTurns(0xFF06CBB9, 0x491DF37E, 0xFFFFFFFF, n); }
  }

  lemma {:induction false} InitialRunsTo(k: nat, n: nat)
    requires k <= 8 && n == 4
    ensures Idle(INITIAL, Span(n, k)) == InitialAfter(k)
  {
    if k != 0 {
      InitialRunsTo(k - 1, n);
      FourMore(k - 1, n);
      IdleJoin(INITIAL, Span(n, k - 1), InitialAfter(k - 1), n, InitialAfter(k));
      SpanAdd(n, k - 1, 1);
    }
  }

  /** 32 zero bits take the initial value to all ones. */
  lemma InitialRuns()
    ensures Idle(INITIAL, 32) == 0xffff_ffff
  {
    InitialRunsTo(8, 4);
    SpanIsProduct(4, 8);
  }
}
