/** Machine words and the bits in them. */
module WordBits {
  type BitString = seq<bool>

  function Mask(i: nat): bv32 { if i == 0 then 1 else Mask(i - 1) << 1 }

  predicate OneHot(m: bv32) { m != 0 && m & (m - 1) == 0 }

  /** Bit i of a word. */
  predicate Bit(x: bv32, i: nat) { x & Mask(i) != 0 }

  /** The bits of a word, least significant first. */
  function FromWord(x: bv32): (b: BitString)
    ensures |b| == 32
  {
    seq(32, i requires 0 <= i < 32 => Bit(x, i))
  }

  lemma TopMask()
    ensures Mask(31) == 0x8000_0000
  {
    assert Mask(2) == 0x4;
    assert Mask(4) == 0x10;
    assert Mask(6) == 0x40;
    assert Mask(8) == 0x100;
    assert Mask(10) == 0x400;
    assert Mask(12) == 0x1000;
    assert Mask(14) == 0x4000;
    assert Mask(16) == 0x10000;
    assert Mask(18) == 0x40000;
    assert Mask(20) == 0x100000;
    assert Mask(22) == 0x400000;
    assert Mask(24) == 0x1000000;
    assert Mask(26) == 0x4000000;
    assert Mask(28) == 0x10000000;
    assert Mask(30) == 0x40000000;
  }

  lemma MaskDouble(m: bv32)
    requires OneHot(m) && m != 0x8000_0000
    ensures OneHot(m << 1)
  {
  }

  lemma ShiftedOut(m: bv32)
    requires m << 1 != 0
    ensures m != 0 && m != 0x8000_0000
  {
  }

  lemma {:induction false} MaskInside(i: nat)
    requires i < 32
    ensures Mask(i) != 0 && (i < 31 ==> Mask(i) != 0x8000_0000)
    decreases 32 - i
  {
    if i < 31 {
      MaskInside(i + 1);
      ShiftedOut(Mask(i));
    } else {
      TopMask();
    }
  }

  lemma {:induction false} MaskOneHot(i: nat)
    requires i < 32
    ensures OneHot(Mask(i))
  {
    if i != 0 {
      MaskOneHot(i - 1);
      MaskInside(i - 1);
      MaskDouble(Mask(i - 1));
    }
  }

  lemma ShiftMask(x: bv32, d: bv32, m: bv32)
    requires OneHot(m) && m != 0x8000_0000
    ensures (((x >> 1) | ((d & 1) << 31)) & m != 0) == (x & (m << 1) != 0)
  {
  }

  lemma ShiftTop(x: bv32, d: bv32)
    ensures (((x >> 1) | ((d & 1) << 31)) & 0x8000_0000 != 0) == (d & 1 != 0)
  {
  }

  lemma NotMask(x: bv32, m: bv32)
    requires OneHot(m)
    ensures (!x & m != 0) == !(x & m != 0)
  {
  }

  /** Bits of a word shifted down with a new bit at the top, and of a word inverted. */
  lemma BitShift(x: bv32, d: bv32, i: nat)
    requires i < 32
    ensures Bit((x >> 1) | ((d & 1) << 31), i) == if i == 31 then Bit(d, 0) else Bit(x, i + 1)
  {
    MaskOneHot(i);
    MaskInside(i);
    if i == 31 { TopMask(); ShiftTop(x, d); } else { ShiftMask(x, d, Mask(i)); }
  }

  lemma BitNot(x: bv32, i: nat)
    requires i < 32
    ensures Bit(!x, i) == !Bit(x, i)
  {
    MaskOneHot(i);
    NotMask(x, Mask(i));
  }

  // ---- Bytes ----

  function FromByte(b: bv8): (r: BitString)
    ensures |r| == 8
  {
    FromWord(b as bv32)[..8]
  }

  lemma LowMasks()
    ensures Mask(0) == 1 && Mask(1) == 2 && Mask(2) == 4 && Mask(3) == 8
    ensures Mask(4) == 16 && Mask(5) == 32 && Mask(6) == 64 && Mask(7) == 128 && Mask(8) == 256
  {
    assert Mask(2) == 4 && Mask(4) == 16 && Mask(6) == 64;
  }

  lemma MaskLow(i: nat)
    requires i < 8
    ensures Mask(i) & 0xff == Mask(i)
  {
    LowMasks();
  }

  lemma ByteMask(w: bv32, m: bv32)
    requires m & 0xff == m
    ensures (((w & 0xff) as bv8) as bv32) & m == w & m
  {
  }

  /** A word shifted down by n bits, one at a time. */
  function Down(w: bv32, n: nat): bv32
    decreases n
  {
    if n == 0 then w else Down(w >> 1, n - 1)
  }

  lemma Down8(w: bv32)
    ensures Down(w, 8) == w >> 8
  {
    assert Down(w, 8) == Down(w >> 1 >> 1 >> 1 >> 1, 4);
    assert Down(w >> 1 >> 1 >> 1 >> 1, 4) == w >> 1 >> 1 >> 1 >> 1 >> 1 >> 1 >> 1 >> 1;
  }

  lemma NoBitIn(w: bv32)
    ensures (w >> 1) | ((0 & 1) << 31) == w >> 1
  {
  }

  lemma {:induction false} BitDown(w: bv32, n: nat, i: nat)
    requires i + n < 32
    ensures Bit(Down(w, n), i) == Bit(w, i + n)
    decreases n
  {
    if n != 0 {
      BitDown(w >> 1, n - 1, i);
      BitShift(w, 0, i + n - 1);
      NoBitIn(w);
    }
  }

  /** The low byte of a word. */
  function Low(w: bv32): bv8 { (w & 0xff) as bv8 }

  lemma LowBits(w: bv32, i: nat)
    requires i < 8
    ensures FromByte(Low(w))[i] == Bit(w, i)
  {
    MaskLow(i);
    ByteMask(w, Mask(i));
  }

  /** The bytes of a word, least significant first. */
  function Octets(w: bv32): (s: seq<bv8>)
    ensures |s| == 4
  {
    [Low(w), Low(w >> 8), Low(w >> 16), Low(w >> 24)]
  }

  lemma Shifts(w: bv32)
    ensures w >> 16 == w >> 8 >> 8 && w >> 24 == w >> 8 >> 8 >> 8
  {
  }

  lemma OctetBits(w: bv32, k: nat, i: nat)
    requires k < 4 && i < 8
    ensures FromByte(Octets(w)[k])[i] == Bit(w, 8 * k + i)
  {
    Shifts(w);
    Down8(w);
    Down8(w >> 8);
    Down8(w >> 8 >> 8);
    match k
    case 0 => LowBits(w, i);
    case 1 => LowBits(w >> 8, i); BitDown(w, 8, i);
    case 2 => LowBits(w >> 8 >> 8, i); BitDown(w >> 8, 8, i); BitDown(w, 8, i + 8);
    case 3 => LowBits(w >> 8 >> 8 >> 8, i); BitDown(w >> 8 >> 8, 8, i); BitDown(w >> 8, 8, i + 8);
              BitDown(w, 8, i + 16);
  }

  lemma WordIsOctets(w: bv32)
    ensures var o := Octets(w); FromWord(w) == FromByte(o[0]) + FromByte(o[1]) + FromByte(o[2]) + FromByte(o[3])
  {
    var o := Octets(w);
    var b := FromByte(o[0]) + FromByte(o[1]) + FromByte(o[2]) + FromByte(o[3]);
    forall i: nat | i < 32 ensures FromWord(w)[i] == b[i] {
      if i < 8 { OctetBits(w, 0, i); }
      else if i < 16 { OctetBits(w, 1, i - 8); }
      else if i < 24 { OctetBits(w, 2, i - 16); }
      else { OctetBits(w, 3, i - 24); }
    }
  }

  predicate SameAt(x: bv8, y: bv8, m: bv32) { ((x as bv32) & m != 0) == ((y as bv32) & m != 0) }

  lemma SameByte(x: bv8, y: bv8)
    requires SameAt(x, y, 1) && SameAt(x, y, 2) && SameAt(x, y, 4) && SameAt(x, y, 8)
    requires SameAt(x, y, 16) && SameAt(x, y, 32) && SameAt(x, y, 64) && SameAt(x, y, 128)
    ensures x == y
  {
  }

  lemma FromByteInjective(x: bv8, y: bv8)
    requires FromByte(x) == FromByte(y)
    ensures x == y
  {
    LowMasks();
    forall i: nat | i < 8 ensures SameAt(x, y, Mask(i)) { assert FromByte(x)[i] == FromByte(y)[i]; }
    assert SameAt(x, y, Mask(0)) && SameAt(x, y, Mask(1)) && SameAt(x, y, Mask(2)) && SameAt(x, y, Mask(3));
    assert SameAt(x, y, Mask(4)) && SameAt(x, y, Mask(5)) && SameAt(x, y, Mask(6)) && SameAt(x, y, Mask(7));
    SameByte(x, y);
  }

  lemma NotByte(x: bv8, m: bv32)
    requires OneHot(m) && m & 0xff == m
    ensures ((!x as bv32) & m != 0) == !((x as bv32) & m != 0)
  {
  }

  lemma FromNotByte(x: bv8, i: nat)
    requires i < 8
    ensures FromByte(!x)[i] == !FromByte(x)[i]
  {
    MaskLow(i);
    MaskOneHot(i);
    NotByte(x, Mask(i));
    assert FromByte(!x)[i] == ((!x as bv32) & Mask(i) != 0);
  }
}
