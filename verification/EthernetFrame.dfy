/** Ethernet frames and their check sequence (lib/EthernetPhy.cpp): what the receiving side of the simulated PHY
    builds, the transmitting side accepts. */
module EthernetFrame {
  import opened WordBits
  import opened Crc

  const MIN_FRAME: nat := 64
  const MAX_FRAME: nat := 1518

  /** The bits of a frame in the order they are sent. */
  function FromBytes(f: seq<bv8>): (b: BitString)
    ensures |b| == 8 * |f|
  {
    if f == [] then [] else FromByte(f[0]) + FromBytes(f[1..])
  }

  lemma {:induction false} FromBytesAdd(f: seq<bv8>, g: seq<bv8>)
    ensures FromBytes(f + g) == FromBytes(f) + FromBytes(g)
  {
    if f == [] {
      assert f + g == g;
    } else {
      assert (f + g)[1..] == f[1..] + g;
      FromBytesAdd(f[1..], g);
      assert FromByte(f[0]) + (FromBytes(f[1..]) + FromBytes(g)) == FromBytes(f) + FromBytes(g);
    }
  }

  lemma {:induction false} FromBytesInjective(f: seq<bv8>, g: seq<bv8>)
    requires |f| == |g| && FromBytes(f) == FromBytes(g)
    ensures f == g
  {
    if f != [] {
      assert FromByte(f[0]) == FromBytes(f)[..8] && FromByte(g[0]) == FromBytes(g)[..8];
      assert FromBytes(f[1..]) == FromBytes(f)[8..] && FromBytes(g[1..]) == FromBytes(g)[8..];
      FromByteInjective(f[0], g[0]);
      FromBytesInjective(f[1..], g[1..]);
    }
  }

  lemma FromOctets(w: bv32)
    ensures FromBytes(Octets(w)) == FromWord(w)
  {
    var o := Octets(w);
    WordIsOctets(w);
    assert o[1..][1..][1..][1..] == [];
    assert FromBytes(o[1..][1..][1..]) == FromByte(o[3]);
    assert FromBytes(o[1..][1..]) == FromByte(o[2]) + FromByte(o[3]);
    assert FromBytes(o[1..]) == FromByte(o[1]) + (FromByte(o[2]) + FromByte(o[3]));
  }

  lemma OctetsInjective(x: bv32, y: bv32)
    requires Low(x) == Low(y) && Low(x >> 8) == Low(y >> 8)
      && Low(x >> 16) == Low(y >> 16) && Low(x >> 24) == Low(y >> 24)
    ensures x == y
  {
  }

  lemma SameWord(x: bv32, y: bv32)
    requires FromWord(x) == FromWord(y)
    ensures x == y
  {
    FromOctets(x);
    FromOctets(y);
    FromBytesInjective(Octets(x), Octets(y));
    var o, p := Octets(x), Octets(y);
    assert o[0] == p[0] && o[1] == p[1] && o[2] == p[2] && o[3] == p[3];
    OctetsInjective(x, y);
  }

  /** The checksum of a frame. */
  function Checksum(f: seq<bv8>): (r: BitString)
    ensures Reg(r)
  {
    Feed(FromWord(INITIAL), FromBytes(f))
  }

  lemma ChecksumAdd(f: seq<bv8>, g: seq<bv8>)
    ensures Checksum(f + g) == Feed(Checksum(f), FromBytes(g))
  {
    FromBytesAdd(f, g);
    FeedAdd(FromWord(INITIAL), FromBytes(f), FromBytes(g));
  }

  lemma NextByte(f: seq<bv8>, i: nat)
    requires i < |f|
    ensures Checksum(f[..i + 1]) == Feed(Checksum(f[..i]), FromByte(f[i]))
  {
    assert f[..i + 1] == f[..i] + [f[i]];
    ChecksumAdd(f[..i], [f[i]]);
    assert [f[i]][1..] == [] && FromBytes([f[i]]) == FromByte(f[i]);
  }

  /** Does the transmitter pass the frame on? */
  predicate Accepts(f: seq<bv8>) { |f| >= MIN_FRAME && Checksum(f) == FromWord(0xffff_ffff) }

  /** `transmitFrame`: the frame without its check sequence, if it is passed on. */
  method TransmitFrame(frame: seq<bv8>) returns (sent: bool, data: seq<bv8>)
    ensures sent == Accepts(frame) && (sent ==> data == frame[..|frame| - 4])
  {
    if |frame| < MIN_FRAME { return false, []; }
    var crc := INITIAL;
    assert frame[..0] == [] && frame[..|frame|] == frame;
    for i := 0 to |frame|
      invariant FromWord(crc) == Checksum(frame[..i])
    {
      crc := Crc.Crc(crc, frame[i] as bv32, 8);
      NextByte(frame, i);
    }
    if FromWord(crc) == FromWord(0xffff_ffff) { SameWord(crc, 0xffff_ffff); }
    crc := !crc;
    if crc != 0 { return false, []; }
    return true, frame[..|frame| - 4];
  }

  /** The check sequence of a frame body: the complement of the checksum after 32 more zero bits. */
  function CheckSequence(body: seq<bv8>): (r: BitString)
    ensures Reg(r)
  {
    Not(Feed(Checksum(body), Zeros(32)))
  }

  lemma XorOnes(x: BitString, v: BitString)
    requires Reg(x) && Reg(v)
    ensures Xor(x, v) == FromWord(0xffff_ffff) <==> v == Not(x)
  {
    AllOnes();
    var ones := FromWord(0xffff_ffff);
    if Xor(x, v) == ones {
      forall i | 0 <= i < 32 ensures v[i] == Not(x)[i] { assert Xor(x, v)[i] == ones[i]; }
    }
    if v == Not(x) {
      forall i | 0 <= i < 32 ensures Xor(x, v)[i] == ones[i] { assert v[i] == Not(x)[i]; }
    }
  }

  /** Exactly one check sequence is accepted for each body. */
  lemma CheckSequenceIsUnique(body: seq<bv8>, fcs: seq<bv8>)
    requires |fcs| == 4
    ensures Accepts(body + fcs) <==> |body| + 4 >= MIN_FRAME && FromBytes(fcs) == CheckSequence(body)
  {
    ChecksumAdd(body, fcs);
    FeedWord(Checksum(body), FromBytes(fcs));
    XorOnes(Feed(Checksum(body), Zeros(32)), FromBytes(fcs));
  }

  lemma AllOnes()
    ensures forall i | 0 <= i < 32 :: FromWord(0xffff_ffff)[i]
  {
    forall i: nat | i < 32 ensures Bit(0xffff_ffff, i) {
      MaskInside(i);
      AndOnes(Mask(i));
    }
  }

  lemma AndOnes(m: bv32)
    ensures 0xffff_ffff & m == m
  {
  }

  /** A frame damaged within four consecutive bytes is never accepted. */
  lemma BurstIsRejected(a: seq<bv8>, x: seq<bv8>, y: seq<bv8>, b: seq<bv8>)
    requires |x| == 4 && |y| == 4 && x != y && Accepts(a + x + b)
    ensures !Accepts(a + y + b)
  {
    ChecksumAdd(a, x);
    ChecksumAdd(a, y);
    ChecksumAdd(a + x, b);
    ChecksumAdd(a + y, b);
    if Checksum(a + x + b) == Checksum(a + y + b) {
      FeedInjective(Checksum(a + x), Checksum(a + y), FromBytes(b));
      FeedWord(Checksum(a), FromBytes(x));
      FeedWord(Checksum(a), FromBytes(y));
      XorCancels(Feed(Checksum(a), Zeros(32)), FromBytes(x), FromBytes(y));
      FromBytesInjective(x, y);
    }
  }

  lemma XorCancels(c: BitString, x: BitString, y: BitString)
    requires |c| == |x| == |y| && Xor(c, x) == Xor(c, y)
    ensures x == y
  {
    forall i | 0 <= i < |x| ensures x[i] == y[i] { assert Xor(c, x)[i] == Xor(c, y)[i]; }
  }

  lemma InitialWord(w: BitString)
    requires Reg(w)
    ensures Feed(FromWord(INITIAL), w) == Not(w) == Feed(Zeros(32), Not(w))
  {
    InitialRuns();
    IdleFeeds(INITIAL, 32);
    FeedWord(FromWord(INITIAL), w);
    FeedWord(Zeros(32), Not(w));
    OnesXor(w);
  }

  lemma OnesXor(w: BitString)
    requires Reg(w)
    ensures Xor(FromWord(0xffff_ffff), w) == Not(w)
  {
    AllOnes();
    var ones := FromWord(0xffff_ffff);
    forall i | 0 <= i < 32 ensures Xor(ones, w)[i] == Not(w)[i] { assert ones[i]; }
  }

  lemma NotAdd(a: BitString, b: BitString)
    ensures Not(a + b) == Not(a) + Not(b)
  {
  }

  function Inverted(f: seq<bv8>): (g: seq<bv8>)
    ensures |g| == |f|
  {
    if f == [] then [] else [!f[0]] + Inverted(f[1..])
  }

  lemma InvertedByte(b: bv8)
    ensures FromByte(!b) == Not(FromByte(b))
  {
    forall i: nat | i < 8 ensures FromByte(!b)[i] == Not(FromByte(b))[i] { FromNotByte(b, i); }
  }

  lemma {:induction false} InvertedBits(f: seq<bv8>)
    ensures FromBytes(Inverted(f)) == Not(FromBytes(f))
  {
    if f != [] {
      InvertedByte(f[0]);
      InvertedBits(f[1..]);
      assert Inverted(f)[1..] == Inverted(f[1..]);
      NotAdd(FromByte(f[0]), FromBytes(f[1..]));
    }
  }

  /** Starting at the initial value is starting at zero with the first four bytes inverted. */
  lemma InitialInverts(head: seq<bv8>, rest: seq<bv8>)
    requires |head| == 4
    ensures Checksum(head + rest) == Feed(Zeros(32), FromBytes(Inverted(head) + rest))
  {
    var w := FromBytes(head);
    ChecksumAdd(head, rest);
    InitialWord(w);
    InvertedBits(head);
    FromBytesAdd(Inverted(head), rest);
    FeedAdd(Zeros(32), Not(w), FromBytes(rest));
  }

  /** Four bytes, least significant first, count as one word. */
  lemma FourBytesAreAWord(c: BitString, w: bv32)
    requires Reg(c)
    ensures var o := Octets(w);
      Feed(Feed(Feed(Feed(c, FromByte(o[0])), FromByte(o[1])), FromByte(o[2])), FromByte(o[3])) == Feed(c, FromWord(w))
  {
    var o := Octets(w);
    WordIsOctets(w);
    FeedAdd(c, FromByte(o[0]), FromByte(o[1]));
    FeedAdd(c, FromByte(o[0]) + FromByte(o[1]), FromByte(o[2]));
    FeedAdd(c, FromByte(o[0]) + FromByte(o[1]) + FromByte(o[2]), FromByte(o[3]));
  }
}
