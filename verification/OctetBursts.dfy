/** Changes confined to one or two neighbouring octets, seen as bursts of bits. */
module OctetBursts {
  import opened Bytes
  import opened Crc16
  import opened CrcDetection

  lemma {:induction false} BitsAt(e: seq<byte>, k: nat)
    requires k < |e|
    ensures Bits(e)[8 * k..8 * k + 8] == BitsFrom(Raised(e[k]), 8)
    decreases |e|
  {
    hide BitsFrom, Raised;
    var n := |e| - 1;
    if k < n {
      BitsAt(e[..n], k);
      assert Bits(e)[8 * k..8 * k + 8] == Bits(e[..n])[8 * k..8 * k + 8];
    }
  }

  lemma ZeroOctet(b: byte)
    ensures Raised(b) == 0 <==> b == 0
  {
  }

  lemma OctetBits(b: byte)
    ensures Clear(BitsFrom(Raised(b), 8)) <==> b == 0
  {
    hide BitsFrom, Raised, Fits, Shifts, Feed;
    var w := Raised(b);
    ZeroOctet(b);
    if w == 0 {
      ZeroBits(8);
    }
    if Clear(BitsFrom(w, 8)) {
      RaisedFits(b);
      FeedWord(0, w, 8);
      FeedClear(0, BitsFrom(w, 8));
      ShiftsZero(8);
      XorZero(w);
      ShiftsNonzero(w, 8);
    }
  }

  /** A set bit lies in a nonzero octet. */
  lemma BitInOctet(e: seq<byte>, p: nat)
    requires p < |Bits(e)|
    ensures Bits(e)[p] == BitsFrom(Raised(e[p / 8]), 8)[p % 8] && (Bits(e)[p] ==> e[p / 8] != 0)
  {
    hide Bits, BitsFrom, Raised;
    var k := p / 8;
    BitsAt(e, k);
    OctetBits(e[k]);
    assert Bits(e)[8 * k..8 * k + 8][p % 8] == Bits(e)[p];
  }

  /** A change confined to two neighbouring octets is a burst. */
  lemma TwoOctetsAreABurst(e: seq<byte>, j: nat)
    requires j + 2 <= |e| && (exists k :: 0 <= k < |e| && e[k] != 0)
    requires forall k :: 0 <= k < |e| && e[k] != 0 ==> j <= k < j + 2
    ensures Burst(Bits(e))
  {
    hide Bits, BitsFrom, Raised;
    var s := Bits(e);
    forall p | 0 <= p < |s| && s[p] ensures 8 * j <= p < 8 * j + 16 {
      BitInOctet(e, p);
    }
    var k :| 0 <= k < |e| && e[k] != 0;
    OctetBits(e[k]);
    var q :| 0 <= q < 8 && BitsFrom(Raised(e[k]), 8)[q];
    BitInOctet(e, 8 * k + q);
    assert s[8 * k + q];
    assert BurstAt(s, 8 * j);
  }
}
