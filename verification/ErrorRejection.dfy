/** Damaged frames: what the decoder is sure to reject, and the two damages it can be fooled by. */
module ErrorRejection {
  import opened Bytes
  import opened Crc16
  import opened CrcDetection
  import opened Frame
  import opened Framing
  import opened Resync

  /** The error leaves SOF, VER and LEN alone: only TYPE, SEQ, PAYLOAD and CRC octets may differ. */
  predicate KeepsBoundaries(e: seq<byte>) {
    8 <= |e| && e[0] == 0 && e[1] == 0 && e[4] == 0 && e[5] == 0
  }

  lemma ByteXorZero(b: byte)
    ensures b ^ 0 == b
  {
  }

  lemma LeadingZero(e: seq<byte>)
    requires e != [] && e[0] == 0
    ensures Crc(0, e) == Crc(0, e[1..])
  {
    hide Shift;
    assert e == [0] + e[1..];
    CrcConcat(0, [0], e[1..]);
    CrcSnoc(0, [], 0);
    assert [] + [0 as byte] == [0];
    ZeroFed();
    ShiftsZero(8);
  }

  lemma ZeroFed()
    ensures Crc(0, []) ^ Raised(0) == 0
  {
  }

  function Damaged(f: Frame, e: seq<byte>): (w: seq<byte>)
    requires Encodable(f) && |e| == 8 + |f.payload|
    ensures |w| == |e|
  {
    XorBytes(Encode(f), e)
  }

  /** The checksum comparison on a damaged frame depends on the error alone. */
  lemma DamagedSyndrome(f: Frame, e: seq<byte>)
    requires Encodable(f) && |e| == 8 + |f.payload| && e[0] == 0
    ensures var w, n := Damaged(f, e), 6 + |f.payload|;
            Crc(CRC_INIT, w[1..n]) == Word(w[n], w[n + 1]) <==> Crc(0, e) == 0
  {
    hide Crc, Word, Encode, Covered, XorBytes;
    var m, w, n := Encode(f), Damaged(f, e), 6 + |f.payload|;
    CodewordAfterSof(f);
    XorTail(m, e);
    ErrorSyndrome(CRC_INIT, m[1..], e[1..]);
    LeadingZero(e);
    assert w[1..] == w[1..n] + [w[n], w[n + 1]];
    CodewordZero(CRC_INIT, w[1..n], w[n], w[n + 1]);
  }

  /** Behind its SOF a frame is a codeword. */
  lemma CodewordAfterSof(f: Frame)
    requires Encodable(f)
    ensures Crc(CRC_INIT, Encode(f)[1..]) == 0
  {
    hide Crc, Word, Encode, Covered;
    EncodeParts(f);
    var m, n := Encode(f), 6 + |f.payload|;
    assert m[1..] == Covered(f) + [m[n], m[n + 1]];
    CodewordZero(CRC_INIT, Covered(f), m[n], m[n + 1]);
  }

  lemma XorTail(m: seq<byte>, e: seq<byte>)
    requires |m| == |e| > 0
    ensures XorBytes(m, e)[1..] == XorBytes(m[1..], e[1..])
  {
  }

  lemma DamagedToken(f: Frame, e: seq<byte>, t: seq<byte>)
    requires Encodable(f) && |e| == 8 + |f.payload| && KeepsBoundaries(e)
    ensures var w := Damaged(f, e); FirstToken(w + t) == Complete(|w|)
  {
    hide Encode, LenField;
    EncodeParts(f);
    ByteXorZero(SOF);
    ByteXorZero(VER);
    ByteXorZero(0);
    ByteXorZero(|f.payload| as bv8);
    LenRoundTrip(|f.payload|);
    var w := Damaged(f, e);
    assert w[0] == SOF && w[1] == VER && w[4] == 0 && w[5] == |f.payload| as bv8;
    assert forall i :: 0 <= i < 8 ==> (w + t)[i] == w[i];
  }

  /** A frame damaged outside SOF, VER and LEN is consumed whole; it is a checksum error iff its syndrome is not 0. */
  lemma DamagedFrame(f: Frame, e: seq<byte>, t: seq<byte>)
    requires Encodable(f) && |e| == 8 + |f.payload| && KeepsBoundaries(e)
    ensures Parse(Damaged(f, e) + t) == Join(Judge(Damaged(f, e)), Parse(t))
    ensures Judge(Damaged(f, e)) == NOTHING.(crcErrs := 1) <==> Crc(0, e) != 0
  {
    hide Crc, Word, KnownType, Parse, Join, Damaged, FirstToken;
    DamagedSyndrome(f, e);
    DamagedToken(f, e, t);
    var w := Damaged(f, e);
    assert (w + t)[..|w|] == w && (w + t)[|w|..] == t;
    ParseToken(w + t);
  }

  /**
   * Bursts of at most 16 bits, odd numbers of flipped bits and double flips in TYPE, SEQ, PAYLOAD or CRC: wherever the
   * decoder is between frames, exactly the damaged frame is dropped, with one checksum error, and reading goes on right
   * behind it.
   */
  lemma DetectableIsRejected(g: seq<byte>, f: Frame, e: seq<byte>, t: seq<byte>)
    requires Synced(g)
    requires Encodable(f) && |e| == 8 + |f.payload| && KeepsBoundaries(e) && Detectable(e)
    ensures Parse(g + (Damaged(f, e) + t)) == Join(Parse(g), Join(NOTHING.(crcErrs := 1), Parse(t)))
  {
    hide Parse, Damaged, Crc, Detectable, Join, Judge, Synced;
    DetectableSyndrome(e);
    DamagedFrame(f, e, t);
    DamagedStarts(f, e);
    SyncedReads(g, Damaged(f, e) + t);
  }

  lemma DamagedStarts(f: Frame, e: seq<byte>)
    requires Encodable(f) && |e| == 8 + |f.payload| && KeepsBoundaries(e)
    ensures Damaged(f, e) != [] && Damaged(f, e)[0] == SOF
  {
    hide Encode;
    EncodeParts(f);
    ByteXorZero(SOF);
  }

  // ---- Damage to VER and LEN is not covered by that guarantee ----

  /** With one bit of VER flipped the payload itself is scanned for frames, so a frame carried as payload gets delivered. */
  lemma VersionFlipDelivers(inner: Frame, seqNo: byte)
    requires Sendable(inner) && 8 + |inner.payload| <= MAX_PAYLOAD && seqNo != SOF
    ensures var outer := Frame(1, seqNo, Encode(inner));
            var hit := Encode(outer)[1 := 0x00];
            Parse(hit).frames != [] && Parse(hit).frames[0] == inner
  {
    hide Encode, KnownType, Parse, FirstToken, Covered, Crc, Word;
    var p := Encode(inner);
    var outer := Frame(1, seqNo, p);
    EncodeParts(outer);
    var w := Encode(outer)[1 := 0x00];
    ShortLength(|p|);
    BadVersionThen(w);
    var hdr, tail := [w[2], w[3], w[4], w[5]], w[6 + |p|..];
    assert w[6..6 + |p|] == p;
    SplitThree(w, 6, |p|);
    HeaderThenFrame(hdr, inner, tail);
  }

  lemma SplitThree(w: seq<byte>, k: nat, n: nat)
    requires k == 6 && k + n <= |w|
    ensures w[2..] == [w[2], w[3], w[4], w[5]] + (w[k..k + n] + w[k + n..])
  {
  }

  /** In general a frame whose VER octet is damaged is dropped uncounted and everything after VER is read afresh. */
  lemma VersionDamageRescans(f: Frame, v: byte, t: seq<byte>)
    requires Encodable(f) && v != VER && v != SOF
    ensures Parse(Encode(f)[1 := v] + t) == Join(NOTHING.(verErrs := 1), Parse(Encode(f)[2..] + t))
  {
    hide Encode, Parse, LenField;
    EncodeParts(f);
    var s := Encode(f)[1 := v] + t;
    assert s[2..] == Encode(f)[2..] + t;
    assert FirstToken(s) == BadVersion(2);
    ParseToken(s);
  }

  lemma BadVersionThen(s: seq<byte>)
    requires 2 <= |s| && s[0] == SOF && s[1] != VER && s[1] != SOF
    ensures Parse(s).frames == Parse(s[2..]).frames
  {
    hide Parse, LenField;
    ParseToken(s);
  }

  lemma HeaderThenFrame(hdr: seq<byte>, inner: Frame, tail: seq<byte>)
    requires NoSof(hdr) && Sendable(inner)
    ensures var fs := Parse(hdr + (Encode(inner) + tail)).frames; fs != [] && fs[0] == inner
  {
    hide Encode, KnownType, Parse, NoSof;
    var rest := Encode(inner) + tail;
    ParseConcat(hdr, rest);
    NoSofIsSilent(hdr);
    assert [] + rest == rest;
    ParseEncode(inner, tail);
  }

  lemma ShortLength(n: nat)
    requires n <= MAX_PAYLOAD
    ensures n as bv8 != SOF
  {
  }

  /** With LEN damaged the checksum is looked for inside the payload: a payload holding it makes a shorter frame pass. */
  lemma LengthFlipDelivers(typ: byte, seqNo: byte)
    requires KnownType(typ)
    ensures var c := Crc(CRC_INIT, Covered(Frame(typ, seqNo, [])));
            var outer := Frame(typ, seqNo, [Hi(c), Lo(c)]);
            var hit := Encode(outer)[5 := Encode(outer)[5] ^ 2];
            Parse(hit).frames != [] && Parse(hit).frames[0] == Frame(typ, seqNo, [])
  {
    hide Crc, KnownType, LenField, Parse, Hi, Lo, FirstToken, Judge;
    var short := Frame(typ, seqNo, []);
    var c := Crc(CRC_INIT, Covered(short));
    var outer := Frame(typ, seqNo, [Hi(c), Lo(c)]);
    var w := Encode(outer)[5 := Encode(outer)[5] ^ 2];
    TwoFlipsToZero(outer, short);
    assert Encode(outer)[5] == |outer.payload| as bv8;
    assert w[..8] == Encode(short);
    assert w == Encode(short) + w[8..];
    ParseEncode(short, w[8..]);
  }

  lemma TwoFlipsToZero(outer: Frame, short: Frame)
    requires |outer.payload| == 2 && |short.payload| == 0
    ensures (|outer.payload| as bv8) ^ 2 == |short.payload| as bv8
  {
  }
}
