/** Finding frame boundaries again after arbitrary octets. */
module Resync {
  import opened Bytes
  import opened Crc16
  import opened CrcDetection
  import opened Frame
  import opened Framing

  predicate NoSof(t: seq<byte>) {
    forall i :: 0 <= i < |t| ==> t[i] != SOF
  }

  lemma {:induction false} NoSofIsSilent(t: seq<byte>)
    requires NoSof(t)
    ensures Parse(t) == NOTHING
    decreases |t|
  {
    hide Parse;
    if t == [] {
      ParseEmpty();
    } else {
      NoSofIsSilent(t[1..]);
      SkipOne(t);
    }
  }

  lemma SkipOne(t: seq<byte>)
    requires t != [] && t[0] != SOF
    ensures Parse(t) == Parse(t[1..])
  {
    hide LenField, Judge, Join;
    assert FirstToken(t) == Skip(1);
    JoinNothing(NOTHING, Parse(t[1..]));
  }

  /** The decoder is between frames: hunting, or holding a lone SOF. */
  predicate Synced(g: seq<byte>) {
    Parse(g).rest == [] || Parse(g).rest == [SOF]
  }

  lemma SofAbsorbed(w: seq<byte>)
    requires w != [] && w[0] == SOF
    ensures Parse([SOF] + w) == Parse(w)
  {
    hide LenField, Judge, Join;
    var s := [SOF] + w;
    assert FirstToken(s) == Skip(1) && s[1..] == w;
    JoinNothing(NOTHING, Parse(w));
  }

  /** Between frames, an encoded frame is read in full whatever came before; a repeated SOF is absorbed. */
  lemma SyncedReads(g: seq<byte>, w: seq<byte>)
    requires Synced(g) && (w != [] ==> w[0] == SOF)
    requires w == [] ==> Parse(g).rest == []
    ensures Parse(g + w) == Join(Parse(g), Parse(w))
  {
    hide Parse, Join;
    ParseConcat(g, w);
    if Parse(g).rest == [] {
      assert [] + w == w;
    } else {
      SofAbsorbed(w);
    }
  }

  lemma TokenPastWaiting(r: seq<byte>, t: seq<byte>)
    requires r != [] && FirstToken(r).NeedMore? && NoSof(t) && !FirstToken(r + t).NeedMore?
    ensures |r| <= FirstToken(r + t).n
  {
    hide LenField;
    var s := r + t;
    assert forall i :: 0 <= i < |r| ==> s[i] == r[i];
    if |r| == 1 && |s| > 1 {
      assert s[1] == t[0];
    }
  }

  lemma LongEnough(s: seq<byte>)
    requires FRAME_MAX <= |s|
    ensures !FirstToken(s).NeedMore?
  {
  }

  /** From any decoder state, 71 octets other than SOF lead back to hunting. */
  lemma Resynchronises(g: seq<byte>, t: seq<byte>)
    requires |t| >= 71 && NoSof(t)
    ensures Parse(g + t).rest == []
  {
    hide FirstToken, Effect, Join;
    var r := Parse(g).rest;
    ParseConcat(g, t);
    RestWaits(g);
    JoinNothing(Parse(g), Parse(r + t));
    if r == [] {
      assert r + t == t;
      NoSofIsSilent(t);
    } else {
      var s := r + t;
      LongEnough(s);
      var k := FirstToken(s);
      TokenPastWaiting(r, t);
      assert s[k.n..] == t[k.n - |r|..];
      NoSofIsSilent(s[k.n..]);
      JoinNothing(Effect(k, s), NOTHING);
    }
  }

  /** ... and from then on every frame is delivered. */
  lemma ResynchronisesAndDelivers(g: seq<byte>, t: seq<byte>, fs: seq<Frame>)
    requires |t| >= 71 && NoSof(t) && AllSendable(fs)
    ensures Parse(g + t + EncodeAll(fs)) == Join(Parse(g + t), Good(fs))
  {
    hide Parse, EncodeAll, Join;
    Resynchronises(g, t);
    ParseConcat(g + t, EncodeAll(fs));
    assert [] + EncodeAll(fs) == EncodeAll(fs);
    RoundTrip(fs);
  }

  /** The bound is tight: 70 such octets can leave a decoder inside a frame. */
  lemma SeventyIsNotEnough()
    ensures exists g, t :: |t| == 70 && NoSof(t) && Parse(g + t).rest != []
  {
    hide Judge, Parse;
    var t: seq<byte> := [VER, 1, 0, 0, 64] + seq(65, _ => 0);
    var s := [SOF] + t;
    LenRoundTrip(64);
    assert FirstToken(s).NeedMore?;
    ParseWaiting(s);
    assert |t| == 70 && NoSof(t) && Parse([SOF] + t).rest != [];
  }

  // ---- Garbage, then a frame ----

  predicate Delivers(g: seq<byte>, f: Frame)
    requires Encodable(f)
  {
    Parse(g + Encode(f)).frames == Parse(g).frames + [f]
  }

  function Probe(q: byte): (f: Frame)
    ensures Encodable(f) && f == Frame(1, q, [])
  {
    Frame(1, q, [])
  }

  lemma ProbeOctets(q: byte)
    requires q == 0 || q == 1
    ensures var w := Encode(Probe(q)); |w| == 8 && NoSof(w[1..]) && w[..6] == [SOF, VER, 1, q, 0, 0]
  {
    hide Crc, Hi, Lo, Covered;
    ProbeCheck(q);
    ProbeCovered(q);
    var c := Crc(CRC_INIT, Covered(Probe(q)));
    assert Encode(Probe(q)) == [SOF, VER, 1, q, 0, 0, Hi(c), Lo(c)];
  }

  lemma LenZero(f: Frame)
    requires f.payload == []
    ensures |f.payload| as bv8 == 0
  {
  }

  lemma CrcAppend(s: seq<byte>, r: bv16, b: byte, r': bv16)
    requires Crc(CRC_INIT, s) == r && Shift8(r ^ Raised(b)) == r'
    ensures Crc(CRC_INIT, s + [b]) == r'
  {
    hide Shift8, Raised, Crc;
    CrcSnoc(CRC_INIT, s, b);
    Shifts8(r ^ Raised(b));
  }

  lemma ProbeCrc(q: byte)
    requires q == 0 || q == 1
    ensures Crc(CRC_INIT, [VER, 1, q, 0, 0]) == if q == 0 then 0xCDE9 else 0xFAD9
  {
    hide Crc;
    CrcEmpty();
    CrcAppend([], 0xFFFF, 1, 0xF1D1);
    assert [] + [1 as byte] == [1] && [1 as byte] + [1] == [1, 1] && [1, 1] + [q] == [1, 1, q];
    CrcAppend([1], 0xF1D1, 1, 0x3E1F);
    assert [1, 1, q] + [0] == [1, 1, q, 0] && [1, 1, q, 0] + [0] == [VER, 1, q, 0, 0];
    if q == 0 {
      CrcAppend([1, 1], 0x3E1F, 0, 0xC89D);
      CrcAppend([1, 1, q], 0xC89D, 0, 0xC544);
      CrcAppend([1, 1, q, 0], 0xC544, 0, 0xCDE9);
    } else {
      CrcAppend([1, 1], 0x3E1F, 1, 0xD8BC);
      CrcAppend([1, 1, q], 0xD8BC, 0, 0xF675);
      CrcAppend([1, 1, q, 0], 0xF675, 0, 0xFAD9);
    }
  }

  /** The checksum of the digits 1 to 9 is the published check value of CRC-16/CCITT-FALSE. */
  lemma CheckValue()
    ensures Crc(CRC_INIT, [0x31, 0x32, 0x33, 0x34, 0x35, 0x36, 0x37, 0x38, 0x39]) == 0x29B1
  {
    hide Crc;
    CrcEmpty();
    CrcAppend([], 0xFFFF, 0x31, 0xC782);
    assert [] + [0x31 as byte] == [0x31];
    CrcAppend([0x31], 0xC782, 0x32, 0x3DBA);
    assert [0x31] + [0x32 as byte] == [0x31, 0x32];
    CrcAppend([0x31, 0x32], 0x3DBA, 0x33, 0x5BCE);
    assert [0x31, 0x32] + [0x33 as byte] == [0x31, 0x32, 0x33];
    CrcAppend([0x31, 0x32, 0x33], 0x5BCE, 0x34, 0x5349);
    assert [0x31, 0x32, 0x33] + [0x34 as byte] == [0x31, 0x32, 0x33, 0x34];
    CrcAppend([0x31, 0x32, 0x33, 0x34], 0x5349, 0x35, 0x4560);
    assert [0x31, 0x32, 0x33, 0x34] + [0x35 as byte] == [0x31, 0x32, 0x33, 0x34, 0x35];
    CrcAppend([0x31, 0x32, 0x33, 0x34, 0x35], 0x4560, 0x36, 0x2EF4);
    assert [0x31, 0x32, 0x33, 0x34, 0x35] + [0x36 as byte] == [0x31, 0x32, 0x33, 0x34, 0x35, 0x36];
    CrcAppend([0x31, 0x32, 0x33, 0x34, 0x35, 0x36], 0x2EF4, 0x37, 0x7718);
    assert [0x31, 0x32, 0x33, 0x34, 0x35, 0x36] + [0x37 as byte] == [0x31, 0x32, 0x33, 0x34, 0x35, 0x36, 0x37];
    CrcAppend([0x31, 0x32, 0x33, 0x34, 0x35, 0x36, 0x37], 0x7718, 0x38, 0xA12B);
    assert [0x31, 0x32, 0x33, 0x34, 0x35, 0x36, 0x37] + [0x38 as byte] == [0x31, 0x32, 0x33, 0x34, 0x35, 0x36, 0x37, 0x38];
    CrcAppend([0x31, 0x32, 0x33, 0x34, 0x35, 0x36, 0x37, 0x38], 0xA12B, 0x39, 0x29B1);
    assert [0x31, 0x32, 0x33, 0x34, 0x35, 0x36, 0x37, 0x38] + [0x39 as byte] == [0x31, 0x32, 0x33, 0x34, 0x35, 0x36, 0x37, 0x38, 0x39];
  }

  lemma CrcEmpty()
    ensures Crc(CRC_INIT, []) == 0xFFFF
  {
  }

  lemma ProbeCheck(q: byte)
    requires q == 0 || q == 1
    ensures var c := Crc(CRC_INIT, Covered(Probe(q))); Hi(c) != SOF && Lo(c) != SOF
  {
    hide Crc, Covered;
    ProbeCovered(q);
    ProbeCrc(q);
  }

  lemma ProbeCovered(q: byte)
    ensures Covered(Probe(q)) == [VER, 1, q, 0, 0]
  {
    LenZero(Probe(q));
  }

  /** A frame arriving while another is awaited is swallowed, in part, by the other's header. */
  lemma HeaderSwallows(r: seq<byte>, q: byte)
    requires q == 0 || q == 1
    requires 2 <= |r| < 6 && r[0] == SOF && r[1] == VER
    ensures Parse(r + Encode(Probe(q))).frames == []
  {
    hide Encode, Judge, Parse, LenField;
    ProbeOctets(q);
    var w := Encode(Probe(q));
    var s := r + w;
    assert s[4] == (if |r| < 5 then w[4 - |r|] else r[4]) && s[5] == w[5 - |r|] by {
      assert w[..6] == [SOF, VER, 1, q, 0, 0];
    }
    assert w[0] == SOF && w[1] == VER && w[2] == 1 && w[3] == q by {
      assert w[..6][0] == w[0] && w[..6][1] == w[1] && w[..6][2] == w[2] && w[..6][3] == w[3];
    }
    BigLength(s[4], s[5]);
    assert s[6..] == w[1..][5 - |r|..];
    BadLengthThenQuiet(s);
  }

  lemma BadLengthThenQuiet(s: seq<byte>)
    requires 6 <= |s| && s[0] == SOF && s[1] == VER && LenField(s[4], s[5]) > MAX_PAYLOAD && NoSof(s[6..])
    ensures Parse(s).frames == []
  {
    hide Parse, LenField, NoSof, FirstToken, Effect, Join;
    NoSofIsSilent(s[6..]);
    BadLengthToken(s);
    ParseToken(s);
    QuietJoin(Effect(BadLength(6), s), NOTHING);
  }

  /** A header whose LEN is out of range costs its six octets and one length error; reading goes on right behind it. */
  lemma LengthRejected(s: seq<byte>)
    requires 6 <= |s| && s[0] == SOF && s[1] == VER && LenField(s[4], s[5]) > MAX_PAYLOAD
    ensures Parse(s) == Join(NOTHING.(lenErrs := 1), Parse(s[6..]))
  {
    hide Parse, LenField, Join;
    BadLengthToken(s);
    ParseToken(s);
  }

  lemma BadLengthToken(s: seq<byte>)
    requires 6 <= |s| && s[0] == SOF && s[1] == VER && LenField(s[4], s[5]) > MAX_PAYLOAD
    ensures FirstToken(s) == BadLength(6) && Effect(BadLength(6), s) == NOTHING.(lenErrs := 1)
  {
    hide LenField, Judge;
  }

  lemma QuietJoin(a: Outcome, b: Outcome)
    ensures b.frames == [] ==> Join(a, b).frames == a.frames
  {
  }

  lemma CompleteThenQuiet(s: seq<byte>)
    requires s != [] && FirstToken(s).Complete? && NoSof(s[FirstToken(s).n..])
    ensures Parse(s).frames == Judge(s[..FirstToken(s).n]).frames
  {
    hide Parse, FirstToken, NoSof, Judge, Join;
    NoSofIsSilent(s[FirstToken(s).n..]);
    ParseToken(s);
    QuietJoin(Effect(FirstToken(s), s), NOTHING);
  }

  lemma BigLength(hi: byte, lo: byte)
    requires hi == 1 || hi == SOF || lo == SOF
    ensures LenField(hi, lo) > MAX_PAYLOAD
  {
  }

  /** Once a header has been accepted the frame's octets are taken as payload and checksum. */
  lemma PayloadSwallows(r: seq<byte>, q: byte)
    requires q == 0 || q == 1
    requires 6 <= |r| && FirstToken(r).NeedMore? && r[3] != q
    ensures Parse(r + Encode(Probe(q))).frames != [Probe(q)]
  {
    hide Encode, Parse, LenField, Judge;
    ProbeOctets(q);
    var w := Encode(Probe(q));
    var s := r + w;
    if FirstToken(s).NeedMore? {
      ParseWaiting(s);
    } else {
      var k := FirstToken(s);
      assert s[k.n..] == w[1..][k.n - |r| - 1..];
      CompleteThenQuiet(s);
      JudgedSeq(s[..k.n]);
      assert s[..k.n][3] == r[3];
    }
  }

  lemma JudgedSeq(w: seq<byte>)
    requires 8 <= |w|
    ensures Judge(w).frames == [] || (|Judge(w).frames| == 1 && Judge(w).frames[0].seqNo == w[3])
  {
    hide Crc, Word, KnownType;
  }

  /**
   * A frame sent right after garbage g is delivered, whatever the frame, exactly when g left the decoder between
   * frames. Otherwise some frame is lost.
   */
  lemma GarbageThenFrame(g: seq<byte>)
    ensures (forall f :: Sendable(f) ==> Delivers(g, f)) <==> Synced(g)
  {
    hide Encode, Parse, FirstToken, KnownType, Judge;
    if Synced(g) {
      forall f | Sendable(f) ensures Delivers(g, f) {
        EncodeParts(f);
        SyncedReads(g, Encode(f));
        ParseEncode(f, []);
        assert Encode(f) + [] == Encode(f);
        ParseEmpty();
      }
    } else {
      var r := Parse(g).rest;
      RestWaits(g);
      WaitingShape(r);
      var q: byte := if |r| >= 6 && r[3] == 0 then 1 else 0;
      ParseConcat(g, Encode(Probe(q)));
      if |r| < 6 {
        HeaderSwallows(r, q);
      } else {
        PayloadSwallows(r, q);
      }
      ProbeSendable(q);
      assert Parse(r + Encode(Probe(q))).frames != [Probe(q)];
      AppendedDiffer(Parse(g).frames, Parse(r + Encode(Probe(q))).frames, [Probe(q)]);
      assert !Delivers(g, Probe(q));
    }
  }

  lemma AppendedDiffer(a: seq<Frame>, b: seq<Frame>, c: seq<Frame>)
    ensures a + b == a + c ==> b == c
  {
    assert (a + b)[|a|..] == b && (a + c)[|a|..] == c;
  }

  lemma ProbeSendable(q: byte)
    ensures Sendable(Probe(q))
  {
  }

  lemma WaitingShape(r: seq<byte>)
    requires r != [] && r != [SOF] && FirstToken(r).NeedMore?
    ensures 2 <= |r| && r[0] == SOF && r[1] == VER
  {
  }
}
