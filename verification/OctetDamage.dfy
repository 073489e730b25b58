/** Frames with a single damaged octet: exactly when the decoder is fooled into delivering something. */
module OctetDamage {
  import opened Bytes
  import opened Crc16
  import opened CrcDetection
  import opened OctetBursts
  import opened Frame
  import opened Framing
  import opened Resync
  import opened Occurrence
  import opened ErrorRejection

  function Diff(a: byte, b: byte): byte {
    a ^ b
  }

  /** The error that turns octet i from a into b. */
  function ErrorAt(n: nat, i: nat, a: byte, b: byte): (e: seq<byte>)
    requires i < n
    ensures |e| == n && forall k :: 0 <= k < n ==> e[k] == if k == i then Diff(a, b) else 0
  {
    seq(n, k => if k == i then Diff(a, b) else 0)
  }

  lemma DiffIsZero(a: byte, b: byte)
    ensures Diff(a, b) == 0 <==> a == b
  {
  }

  lemma DiffApplied(a: byte, b: byte)
    ensures a ^ Diff(a, b) == b && a ^ 0 == a
  {
  }

  lemma ErrorApplied(w: seq<byte>, i: nat, v: byte)
    requires i < |w|
    ensures XorBytes(w, ErrorAt(|w|, i, w[i], v)) == w[i := v]
  {
    hide Diff, ErrorAt, XorBytes;
    var e := ErrorAt(|w|, i, w[i], v);
    forall k | 0 <= k < |w| ensures XorBytes(w, e)[k] == w[i := v][k] {
      DiffApplied(w[k], v);
      assert XorBytes(w, e)[k] == w[k] ^ e[k];
    }
  }

  /** No frame is to be found in an image whose octet i was damaged, where the decoder will look. */
  ghost predicate Harmless(hit: seq<byte>, i: nat)
    requires 8 <= |hit|
  {
    var n := LenField(hit[4], hit[5]);
    if i == 1 then
      // VER: dropped, and the rest is scanned
      !HoldsFrame(if hit[1] == SOF then hit[1..] else hit[2..])
    else if i != 4 && i != 5 then true
    else if n > MAX_PAYLOAD then
      // LEN: dropped at the header, and the rest is scanned
      !HoldsFrame(hit[6..])
    else if |hit| < 8 + n then
      // still waiting for more
      true
    else
      // taken for a shorter frame, and the rest is scanned
      && (Crc(CRC_INIT, hit[1..6 + n]) != Word(hit[6 + n], hit[7 + n]) || !KnownType(hit[2]))
      && !HoldsFrame(hit[8 + n..])
  }

  /**
   * Whatever single octet behind SOF is damaged, in whatever way: in TYPE, SEQ, PAYLOAD and CRC nothing is ever
   * delivered, in VER and LEN nothing is exactly if the octets the decoder then reads hold no frame.
   */
  lemma OneOctetDamaged(f: Frame, i: nat, v: byte)
    requires Encodable(f) && 1 <= i < 8 + |f.payload| && v != Encode(f)[i]
    ensures var hit := Encode(f)[i := v]; Parse(hit).frames == [] <==> Harmless(hit, i)
  {
    hide Encode, Parse, LenField, KnownType, Crc, Word, HoldsFrame;
    EncodeParts(f);
    if i == 1 {
      VersionDamaged(Encode(f)[1 := v]);
    } else if i == 4 || i == 5 {
      LengthDamaged(Encode(f)[i := v], i);
    } else {
      BodyDamaged(f, i, v);
    }
  }

  lemma VersionDamaged(hit: seq<byte>)
    requires 8 <= |hit| && hit[0] == SOF && hit[1] != VER
    ensures Parse(hit).frames == [] <==> Harmless(hit, 1)
  {
    hide Parse, LenField, HoldsFrame;
    DeliversIfHolds(if hit[1] == SOF then hit[1..] else hit[2..]);
    if hit[1] == SOF {
      assert hit == [SOF] + hit[1..];
      SofAbsorbed(hit[1..]);
    } else {
      BadVersionThen(hit);
    }
  }

  lemma LengthDamaged(hit: seq<byte>, i: nat)
    requires 8 <= |hit| && hit[0] == SOF && hit[1] == VER && (i == 4 || i == 5)
    ensures Parse(hit).frames == [] <==> Harmless(hit, i)
  {
    hide Parse, LenField, KnownType, Crc, Word, Judge, HoldsFrame;
    ParseHeader(hit);
    var n := LenField(hit[4], hit[5]);
    DeliversIfHolds(hit[6..]);
    if n <= MAX_PAYLOAD && 8 + n <= |hit| {
      JudgedEmpty(hit, n);
      DeliversIfHolds(hit[8 + n..]);
    }
  }

  /** What reading a frame image amounts to, by its LEN field. */
  lemma ParseHeader(hit: seq<byte>)
    requires 8 <= |hit| && hit[0] == SOF && hit[1] == VER
    ensures var n := LenField(hit[4], hit[5]);
            Parse(hit).frames == if n > MAX_PAYLOAD then Parse(hit[6..]).frames
                                 else if |hit| < 8 + n then []
                                 else Judge(hit[..8 + n]).frames + Parse(hit[8 + n..]).frames
  {
    hide Parse, LenField, Judge;
    if FirstToken(hit).NeedMore? {
      ParseWaits(hit);
    } else {
      ParseToken(hit);
    }
  }

  lemma ParseWaits(s: seq<byte>)
    requires s != [] && FirstToken(s).NeedMore?
    ensures Parse(s) == Waiting(s)
  {
    hide FirstToken, Effect, Join;
  }

  lemma JudgedEmpty(hit: seq<byte>, n: nat)
    requires 8 + n <= |hit|
    ensures Judge(hit[..8 + n]).frames == [] <==>
              Crc(CRC_INIT, hit[1..6 + n]) != Word(hit[6 + n], hit[7 + n]) || !KnownType(hit[2])
  {
    hide KnownType, Crc, Word;
    assert hit[..8 + n][1..6 + n] == hit[1..6 + n];
  }

  lemma BodyDamaged(f: Frame, i: nat, v: byte)
    requires Encodable(f) && 2 <= i < 8 + |f.payload| && i != 4 && i != 5 && v != Encode(f)[i]
    ensures Parse(Encode(f)[i := v]).frames == []
  {
    hide Encode, Parse, Damaged, XorBytes, ErrorAt, Detectable, KeepsBoundaries, Diff, Join;
    var w := Encode(f);
    var e := ErrorAt(|w|, i, w[i], v);
    ErrorApplied(w, i, v);
    ErrorDetectable(|w|, i, w[i], v);
    ParseEmpty();
    DetectableIsRejected([], f, e, []);
    DamagedIs(f, e);
    assert [] + (w[i := v] + []) == w[i := v];
    NoFrames(NOTHING, NOTHING.(crcErrs := 1), NOTHING);
  }

  lemma DamagedIs(f: Frame, e: seq<byte>)
    requires Encodable(f) && |e| == 8 + |f.payload|
    ensures Damaged(f, e) == XorBytes(Encode(f), e)
  {
    hide Encode, XorBytes;
  }

  lemma NoFrames(a: Outcome, b: Outcome, c: Outcome)
    requires a.frames == b.frames == c.frames == []
    ensures Join(a, Join(b, c)).frames == []
  {
  }

  lemma ErrorDetectable(n: nat, i: nat, a: byte, b: byte)
    requires 2 <= i < n && i != 4 && i != 5 && 8 <= n && a != b
    ensures KeepsBoundaries(ErrorAt(n, i, a, b)) && Detectable(ErrorAt(n, i, a, b))
  {
    hide Bits, Burst, Diff;
    var e := ErrorAt(n, i, a, b);
    DiffIsZero(a, b);
    assert e[i] != 0;
    TwoOctetsAreABurst(e, i - 1);
  }

  /** Where no octet behind SOF looks like another SOF, only a LEN damaged to a smaller value can fool the decoder. */
  lemma HarmlessWithoutSof(f: Frame, i: nat, v: byte)
    requires Encodable(f) && 1 <= i < 8 + |f.payload| && v != Encode(f)[i] && v != SOF
    requires NoSof(Encode(f)[1..])
    ensures var hit := Encode(f)[i := v];
            ((i == 4 || i == 5) && 8 + LenField(hit[4], hit[5]) <= |hit|) || Parse(hit).frames == []
  {
    hide Encode, Parse, LenField, KnownType, Crc, Word, HoldsFrame;
    OneOctetDamaged(f, i, v);
    var w, hit := Encode(f), Encode(f)[i := v];
    forall k | 1 <= k < |hit| ensures hit[k] != SOF {
      assert w[k] == w[1..][k - 1];
    }
    NoSofIsSilent(hit[2..]);
    NoSofIsSilent(hit[6..]);
    DeliversIfHolds(hit[2..]);
    DeliversIfHolds(hit[6..]);
  }
}
