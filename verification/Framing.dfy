/** What the framing layer guarantees: round trips, soundness, resynchronisation and error rejection. */
module Framing {
  import opened Bytes
  import opened Crc16
  import opened Frame

  // ---- Round trip ----

  function Good(fs: seq<Frame>): Outcome {
    NOTHING.(frames := fs)
  }

  lemma EncodeParts(f: Frame)
    requires Encodable(f)
    ensures var w, n := Encode(f), 6 + |f.payload|;
            && w[0] == SOF && w[1] == VER && w[2] == f.typ && w[3] == f.seqNo && w[4] == 0
            && w[5] == |f.payload| as bv8 && w[6..n] == f.payload && w[1..n] == Covered(f)
            && Word(w[n], w[n + 1]) == Crc(CRC_INIT, Covered(f))
  {
    hide Crc, Word, Hi, Lo;
    WordOfHiLo(Crc(CRC_INIT, Covered(f)));
  }

  lemma EncodeToken(f: Frame, t: seq<byte>)
    requires Encodable(f)
    ensures FirstToken(Encode(f) + t) == Complete(8 + |f.payload|)
    ensures (Encode(f) + t)[..8 + |f.payload|] == Encode(f) && (Encode(f) + t)[8 + |f.payload|..] == t
  {
    hide Encode, LenField;
    EncodeParts(f);
    LenRoundTrip(|f.payload|);
  }

  lemma EncodeJudged(f: Frame)
    requires Encodable(f)
    ensures Judge(Encode(f)) == if KnownType(f.typ) then Good([f]) else NOTHING.(unknown := 1)
  {
    hide Encode, Crc, Word;
    EncodeParts(f);
  }

  /** A frame at the start of a stream is read as itself, and reading goes on right behind it. */
  lemma ParseEncode(f: Frame, t: seq<byte>)
    requires Encodable(f)
    ensures Parse(Encode(f) + t)
         == Join(if KnownType(f.typ) then Good([f]) else NOTHING.(unknown := 1), Parse(t))
  {
    hide Encode, FirstToken, Judge, Parse, Join;
    EncodeToken(f, t);
    EncodeJudged(f);
    ParseToken(Encode(f) + t);
  }

  predicate AllSendable(fs: seq<Frame>) {
    forall i :: 0 <= i < |fs| ==> Sendable(fs[i])
  }

  function EncodeAll(fs: seq<Frame>): seq<byte>
    requires AllSendable(fs)
  {
    if fs == [] then [] else Encode(fs[0]) + EncodeAll(fs[1..])
  }

  /** Encoding any list of frames and reading the stream back yields exactly that list. */
  lemma {:induction false} RoundTrip(fs: seq<Frame>)
    requires AllSendable(fs)
    ensures Parse(EncodeAll(fs)) == Good(fs)
    decreases |fs|
  {
    hide Encode, KnownType, Parse;
    if fs == [] {
      ParseEmpty();
    } else {
      RoundTrip(fs[1..]);
      assert Sendable(fs[0]);
      ParseEncode(fs[0], EncodeAll(fs[1..]));
      assert fs == [fs[0]] + fs[1..];
    }
  }

  lemma ParseEmpty()
    ensures Parse([]) == NOTHING
  {
  }

  // ---- Soundness ----

  lemma CoveredOctets(w: seq<byte>)
    requires 8 <= |w| <= FRAME_MAX && w[1] == VER && LenField(w[4], w[5]) == |w| - 8
    ensures Covered(Frame(w[2], w[3], w[6..|w| - 2])) == w[1..|w| - 2]
  {
    hide LenField;
    LenFieldSmall(w[4], w[5]);
  }

  /** An image that is judged good is the encoding of the frame delivered. */
  lemma JudgedGood(w: seq<byte>)
    requires 8 <= |w| <= FRAME_MAX && w[0] == SOF && w[1] == VER && LenField(w[4], w[5]) == |w| - 8
    ensures Judge(w).frames == [] || exists f :: Sendable(f) && Judge(w).frames == [f] && Encode(f) == w
  {
    hide Crc, LenField, Hi, Lo, Word, KnownType, Covered;
    var n := |w| - 2;
    if Judge(w).frames != [] {
      var f := Frame(w[2], w[3], w[6..n]);
      CoveredOctets(w);
      HiLoOfWord(w[n], w[n + 1]);
      assert Encode(f) == w;
      assert Sendable(f);
    }
  }

  lemma TokenSound(s: seq<byte>)
    requires s != [] && !FirstToken(s).NeedMore?
    ensures var t := FirstToken(s); var fs := Effect(t, s).frames;
            fs == [] || exists f :: Sendable(f) && fs == [f] && Encode(f) == s[..t.n]
  {
    hide Judge, LenField;
    var t := FirstToken(s);
    if t.Complete? {
      JudgedGood(s[..t.n]);
    }
  }

  predicate OccursAt(w: seq<byte>, s: seq<byte>, k: nat) {
    k + |w| <= |s| && s[k..k + |w|] == w
  }

  /** The frames' encodings occur in s, in order and without overlap. */
  predicate Embedded(fs: seq<Frame>, s: seq<byte>)
    decreases |fs|
  {
    fs == [] ||
    (Sendable(fs[0]) &&
     exists k: nat | k <= |s| :: OccursAt(Encode(fs[0]), s, k) && Embedded(fs[1..], s[k + |Encode(fs[0])|..]))
  }

  lemma EmbeddedLater(fs: seq<Frame>, s: seq<byte>, n: nat)
    requires n <= |s| && Embedded(fs, s[n..])
    ensures Embedded(fs, s)
  {
    hide Encode, KnownType;
    if fs != [] {
      var w := Encode(fs[0]);
      var k: nat :| k <= |s| - n && OccursAt(w, s[n..], k) && Embedded(fs[1..], s[n..][k + |w|..]);
      assert s[n..][k..k + |w|] == s[n + k..n + k + |w|];
      assert s[n..][k + |w|..] == s[n + k + |w|..];
      assert OccursAt(w, s, n + k);
    }
  }

  /** Nothing is ever delivered that was not on the wire as a complete, correctly checksummed frame. */
  lemma {:induction false} DeliveriesAreOnTheWire(s: seq<byte>)
    ensures Embedded(Parse(s).frames, s)
    decreases |s|
  {
    hide FirstToken, Encode, KnownType, Effect;
    if s != [] && !FirstToken(s).NeedMore? {
      var t := FirstToken(s);
      DeliveriesAreOnTheWire(s[t.n..]);
      TokenSound(s);
      if Effect(t, s).frames == [] {
        assert Parse(s).frames == Parse(s[t.n..]).frames;
        EmbeddedLater(Parse(s).frames, s, t.n);
      } else {
        var f :| Sendable(f) && Effect(t, s).frames == [f] && Encode(f) == s[..t.n];
        assert Parse(s).frames[1..] == Parse(s[t.n..]).frames;
        assert OccursAt(Encode(f), s, 0);
      }
    }
  }

  /** One more octet delivers at most one frame, and then the stream ends with exactly that frame's encoding. */
  lemma DeliveryEndsFrame(s: seq<byte>, b: byte)
    ensures Parse(s + [b]).frames == Parse(s).frames
         || exists f :: Sendable(f) && Parse(s + [b]).frames == Parse(s).frames + [f] && EndsWith(s + [b], Encode(f))
  {
    hide Encode, KnownType, FirstToken, Effect, Parse;
    var r := Parse(s).rest;
    ParseConcat(s, [b]);
    RestWaits(s);
    RestIsSuffix(s);
    var x := r + [b];
    OneTokenPerOctet(r, b);
    if Parse(x).frames == [] {
      assert Parse(s).frames + [] == Parse(s).frames;
    } else {
      TokenSound(x);
      var f :| Sendable(f) && Effect(FirstToken(x), x).frames == [f] && Encode(f) == x[..FirstToken(x).n];
      assert (s + [b])[|s + [b]| - |x|..] == x == Encode(f);
    }
  }

  predicate EndsWith(s: seq<byte>, w: seq<byte>) {
    |w| <= |s| && s[|s| - |w|..] == w
  }

  lemma {:induction false} RestIsSuffix(s: seq<byte>)
    ensures EndsWith(s, Parse(s).rest)
    decreases |s|
  {
    hide FirstToken, Effect;
    if s != [] && !FirstToken(s).NeedMore? {
      RestIsSuffix(s[FirstToken(s).n..]);
    }
  }

  /** An octet either completes the token in progress, exactly, or leaves it waiting. */
  lemma OneTokenPerOctet(r: seq<byte>, b: byte)
    requires r == [] || FirstToken(r).NeedMore?
    ensures var s := r + [b]; var t := FirstToken(s);
            || (t.NeedMore? && Parse(s) == Waiting(s))
            || (!t.NeedMore? && t.n == |s| && Parse(s) == Effect(t, s))
            || (r == [SOF] && b == SOF && Parse(s) == Waiting([SOF]))
  {
    hide LenField, Judge, Parse, Effect;
    var s := r + [b];
    var t := FirstToken(s);
    if t.NeedMore? {
      ParseWaiting(s);
    } else if r == [SOF] && b == SOF {
      TwoSofs();
      assert s == [SOF, SOF];
    } else {
      assert t.n == |s|;
      ParseWhole(s);
    }
  }

  lemma ParseWaiting(s: seq<byte>)
    requires s != [] && FirstToken(s).NeedMore?
    ensures Parse(s) == Waiting(s)
  {
  }

  lemma ParseWhole(s: seq<byte>)
    requires s != [] && !FirstToken(s).NeedMore? && FirstToken(s).n == |s|
    ensures Parse(s) == Effect(FirstToken(s), s)
  {
    hide FirstToken, Effect, Join;
    assert s[|s|..] == [];
    EffectRest(FirstToken(s), s);
    JoinWithNothing(Effect(FirstToken(s), s));
  }

  lemma EffectRest(t: Token, s: seq<byte>)
    requires t.Complete? ==> 8 <= t.n <= |s|
    ensures Effect(t, s).rest == []
  {
    hide Crc, Word, KnownType;
  }

  lemma JoinWithNothing(a: Outcome)
    requires a.rest == []
    ensures Join(a, NOTHING) == a
  {
  }

  lemma TwoSofs()
    ensures Parse([SOF, SOF]) == Waiting([SOF])
  {
    assert [SOF, SOF][1..] == [SOF];
    ParseWaiting([SOF]);
  }

  // ---- One more octet, by how much of a frame was already waiting ----

  predicate Pending(r: seq<byte>) {
    r == [] || FirstToken(r).NeedMore?
  }

  lemma ParseAfterNothing(b: byte)
    ensures Parse([] + [b]) == if b == SOF then Waiting([b]) else NOTHING
    ensures Pending(Parse([] + [b]).rest)
  {
    hide Parse, LenField, Judge;
    OneTokenPerOctet([], b);
  }

  lemma ParseAfterSof(b: byte)
    ensures Parse([SOF] + [b]) == if b == VER then Waiting([SOF, VER]) else if b == SOF then Waiting([SOF])
                                  else NOTHING.(verErrs := 1)
    ensures Pending(Parse([SOF] + [b]).rest)
  {
    hide Parse, LenField, Judge;
    assert [SOF] + [b] == [SOF, b];
    OneTokenPerOctet([SOF], b);
  }

  lemma ParseInHeader(r: seq<byte>, b: byte)
    requires Pending(r) && 2 <= |r| < 6
    ensures Parse(r + [b]) == if |r| == 5 && LenField(r[4], b) > MAX_PAYLOAD then NOTHING.(lenErrs := 1)
                              else Waiting(r + [b])
    ensures Pending(Parse(r + [b]).rest)
  {
    hide Parse, LenField, Judge;
    OneTokenPerOctet(r, b);
  }

  lemma ParseInBody(r: seq<byte>, b: byte)
    requires Pending(r) && 6 <= |r|
    ensures |r| < 8 + LenField(r[4], r[5]) <= FRAME_MAX
    ensures Parse(r + [b]) == if |r| + 1 < 8 + LenField(r[4], r[5]) then Waiting(r + [b]) else Judge(r + [b])
    ensures Pending(Parse(r + [b]).rest)
  {
    hide Parse, LenField, Judge;
    OneTokenPerOctet(r, b);
    assert (r + [b])[..|r| + 1] == r + [b];
    if |r| + 1 == 8 + LenField(r[4], r[5]) {
      EffectRest(FirstToken(r + [b]), r + [b]);
    }
  }
}
