/** When a stream delivers anything at all, said of its octets: some frame lies in it, at a place the decoder looks at. */
module Occurrence {
  import opened Bytes
  import opened Frame
  import opened Framing
  import opened Resync

  /** The encoding of f stands in s at offset k, where the decoder is between frames. */
  predicate FrameAt(s: seq<byte>, k: nat, f: Frame) {
    && Sendable(f) && k + |Encode(f)| <= |s| && s[k..k + |Encode(f)|] == Encode(f)
    && Synced(s[..k])
  }

  ghost predicate HoldsFrame(s: seq<byte>) {
    exists k, f :: FrameAt(s, k, f)
  }

  /** A stream delivers something exactly if it holds a frame. */
  lemma DeliversIfHolds(s: seq<byte>)
    ensures Parse(s).frames != [] <==> HoldsFrame(s)
  {
    hide Parse, FrameAt;
    if Parse(s).frames != [] {
      DeliveredFrame(s);
    }
    if HoldsFrame(s) {
      var k, f :| FrameAt(s, k, f);
      FrameDelivered(s, k, f);
    }
  }

  lemma FrameDelivered(s: seq<byte>, k: nat, f: Frame)
    requires FrameAt(s, k, f)
    ensures Parse(s).frames != []
  {
    hide Parse, Encode, KnownType, Join;
    var g, w, t := s[..k], s[k..], s[k + |Encode(f)|..];
    assert s == g + w && w == Encode(f) + t;
    StartsWithSof(f);
    SyncedReads(g, w);
    ParseEncode(f, t);
    NotEmpty(Parse(g), f, Parse(t));
  }

  lemma StartsWithSof(f: Frame)
    requires Encodable(f)
    ensures Encode(f) != [] && Encode(f)[0] == SOF
  {
    hide Crc16.Crc;
  }

  lemma NotEmpty(a: Outcome, f: Frame, b: Outcome)
    ensures Join(a, Join(Good([f]), b)).frames != []
  {
  }

  lemma {:induction false} DeliveredFrame(s: seq<byte>)
    requires Parse(s).frames != []
    ensures HoldsFrame(s)
    decreases |s|
  {
    hide Parse, FrameAt, FirstToken, Effect, Encode, Sendable;
    ParseEmpty();
    RestIsQuiet(s);
    var t := FirstToken(s);
    ParseToken(s);
    TokenSound(s);
    if Effect(t, s).frames != [] {
      var f :| Sendable(f) && Effect(t, s).frames == [f] && Encode(f) == s[..t.n];
      FoundFirst(s, f);
    } else {
      DeliveredFrame(s[t.n..]);
      var k, f :| FrameAt(s[t.n..], k, f);
      FoundLater(s, k, f);
    }
  }

  lemma RestIsQuiet(s: seq<byte>)
    requires Parse(s).frames != []
    ensures s != [] && !FirstToken(s).NeedMore?
  {
    hide FirstToken, Effect, Join;
  }

  lemma FoundFirst(s: seq<byte>, f: Frame)
    requires Sendable(f) && |Encode(f)| <= |s| && Encode(f) == s[..|Encode(f)|]
    ensures FrameAt(s, 0, f)
  {
    hide Parse, Encode, KnownType;
    ParseEmpty();
    assert s[..0] == [];
  }

  /** What stands behind the first token stands in the whole stream, and the decoder is as much between frames there. */
  lemma FoundLater(s: seq<byte>, k: nat, f: Frame)
    requires s != [] && !FirstToken(s).NeedMore? && FrameAt(s[FirstToken(s).n..], k, f)
    ensures FrameAt(s, FirstToken(s).n + k, f)
  {
    hide Parse, Encode, KnownType, FirstToken, Effect;
    var n := FirstToken(s).n;
    var g := s[..n + k];
    assert s[n..][..k] == g[n..] && s[n..][k..k + |Encode(f)|] == s[n + k..n + k + |Encode(f)|];
    TokenOfPrefix(s, n + k);
    if g != [SOF] {
      ParseToken(g);
    } else {
      LoneSof();
    }
  }

  lemma LoneSof()
    ensures Parse([SOF]).rest == [SOF]
  {
    hide Judge;
  }

  /** Cutting a stream behind its first token keeps the token, but for a SOF read only together with the SOF after it. */
  lemma TokenOfPrefix(s: seq<byte>, m: nat)
    requires s != [] && !FirstToken(s).NeedMore? && FirstToken(s).n <= m <= |s|
    ensures s[..m] == [SOF] || FirstToken(s[..m]) == FirstToken(s)
  {
    hide LenField;
    if m == 1 {
      assert s[..m] == [s[0]];
    }
  }
}
