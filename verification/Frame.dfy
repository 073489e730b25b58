/** The wire format: frames, their encoding, and a parser that reads a whole byte stream at once. */
module Frame {
  import opened Bytes
  import opened Crc16

  const SOF: byte := 0x7E
  const VER: byte := 0x01
  const MAX_PAYLOAD: nat := 64
  const FRAME_MAX: nat := 72

  datatype Frame = Frame(typ: byte, seqNo: byte, payload: seq<byte>)

  predicate KnownType(t: byte) {
    // DATA, ACK, NAK, CMD, HEARTBEAT, CFG_WRITE
    t == 1 || t == 2 || t == 3 || t == 4 || t == 5 || t == 6
  }

  predicate Encodable(f: Frame) {
    |f.payload| <= MAX_PAYLOAD
  }

  predicate Sendable(f: Frame) {
    Encodable(f) && KnownType(f.typ)
  }

  /** The octets the checksum covers: VER, TYPE, SEQ, LEN (big endian), PAYLOAD. */
  function Covered(f: Frame): (s: seq<byte>)
    requires Encodable(f)
    ensures |s| == 5 + |f.payload|
  {
    [VER, f.typ, f.seqNo, 0, |f.payload| as bv8] + f.payload
  }

  function Encode(f: Frame): (s: seq<byte>)
    requires Encodable(f)
    ensures |s| == 8 + |f.payload| <= FRAME_MAX
  {
    var crc := Crc(CRC_INIT, Covered(f));
    [SOF] + Covered(f) + [Hi(crc), Lo(crc)]
  }

  /** The LEN field of a header. */
  function LenField(hi: byte, lo: byte): nat {
    256 * (hi as nat) + lo as nat
  }

  lemma LenRoundTrip(n: nat)
    requires n <= MAX_PAYLOAD
    ensures LenField(0, n as bv8) == n
  {
  }

  lemma LenFieldSmall(hi: byte, lo: byte)
    requires LenField(hi, lo) <= MAX_PAYLOAD
    ensures hi == 0 && LenField(hi, lo) as bv8 == lo
  {
    HighZero(hi);
    LowBack(lo);
  }

  lemma HighZero(hi: byte)
    requires hi as nat == 0
    ensures hi == 0
  {
  }

  lemma LowBack(lo: byte)
    ensures (lo as nat) as bv8 == lo
  {
  }

  // ---- Whole-stream parsing ----

  /** What the start of a non-empty stream amounts to, and how many octets that takes up. */
  datatype Token =
    | NeedMore
    | Skip(n: nat)         // not the start of a frame
    | BadVersion(n: nat)
    | BadLength(n: nat)
    | Complete(n: nat)     // a whole frame, whose checksum is still to be judged

  function FirstToken(s: seq<byte>): (t: Token)
    requires s != []
    ensures !t.NeedMore? ==> 0 < t.n <= |s|
    ensures t.Complete? ==> 8 <= t.n <= FRAME_MAX && s[0] == SOF && s[1] == VER && LenField(s[4], s[5]) == t.n - 8
  {
    if s[0] != SOF then Skip(1)
    else if |s| == 1 then NeedMore
    else if s[1] == SOF then Skip(1)
    else if s[1] != VER then BadVersion(2)
    else if |s| < 6 then NeedMore
    else if LenField(s[4], s[5]) > MAX_PAYLOAD then BadLength(6)
    else if |s| < 8 + LenField(s[4], s[5]) then NeedMore
    else Complete(8 + LenField(s[4], s[5]))
  }

  /** Everything observable about reading a stream, and the octets still waiting for the rest of their frame. */
  datatype Outcome = Outcome(frames: seq<Frame>, crcErrs: nat, lenErrs: nat, verErrs: nat, unknown: nat,
                             rest: seq<byte>)

  const NOTHING := Outcome([], 0, 0, 0, 0, [])

  function Waiting(s: seq<byte>): Outcome {
    NOTHING.(rest := s)
  }

  function Join(a: Outcome, b: Outcome): Outcome {
    Outcome(a.frames + b.frames, a.crcErrs + b.crcErrs, a.lenErrs + b.lenErrs, a.verErrs + b.verErrs,
            a.unknown + b.unknown, b.rest)
  }

  /** The fate of one complete frame image w. */
  function Judge(w: seq<byte>): Outcome
    requires 8 <= |w|
  {
    var n := |w| - 2;
    if Crc(CRC_INIT, w[1..n]) != Word(w[n], w[n + 1]) then NOTHING.(crcErrs := 1)
    else if !KnownType(w[2]) then NOTHING.(unknown := 1)
    else NOTHING.(frames := [Frame(w[2], w[3], w[6..n])])
  }

  function Effect(t: Token, s: seq<byte>): Outcome
    requires t.Complete? ==> 8 <= t.n <= |s|
  {
    match t
    case BadVersion(_) => NOTHING.(verErrs := 1)
    case BadLength(_) => NOTHING.(lenErrs := 1)
    case Complete(n) => Judge(s[..n])
    case _ => NOTHING
  }

  function Parse(s: seq<byte>): Outcome
    decreases |s|
  {
    if s == [] then NOTHING
    else
      var t := FirstToken(s);
      if t.NeedMore? then Waiting(s) else Join(Effect(t, s), Parse(s[t.n..]))
  }

  lemma ParseToken(s: seq<byte>)
    requires s != [] && !FirstToken(s).NeedMore?
    ensures Parse(s) == Join(Effect(FirstToken(s), s), Parse(s[FirstToken(s).n..]))
  {
  }

  // ---- Streaming: reading a stream in two parts is reading it whole ----

  lemma TokenStable(s: seq<byte>, t: seq<byte>)
    requires s != [] && !FirstToken(s).NeedMore?
    ensures FirstToken(s + t) == FirstToken(s)
    ensures Effect(FirstToken(s), s + t) == Effect(FirstToken(s), s)
  {
    var k := FirstToken(s);
    if k.Complete? {
      assert (s + t)[..k.n] == s[..k.n];
    }
  }

  lemma JoinAssoc(a: Outcome, b: Outcome, c: Outcome)
    ensures Join(a, Join(b, c)) == Join(Join(a, b), c)
  {
  }

  lemma JoinNothing(a: Outcome, b: Outcome)
    ensures Join(NOTHING, b) == b && Join(NOTHING.(rest := a.rest), b) == b
    ensures Join(a, b).rest == b.rest
  {
  }

  /** Reading a stream in two parts, the second preceded by what the first left over, is reading it whole. */
  lemma {:induction false} ParseConcat(s: seq<byte>, t: seq<byte>)
    ensures Parse(s + t) == Join(Parse(s), Parse(Parse(s).rest + t))
    decreases |s|
  {
    hide FirstToken, Effect, Join;
    if s == [] {
      assert s + t == t == [] + t;
      JoinNothing(NOTHING, Parse(t));
    } else if FirstToken(s).NeedMore? {
      JoinNothing(Waiting(s), Parse(s + t));
    } else {
      var n := FirstToken(s).n;
      TokenStable(s, t);
      assert (s + t)[n..] == s[n..] + t;
      ParseConcat(s[n..], t);
      var e := Effect(FirstToken(s), s);
      JoinNothing(e, Parse(s[n..]));
      JoinAssoc(e, Parse(s[n..]), Parse(Parse(s).rest + t));
    }
  }

  /** The unread remainder is empty, or the start of a frame that has not arrived in full. */
  lemma {:induction false} RestWaits(s: seq<byte>)
    ensures Parse(s).rest == [] || FirstToken(Parse(s).rest).NeedMore?
    ensures Parse(Parse(s).rest) == Waiting(Parse(s).rest)
    decreases |s|
  {
    hide FirstToken, Effect;
    if s != [] && !FirstToken(s).NeedMore? {
      RestWaits(s[FirstToken(s).n..]);
    }
  }
}
