/**
 * The ground station's decoder: it buffers header, payload and checksum octets and computes the checksum once, at the
 * end of the frame. It refines the same whole-stream parser as the node's decoder, so the two agree on every stream.
 */
module HostDecoder {
  import opened Bytes
  import opened Crc16
  import opened Frame
  import opened Framing
  import Decoder

  datatype State = HuntSof | GotSof | Hdr | Payload | Checksum

  datatype Fields = Fields(state: State, typ: byte, seqNo: byte, len: nat, hdrBytes: seq<byte>, payloadGot: nat,
                           crcBytes: seq<byte>, buf: seq<byte>)

  datatype Stats = Stats(delivered: nat, crcErr: nat, lenErr: nat, verErr: nat, unknownType: nat)

  function StatsOf(o: Outcome): Stats {
    Stats(|o.frames|, o.crcErrs, o.lenErrs, o.verErrs, o.unknown)
  }

  /** The fields hold exactly the waiting octets r of an unfinished frame. */
  predicate Holds(d: Fields, r: seq<byte>) {
    && |d.buf| == MAX_PAYLOAD
    && Pending(r)
    && match d.state
       case HuntSof => r == []
       case GotSof => r == [SOF]
       case Hdr => 2 <= |r| < 6 && d.hdrBytes == r[2..]
       case Payload => HoldsPayload(d, r)
       case Checksum => HoldsChecksum(d, r)
  }

  predicate HeaderDone(d: Fields, r: seq<byte>) {
    && 6 <= |r| && r[1] == VER && d.typ == r[2] && d.seqNo == r[3] && d.len == LenField(r[4], r[5]) <= MAX_PAYLOAD
    && |d.buf| == MAX_PAYLOAD
  }

  predicate HoldsPayload(d: Fields, r: seq<byte>) {
    HeaderDone(d, r) && |r| == 6 + d.payloadGot < 6 + d.len && d.buf[..d.payloadGot] == r[6..]
  }

  predicate HoldsChecksum(d: Fields, r: seq<byte>) {
    HeaderDone(d, r) && 6 + d.len <= |r| < 8 + d.len && d.buf[..d.len] == r[6..6 + d.len] && d.crcBytes == r[6 + d.len..]
  }

  function Hunting(d: Fields): Fields {
    Fields(HuntSof, 0, 0, 0, [], 0, [], d.buf)
  }

  function NextHdr(d: Fields, b: byte): (Fields, Outcome)
    requires |d.hdrBytes| < 4
  {
    var h := d.hdrBytes + [b];
    if |h| < 4 then (d.(hdrBytes := h), NOTHING)
    else
      var e := d.(hdrBytes := h, typ := h[0], seqNo := h[1], len := LenField(h[2], h[3]));
      if e.len > MAX_PAYLOAD then (Hunting(d), NOTHING.(lenErrs := 1))
      else if e.len == 0 then (e.(state := Checksum, crcBytes := []), NOTHING)
      else (e.(state := Payload, payloadGot := 0), NOTHING)
  }

  function NextPayload(d: Fields, b: byte): Fields
    requires d.payloadGot < |d.buf|
  {
    var e := d.(buf := d.buf[d.payloadGot := b], payloadGot := d.payloadGot + 1);
    if e.payloadGot == e.len then e.(state := Checksum, crcBytes := []) else e
  }

  function Finish(d: Fields): Outcome
    requires d.len <= MAX_PAYLOAD == |d.buf| && |d.crcBytes| == 2
  {
    var f := Frame(d.typ, d.seqNo, d.buf[..d.len]);
    if Crc(CRC_INIT, Covered(f)) != Word(d.crcBytes[0], d.crcBytes[1]) then NOTHING.(crcErrs := 1)
    else if !KnownType(d.typ) then NOTHING.(unknown := 1)
    else NOTHING.(frames := [f])
  }

  lemma HdrHolds(d: Fields, r: seq<byte>, b: byte)
    requires Holds(d, r) && d.state == Hdr
    ensures |d.hdrBytes| < 4
    ensures var (e, o) := NextHdr(d, b); var p := Parse(r + [b]);
            Holds(e, p.rest) && o.(rest := p.rest) == p
  {
    hide Parse, Pending, LenField;
    ParseInHeader(r, b);
    WaitingStarts(r);
    var s := r + [b];
    assert s[2..] == d.hdrBytes + [b];
    if |r| == 5 {
      assert s[6..] == [] && s[6..6] == [];
    }
  }

  lemma WaitingStarts(r: seq<byte>)
    requires Pending(r) && 2 <= |r|
    ensures r[0] == SOF && r[1] == VER
  {
  }

  lemma PayloadHolds(d: Fields, r: seq<byte>, b: byte)
    requires Holds(d, r) && d.state == Payload
    ensures d.payloadGot < |d.buf| && Parse(r + [b]) == Waiting(r + [b])
    ensures Holds(NextPayload(d, b), r + [b])
  {
    hide Parse, Pending, LenField;
    var s := r + [b];
    ParseInBody(r, b);
    assert s[6..] == r[6..] + [b];
    var e := NextPayload(d, b);
    assert e.buf[..e.payloadGot] == s[6..];
    if e.payloadGot == d.len {
      assert s[6..6 + d.len] == s[6..] && s[6 + d.len..] == [];
    }
  }

  lemma ChecksumHolds(d: Fields, r: seq<byte>, b: byte)
    requires Holds(d, r) && d.state == Checksum
    ensures var e := d.(crcBytes := d.crcBytes + [b]); var p := Parse(r + [b]);
            if |e.crcBytes| == 2 then d.len <= MAX_PAYLOAD && Finish(e).(rest := []) == p && Pending(p.rest)
            else Holds(e, p.rest) && p == Waiting(p.rest)
  {
    hide Parse, Pending, LenField, Judge, Finish;
    var s := r + [b];
    ParseInBody(r, b);
    WaitingStarts(r);
    assert s[6..6 + d.len] == r[6..6 + d.len] && s[6 + d.len..] == d.crcBytes + [b];
    if |r| == 7 + d.len {
      FinishJudges(d.(crcBytes := d.crcBytes + [b]), s);
    }
  }

  /** The checksum recomputed from the buffered fields is the one over the octets received. */
  lemma FinishJudges(e: Fields, w: seq<byte>)
    requires HeaderDone(e, w) && |w| == 8 + e.len && e.buf[..e.len] == w[6..6 + e.len] && e.crcBytes == w[6 + e.len..]
    ensures Finish(e) == Judge(w) && Judge(w).rest == []
  {
    hide Crc, Word, KnownType, LenField, Covered;
    CoveredOctets(w);
  }

  // ---- The step in any state ----

  /** What each state needs in order to take another octet. */
  predicate Ready(d: Fields) {
    match d.state
    case Hdr => |d.hdrBytes| < 4
    case Payload => d.payloadGot < |d.buf|
    case Checksum => d.len <= MAX_PAYLOAD == |d.buf| && |d.crcBytes| < 2
    case _ => true
  }

  function NextChecksum(d: Fields, b: byte): (Fields, Outcome)
    requires d.len <= MAX_PAYLOAD == |d.buf| && |d.crcBytes| < 2
  {
    var e := d.(crcBytes := d.crcBytes + [b]);
    if |e.crcBytes| == 2 then (Hunting(e), Finish(e)) else (e, NOTHING)
  }

  function NextVersion(d: Fields, b: byte): (Fields, Outcome) {
    if b == VER then (d.(state := Hdr, hdrBytes := []), NOTHING)
    else if b == SOF then (d, NOTHING)
    else (Hunting(d), NOTHING.(verErrs := 1))
  }

  function Next(d: Fields, b: byte): (Fields, Outcome)
    requires Ready(d)
  {
    match d.state
    case HuntSof => (if b == SOF then d.(state := GotSof) else d, NOTHING)
    case GotSof => NextVersion(d, b)
    case Hdr => NextHdr(d, b)
    case Payload => (NextPayload(d, b), NOTHING)
    case Checksum => NextChecksum(d, b)
  }

  /** If the fields hold the waiting octets, so do the next ones hold what waits after one more octet. */
  lemma NextHolds(d: Fields, r: seq<byte>, b: byte)
    requires Holds(d, r)
    ensures Ready(d)
    ensures var (e, o) := Next(d, b); var p := Parse(r + [b]); Holds(e, p.rest) && o.(rest := p.rest) == p
  {
    hide Parse, LenField, Judge, Finish, KnownType, Pending, HoldsPayload, HoldsChecksum;
    match d.state {
      case HuntSof =>
        ParseAfterNothing(b);
        assert [] + [b] == [b];
      case GotSof =>
        ParseAfterSof(b);
      case Hdr =>
        HdrHolds(d, r, b);
      case Payload =>
        PayloadHolds(d, r, b);
      case Checksum =>
        ChecksumHolds(d, r, b);
        ChecksumReady(d, r);
    }
  }

  lemma ChecksumReady(d: Fields, r: seq<byte>)
    requires HoldsChecksum(d, r)
    ensures d.len <= MAX_PAYLOAD == |d.buf| && |d.crcBytes| < 2
  {
    hide LenField;
  }

  /** Reading one more octet extends the whole stream's outcome by that of the waiting octets. */
  lemma OneMore(c: seq<byte>, b: byte, o: Outcome)
    requires var p := Parse(Parse(c).rest + [b]); o.(rest := p.rest) == p
    ensures Parse(c + [b]).rest == Parse(Parse(c).rest + [b]).rest
    ensures Parse(c + [b]).frames == Join(Parse(c), o).frames && StatsOf(Parse(c + [b])) == StatsOf(Join(Parse(c), o))
  {
    hide Parse;
    ParseConcat(c, [b]);
  }

  /** Nothing happening changes nothing that is reported. */
  lemma Quiet(o: Outcome)
    ensures Join(o, NOTHING).frames == o.frames && StatsOf(Join(o, NOTHING)) == StatsOf(o)
  {
  }

  class HostDecoder {
    var state: State
    var typ: byte
    var seqNo: byte
    var len: nat
    var hdrBytes: seq<byte>
    var payloadGot: nat
    var crcBytes: seq<byte>
    const buf: array<byte>
    var stats: Stats
    var delivered: seq<Frame>       // what the callback has been handed
    ghost var consumed: seq<byte>   // every octet pushed so far

    ghost function View(): Fields
      reads this, buf
    {
      Fields(state, typ, seqNo, len, hdrBytes, payloadGot, crcBytes, buf[..])
    }

    ghost predicate Reported(o: Outcome)
      reads this
    {
      delivered == o.frames && stats == StatsOf(o)
    }

    ghost predicate Valid()
      reads this, buf
    {
      Holds(View(), Parse(consumed).rest) && Reported(Parse(consumed))
    }

    constructor ()
      ensures Valid() && consumed == [] && fresh(buf)
    {
      state, typ, seqNo, len, hdrBytes, payloadGot, crcBytes := HuntSof, 0, 0, 0, [], 0, [];
      buf := new byte[MAX_PAYLOAD];
      stats, delivered, consumed := Stats(0, 0, 0, 0, 0), [], [];
    }

    method ResetHunt()
      modifies this`state, this`typ, this`seqNo, this`len, this`hdrBytes, this`payloadGot, this`crcBytes
      ensures View() == Hunting(old(View()))
      ensures stats == old(stats) && delivered == old(delivered) && consumed == old(consumed)
    {
      state, typ, seqNo, len, hdrBytes, payloadGot, crcBytes := HuntSof, 0, 0, 0, [], 0, [];
    }

    /** Feed one octet. */
    method Push(b: byte)
      requires Valid()
      modifies this, buf
      ensures Valid() && consumed == old(consumed) + [b]
    {
      hide Parse, Holds, Next, Join, StatsOf, Ready;
      ghost var before, d := Parse(consumed), View();
      NextHolds(d, before.rest, b);
      OneMore(consumed, b, Next(d, b).1);
      Dispatch(b, before);
      consumed := consumed + [b];
    }

    method Dispatch(b: byte, ghost before: Outcome)
      requires Ready(View()) && Reported(before)
      modifies this, buf
      ensures View() == Next(old(View()), b).0 && consumed == old(consumed)
      ensures Reported(Join(before, Next(old(View()), b).1))
    {
      hide NextHdr, NextVersion, NextPayload, NextChecksum, Hunting, StatsOf;
      Quiet(before);
      match state {
        case HuntSof =>
          if b == SOF {
            state := GotSof;
          }
        case GotSof => PushVersion(b, before);
        case Hdr => PushHdr(b, before);
        case Payload => PushPayload(b);
        case Checksum => PushChecksum(b, before);
      }
    }

    method PushVersion(b: byte, ghost before: Outcome)
      requires state == GotSof && Reported(before)
      modifies this`state, this`typ, this`seqNo, this`len, this`hdrBytes, this`payloadGot, this`crcBytes, this`stats
      ensures View() == NextVersion(old(View()), b).0
      ensures Reported(Join(before, NextVersion(old(View()), b).1))
    {
      if b == VER {
        state, hdrBytes := Hdr, [];
      } else if b != SOF {
        stats := stats.(verErr := stats.verErr + 1);
        ResetHunt();
      }
    }

    method PushHdr(b: byte, ghost before: Outcome)
      requires |hdrBytes| < 4 && Reported(before)
      modifies this
      ensures View() == NextHdr(old(View()), b).0 && consumed == old(consumed)
      ensures Reported(Join(before, NextHdr(old(View()), b).1))
    {
      hide LenField;
      hdrBytes := hdrBytes + [b];
      if |hdrBytes| == 4 {
        TakeHeader();
        if len > MAX_PAYLOAD {
          stats := stats.(lenErr := stats.lenErr + 1);
          ResetHunt();
        } else if len == 0 {
          state, crcBytes := Checksum, [];
        } else {
          state, payloadGot := Payload, 0;
        }
      }
    }

    method TakeHeader()
      requires |hdrBytes| == 4
      modifies this`typ, this`seqNo, this`len
      ensures var was := old(View());
              View() == was.(typ := was.hdrBytes[0], seqNo := was.hdrBytes[1], len := LenField(was.hdrBytes[2], was.hdrBytes[3]))
      ensures stats == old(stats) && delivered == old(delivered) && consumed == old(consumed)
    {
      hide LenField;
      typ, seqNo, len := hdrBytes[0], hdrBytes[1], LenField(hdrBytes[2], hdrBytes[3]);
    }

    method PushPayload(b: byte)
      requires payloadGot < buf.Length && state == Payload
      modifies this, buf
      ensures View() == NextPayload(old(View()), b)
      ensures stats == old(stats) && delivered == old(delivered) && consumed == old(consumed)
    {
      buf[payloadGot] := b;
      payloadGot := payloadGot + 1;
      if payloadGot == len {
        state, crcBytes := Checksum, [];
      }
    }

    method PushChecksum(b: byte, ghost before: Outcome)
      requires len <= MAX_PAYLOAD == buf.Length && |crcBytes| < 2 && Reported(before)
      modifies this
      ensures View() == NextChecksum(old(View()), b).0 && consumed == old(consumed)
      ensures Reported(Join(before, NextChecksum(old(View()), b).1))
    {
      hide Finish;
      crcBytes := crcBytes + [b];
      if |crcBytes| == 2 {
        FinishFrame(before);
      }
    }

    method FinishFrame(ghost before: Outcome)
      requires len <= MAX_PAYLOAD == buf.Length && |crcBytes| == 2 && Reported(before)
      modifies this
      ensures View() == Hunting(old(View())) && consumed == old(consumed)
      ensures Reported(Join(before, Finish(old(View()))))
    {
      hide KnownType, Word, Covered;
      var f := Frame(typ, seqNo, buf[..len]);
      var computed := Crc16Ccitt(CRC_INIT, Covered(f));
      if computed != Word(crcBytes[0], crcBytes[1]) {
        stats := stats.(crcErr := stats.crcErr + 1);
        ResetHunt();
        return;
      }
      if !KnownType(typ) {
        stats := stats.(unknownType := stats.unknownType + 1);
        ResetHunt();
        return;
      }
      stats := stats.(delivered := stats.delivered + 1);
      ResetHunt();
      delivered := delivered + [f];
    }
  }

  /** Fed the same octets, the node and the ground station deliver the same frames and count the same errors. */
  method DecodeBoth(stream: seq<byte>) returns (node: Decoder.Tally, host: seq<Frame>, stats: Stats)
    ensures node.frames == host == Parse(stream).frames && stats.delivered == |host|
    ensures node.crcErr == stats.crcErr % 0x1_0000_0000
    ensures node.lenErr == stats.lenErr % 0x1_0000_0000
    ensures node.unknownType == stats.unknownType % 0x1_0000_0000
  {
    hide Parse, Holds, Decoder.Holds;
    var c := new Decoder.Decoder();
    var h := new HostDecoder();
    for i := 0 to |stream|
      invariant c.Valid() && h.Valid() && fresh(c) && fresh(c.payload) && fresh(h) && fresh(h.buf)
      invariant c.consumed == h.consumed == stream[..i]
    {
      c.Push(stream[i]);
      h.Push(stream[i]);
      assert stream[..i + 1] == stream[..i] + [stream[i]];
    }
    assert stream[..|stream|] == stream;
    node := Decoder.Tally(c.delivered, c.crcErr, c.lenErr, c.unknownType);
    host, stats := h.delivered, h.stats;
  }
}
