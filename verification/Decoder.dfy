/** The node's byte-at-a-time decoder, refining the whole-stream parser. */
module Decoder {
  import opened Bytes
  import opened Crc16
  import opened Frame
  import opened Framing

  datatype State = HuntSof | Version | Header | Payload | Checksum

  datatype Fields = Fields(state: State, typ: byte, seqNo: byte, len: nat, payloadIdx: nat, hdrIdx: nat, crcIdx: nat,
                           crcCalc: bv16, crcRx: bv16, payload: seq<byte>)

  /** What a decoder reports: the frames handed to the callback, and its wrapping 32-bit counters. */
  datatype Tally = Tally(frames: seq<Frame>, crcErr: u32, lenErr: u32, unknownType: u32)

  const NO_TALLY := Tally([], 0, 0, 0)

  function Plus(t: Tally, o: Outcome): Tally {
    Tally(t.frames + o.frames, Add32(t.crcErr, o.crcErrs), Add32(t.lenErr, o.lenErrs), Add32(t.unknownType, o.unknown))
  }

  lemma PlusJoin(t: Tally, a: Outcome, b: Outcome)
    ensures Plus(Plus(t, a), b) == Plus(t, Join(a, b))
    ensures Join(a, b).rest == b.rest
  {
  }

  lemma PlusQuiet(t: Tally, o: Outcome)
    requires o.frames == [] && o.crcErrs == o.lenErrs == o.unknown == 0
    ensures Plus(t, o) == t
  {
  }

  lemma PlusIgnoresRest(t: Tally, o: Outcome, p: Outcome)
    requires o.(rest := p.rest) == p
    ensures Plus(t, o) == Plus(t, p)
  {
  }

  // ---- The fields against the waiting octets ----

  /** The fields hold exactly the waiting octets r of an unfinished frame. */
  predicate Holds(d: Fields, r: seq<byte>) {
    && |d.payload| == MAX_PAYLOAD
    && Pending(r)
    && match d.state
       case HuntSof => r == []
       case Version => r == [SOF] && d.crcCalc == CRC_INIT && d.hdrIdx == d.crcIdx == 0 && d.crcRx == 0
       case Header => HoldsHeader(d, r)
       case Payload => HoldsPayload(d, r)
       case Checksum => HoldsChecksum(d, r)
  }

  predicate HoldsHeader(d: Fields, r: seq<byte>) {
    && 2 <= |r| < 6 && d.hdrIdx == |r| - 2 && d.crcIdx == 0 && d.crcRx == 0
    && d.crcCalc == Crc(CRC_INIT, r[1..])
    && (d.hdrIdx > 0 ==> d.typ == r[2])
    && (d.hdrIdx > 1 ==> d.seqNo == r[3])
    && (d.hdrIdx > 2 ==> d.len == LenField(r[4], 0))
  }

  predicate HeaderDone(d: Fields, r: seq<byte>) {
    && 6 <= |r| && d.typ == r[2] && d.seqNo == r[3] && d.len == LenField(r[4], r[5]) <= MAX_PAYLOAD
    && |d.payload| == MAX_PAYLOAD
  }

  predicate HoldsPayload(d: Fields, r: seq<byte>) {
    && HeaderDone(d, r) && |r| == 6 + d.payloadIdx < 6 + d.len && d.crcIdx == 0 && d.crcRx == 0
    && d.payload[..d.payloadIdx] == r[6..]
    && d.crcCalc == Crc(CRC_INIT, r[1..])
  }

  predicate HoldsChecksum(d: Fields, r: seq<byte>) {
    && HeaderDone(d, r) && |r| == 6 + d.len + d.crcIdx < 8 + d.len
    && d.payload[..d.len] == r[6..6 + d.len]
    && d.crcCalc == Crc(CRC_INIT, r[1..6 + d.len])
    && d.crcRx == if d.crcIdx == 0 then 0 else r[6 + d.len] as bv16
  }

  // ---- One octet, on values ----

  function Started(d: Fields): Fields {
    d.(crcCalc := CRC_INIT, hdrIdx := 0, payloadIdx := 0, crcIdx := 0, crcRx := 0, len := 0, state := Version)
  }

  function WithHeaderOctet(d: Fields, b: byte): Fields {
    var e := d.(crcCalc := Crc(d.crcCalc, [b]), hdrIdx := d.hdrIdx + 1);
    if d.hdrIdx == 0 then e.(typ := b)
    else if d.hdrIdx == 1 then e.(seqNo := b)
    else if d.hdrIdx == 2 then e.(len := LenField(b, 0))
    else e.(len := d.len + b as nat)
  }

  function NextHeader(d: Fields, b: byte): (Fields, Outcome) {
    var e := WithHeaderOctet(d, b);
    if e.hdrIdx < 4 then (e, NOTHING)
    else if e.len > MAX_PAYLOAD then (e.(state := HuntSof), NOTHING.(lenErrs := 1))
    else if e.len == 0 then (e.(state := Checksum), NOTHING)
    else (e.(payloadIdx := 0, state := Payload), NOTHING)
  }

  function NextPayload(d: Fields, b: byte): Fields
    requires d.payloadIdx < |d.payload|
  {
    d.(crcCalc := Crc(d.crcCalc, [b]), payload := d.payload[d.payloadIdx := b], payloadIdx := d.payloadIdx + 1,
       state := if d.payloadIdx + 1 >= d.len then Checksum else Payload)
  }

  function ShiftIn(w: bv16, b: byte): bv16 {
    (w << 8) | b as bv16
  }

  function NextChecksum(d: Fields, b: byte): (Fields, Outcome)
    requires d.len <= |d.payload|
  {
    var e := d.(crcRx := ShiftIn(d.crcRx, b), crcIdx := d.crcIdx + 1);
    if e.crcIdx < 2 then (e, NOTHING) else (e.(state := HuntSof), Finish(e))
  }

  function Finish(e: Fields): Outcome
    requires e.len <= |e.payload|
  {
    if e.crcRx != e.crcCalc then NOTHING.(crcErrs := 1)
    else if !KnownType(e.typ) then NOTHING.(unknown := 1)
    else NOTHING.(frames := [Frame(e.typ, e.seqNo, e.payload[..e.len])])
  }

  // ---- ... and what it makes of the waiting octets ----

  lemma CrcOneMore(s: seq<byte>, b: byte)
    ensures Crc(Crc(CRC_INIT, s), [b]) == Crc(CRC_INIT, s + [b])
  {
    hide Crc;
    CrcConcat(CRC_INIT, s, [b]);
  }

  lemma CrcNone(seed: bv16)
    ensures Crc(seed, []) == seed
  {
  }

  lemma VersionHolds(d: Fields)
    requires |d.payload| == MAX_PAYLOAD && d.crcCalc == CRC_INIT && d.hdrIdx == d.crcIdx == 0 && d.crcRx == 0
    ensures Holds(d.(crcCalc := Crc(d.crcCalc, [VER]), state := Header), [SOF, VER])
  {
    hide Crc;
    CrcNone(CRC_INIT);
    CrcOneMore([], VER);
    assert [] + [VER] == [VER] == [SOF, VER][1..];
  }

  lemma LenLow(hi: byte, lo: byte)
    ensures LenField(hi, lo) == LenField(hi, 0) + lo as nat
  {
  }

  lemma HeaderHolds(d: Fields, r: seq<byte>, b: byte)
    requires Holds(d, r) && d.state == Header
    ensures var (e, o) := NextHeader(d, b); var p := Parse(r + [b]);
            Holds(e, p.rest) && o.(rest := p.rest) == p
  {
    hide Parse, Pending, Crc, LenField;
    ParseInHeader(r, b);
    if |r| == 5 {
      HeaderCompleted(d, r, b);
    } else {
      HeaderContinues(d, r, b);
    }
  }

  lemma HeaderContinues(d: Fields, r: seq<byte>, b: byte)
    requires HoldsHeader(d, r) && |r| < 5
    ensures NextHeader(d, b) == (WithHeaderOctet(d, b), NOTHING) && HoldsHeader(WithHeaderOctet(d, b), r + [b])
  {
    hide Crc, LenField;
    assert (r + [b])[1..] == r[1..] + [b];
    CrcOneMore(r[1..], b);
  }

  lemma HeaderCompleted(d: Fields, r: seq<byte>, b: byte)
    requires HoldsHeader(d, r) && |r| == 5 && |d.payload| == MAX_PAYLOAD
    ensures var (e, o) := NextHeader(d, b); var n := LenField(r[4], b);
            if n > MAX_PAYLOAD then e.state == HuntSof && o == NOTHING.(lenErrs := 1)
            else && o == NOTHING
                 && if n == 0 then e.state == Checksum && HoldsChecksum(e, r + [b])
                    else e.state == Payload && HoldsPayload(e, r + [b])
  {
    hide Crc, LenField;
    var s := r + [b];
    assert s[1..] == r[1..] + [b] && s[6..] == [] && s[6..6] == [] && s[1..6] == s[1..];
    CrcOneMore(r[1..], b);
    LenLow(r[4], b);
  }

  lemma PayloadHolds(d: Fields, r: seq<byte>, b: byte)
    requires Holds(d, r) && d.state == Payload
    ensures d.payloadIdx < |d.payload| && Parse(r + [b]) == Waiting(r + [b])
    ensures Holds(NextPayload(d, b), r + [b])
  {
    hide Parse, Pending, Crc, LenField;
    var s := r + [b];
    ParseInBody(r, b);
    assert s[1..] == r[1..] + [b] && s[6..] == r[6..] + [b];
    CrcOneMore(r[1..], b);
    var e := NextPayload(d, b);
    assert e.payload[..e.payloadIdx] == s[6..];
    if e.payloadIdx >= d.len {
      assert s[6..6 + d.len] == s[6..] && s[1..6 + d.len] == s[1..];
    }
  }

  lemma ChecksumJoins(hi: byte, lo: byte)
    ensures ShiftIn(0, hi) == hi as bv16 && ShiftIn(hi as bv16, lo) == Word(hi, lo)
  {
  }

  lemma ChecksumHolds(d: Fields, r: seq<byte>, b: byte)
    requires Holds(d, r) && d.state == Checksum
    ensures d.len <= |d.payload|
    ensures var (e, o) := NextChecksum(d, b); var p := Parse(r + [b]);
            Holds(e, p.rest) && o.(rest := p.rest) == p
  {
    hide Parse, Pending, HoldsChecksum, ShiftIn, Finish, Judge, LenField;
    ChecksumLength(d, r);
    ParseInBody(r, b);
    if d.crcIdx == 0 {
      FirstChecksumOctet(d, r, b);
    } else {
      SecondChecksumOctet(d, r, b);
      JudgeRest(r + [b]);
    }
  }

  lemma ChecksumLength(d: Fields, r: seq<byte>)
    requires HoldsChecksum(d, r)
    ensures 6 <= |r| && d.len == LenField(r[4], r[5]) <= |d.payload| && |r| == 6 + d.len + d.crcIdx && d.crcIdx < 2
  {
    hide Crc, LenField;
  }

  lemma FirstChecksumOctet(d: Fields, r: seq<byte>, b: byte)
    requires HoldsChecksum(d, r) && d.crcIdx == 0
    ensures HoldsChecksum(d.(crcRx := ShiftIn(d.crcRx, b), crcIdx := 1), r + [b])
  {
    hide Crc, LenField, ShiftIn;
    var s := r + [b];
    assert s[6..6 + d.len] == r[6..6 + d.len] && s[1..6 + d.len] == r[1..6 + d.len];
    ChecksumJoins(b, 0);
  }

  lemma SecondChecksumOctet(d: Fields, r: seq<byte>, b: byte)
    requires HoldsChecksum(d, r) && d.crcIdx == 1
    ensures Finish(d.(crcRx := ShiftIn(d.crcRx, b), crcIdx := 2)) == Judge(r + [b])
  {
    hide Crc, LenField, ShiftIn, Word, Finish, Judge;
    var s := r + [b];
    assert s[6..6 + d.len] == r[6..6 + d.len] && s[1..6 + d.len] == r[1..6 + d.len];
    ChecksumJoins(r[6 + d.len], b);
    FinishJudges(d.(crcRx := ShiftIn(d.crcRx, b), crcIdx := 2), s);
  }

  lemma JudgeRest(w: seq<byte>)
    requires 8 <= |w|
    ensures Judge(w).rest == []
  {
    hide Crc, Word, KnownType;
  }

  lemma FinishJudges(e: Fields, w: seq<byte>)
    requires HeaderDone(e, w) && |w| == 8 + e.len && e.payload[..e.len] == w[6..6 + e.len]
    requires e.crcCalc == Crc(CRC_INIT, w[1..6 + e.len]) && e.crcRx == Word(w[6 + e.len], w[7 + e.len])
    ensures Finish(e) == Judge(w)
  {
    hide Crc, Word, KnownType, LenField;
  }

  // ---- The decoder itself ----

  class Decoder {
    var state: State
    var typ: byte
    var seqNo: byte
    var len: nat
    var payloadIdx: nat
    var hdrIdx: nat
    var crcIdx: nat
    var crcCalc: bv16
    var crcRx: bv16
    const payload: array<byte>
    var crcErr: u32
    var lenErr: u32
    var unknownType: u32
    var delivered: seq<Frame>       // what the callback has been handed
    ghost var consumed: seq<byte>   // every octet pushed so far

    ghost function View(): Fields
      reads this, payload
    {
      Fields(state, typ, seqNo, len, payloadIdx, hdrIdx, crcIdx, crcCalc, crcRx, payload[..])
    }

    ghost function Report(): Tally
      reads this
    {
      Tally(delivered, crcErr, lenErr, unknownType)
    }

    /** Everything reported so far is what the whole-stream parser makes of the octets consumed so far. */
    ghost predicate Valid()
      reads this, payload
    {
      Holds(View(), Parse(consumed).rest) && Report() == Plus(NO_TALLY, Parse(consumed))
    }

    constructor ()
      ensures Valid() && consumed == [] && fresh(payload)
    {
      state, typ, seqNo := HuntSof, 0, 0;
      len, payloadIdx, hdrIdx, crcIdx, crcCalc, crcRx := 0, 0, 0, 0, 0, 0;
      payload := new byte[MAX_PAYLOAD];
      crcErr, lenErr, unknownType, delivered, consumed := 0, 0, 0, [], [];
    }

    /** Begin a new frame after a SOF octet. */
    method StartFrame()
      modifies this`crcCalc, this`hdrIdx, this`payloadIdx, this`crcIdx, this`crcRx, this`len, this`state
      ensures View() == Started(old(View())) && Report() == old(Report()) && consumed == old(consumed)
    {
      crcCalc := CRC_INIT;
      hdrIdx, payloadIdx, crcIdx, crcRx, len := 0, 0, 0, 0, 0;
      state := Version;
    }

    /** Accumulate one octet into the running checksum. */
    method CrcFeed(b: byte)
      modifies this`crcCalc
      ensures crcCalc == Crc(old(crcCalc), [b])
    {
      crcCalc := Crc16Ccitt(crcCalc, [b]);
    }

    method HeaderOctet(b: byte)
      modifies this`crcCalc, this`typ, this`seqNo, this`len, this`hdrIdx
      ensures View() == WithHeaderOctet(old(View()), b) && consumed == old(consumed) && Report() == old(Report())
    {
      hide Crc, LenField;
      CrcFeed(b);
      match hdrIdx {
        case 0 => typ := b;
        case 1 => seqNo := b;
        case 2 => len := LenField(b, 0);
        case _ => len := len + b as nat;
      }
      hdrIdx := hdrIdx + 1;
    }

    method PushHeader(b: byte)
      modifies this
      ensures View() == NextHeader(old(View()), b).0 && consumed == old(consumed)
      ensures Report() == Plus(old(Report()), NextHeader(old(View()), b).1)
    {
      hide WithHeaderOctet;
      HeaderOctet(b);
      PlusQuiet(Report(), NOTHING);
      if hdrIdx >= 4 {
        if len > MAX_PAYLOAD {
          lenErr := Add32(lenErr, 1);
          state := HuntSof;
        } else if len == 0 {
          state := Checksum;
        } else {
          payloadIdx := 0;
          state := Payload;
        }
      }
    }

    method PushPayload(b: byte)
      requires payloadIdx < payload.Length && state == Payload
      modifies this, payload
      ensures View() == NextPayload(old(View()), b) && Report() == old(Report()) && consumed == old(consumed)
    {
      hide Crc;
      CrcFeed(b);
      payload[payloadIdx] := b;
      payloadIdx := payloadIdx + 1;
      if payloadIdx >= len {
        state := Checksum;
      }
    }

    method PushChecksum(b: byte)
      requires len <= payload.Length
      modifies this
      ensures View() == NextChecksum(old(View()), b).0 && consumed == old(consumed)
      ensures Report() == Plus(old(Report()), NextChecksum(old(View()), b).1)
    {
      hide Finish, ShiftIn;
      crcRx := ShiftIn(crcRx, b);
      crcIdx := crcIdx + 1;
      if crcIdx >= 2 {
        FinishFrame();
      }
    }

    /** Both checksum octets are in: validate, deliver or count, then hunt again. */
    method FinishFrame()
      requires len <= payload.Length
      modifies this
      ensures View() == old(View()).(state := HuntSof) && consumed == old(consumed)
      ensures Report() == Plus(old(Report()), Finish(old(View())))
    {
      hide KnownType;
      if crcRx != crcCalc {
        crcErr := Add32(crcErr, 1);
      } else if !KnownType(typ) {
        unknownType := Add32(unknownType, 1);
      } else {
        delivered := delivered + [Frame(typ, seqNo, payload[..len])];
      }
      state := HuntSof;
    }

    /** Feed one octet. */
    method Push(b: byte)
      requires Valid()
      modifies this, payload
      ensures Valid() && consumed == old(consumed) + [b]
    {
      hide Parse, Pending, Plus, Join, Crc, LenField, Judge, Finish, HoldsHeader, HoldsPayload, HoldsChecksum;
      ghost var rest, d := Parse(consumed).rest, View();
      ParseConcat(consumed, [b]);
      ghost var t, o := Report(), Parse(rest + [b]);
      match state {
        case HuntSof =>
          ParseAfterNothing(b);
          PlusQuiet(t, o);
          if b == SOF {
            StartFrame();
          }
        case Version =>
          ParseAfterSof(b);
          PlusQuiet(t, o);
          if b == VER {
            VersionHolds(View());
            CrcFeed(b);
            state := Header;
          } else if b == SOF {
            StartFrame();
          } else {
            state := HuntSof;
          }
        case Header =>
          HeaderHolds(d, rest, b);
          PlusIgnoresRest(t, NextHeader(d, b).1, o);
          PushHeader(b);
        case Payload =>
          PayloadHolds(d, rest, b);
          PlusQuiet(t, o);
          PushPayload(b);
        case Checksum =>
          ChecksumHolds(d, rest, b);
          PlusIgnoresRest(t, NextChecksum(d, b).1, o);
          PushChecksum(b);
      }
      PlusJoin(NO_TALLY, Parse(consumed), o);
      consumed := consumed + [b];
    }
  }
}