/** Persistent configuration: two stored slots, a checksum over each, and a wrapping sequence number that tells them apart. */
module Config {
  import opened Bytes
  import opened Crc16

  const MAGIC: bv32 := 0x47434647
  const VERSION: bv32 := 1
  const SLOT_BYTES: nat := 36
  const CRC_AT: nat := 32

  /** The five persisted 32-bit words. */
  datatype Config = Config(setpoint: bv32, kpMilli: bv32, kiMilli: bv32, kdMilli: bv32, bootCount: bv32)

  const DEFAULTS := Config(50, 3500, 18000, 60, 0)

  // ---- A slot as stored: magic, version, seq, payload, checksum, padding; little endian ----

  function Octet0(w: bv32): byte { (w & 0xFF) as bv8 }
  function Octet1(w: bv32): byte { ((w >> 8) & 0xFF) as bv8 }
  function Octet2(w: bv32): byte { ((w >> 16) & 0xFF) as bv8 }
  function Octet3(w: bv32): byte { ((w >> 24) & 0xFF) as bv8 }

  function Le32(w: bv32): (s: seq<byte>)
    ensures |s| == 4
  {
    [Octet0(w), Octet1(w), Octet2(w), Octet3(w)]
  }

  function Join32(a: byte, b: byte, c: byte, d: byte): bv32 {
    (a as bv32) | ((b as bv32) << 8) | ((c as bv32) << 16) | ((d as bv32) << 24)
  }

  function WordAt(s: seq<byte>, k: nat): bv32
    requires k + 4 <= |s|
  {
    Join32(s[k], s[k + 1], s[k + 2], s[k + 3])
  }

  lemma JoinOctets(w: bv32)
    ensures Join32(Octet0(w), Octet1(w), Octet2(w), Octet3(w)) == w
  {
  }

  lemma WordOfLe(s: seq<byte>, k: nat, w: bv32)
    requires k + 4 <= |s| && s[k..k + 4] == Le32(w)
    ensures WordAt(s, k) == w
  {
    hide Octet0, Octet1, Octet2, Octet3, Join32;
    JoinOctets(w);
    assert s[k] == s[k..k + 4][0] && s[k + 1] == s[k..k + 4][1];
    assert s[k + 2] == s[k..k + 4][2] && s[k + 3] == s[k..k + 4][3];
  }

  function Words(ws: seq<bv32>): (s: seq<byte>)
    ensures |s| == 4 * |ws|
  {
    if ws == [] then [] else Words(ws[..|ws| - 1]) + Le32(ws[|ws| - 1])
  }

  lemma {:induction false} FieldAt(s: seq<byte>, ws: seq<bv32>, i: nat)
    requires i < |ws| && Words(ws) <= s
    ensures WordAt(s, 4 * i) == ws[i]
    decreases |ws|
  {
    hide Le32, WordAt;
    var n := |ws| - 1;
    if i == n {
      assert Words(ws)[4 * n..4 * n + 4] == Le32(ws[n]);
      assert s[4 * n..4 * n + 4] == Words(ws)[4 * n..4 * n + 4];
      WordOfLe(s, 4 * n, ws[n]);
    } else {
      assert Words(ws[..n]) <= Words(ws);
      FieldAt(s, ws[..n], i);
    }
  }

  function Fields(c: Config, seqNo: bv32): seq<bv32> {
    [MAGIC, VERSION, seqNo, c.setpoint, c.kpMilli, c.kiMilli, c.kdMilli, c.bootCount]
  }

  /** The octets the checksum covers. */
  function Body(c: Config, seqNo: bv32): (s: seq<byte>)
    ensures |s| == CRC_AT
  {
    Words(Fields(c, seqNo))
  }

  function SlotCrc(s: seq<byte>): bv16
    requires CRC_AT <= |s|
  {
    Crc(CRC_INIT, s[..CRC_AT])
  }

  function Image(c: Config, seqNo: bv32): (s: seq<byte>)
    ensures |s| == SLOT_BYTES
  {
    var crc := Crc(CRC_INIT, Body(c, seqNo));
    Body(c, seqNo) + [Lo(crc), Hi(crc), 0, 0]
  }

  predicate Valid(s: seq<byte>) {
    && |s| == SLOT_BYTES
    && WordAt(s, 0) == MAGIC && WordAt(s, 4) == VERSION
    && Word(s[33], s[32]) == SlotCrc(s)
  }

  function SeqNo(s: seq<byte>): bv32
    requires |s| == SLOT_BYTES
  {
    WordAt(s, 8)
  }

  function Payload(s: seq<byte>): Config
    requires |s| == SLOT_BYTES
  {
    Config(WordAt(s, 12), WordAt(s, 16), WordAt(s, 20), WordAt(s, 24), WordAt(s, 28))
  }

  lemma BodyWords(s: seq<byte>, c: Config, n: bv32)
    requires |s| == SLOT_BYTES && s[..CRC_AT] == Body(c, n)
    ensures WordAt(s, 0) == MAGIC && WordAt(s, 4) == VERSION && SeqNo(s) == n && Payload(s) == c
  {
    hide Words, WordAt;
    var ws := Fields(c, n);
    FieldAt(s, ws, 0);
    FieldAt(s, ws, 1);
    FieldAt(s, ws, 2);
    FieldAt(s, ws, 3);
    FieldAt(s, ws, 4);
    FieldAt(s, ws, 5);
    FieldAt(s, ws, 6);
    FieldAt(s, ws, 7);
  }

  /** What is stored reads back: an image is valid and carries its sequence number and configuration. */
  lemma ImageReadsBack(c: Config, n: bv32)
    ensures Valid(Image(c, n)) && SeqNo(Image(c, n)) == n && Payload(Image(c, n)) == c
  {
    hide Body, Crc, Hi, Lo, Word, WordAt, Payload;
    var s := Image(c, n);
    assert s[..CRC_AT] == Body(c, n);
    BodyWords(s, c, n);
    WordOfHiLo(Crc(CRC_INIT, Body(c, n)));
  }

  /** Wrap-aware "strictly newer". */
  predicate SeqNewer(a: bv32, b: bv32) {
    a - b < 0x8000_0000 && a != b
  }

  /** The next sequence number; it wraps. */
  function Succ(n: bv32): bv32 {
    n + 1
  }

  function Pred(n: bv32): bv32 {
    n - 1
  }

  lemma SuccIsNewer(n: bv32)
    ensures SeqNewer(Succ(n), n) && !SeqNewer(n, Succ(n)) && Succ(n) != n
  {
  }

  lemma SuccPred(n: bv32)
    ensures Succ(Pred(n)) == n && Pred(Succ(n)) == n
  {
  }

  /** "Newer" is: fewer than 2^31 steps ahead, across the wrap. */
  lemma NewerAhead(n: bv32, k: bv32)
    ensures SeqNewer(n + k, n) <==> 0 < k < 0x8000_0000
  {
  }

  /** The word w stands at offset k, its least significant octet first. */
  predicate StoredAt(s: seq<byte>, k: nat, w: bv32)
    requires k + 4 <= |s|
  {
    && s[k] == (w & 0xFF) as bv8 && s[k + 1] == ((w >> 8) & 0xFF) as bv8
    && s[k + 2] == ((w >> 16) & 0xFF) as bv8 && s[k + 3] == ((w >> 24) & 0xFF) as bv8
  }

  /** Where a stored slot has its fields; the checksum follows them, and two octets of padding. */
  lemma ImageLayout(c: Config, n: bv32)
    ensures var s := Image(c, n);
      && StoredAt(s, 0, 0x47434647) && StoredAt(s, 4, 1) && StoredAt(s, 8, n)
      && StoredAt(s, 12, c.setpoint) && StoredAt(s, 16, c.kpMilli) && StoredAt(s, 20, c.kiMilli)
      && StoredAt(s, 24, c.kdMilli) && StoredAt(s, 28, c.bootCount)
      && Word(s[33], s[32]) == Crc(CRC_INIT, s[..32]) && s[34] == s[35] == 0
  {
    hide Crc, Word, Join32, Body, Hi, Lo, StoredAt;
    var s := Image(c, n);
    ImageReadsBack(c, n);
    StoredIs(s, 0);
    StoredIs(s, 4);
    StoredIs(s, 8);
    StoredIs(s, 12);
    StoredIs(s, 16);
    StoredIs(s, 20);
    StoredIs(s, 24);
    StoredIs(s, 28);
  }

  lemma StoredIs(s: seq<byte>, k: nat)
    requires k + 4 <= |s|
    ensures StoredAt(s, k, WordAt(s, k))
  {
    hide Join32;
    SplitJoined(s[k], s[k + 1], s[k + 2], s[k + 3]);
  }

  lemma SplitJoined(a: byte, b: byte, c: byte, d: byte)
    ensures var w := Join32(a, b, c, d);
            a == (w & 0xFF) as bv8 && b == ((w >> 8) & 0xFF) as bv8
            && c == ((w >> 16) & 0xFF) as bv8 && d == ((w >> 24) & 0xFF) as bv8
  {
  }

  // ---- The medium ----

  /** A slot of the medium: whether it has ever been written, and its raw octets. */
  datatype Cell = Cell(present: bool, raw: seq<byte>)

  datatype Medium = Medium(slot0: Cell, slot1: Cell)

  function SlotOf(m: Medium, idx: nat): Cell {
    if idx == 0 then m.slot0 else m.slot1
  }

  function WithSlot(m: Medium, idx: nat, c: Cell): Medium {
    if idx == 0 then m.(slot0 := c) else m.(slot1 := c)
  }

  predicate WellSized(m: Medium) {
    |m.slot0.raw| == SLOT_BYTES && |m.slot1.raw| == SLOT_BYTES
  }

  predicate Usable(c: Cell) {
    c.present && Valid(c.raw)
  }

  /** How a write goes: it lands, it is cut off after n octets, or the medium refuses it. */
  datatype Write = Lands | Tears(n: nat) | Refused

  function Torn(was: seq<byte>, image: seq<byte>, n: nat): (s: seq<byte>)
    requires n <= |image| == |was|
    ensures |s| == |was|
  {
    image[..n] + was[n..]
  }

  function Written(was: Cell, image: seq<byte>, w: Write): (Cell, bool)
    requires |was.raw| == |image|
  {
    match w
    case Lands => (Cell(true, image), true)
    case Tears(n) => (if n <= |image| then Cell(true, Torn(was.raw, image, n)) else was, false)
    case Refused => (was, false)
  }

  // ---- Load and save, on values ----

  datatype Ctx = Ctx(cfg: Config, lastSeq: bv32, active: nat, valid: bool)

  datatype Status = Loaded | Defaulted | Recovered

  const FRESH := Ctx(DEFAULTS, 0, 0, false)

  function Adopt(c: Cell, idx: nat): Ctx
    requires |c.raw| == SLOT_BYTES
  {
    Ctx(Payload(c.raw), SeqNo(c.raw), idx, true)
  }

  function Load(m: Medium): (Ctx, Status)
    requires WellSized(m)
  {
    var v0, v1 := Usable(m.slot0), Usable(m.slot1);
    if v0 && v1 then
      (if SeqNewer(SeqNo(m.slot1.raw), SeqNo(m.slot0.raw)) then Adopt(m.slot1, 1) else Adopt(m.slot0, 0), Loaded)
    else if v0 then (Adopt(m.slot0, 0), if m.slot1.present then Recovered else Loaded)
    else if v1 then (Adopt(m.slot1, 1), if m.slot0.present then Recovered else Loaded)
    else (Ctx(DEFAULTS, 0, 0, true), Defaulted)
  }

  /**
   * What a load finds: the contents of a usable slot, not the older one of two; the defaults only if no slot is usable; and
   * a recovery reported exactly when the one beside it was written but is not usable.
   */
  lemma LoadFinds(m: Medium)
    requires WellSized(m)
    ensures var (c, status) := Load(m); var other := SlotOf(m, 1 - c.active);
      && c.valid && c.active < 2
      && (status == Defaulted <==> !Usable(m.slot0) && !Usable(m.slot1))
      && (status == Defaulted ==> c.cfg == Config(50, 3500, 18000, 60, 0) && c.lastSeq == 0 && c.active == 0)
      && (status != Defaulted ==>
            var slot := SlotOf(m, c.active);
            && Usable(slot) && c.cfg == Payload(slot.raw) && c.lastSeq == SeqNo(slot.raw)
            && (Usable(other) && c.active == 0 ==> !SeqNewer(SeqNo(other.raw), c.lastSeq))
            && (Usable(other) && c.active == 1 ==> SeqNewer(c.lastSeq, SeqNo(other.raw)))
            && (status == Recovered <==> other.present && !Usable(other)))
  {
    hide Valid, SeqNewer, Payload, SeqNo;
  }

  function Target(c: Ctx): nat {
    if c.valid && c.active != 0 then 0 else 1
  }

  function NextImage(c: Ctx, cfg: Config): seq<byte> {
    Image(cfg, Succ(c.lastSeq))
  }

  function Save(c: Ctx, m: Medium, cfg: Config, w: Write): (Ctx, Medium, bool)
    requires WellSized(m)
  {
    var (cell, ok) := Written(SlotOf(m, Target(c)), NextImage(c, cfg), w);
    (if ok then Ctx(cfg, Succ(c.lastSeq), Target(c), true) else c, WithSlot(m, Target(c), cell), ok)
  }

  // ---- The objects ----

  class Flash {
    var m: Medium

    constructor (initial: Medium)
      ensures m == initial
    {
      m := initial;
    }

    method Read(idx: nat) returns (ok: bool, slot: seq<byte>)
      ensures ok == SlotOf(m, idx).present && slot == SlotOf(m, idx).raw
    {
      return SlotOf(m, idx).present, SlotOf(m, idx).raw;
    }

    method WriteSlot(idx: nat, image: seq<byte>, w: Write) returns (ok: bool)
      requires |SlotOf(m, idx).raw| == |image|
      modifies this
      ensures (SlotOf(m, idx), ok) == Written(old(SlotOf(m, idx)), image, w)
      ensures m == WithSlot(old(m), idx, SlotOf(m, idx))
    {
      var (cell, done) := Written(SlotOf(m, idx), image, w);
      m := WithSlot(m, idx, cell);
      return done;
    }
  }

  class ConfigCtx {
    const store: Flash
    var cfg: Config
    var lastSeq: bv32
    var activeIdx: nat
    var valid: bool

    ghost function View(): Ctx
      reads this
    {
      Ctx(cfg, lastSeq, activeIdx, valid)
    }

    constructor (s: Flash)
      ensures store == s && View() == FRESH
    {
      store := s;
      cfg, lastSeq, activeIdx, valid := DEFAULTS, 0, 0, false;
    }

    method LoadBest() returns (out: Config, status: Status)
      requires WellSized(store.m)
      modifies this
      ensures (View(), status) == Load(store.m) && out == cfg
    {
      hide Valid, Payload, SeqNo;
      var r0, s0 := store.Read(0);
      var r1, s1 := store.Read(1);
      var v0 := r0 && Valid(s0);
      var v1 := r1 && Valid(s1);
      if v0 && v1 {
        if SeqNewer(SeqNo(s1), SeqNo(s0)) {
          cfg, lastSeq, activeIdx := Payload(s1), SeqNo(s1), 1;
        } else {
          cfg, lastSeq, activeIdx := Payload(s0), SeqNo(s0), 0;
        }
        status := Loaded;
      } else if v0 {
        cfg, lastSeq, activeIdx := Payload(s0), SeqNo(s0), 0;
        status := if r1 then Recovered else Loaded;
      } else if v1 {
        cfg, lastSeq, activeIdx := Payload(s1), SeqNo(s1), 1;
        status := if r0 then Recovered else Loaded;
      } else {
        cfg, lastSeq, activeIdx := DEFAULTS, 0, 0;
        status := Defaulted;
      }
      valid := true;
      out := cfg;
    }

    /** Writes the slot that is not active; the write decides whether the context moves to it. */
    method SaveNew(config: Config, w: Write) returns (ok: bool)
      requires WellSized(store.m) && activeIdx < 2
      modifies this, store
      ensures (View(), store.m, ok) == Save(old(View()), old(store.m), config, w)
    {
      hide Image, Succ;
      var target := if valid then 1 - activeIdx else 1;
      var seqNo := Succ(lastSeq);
      ok := store.WriteSlot(target, Image(config, seqNo), w);
      if !ok {
        return;
      }
      cfg := config;
      lastSeq := seqNo;
      activeIdx := target;
      valid := true;
    }
  }
}
