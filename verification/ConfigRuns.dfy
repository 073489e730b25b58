/** The stored configuration over whole runs of saves, torn saves and reboots: it behaves as one atomic register. */
module ConfigRuns {
  import opened Bytes
  import opened Crc16
  import opened CrcDetection
  import opened OctetBursts
  import opened Config

  datatype Action = DoSave(cfg: Config, w: Write) | Reboot

  /** attempts: the configurations whose saves were cut off since the last commit or reload. */
  datatype Sys = Sys(m: Medium, c: Ctx, attempts: set<Config>)

  function Apply(s: Sys, a: Action): Sys
    requires WellSized(s.m)
  {
    match a
    case DoSave(cfg, w) =>
      var (c, m, ok) := Save(s.c, s.m, cfg, w);
      Sys(m, c, if ok then {} else if w == Refused then s.attempts else s.attempts + {cfg})
    case Reboot => Sys(s.m, Load(s.m).0, {})
  }

  lemma SizeKept(s: Sys, a: Action)
    requires WellSized(s.m)
    ensures WellSized(Apply(s, a).m)
  {
    hide Image, Valid;
  }

  /** A node booted on m, then driven by acts. */
  function Run(m: Medium, acts: seq<Action>): (s: Sys)
    requires WellSized(m)
    ensures WellSized(s.m)
    decreases |acts|
  {
    if acts == [] then Sys(m, Load(m).0, {})
    else
      var s := Run(m, acts[..|acts| - 1]);
      SizeKept(s, acts[|acts| - 1]);
      Apply(s, acts[|acts| - 1])
  }

  predicate SameContents(s: seq<byte>, t: seq<byte>)
    requires |s| == |t| == SLOT_BYTES
  {
    SeqNo(s) == SeqNo(t) && Payload(s) == Payload(t)
  }

  /** The checksum rejects this torn write unless what is left reads as the new contents or as the old. */
  predicate TearRejected(was: Cell, image: seq<byte>, n: nat)
    requires |was.raw| == |image| == SLOT_BYTES && n <= SLOT_BYTES
  {
    var t := Torn(was.raw, image, n);
    Valid(t) ==> SameContents(t, image) || (Usable(was) && SameContents(t, was.raw))
  }

  predicate Clean(s: Sys, a: Action)
    requires WellSized(s.m)
  {
    match a
    case DoSave(cfg, Tears(n)) =>
      n <= SLOT_BYTES ==> TearRejected(SlotOf(s.m, Target(s.c)), NextImage(s.c, cfg), n)
    case _ => true
  }

  ghost predicate CleanRun(m: Medium, acts: seq<Action>)
    requires WellSized(m)
    decreases |acts|
  {
    acts == [] || (CleanRun(m, acts[..|acts| - 1]) && Clean(Run(m, acts[..|acts| - 1]), acts[|acts| - 1]))
  }

  predicate Inv(s: Sys) {
    && WellSized(s.m) && s.c.valid && s.c.active < 2
    && var a, o := SlotOf(s.m, s.c.active), SlotOf(s.m, 1 - s.c.active);
       && (Usable(a) ==> SeqNo(a.raw) == s.c.lastSeq && Payload(a.raw) == s.c.cfg)
       && (!Usable(a) ==> s.c == Ctx(DEFAULTS, 0, 0, true))
       && (Usable(o) ==>
             || (SeqNo(o.raw) == Succ(s.c.lastSeq) && Payload(o.raw) in s.attempts)
             || (Usable(a) && SeqNo(o.raw) == Pred(s.c.lastSeq)))
  }

  lemma SaveInv(s: Sys, cfg: Config, w: Write)
    requires Inv(s) && Clean(s, DoSave(cfg, w))
    ensures Inv(Apply(s, DoSave(cfg, w)))
  {
    hide Image, Valid, SeqNo, Payload, Succ, Pred;
    ImageReadsBack(cfg, Succ(s.c.lastSeq));
    SuccPred(s.c.lastSeq);
  }

  lemma RebootInv(s: Sys)
    requires Inv(s)
    ensures Inv(Apply(s, Reboot))
    ensures Load(s.m).0.cfg == s.c.cfg || Load(s.m).0.cfg in s.attempts
  {
    hide Image, Valid, SeqNo, Payload, SeqNewer, Succ, Pred;
    SuccIsNewer(s.c.lastSeq);
    SuccIsNewer(Pred(s.c.lastSeq));
    SuccPred(s.c.lastSeq);
  }

  predicate EmptyStore(m: Medium) {
    WellSized(m) && !m.slot0.present && !m.slot1.present
  }

  lemma BootInv(m: Medium)
    requires EmptyStore(m)
    ensures Inv(Run(m, []))
  {
    hide Valid;
  }

  lemma {:induction false} RunInv(m: Medium, acts: seq<Action>)
    requires EmptyStore(m) && CleanRun(m, acts)
    ensures Inv(Run(m, acts))
    decreases |acts|
  {
    hide Inv, Apply, Clean;
    if acts == [] {
      BootInv(m);
    } else {
      var before, a := acts[..|acts| - 1], acts[|acts| - 1];
      RunInv(m, before);
      match a {
        case DoSave(cfg, w) => SaveInv(Run(m, before), cfg, w);
        case Reboot => RebootInv(Run(m, before));
      }
    }
  }

  // ---- The register the store implements ----

  /** A value, and the values an interrupted write may still turn it into. */
  datatype Register = Register(value: Config, pending: set<Config>)

  function Abstract(s: Sys): Register {
    Register(s.c.cfg, s.attempts)
  }

  /**
   * A completed save replaces the value; one cut off leaves it pending; one refused does nothing; a reboot settles on the
   * value or a pending one.
   */
  predicate RegisterStep(r: Register, a: Action, r': Register) {
    match a
    case DoSave(cfg, Lands) => r' == Register(cfg, {})
    case DoSave(cfg, Tears(_)) => r' == Register(r.value, r.pending + {cfg})
    case DoSave(_, Refused) => r' == r
    case Reboot => (r'.value == r.value || r'.value in r.pending) && r'.pending == {}
  }

  /**
   * Starting from an empty store, with every torn write that mixes two images rejected by the checksum, each save and
   * each reboot is a step of the register, which starts out holding the defaults.
   */
  lemma AtomicRegister(m: Medium, acts: seq<Action>, a: Action)
    requires EmptyStore(m) && CleanRun(m, acts + [a])
    ensures Abstract(Run(m, [])) == Register(DEFAULTS, {})
    ensures RegisterStep(Abstract(Run(m, acts)), a, Abstract(Run(m, acts + [a])))
  {
    hide Inv, Clean, Image, Valid;
    assert (acts + [a])[..|acts|] == acts;
    RunInv(m, acts);
    BootInv(m);
    if a == Reboot {
      RebootInv(Run(m, acts));
    }
  }

  /** Any number of saves leaves two slots that, if both are valid, are neighbours in the wrapping sequence order. */
  lemma SlotsAreNeighbours(m: Medium, acts: seq<Action>)
    requires EmptyStore(m) && CleanRun(m, acts)
    ensures var m' := Run(m, acts).m;
            Usable(m'.slot0) && Usable(m'.slot1) ==>
              SeqNo(m'.slot1.raw) == Succ(SeqNo(m'.slot0.raw)) || SeqNo(m'.slot0.raw) == Succ(SeqNo(m'.slot1.raw))
  {
    hide Valid, SeqNo, Payload, Succ, Pred, Run;
    RunInv(m, acts);
    SuccPred(Run(m, acts).c.lastSeq);
  }

  /** A save, however it goes, leaves the active slot as it was; reloading after a landed save finds what was saved. */
  lemma SaveSpares(m: Medium, acts: seq<Action>, cfg: Config, w: Write)
    requires EmptyStore(m) && CleanRun(m, acts + [DoSave(cfg, w)])
    ensures var s, s' := Run(m, acts), Run(m, acts + [DoSave(cfg, w)]);
            && SlotOf(s'.m, s.c.active) == SlotOf(s.m, s.c.active)
            && (w == Lands ==> Load(s'.m).0 == s'.c && s'.c.cfg == cfg)
  {
    hide Inv, Clean, Image, Valid, Load;
    assert (acts + [DoSave(cfg, w)])[..|acts|] == acts;
    RunInv(m, acts);
    RunInv(m, acts + [DoSave(cfg, w)]);
    InvActive(Run(m, acts));
    if w == Lands {
      LandedLoads(Run(m, acts), cfg);
    }
  }

  lemma InvActive(s: Sys)
    requires Inv(s)
    ensures s.c.valid && s.c.active < 2
  {
    hide Valid;
  }

  lemma LandedLoads(s: Sys, cfg: Config)
    requires Inv(s)
    ensures var s' := Apply(s, DoSave(cfg, Lands)); Load(s'.m).0 == s'.c
  {
    hide Image, Valid, SeqNo, Payload, Succ, Pred, SeqNewer;
    ImageReadsBack(cfg, Succ(s.c.lastSeq));
    SuccIsNewer(s.c.lastSeq);
  }

  /** Without loading first, a save starts over at sequence number 1 in slot 1, whatever was stored there. */
  lemma SaveBeforeLoadOverwrites(m: Medium, cfg: Config)
    requires WellSized(m)
    ensures var (_, m', ok) := Save(FRESH, m, cfg, Lands); ok && m'.slot1 == Cell(true, Image(cfg, 1)) && m'.slot0 == m.slot0
  {
    hide Image;
  }

  // ---- Which torn writes the checksum is sure to reject ----

  /** Octets that the cut-off write changed in a stored slot. */
  predicate ChangesAt(was: seq<byte>, image: seq<byte>, n: nat, j: nat)
    requires |was| == |image| == SLOT_BYTES && n <= CRC_AT
  {
    j + 2 <= CRC_AT && forall k :: 0 <= k < n && image[k] != was[k] ==> j <= k < j + 2
  }

  /** A cut in or after the checksum field leaves the new contents, if anything valid. */
  lemma LateTearIsSafe(was: Cell, image: seq<byte>, n: nat)
    requires |was.raw| == |image| == SLOT_BYTES && CRC_AT <= n <= SLOT_BYTES
    ensures TearRejected(was, image, n)
  {
    hide Valid, Join32;
    var t := Torn(was.raw, image, n);
    assert forall k :: 0 <= k < CRC_AT ==> t[k] == image[k];
  }

  /** The checksum of a slot cut off before its checksum field, against that of the valid slot it replaces. */
  lemma TearSyndrome(was: seq<byte>, image: seq<byte>, n: nat)
    requires |was| == |image| == SLOT_BYTES && n <= CRC_AT
    ensures var t := Torn(was, image, n);
            SlotCrc(t) == Xor(SlotCrc(was), Crc(0, XorBytes(was[..CRC_AT], t[..CRC_AT])))
  {
    hide Crc, Xor;
    var t := Torn(was, image, n);
    var e := XorBytes(was[..CRC_AT], t[..CRC_AT]);
    XorTwice(was[..CRC_AT], t[..CRC_AT]);
    assert XorBytes(was[..CRC_AT], e) == t[..CRC_AT];
    CrcLinear(CRC_INIT, 0, was[..CRC_AT], e);
    XorZero(CRC_INIT);
  }

  lemma OctetXor(a: byte, b: byte)
    ensures a ^ (a ^ b) == b && (a ^ b == 0 <==> a == b)
  {
  }

  lemma XorTwice(s: seq<byte>, t: seq<byte>)
    requires |s| == |t|
    ensures XorBytes(s, XorBytes(s, t)) == t
    ensures forall k :: 0 <= k < |s| ==> (XorBytes(s, t)[k] == 0 <==> s[k] == t[k])
  {
    forall k | 0 <= k < |s| ensures XorBytes(s, XorBytes(s, t))[k] == t[k] && (XorBytes(s, t)[k] == 0 <==> s[k] == t[k]) {
      OctetXor(s[k], t[k]);
    }
  }

  lemma JoinInjective(a: byte, b: byte, c: byte, d: byte, p: byte, q: byte, r: byte, s: byte)
    requires Join32(a, b, c, d) == Join32(p, q, r, s)
    ensures a == p && b == q && c == r && d == s
  {
    OctetsOfJoin(a, b, c, d);
    OctetsOfJoin(p, q, r, s);
  }

  lemma OctetsOfJoin(a: byte, b: byte, c: byte, d: byte)
    ensures var w := Join32(a, b, c, d); Octet0(w) == a && Octet1(w) == b && Octet2(w) == c && Octet3(w) == d
  {
  }

  /** Magic and version look the same in every valid slot. */
  lemma SameHeader(s: seq<byte>, t: seq<byte>)
    requires |s| == |t| == SLOT_BYTES && WordAt(s, 0) == WordAt(t, 0) && WordAt(s, 4) == WordAt(t, 4)
    ensures forall k :: 0 <= k < 8 ==> s[k] == t[k]
  {
    hide Join32;
    JoinInjective(s[0], s[1], s[2], s[3], t[0], t[1], t[2], t[3]);
    JoinInjective(s[4], s[5], s[6], s[7], t[4], t[5], t[6], t[7]);
  }

  /** A cut before the checksum field keeps header and checksum of the valid slot it hits. */
  lemma TornFrame(was: seq<byte>, image: seq<byte>, n: nat)
    requires Valid(was) && Valid(image) && n <= CRC_AT
    ensures var t := Torn(was, image, n); Valid(t) <==> SlotCrc(t) == SlotCrc(was)
  {
    hide Crc, Join32, Word, SlotCrc;
    var t := Torn(was, image, n);
    SameHeader(was, image);
    assert forall k :: 0 <= k < 8 ==> t[k] == was[k];
    assert t[32] == was[32] && t[33] == was[33];
  }

  /** A write over a valid slot cut off before the checksum field leaves a valid slot iff the change has syndrome 0. */
  lemma EarlyTearExactly(was: Cell, image: seq<byte>, n: nat)
    requires |image| == SLOT_BYTES && Usable(was) && Valid(image) && n <= CRC_AT
    ensures |was.raw| == SLOT_BYTES
    ensures var t := Torn(was.raw, image, n);
            Valid(t) <==> Crc(0, XorBytes(was.raw[..CRC_AT], t[..CRC_AT])) == 0
  {
    hide Crc, Valid, XorBytes, SlotCrc, Xor;
    SizeOfValid(was);
    var t := Torn(was.raw, image, n);
    TornFrame(was.raw, image, n);
    TearSyndrome(was.raw, image, n);
    SameSyndrome(SlotCrc(was.raw), Crc(0, XorBytes(was.raw[..CRC_AT], t[..CRC_AT])));
  }

  lemma SameSyndrome(a: bv16, e: bv16)
    ensures Xor(a, e) == a <==> e == 0
  {
  }

  /** A cut that has so far changed at most two neighbouring octets of a valid slot leaves it invalid or unchanged. */
  lemma ShortTearIsSafe(was: Cell, image: seq<byte>, n: nat, j: nat)
    requires |image| == SLOT_BYTES && Usable(was) && Valid(image) && n <= CRC_AT
    requires ChangesAt(was.raw, image, n, j)
    ensures TearRejected(was, image, n)
  {
    hide Valid, Crc, Bits, Join32, Burst;
    SizeOfValid(was);
    var t := Torn(was.raw, image, n);
    var e := XorBytes(was.raw[..CRC_AT], t[..CRC_AT]);
    EarlyTearExactly(was, image, n);
    XorTwice(was.raw[..CRC_AT], t[..CRC_AT]);
    if exists k :: 0 <= k < |e| && e[k] != 0 {
      TwoOctetsAreABurst(e, j);
      DetectableSyndrome(e);
    } else {
      assert forall k :: 0 <= k < CRC_AT ==> was.raw[..CRC_AT][k] == t[..CRC_AT][k];
      assert t == was.raw;
    }
  }

  lemma SizeOfValid(c: Cell)
    requires Usable(c)
    ensures |c.raw| == SLOT_BYTES
  {
  }

  // ---- Without that assumption the store is not safe: some torn writes pass the checksum ----

  lemma OctetsAt(s: seq<byte>, k: nat)
    requires k + 4 <= |s|
    ensures var w := WordAt(s, k); s[k] == Octet0(w) && s[k + 1] == Octet1(w) && s[k + 2] == Octet2(w) && s[k + 3] == Octet3(w)
  {
    hide Join32;
    OctetsOfJoin(s[k], s[k + 1], s[k + 2], s[k + 3]);
  }

  lemma {:induction false} CrcOfZeros(z: seq<byte>)
    requires forall k :: 0 <= k < |z| ==> z[k] == 0
    ensures Crc(0, z) == 0
    decreases |z|
  {
    hide Shift;
    if z != [] {
      CrcOfZeros(z[..|z| - 1]);
      ZeroStep();
      ShiftsZero(8);
    }
  }

  lemma ZeroStep()
    ensures 0 ^ Raised(0) == 0
  {
  }

  /** A change whose last two octets are the checksum of the ones before it has syndrome 0, whatever comes first. */
  lemma Cancelled(e: seq<byte>, p: nat)
    requires p + 2 <= |e| && Word(e[p], e[p + 1]) == Crc(0, e[..p])
    requires forall k :: p + 2 <= k < |e| ==> e[k] == 0
    ensures Crc(0, e) == 0
  {
    hide Crc, Word;
    CodewordZero(0, e[..p], e[p], e[p + 1]);
    assert e[..p] + [e[p], e[p + 1]] == e[..p + 2];
    assert e == e[..p + 2] + e[p + 2..];
    CrcConcat(0, e[..p + 2], e[p + 2..]);
    CrcOfZeros(e[p + 2..]);
  }

  /** The setpoint whose three low octets differ from sp's by 1, h and l. */
  function Altered(sp: bv32, h: byte, l: byte): bv32 {
    Join32(Octet0(sp) ^ 1, Octet1(sp) ^ h, Octet2(sp) ^ l, Octet3(sp))
  }

  lemma AlteredOctets(sp: bv32, h: byte, l: byte)
    ensures var w := Altered(sp, h, l);
            Octet0(w) == Octet0(sp) ^ 1 && Octet1(w) == Octet1(sp) ^ h && Octet2(w) == Octet2(sp) ^ l && Octet3(w) == Octet3(sp)
  {
    hide Octet0, Octet1, Octet2, Octet3, Join32;
    OctetsOfJoin(Octet0(sp) ^ 1, Octet1(sp) ^ h, Octet2(sp) ^ l, Octet3(sp));
  }

  lemma AlteredDiffers(sp: bv32, h: byte, l: byte)
    ensures Altered(sp, h, l) != sp
  {
    hide Octet0, Octet1, Octet2, Octet3, Join32, Altered;
    AlteredOctets(sp, h, l);
    OneFlips(Octet0(sp));
  }

  lemma OneFlips(a: byte)
    ensures a ^ 1 != a
  {
  }

  lemma XorUndone(a: byte, h: byte)
    ensures a ^ (a ^ h) == h && a ^ a == 0
  {
  }

  /** The octets before the setpoint depend only on the sequence number. */
  lemma SamePrefix(c: Config, d: Config, n: bv32)
    ensures Image(c, n)[..12] == Image(d, n)[..12]
  {
    hide Octet0, Octet1, Octet2, Octet3, Valid, Crc, Hi, Lo;
    var s, t := Image(c, n), Image(d, n);
    ImageReadsBack(c, n);
    ImageReadsBack(d, n);
    HeaderOf(s);
    HeaderOf(t);
    OctetsAt(s, 0);
    OctetsAt(t, 0);
    OctetsAt(s, 4);
    OctetsAt(t, 4);
    OctetsAt(s, 8);
    OctetsAt(t, 8);
    assert forall k :: 0 <= k < 12 ==> s[k] == t[k];
  }

  lemma HeaderOf(s: seq<byte>)
    requires Valid(s)
    ensures WordAt(s, 0) == MAGIC && WordAt(s, 4) == VERSION
  {
  }

  /** A configuration's words other than the setpoint. */
  function Gains(c: Config): Config {
    c.(setpoint := 0)
  }

  /**
   * Over a slot storing c, for every configuration g there is a new setpoint with which saving g, cut off right behind the
   * setpoint, leaves a valid slot, two newer than before, that holds that setpoint and all the other words of c.
   */
  lemma TornMixture(c: Config, g: Config, n: bv32)
    ensures exists sp :: sp != c.setpoint
                         && Mixed(Torn(Image(c, n), Image(g.(setpoint := sp), Succ(Succ(n))), 16), c, sp, Succ(Succ(n)))
  {
    hide Valid, Crc, Image, Payload, SeqNo, Torn, XorBytes, Word, Hi, Lo, Altered;
    var was := Image(c, n);
    var probe := Image(g, Succ(Succ(n)));
    var r := Crc(0, XorBytes(was[..12], probe[..12]) + [1]);
    var sp := Altered(c.setpoint, Hi(r), Lo(r));
    var d := g.(setpoint := sp);
    var image := Image(d, Succ(Succ(n)));
    ImageReadsBack(c, n);
    ImageReadsBack(d, Succ(Succ(n)));
    SamePrefix(g, d, Succ(Succ(n)));
    SetpointAt(was);
    SetpointAt(image);
    MixtureValid(c, d, was, image, r);
    MixtureContents(was, image, c, d);
    AlteredDiffers(c.setpoint, Hi(r), Lo(r));
  }

  /** A valid slot numbered n holding c but for its setpoint sp. */
  predicate Mixed(t: seq<byte>, c: Config, sp: bv32, n: bv32) {
    Valid(t) && SeqNo(t) == n && Payload(t) == c.(setpoint := sp)
  }

  /**
   * "Never corrupt" fails: from any empty store, after two landed saves of configurations with different gains, some save
   * cut at octet 16 makes the next reload return neither the committed configuration nor the one being saved.
   */
  lemma TornReload(m: Medium, c1: Config, c2: Config, g: Config)
    requires EmptyStore(m) && Gains(c1) != Gains(c2) && Gains(c1) != Gains(g)
    ensures exists sp ::
              var d := g.(setpoint := sp);
              var s := Run(m, [DoSave(c1, Lands), DoSave(c2, Lands), DoSave(d, Tears(16))]);
              s.c.cfg == c2 && s.attempts == {d} && Apply(s, Reboot).c.cfg == c1.(setpoint := sp)
              && c1.(setpoint := sp) != c2 && c1.(setpoint := sp) !in s.attempts
  {
    hide Valid, Image, Payload, SeqNo, Torn, Mixed, Load, Run;
    TornMixture(c1, g, 1);
    SmallNumbers();
    var sp: bv32 :| Mixed(Torn(Image(c1, 1), Image(g.(setpoint := sp), 3), 16), c1, sp, 3);
    var d := g.(setpoint := sp);
    TornRun(m, c1, c2, d);
    var s := Run(m, [DoSave(c1, Lands), DoSave(c2, Lands), DoSave(d, Tears(16))]);
    MixtureLoads(s.m, c1, c2, sp);
    assert Gains(c1.(setpoint := sp)) == Gains(c1) && Gains(d) == Gains(g);
  }

  lemma SmallNumbers()
    ensures Succ(0) == 1 && Succ(1) == 2 && Succ(2) == 3 && SeqNewer(3, 2)
  {
  }

  /** The slots after two landed saves and a third one cut at octet 16. */
  lemma TornRun(m: Medium, c1: Config, c2: Config, d: Config)
    requires EmptyStore(m)
    ensures var s := Run(m, [DoSave(c1, Lands), DoSave(c2, Lands), DoSave(d, Tears(16))]);
            && s.c.cfg == c2 && s.attempts == {d}
            && s.m == Medium(Cell(true, Image(c2, 2)), Cell(true, Torn(Image(c1, 1), Image(d, 3), 16)))
  {
    hide Valid, Image, Payload, SeqNo, Torn, Succ;
    SmallNumbers();
    var a1, a2, a3 := DoSave(c1, Lands), DoSave(c2, Lands), DoSave(d, Tears(16));
    assert [a1, a2, a3][..2] == [a1, a2] && [a1, a2][..1] == [a1] && [a1][..0] == [];
    var s0, s1, s2 := Run(m, []), Run(m, [a1]), Run(m, [a1, a2]);
    assert s0.c == Ctx(DEFAULTS, 0, 0, true);
    assert s1.c == Ctx(c1, 1, 1, true) && s1.m.slot1 == Cell(true, Image(c1, 1));
    assert s2.c == Ctx(c2, 2, 0, true) && s2.m == Medium(Cell(true, Image(c2, 2)), Cell(true, Image(c1, 1)));
  }

  lemma MixtureLoads(m: Medium, c1: Config, c2: Config, sp: bv32)
    requires WellSized(m) && m.slot0 == Cell(true, Image(c2, 2)) && m.slot1.present && Mixed(m.slot1.raw, c1, sp, 3)
    ensures Load(m).0.cfg == c1.(setpoint := sp)
  {
    hide Valid, Image, Payload, SeqNo, SeqNewer;
    ImageReadsBack(c2, 2);
    SmallNumbers();
  }

  lemma SetpointAt(s: seq<byte>)
    requires |s| == SLOT_BYTES
    ensures Payload(s).setpoint == WordAt(s, 12)
  {
    hide Join32;
  }

  lemma MixtureValid(c: Config, d: Config, was: seq<byte>, image: seq<byte>, r: bv16)
    requires |was| == |image| == SLOT_BYTES && Valid(was) && Valid(image)
    requires WordAt(was, 12) == c.setpoint && WordAt(image, 12) == d.setpoint == Altered(c.setpoint, Hi(r), Lo(r))
    requires r == Crc(0, XorBytes(was[..12], image[..12]) + [1])
    ensures Valid(Torn(was, image, 16))
  {
    hide Valid, Crc, Hi, Lo, Word, Octet0, Octet1, Octet2, Octet3, WordAt, Altered;
    var t := Torn(was, image, 16);
    var e := XorBytes(was[..CRC_AT], t[..CRC_AT]);
    OctetsAt(was, 12);
    OctetsAt(image, 12);
    AlteredOctets(c.setpoint, Hi(r), Lo(r));
    XorUndone(was[12], 1);
    XorUndone(was[13], Hi(r));
    XorUndone(was[14], Lo(r));
    forall k | 15 <= k < CRC_AT ensures e[k] == 0 {
      XorUndone(was[k], 0);
    }
    assert e[..13] == XorBytes(was[..12], image[..12]) + [1];
    WordOfHiLo(r);
    Cancelled(e, 13);
    EarlyTearExactly(Cell(true, was), image, 16);
  }

  lemma MixtureContents(was: seq<byte>, image: seq<byte>, c: Config, d: Config)
    requires |was| == |image| == SLOT_BYTES && Payload(was) == c && Payload(image) == d
    ensures var t := Torn(was, image, 16);
            SeqNo(t) == SeqNo(image) && Payload(t) == Config(d.setpoint, c.kpMilli, c.kiMilli, c.kdMilli, c.bootCount)
  {
    hide Join32;
  }
}
