/** The sensor driver: each health flag is a function of the history of polls. */
module Sensor {
  import opened Bytes

  type u8 = x: nat | x < 256

  datatype Flag = Dropout | Stuck | Range | BusNak | BusErr

  /** One bus read. */
  datatype Reply = ReadOk(data: seq<byte>) | Nak | Err | NoData

  /** One poll, after retries: the decoded sample or why there is none. */
  datatype Poll = Sample(value: int) | NakPersisted | BusFault | NotReady

  datatype Cfg = Cfg(rangeMin: int, rangeMax: int, dropoutLimit: nat, stuckLimit: nat, nakRetries: u8)

  predicate InRange(c: Cfg, v: int) {
    c.rangeMin <= v <= c.rangeMax
  }

  // ---- The history definition ----

  /** Polls without data since the last successful read; polls that failed otherwise do not interrupt the count. */
  function NoDataSince(h: seq<Poll>): nat
    decreases |h|
  {
    if h == [] || h[|h| - 1].Sample? then 0
    else NoDataSince(h[..|h| - 1]) + if h[|h| - 1].NotReady? then 1 else 0
  }

  /** Whether some poll since the last successful read was p. */
  predicate SeenSince(h: seq<Poll>, p: Poll)
    decreases |h|
  {
    h != [] && !h[|h| - 1].Sample? && (h[|h| - 1] == p || SeenSince(h[..|h| - 1], p))
  }

  /** Whether the last successful read was out of range. */
  predicate LastOutOfRange(c: Cfg, h: seq<Poll>)
    decreases |h|
  {
    h != [] && if h[|h| - 1].Sample? then !InRange(c, h[|h| - 1].value) else LastOutOfRange(c, h[..|h| - 1])
  }

  /** The in-range samples, in order. */
  function Accepted(c: Cfg, h: seq<Poll>): seq<int>
    decreases |h|
  {
    if h == [] then []
    else
      var before, p := Accepted(c, h[..|h| - 1]), h[|h| - 1];
      if p.Sample? && InRange(c, p.value) then before + [p.value] else before
  }

  /** How often the last value has been repeated in a row. */
  function Repeats(a: seq<int>): nat
    decreases |a|
  {
    if |a| < 2 || a[|a| - 1] != a[|a| - 2] then 0 else 1 + Repeats(a[..|a| - 1])
  }

  function Flags(c: Cfg, h: seq<Poll>): set<Flag> {
    var a := Accepted(c, h);
    (if NoDataSince(h) > 0 && NoDataSince(h) >= c.dropoutLimit then {Dropout} else {}) +
    (if a != [] && Repeats(a) >= c.stuckLimit then {Stuck} else {}) +
    (if LastOutOfRange(c, h) then {Range} else {}) +
    (if SeenSince(h, NakPersisted) then {BusNak} else {}) +
    (if SeenSince(h, BusFault) then {BusErr} else {})
  }

  /** What one more poll does to each part of the definition. */
  lemma HistoryStep(c: Cfg, h: seq<Poll>, p: Poll)
    ensures var h' := h + [p];
      && NoDataSince(h') == (if p.Sample? then 0 else if p.NotReady? then NoDataSince(h) + 1 else NoDataSince(h))
      && (forall q :: SeenSince(h', q) <==> !p.Sample? && (p == q || SeenSince(h, q)))
      && LastOutOfRange(c, h') == (if p.Sample? then !InRange(c, p.value) else LastOutOfRange(c, h))
      && Accepted(c, h') == if p.Sample? && InRange(c, p.value) then Accepted(c, h) + [p.value] else Accepted(c, h)
  {
    assert (h + [p])[..|h|] == h;
  }

  lemma RepeatsStep(a: seq<int>, v: int)
    ensures Repeats(a + [v]) == if a != [] && a[|a| - 1] == v then Repeats(a) + 1 else 0
  {
    assert (a + [v])[..|a|] == a;
  }

  /** Repeats counts the values before the last that equal it without a gap. */
  lemma {:induction false} RepeatsMeans(a: seq<int>, k: nat)
    requires a != []
    ensures Repeats(a) >= k <==> k < |a| && forall i :: |a| - 1 - k <= i < |a| ==> a[i] == a[|a| - 1]
  {
    if k > 0 && |a| >= 2 {
      var b := a[..|a| - 1];
      RepeatsMeans(b, k - 1);
      if a[|a| - 1] == a[|a| - 2] {
        assert forall i :: 0 <= i < |b| ==> a[i] == b[i];
      }
    }
  }

  /** The polls without data from the k-th on. */
  function Waits(h: seq<Poll>, k: nat): set<int> {
    set i | k <= i < |h| && h[i].NotReady?
  }

  /** NoDataSince counts the polls without data among those after the last successful read. */
  lemma {:induction false} NoDataMeans(h: seq<Poll>, k: nat)
    requires k <= |h| && (forall i :: k <= i < |h| ==> !h[i].Sample?) && (k > 0 ==> h[k - 1].Sample?)
    ensures NoDataSince(h) == |Waits(h, k)|
    decreases |h|
  {
    hide Waits;
    if k == |h| {
      NoWaits(h);
    } else {
      NoDataMeans(h[..|h| - 1], k);
      WaitsGrow(h, k);
    }
  }

  lemma NoWaits(h: seq<Poll>)
    ensures Waits(h, |h|) == {}
  {
  }

  lemma WaitsGrow(h: seq<Poll>, k: nat)
    requires k < |h|
    ensures |Waits(h, k)| == |Waits(h[..|h| - 1], k)| + if h[|h| - 1].NotReady? then 1 else 0
  {
    var n := |h| - 1;
    assert Waits(h, k) == Waits(h[..n], k) + if h[n].NotReady? then {n} else {};
  }

  lemma {:induction false} SeenMeans(h: seq<Poll>, k: nat, p: Poll)
    requires k <= |h| && (forall i :: k <= i < |h| ==> !h[i].Sample?) && (k > 0 ==> h[k - 1].Sample?)
    ensures SeenSince(h, p) <==> exists i :: k <= i < |h| && h[i] == p
    decreases |h|
  {
    if k < |h| {
      var n := |h| - 1;
      SeenMeans(h[..n], k, p);
      assert forall i :: k <= i < n ==> h[..n][i] == h[i];
    }
  }

  lemma {:induction false} RangeMeans(c: Cfg, h: seq<Poll>, k: nat)
    requires k <= |h| && (forall i :: k <= i < |h| ==> !h[i].Sample?) && (k > 0 ==> h[k - 1].Sample?)
    ensures LastOutOfRange(c, h) <==> k > 0 && !InRange(c, h[k - 1].value)
    decreases |h|
  {
    if k < |h| {
      RangeMeans(c, h[..|h| - 1], k);
    }
  }

  /**
   * What each flag says, h[k - 1] being the last successful read: at least the limit's number of polls without data since; a
   * NAK or bus error since; that read out of range; and the last accepted value there more often in a row than the limit.
   */
  lemma FlagsMean(c: Cfg, h: seq<Poll>, k: nat)
    requires k <= |h| && (forall i :: k <= i < |h| ==> !h[i].Sample?) && (k > 0 ==> h[k - 1].Sample?)
    ensures var a := Accepted(c, h);
      && (Dropout in Flags(c, h) <==> |Waits(h, k)| > 0 && |Waits(h, k)| >= c.dropoutLimit)
      && (BusNak in Flags(c, h) <==> exists i :: k <= i < |h| && h[i] == NakPersisted)
      && (BusErr in Flags(c, h) <==> exists i :: k <= i < |h| && h[i] == BusFault)
      && (Range in Flags(c, h) <==> k > 0 && !InRange(c, h[k - 1].value))
      && (Stuck in Flags(c, h) <==>
            c.stuckLimit < |a| && forall i :: |a| - 1 - c.stuckLimit <= i < |a| ==> a[i] == a[|a| - 1])
  {
    hide Flags, NoDataSince, SeenSince, LastOutOfRange, Accepted, Repeats, Waits, InRange;
    FlagsAre(c, h);
    NoDataMeans(h, k);
    SeenMeans(h, k, NakPersisted);
    SeenMeans(h, k, BusFault);
    RangeMeans(c, h, k);
    StuckMeans(c, h);
  }

  lemma FlagsAre(c: Cfg, h: seq<Poll>)
    ensures Dropout in Flags(c, h) <==> NoDataSince(h) > 0 && NoDataSince(h) >= c.dropoutLimit
    ensures Stuck in Flags(c, h) <==> Accepted(c, h) != [] && Repeats(Accepted(c, h)) >= c.stuckLimit
    ensures Range in Flags(c, h) <==> LastOutOfRange(c, h)
    ensures BusNak in Flags(c, h) <==> SeenSince(h, NakPersisted)
    ensures BusErr in Flags(c, h) <==> SeenSince(h, BusFault)
  {
    hide NoDataSince, SeenSince, LastOutOfRange, Accepted, Repeats;
  }

  lemma StuckMeans(c: Cfg, h: seq<Poll>)
    ensures var a := Accepted(c, h);
            Stuck in Flags(c, h) <==>
              c.stuckLimit < |a| && forall i :: |a| - 1 - c.stuckLimit <= i < |a| ==> a[i] == a[|a| - 1]
  {
    hide Flags, Accepted, Repeats;
    FlagsAre(c, h);
    if Accepted(c, h) != [] {
      RepeatsMeans(Accepted(c, h), c.stuckLimit);
    }
  }

  lemma {:induction false} AcceptedInRange(c: Cfg, h: seq<Poll>)
    ensures forall i :: 0 <= i < |Accepted(c, h)| ==> InRange(c, Accepted(c, h)[i])
    decreases |h|
  {
    if h != [] {
      AcceptedInRange(c, h[..|h| - 1]);
    }
  }

  // ---- Decoding and retrying ----

  function BigEndian(data: seq<byte>): nat {
    if data == [] then 0 else 256 * BigEndian(data[..|data| - 1]) + data[|data| - 1] as nat
  }

  lemma {:induction false} BigEndianBound(data: seq<byte>)
    requires |data| <= 4
    ensures BigEndian(data) < 0x1_0000_0000
  {
    if data != [] {
      Bound3(data[..|data| - 1]);
    }
  }

  lemma Bound3(data: seq<byte>)
    requires |data| <= 3
    ensures BigEndian(data) < 0x100_0000
  {
    if data != [] {
      var d2 := data[..|data| - 1];
      if d2 != [] {
        var d1 := d2[..|d2| - 1];
        if d1 != [] {
          assert d1[..|d1| - 1] == [];
        }
      }
    }
  }

  /** (int32_t)raw */
  function Signed32(raw: nat): int {
    if raw < 0x8000_0000 then raw else raw - 0x1_0000_0000
  }

  /** The octets at their places, the first the most significant. */
  function AtPlaces(data: seq<byte>): nat
    requires |data| <= 4
  {
    match |data|
    case 0 => 0
    case 1 => Num(data[0])
    case 2 => 0x100 * Num(data[0]) + Num(data[1])
    case 3 => 0x1_0000 * Num(data[0]) + 0x100 * Num(data[1]) + Num(data[2])
    case _ => 0x100_0000 * Num(data[0]) + 0x1_0000 * Num(data[1]) + 0x100 * Num(data[2]) + Num(data[3])
  }

  function Num(b: byte): nat {
    b as nat
  }

  lemma BigEndianPlaces(data: seq<byte>)
    requires |data| <= 4
    ensures BigEndian(data) == AtPlaces(data)
  {
    if data != [] {
      BigEndianPlaces(data[..|data| - 1]);
    }
  }

  /** What a poll records of a successful read: the octets' number, most significant first, in two's complement. */
  lemma SampleValue(data: seq<byte>)
    requires |data| <= 4
    ensures Observed(ReadOk(data)).Sample?
    ensures var v := Observed(ReadOk(data)).value;
            -0x8000_0000 <= v < 0x8000_0000 && (v == AtPlaces(data) || v == AtPlaces(data) - 0x1_0000_0000)
  {
    BigEndianBound(data);
    BigEndianPlaces(data);
  }

  method DecodeSample(data: seq<byte>) returns (v: int)
    requires |data| <= 4
    ensures -0x8000_0000 <= v < 0x8000_0000 && (v == AtPlaces(data) || v == AtPlaces(data) - 0x1_0000_0000)
    ensures v == Signed32(BigEndian(data))
  {
    BigEndianBound(data);
    BigEndianPlaces(data);
    var raw: nat := 0;
    for i := 0 to |data|
      invariant raw == BigEndian(data[..i])
    {
      raw := raw * 256 + data[i] as nat;
      assert data[..i + 1][..i] == data[..i];
    }
    assert data[..|data|] == data;
    return Signed32(raw);
  }

  /** The retry loop: still reading, its 8-bit counter at `tries`, or left with a reply. */
  datatype Loop = Reading(tries: u8) | Done(reply: Reply)

  /** The loop after n reads. */
  function After(limit: u8, bus: nat -> Reply, n: nat): Loop {
    if n == 0 then Reading(0)
    else
      match After(limit, bus, n - 1)
      case Done(r) => Done(r)
      case Reading(tries) =>
        if !bus(n - 1).Nak? then Done(bus(n - 1))
        else if Bump(tries) <= limit then Reading(Bump(tries))
        else Done(Nak)
  }

  /** The counter's 8-bit increment. */
  function Bump(tries: u8): u8 {
    (tries + 1) % 256
  }

  lemma BumpCounts(n: nat)
    ensures Bump(n % 256) == (n + 1) % 256
    ensures n < 256 ==> n % 256 == n
  {
  }

  ghost predicate AlwaysNaks(bus: nat -> Reply) {
    forall k: nat :: bus(k).Nak?
  }

  /** What n replies, all of them NAK, make of the loop. */
  lemma {:induction false} AfterNaks(limit: u8, bus: nat -> Reply, n: nat)
    requires forall k :: 0 <= k < n ==> bus(k).Nak?
    ensures After(limit, bus, n) == if limit == 255 || n <= limit then Reading(n % 256) else Done(Nak)
  {
    hide Bump;
    if n > 0 {
      AfterNaks(limit, bus, n - 1);
      BumpCounts(n - 1);
      BumpCounts(n);
    }
  }

  /** The loop runs forever exactly when the limit is 255, which the 8-bit counter never exceeds, and the device always NAKs. */
  lemma RetryTerminates(limit: u8, bus: nat -> Reply)
    ensures (forall n: nat :: After(limit, bus, n).Reading?) <==> limit == 255 && AlwaysNaks(bus)
  {
    hide After;
    if limit == 255 && AlwaysNaks(bus) {
      forall n: nat ensures After(limit, bus, n).Reading? {
        AfterNaks(limit, bus, n);
      }
    } else {
      var n := RetryEnds(limit, bus);
      assert !After(limit, bus, n).Reading?;
    }
  }

  lemma RetryEnds(limit: u8, bus: nat -> Reply) returns (n: nat)
    requires limit < 255 || !AlwaysNaks(bus)
    ensures After(limit, bus, n).Done?
  {
    hide Bump;
    if AlwaysNaks(bus) {
      n := limit + 1;
      AfterNaks(limit, bus, n);
    } else {
      var k: nat :| !bus(k).Nak?;
      n := k + 1;
    }
  }

  /** The reply the loop ends with. */
  ghost predicate Answer(limit: u8, bus: nat -> Reply, r: Reply) {
    exists n: nat :: After(limit, bus, n) == Done(r)
  }

  /** r comes from the n-th read, after nothing but NAKs; a final NAK only when the retries are spent. */
  predicate EndsAt(limit: u8, bus: nat -> Reply, n: nat, r: Reply) {
    && n >= 1 && r == bus(n - 1) && (forall k :: 0 <= k < n - 1 ==> bus(k).Nak?)
    && (limit < 255 ==> n <= limit + 1)
    && (r.Nak? ==> limit < 255 && n == limit + 1)
  }

  /** The answer is the first reply that is not a NAK, among the first limit + 1 or, with limit 255, among all. */
  lemma AnswerIs(limit: u8, bus: nat -> Reply, r: Reply)
    ensures Answer(limit, bus, r) <==> exists n :: EndsAt(limit, bus, n, r)
  {
    hide After, EndsAt;
    if Answer(limit, bus, r) {
      var n: nat :| After(limit, bus, n) == Done(r);
      FirstEnd(limit, bus, n, r);
    }
    if exists n :: EndsAt(limit, bus, n, r) {
      var n: nat :| EndsAt(limit, bus, n, r);
      EndAnswers(limit, bus, n, r);
    }
  }

  lemma EndAnswers(limit: u8, bus: nat -> Reply, n: nat, r: Reply)
    requires EndsAt(limit, bus, n, r)
    ensures After(limit, bus, n) == Done(r)
  {
    hide Bump;
    AfterNaks(limit, bus, n - 1);
    BumpCounts(n - 1);
    BumpCounts(n);
  }

  lemma {:induction false} FirstEnd(limit: u8, bus: nat -> Reply, n: nat, r: Reply)
    requires After(limit, bus, n) == Done(r)
    ensures exists k :: EndsAt(limit, bus, k, r)
  {
    if After(limit, bus, n - 1).Done? {
      FirstEnd(limit, bus, n - 1, r);
    } else {
      StillReading(limit, bus, n - 1);
      AfterNaks(limit, bus, n - 1);
      assert EndsAt(limit, bus, n, r);
    }
  }

  lemma {:induction false} StillReading(limit: u8, bus: nat -> Reply, n: nat)
    requires After(limit, bus, n).Reading?
    ensures forall k :: 0 <= k < n ==> bus(k).Nak?
  {
    if n > 0 {
      StillReading(limit, bus, n - 1);
    }
  }

  method ReadWithRetry(c: Cfg, bus: nat -> Reply) returns (r: Reply, n: nat)
    requires c.nakRetries < 255 || exists k: nat :: !bus(k).Nak?
    ensures After(c.nakRetries, bus, n) == Done(r) && EndsAt(c.nakRetries, bus, n, r)
  {
    hide After, Bump;
    ghost var last: nat := 255;
    if c.nakRetries == 255 {
      last :| !bus(last).Nak?;
    }
    var tries: u8 := 0;
    n := 0;
    while true
      invariant tries == n % 256
      invariant forall k :: 0 <= k < n ==> bus(k).Nak?
      invariant n <= last && (c.nakRetries < 255 ==> n <= c.nakRetries)
      decreases last - n
    {
      r := bus(n);
      BumpCounts(n);
      n := n + 1;
      if !r.Nak? {
        break;
      }
      tries := Bump(tries);
      if tries > c.nakRetries {
        break;
      }
    }
    EndAnswers(c.nakRetries, bus, n, r);
  }

  /** What one more poll does to the flags, by the bus's reply. */
  lemma PollShows(c: Cfg, h: seq<Poll>, r: Reply)
    requires r.ReadOk? ==> |r.data| <= 4
    ensures var was, now := Flags(c, h), Flags(c, h + [Observed(r)]);
      && (BusNak in now <==> r.Nak? || (BusNak in was && !r.ReadOk?))
      && (BusErr in now <==> r.Err? || (BusErr in was && !r.ReadOk?))
      && (r.ReadOk? ==>
            var v := Observed(r).value; Dropout !in now && (Range in now <==> v < c.rangeMin || v > c.rangeMax))
      && (!r.ReadOk? ==> (Range in now <==> Range in was) && (Stuck in now <==> Stuck in was))
      && (r.Nak? || r.Err? ==> (Dropout in now <==> Dropout in was))
      && (r.NoData? ==> (Dropout in now <==> NoDataSince(h) + 1 >= c.dropoutLimit))
  {
    hide Flags, NoDataSince, SeenSince, LastOutOfRange, Accepted, Repeats, BigEndian, Signed32;
    FlagsAre(c, h);
    FlagsAre(c, h + [Observed(r)]);
    HistoryStep(c, h, Observed(r));
  }

  class Driver {
    const cfg: Cfg
    var flags: set<Flag>
    var lastGood: int
    var hasLastGood: bool
    var nodataCnt: nat
    var stuckCnt: nat
    ghost var history: seq<Poll>

    /** Flags and last good value are what the history says. */
    ghost predicate Valid()
      reads this
    {
      var a := Accepted(cfg, history);
      && flags == Flags(cfg, history)
      && (hasLastGood <==> a != []) && (hasLastGood ==> lastGood == a[|a| - 1])
      && nodataCnt == Min(NoDataSince(history), cfg.dropoutLimit)
      && stuckCnt == Min(Repeats(a), cfg.stuckLimit)
    }

    constructor (c: Cfg)
      ensures Valid() && cfg == c && history == []
    {
      cfg := c;
      flags, lastGood, hasLastGood, nodataCnt, stuckCnt, history := {}, 0, false, 0, 0, [];
    }

    /** The held value, once there is one, was accepted in range. */
    lemma LastGoodInRange()
      requires Valid()
      ensures hasLastGood ==> InRange(cfg, lastGood)
    {
      hide Flags, Repeats, NoDataSince, Accepted;
      AcceptedInRange(cfg, history);
    }

    method Update(p: Poll)
      requires Valid()
      modifies this
      ensures Valid() && history == old(history) + [p]
    {
      hide NoDataSince, SeenSince, LastOutOfRange, Accepted, Repeats;
      ghost var h := history + [p];
      HistoryStep(cfg, history, p);
      if p.Sample? {
        RepeatsStep(Accepted(cfg, history), p.value);
      }
      match p {
        case Sample(v) => OnSample(v);
        case NakPersisted => flags := flags + {BusNak};
        case BusFault => flags := flags + {BusErr};
        case NotReady => OnNoData();
      }
      history := h;
    }

    /** Nothing new: a dropout once enough polls in a row say so. */
    method OnNoData()
      requires nodataCnt <= cfg.dropoutLimit
      modifies this`nodataCnt, this`flags
      ensures nodataCnt == Min(old(nodataCnt) + 1, cfg.dropoutLimit)
      ensures flags == old(flags) + if nodataCnt >= cfg.dropoutLimit then {Dropout} else {}
    {
      if nodataCnt < cfg.dropoutLimit {
        nodataCnt := nodataCnt + 1;
      }
      if nodataCnt >= cfg.dropoutLimit {
        flags := flags + {Dropout};
      }
    }

    /** A successful read: bus and dropout faults clear, then the range and stuck checks run. */
    method OnSample(v: int)
      requires Valid()
      modifies this`flags, this`lastGood, this`hasLastGood, this`nodataCnt, this`stuckCnt
      ensures nodataCnt == 0
      ensures InRange(cfg, v) ==>
                hasLastGood && lastGood == v
                && stuckCnt == (if old(hasLastGood) && v == old(lastGood) then Min(old(stuckCnt) + 1, cfg.stuckLimit) else 0)
                && flags == if stuckCnt >= cfg.stuckLimit then {Stuck} else {}
      ensures !InRange(cfg, v) ==>
                lastGood == old(lastGood) && hasLastGood == old(hasLastGood) && stuckCnt == old(stuckCnt)
                && flags == (old(flags) * {Stuck}) + {Range}
    {
      flags := flags - {BusErr, BusNak, Dropout};
      nodataCnt := 0;
      if v < cfg.rangeMin || v > cfg.rangeMax {
        flags := flags + {Range};
        return;
      }
      flags := flags - {Range};
      if hasLastGood && v == lastGood {
        if stuckCnt < cfg.stuckLimit {
          stuckCnt := stuckCnt + 1;
        }
      } else {
        stuckCnt := 0;
      }
      if stuckCnt >= cfg.stuckLimit {
        flags := flags + {Stuck};
      } else {
        flags := flags - {Stuck};
      }
      lastGood := v;
      hasLastGood := true;
    }

    /** One poll of the device; healthy means no flag is set. */
    method PollOnce(bus: nat -> Reply) returns (healthy: bool)
      requires Valid() && (cfg.nakRetries < 255 || exists k: nat :: !bus(k).Nak?)
      requires forall i :: bus(i).ReadOk? ==> |bus(i).data| <= 4
      modifies this
      ensures Valid() && exists r :: Answer(cfg.nakRetries, bus, r) && history == old(history) + [Observed(r)]
      ensures healthy <==> Flags(cfg, history) == {}
    {
      hide Flags, Accepted, Repeats, NoDataSince, After;
      var r, n := ReadWithRetry(cfg, bus);
      assert Answer(cfg.nakRetries, bus, r);
      match r {
        case ReadOk(data) =>
          var v := DecodeSample(data);
          Update(Sample(v));
        case Nak => Update(NakPersisted);
        case Err => Update(BusFault);
        case NoData => Update(NotReady);
      }
      return flags == {};
    }
  }

  function Observed(r: Reply): Poll {
    match r
    case ReadOk(data) => Sample(Signed32(BigEndian(data)))
    case Nak => NakPersisted
    case Err => BusFault
    case NoData => NotReady
  }

  function Min(a: nat, b: nat): nat {
    if a < b then a else b
  }
}
