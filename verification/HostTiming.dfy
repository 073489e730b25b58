/** The ground station's sender against time: when its timer acts, and how often and how far apart each frame goes out. */
module HostTiming {
  import opened Bytes
  import opened Frame
  import opened Arq
  import opened HostEndpoint

  /** One frame handed to the transport: the idx-th taken off the queue, its first emission or after so many timeouts. */
  datatype Emission = Emission(idx: nat, at: int, octets: seq<byte>, timeouts: nat)

  /** A link fault raised for the idx-th frame. */
  datatype Fault = Fault(idx: nat, at: int)

  datatype Op = Submitting(msg: Msg) | Ticking | Acked(payload: seq<byte>) | Naked(payload: seq<byte>)

  /** The sender, the time of its latest operation, how many frames it has begun, and what has happened. */
  datatype Timeline = Timeline(host: Sender, clock: int, begun: nat, log: seq<Emission>, faults: seq<Fault>)

  function Start(clock: int): Timeline {
    Timeline(SENDER_INIT, clock, 0, [], [])
  }

  function Effect(h: Sender, op: Op, now: int): Sent {
    match op
    case Submitting(msg) => Submit(h, msg, now)
    case Ticking => Tick(h, now)
    case Acked(payload) => OnAck(h, payload, now)
    case Naked(payload) => OnNak(h, payload, now)
  }

  /** Whether frames handed out by an operation are of a new message. */
  predicate Begins(op: Op) {
    op.Submitting? || op.Acked?
  }

  /** An operation happens dt after the one before. What it hands to the transport is entered in the log. */
  function Apply(s: Timeline, op: Op, dt: nat): Timeline {
    var now := s.clock + dt;
    var r := Effect(s.host, op, now);
    var begun := if r.frames != [] && Begins(op) then s.begun + 1 else s.begun;
    Timeline(r.sender, now, begun,
      if r.frames == [] || begun == 0 || r.sender.outstanding.None? then s.log
      else s.log + [Emission(begun - 1, now, r.frames[0], r.sender.outstanding.value.retries)],
      if r.sender.linkFaults > s.host.linkFaults && begun > 0 then s.faults + [Fault(begun - 1, now)] else s.faults)
  }

  function Run(clock: int, ops: seq<(Op, nat)>): Timeline
    decreases |ops|
  {
    if ops == [] then Start(clock)
    else Apply(Run(clock, ops[..|ops| - 1]), ops[|ops| - 1].0, ops[|ops| - 1].1)
  }

  // ---- The invariant ----

  /** Emissions of one frame are alike, and each timeout takes 100 ms. */
  predicate Spaced(e: Emission, f: Emission) {
    && e.idx <= f.idx && e.at <= f.at
    && (e.idx == f.idx ==> e.octets == f.octets && e.timeouts <= f.timeouts && f.at - e.at >= 100 * (f.timeouts - e.timeouts))
  }

  ghost predicate Paced(log: seq<Emission>) {
    forall j, k :: 0 <= j < k < |log| ==> Spaced(log[j], log[k])
  }

  /** The log ends with the outstanding frame's latest emission, and has its first. */
  ghost predicate LatestFirst(s: Timeline) {
    s.host.outstanding.Some? ==>
      var o := s.host.outstanding.value;
      && s.begun > 0 && s.log != [] && s.log[|s.log| - 1] == Emission(s.begun - 1, o.sentAt, o.frame, o.retries)
      && FirstOf(s.log, s.begun - 1)
  }

  /** The first emission of a frame is in the log. */
  ghost predicate FirstOf(log: seq<Emission>, idx: int) {
    exists j :: 0 <= j < |log| && log[j].idx == idx && log[j].timeouts == 0
  }

  /** A fault comes 400 ms after the frame's first emission or later, when it has timed out three times before. */
  ghost predicate Earned(log: seq<Emission>, f: Fault) {
    && (exists j :: 0 <= j < |log| && log[j].idx == f.idx && log[j].timeouts == 3)
    && (exists j :: 0 <= j < |log| && log[j].idx == f.idx && log[j].timeouts == 0 && f.at - log[j].at >= 400)
  }

  ghost predicate Inv(s: Timeline) {
    && Paced(s.log) && LatestFirst(s)
    && (forall j :: 0 <= j < |s.log| ==> s.log[j].idx < s.begun && s.log[j].at <= s.clock && s.log[j].timeouts <= 3)
    && (forall i :: 0 <= i < |s.faults| ==> Earned(s.log, s.faults[i]))
    && |s.faults| == s.host.linkFaults
    && |s.log| == s.begun + s.host.retransmits
  }

  // ---- One operation ----

  /** What one operation does to the log: nothing, a new frame, the frame again, or a fault. */
  datatype Outcome = Silent | Fresh | Again(timedOut: bool) | Faulted

  predicate Fits(s: Timeline, s': Timeline, what: Outcome) {
    var h, h', now := s.host, s'.host, s'.clock;
    match what
    case Silent =>
      && s'.log == s.log && s'.faults == s.faults && s'.begun == s.begun
      && (h'.outstanding == h.outstanding || h'.outstanding.None?)
      && h'.linkFaults == h.linkFaults && h'.retransmits == h.retransmits
    case Fresh =>
      && s'.begun == s.begun + 1 && s'.faults == s.faults && h'.outstanding.Some?
      && h'.outstanding.value.sentAt == now && h'.outstanding.value.retries == 0
      && s'.log == s.log + [Emission(s.begun, now, h'.outstanding.value.frame, 0)]
      && h'.linkFaults == h.linkFaults && h'.retransmits == h.retransmits
    case Again(timedOut) =>
      && s'.begun == s.begun && s'.faults == s.faults && h.outstanding.Some? && h'.outstanding.Some? && s.begun > 0
      && h'.linkFaults == h.linkFaults && h'.retransmits == h.retransmits + 1
      && var o, o' := h.outstanding.value, h'.outstanding.value;
         && o' == o.(sentAt := now, retries := o.retries + if timedOut then 1 else 0)
         && s'.log == s.log + [Emission(s.begun - 1, now, o.frame, o'.retries)]
         && (timedOut ==> now - o.sentAt >= 100 && o.retries < 3)
    case Faulted =>
      && s'.log == s.log && s'.begun == s.begun && h.outstanding.Some? && h'.outstanding.None? && s.begun > 0
      && now - h.outstanding.value.sentAt >= 100 && h.outstanding.value.retries >= 3
      && s'.faults == s.faults + [Fault(s.begun - 1, now)]
      && h'.linkFaults == h.linkFaults + 1 && h'.retransmits == h.retransmits
  }

  lemma OutcomeOf(s: Timeline, op: Op, dt: nat) returns (what: Outcome)
    requires LatestFirst(s)
    ensures Fits(s, Apply(s, op, dt), what)
  {
    hide Encode, NextOctet;
    var now := s.clock + dt;
    match op {
      case Submitting(msg) => what := PumpOutcome(s, s.host.(pending := s.host.pending + [msg]), op, dt);
      case Acked(payload) =>
        what := Silent;
        if Names(s.host, payload) {
          what := PumpOutcome(s, s.host.(outstanding := None), op, dt);
        }
      case Naked(payload) => what := if Names(s.host, payload) then Again(false) else Silent;
      case Ticking =>
        if s.host.outstanding.None? || now - s.host.outstanding.value.sentAt < 100 {
          what := Silent;
        } else if s.host.outstanding.value.retries < 3 {
          what := Again(true);
        } else {
          what := Faulted;
        }
    }
  }

  lemma PumpOutcome(s: Timeline, h: Sender, op: Op, dt: nat) returns (what: Outcome)
    requires Effect(s.host, op, s.clock + dt) == Pump(h, s.clock + dt) && Begins(op)
    requires h.linkFaults == s.host.linkFaults && h.retransmits == s.host.retransmits
    requires h.outstanding == s.host.outstanding || h.outstanding.None?
    ensures Fits(s, Apply(s, op, dt), what)
  {
    hide Encode, NextOctet, Effect;
    what := if Pump(h, s.clock + dt).frames == [] then Silent else Fresh;
  }

  lemma FitsInv(s: Timeline, s': Timeline, what: Outcome)
    requires Inv(s) && s.clock <= s'.clock && Fits(s, s', what)
    ensures Inv(s')
  {
    hide Paced, Spaced, Earned, FirstOf, LatestFirst, Fits;
    LogGrows(s, s', what);
    PacedMore(s, s', what);
    LatestFirstMore(s, s', what);
    if what.Faulted? {
      FaultEarned(s, s');
    }
    assert |s'.faults| == s'.host.linkFaults && |s'.log| == s'.begun + s'.host.retransmits by { Counted(s, s', what); }
    forall i | 0 <= i < |s'.faults| ensures Earned(s'.log, s'.faults[i]) {
      FaultsBefore(s, s', what, i);
      if i < |s.faults| {
        EarnedMore(s.log, s'.log, s.faults[i]);
      }
    }
  }

  lemma FaultsBefore(s: Timeline, s': Timeline, what: Outcome, i: nat)
    requires Fits(s, s', what) && i < |s'.faults|
    ensures i < |s.faults| ==> s'.faults[i] == s.faults[i]
    ensures i >= |s.faults| ==> what.Faulted? && s'.faults[i] == Fault(s.begun - 1, s'.clock)
  {
  }

  lemma Counted(s: Timeline, s': Timeline, what: Outcome)
    requires Fits(s, s', what) && |s.faults| == s.host.linkFaults && |s.log| == s.begun + s.host.retransmits
    ensures |s'.faults| == s'.host.linkFaults && |s'.log| == s'.begun + s'.host.retransmits
  {
  }

  lemma LogGrows(s: Timeline, s': Timeline, what: Outcome)
    requires Inv(s) && s.clock <= s'.clock && Fits(s, s', what)
    ensures s.log <= s'.log
    ensures forall j :: 0 <= j < |s'.log| ==> s'.log[j].idx < s'.begun && s'.log[j].at <= s'.clock && s'.log[j].timeouts <= 3
  {
    hide Paced, Earned, FirstOf;
    assert s'.log != s.log ==> s'.log[..|s.log|] == s.log;
  }

  lemma EarnedMore(log: seq<Emission>, log': seq<Emission>, f: Fault)
    requires Earned(log, f) && log <= log'
    ensures Earned(log', f)
  {
    var j :| 0 <= j < |log| && log[j].idx == f.idx && log[j].timeouts == 3;
    var k :| 0 <= k < |log| && log[k].idx == f.idx && log[k].timeouts == 0 && f.at - log[k].at >= 400;
    assert log'[j] == log[j] && log'[k] == log[k];
  }

  lemma FirstMore(log: seq<Emission>, log': seq<Emission>, idx: int)
    requires FirstOf(log, idx) && log <= log'
    ensures FirstOf(log', idx)
  {
    var j :| 0 <= j < |log| && log[j].idx == idx && log[j].timeouts == 0;
    assert log'[j] == log[j];
  }

  lemma LatestFirstMore(s: Timeline, s': Timeline, what: Outcome)
    requires LatestFirst(s) && Fits(s, s', what) && s.log <= s'.log
    ensures LatestFirst(s')
  {
    hide FirstOf;
    var n := |s.log|;
    match what {
      case Fresh =>
        assert s'.log[n] == Emission(s.begun, s'.clock, s'.host.outstanding.value.frame, 0);
        assert FirstOf(s'.log, s.begun) by { FirstHere(s'.log, n); }
      case Again(_) => FirstMore(s.log, s'.log, s.begun - 1);
      case _ =>
    }
  }

  lemma FirstHere(log: seq<Emission>, j: nat)
    requires j < |log| && log[j].timeouts == 0
    ensures FirstOf(log, log[j].idx)
  {
  }

  lemma PacedMore(s: Timeline, s': Timeline, what: Outcome)
    requires Inv(s) && s.clock <= s'.clock && Fits(s, s', what)
    ensures Paced(s'.log)
  {
    hide Spaced, Earned, FirstOf;
    if s'.log != s.log {
      var n := |s.log|;
      var e := s'.log[n];
      assert s'.log == s.log + [e];
      forall j | 0 <= j < n ensures Spaced(s.log[j], e) {
        if what.Fresh? {
          NewIsSpaced(s.log[j], e);
        } else {
          var o, o' := s.host.outstanding.value, s'.host.outstanding.value;
          var last := s.log[n - 1];
          assert j < n - 1 ==> Spaced(s.log[j], last);
          AgainIsSpaced(s.log[j], last, e, j == n - 1);
        }
      }
    }
  }

  lemma NewIsSpaced(e: Emission, f: Emission)
    requires e.idx < f.idx && e.at <= f.at
    ensures Spaced(e, f)
  {
  }

  lemma AgainIsSpaced(e: Emission, last: Emission, f: Emission, same: bool)
    requires if same then e == last else Spaced(e, last)
    requires f.idx == last.idx && f.octets == last.octets && f.at >= last.at
    requires f.timeouts == last.timeouts || (f.timeouts == last.timeouts + 1 && f.at - last.at >= 100)
    ensures Spaced(e, f)
  {
  }

  /** The frame given up on has timed out three times, each 100 ms after the time before, and once more. */
  lemma FaultEarned(s: Timeline, s': Timeline)
    requires Inv(s) && Fits(s, s', Faulted)
    ensures Earned(s'.log, Fault(s.begun - 1, s'.clock))
  {
    var n := |s.log| - 1;
    var last := s.log[n];
    var j :| 0 <= j < |s.log| && s.log[j].idx == s.begun - 1 && s.log[j].timeouts == 0;
    assert last.idx == s.begun - 1 && last.timeouts == 3;
    assert Spaced(s.log[j], last);
    assert s'.log[n].timeouts == 3;
    assert s'.clock - s.log[j].at >= 400;
  }

  lemma StartInv(clock: int)
    ensures Inv(Start(clock))
  {
  }

  lemma {:induction false} RunInv(clock: int, ops: seq<(Op, nat)>)
    ensures Inv(Run(clock, ops))
    decreases |ops|
  {
    hide Inv, Apply, Fits;
    if ops == [] {
      StartInv(clock);
    } else {
      var s := Run(clock, ops[..|ops| - 1]);
      RunInv(clock, ops[..|ops| - 1]);
      InvLatest(s);
      var what := OutcomeOf(s, ops[|ops| - 1].0, ops[|ops| - 1].1);
      ClockGrows(s, ops[|ops| - 1].0, ops[|ops| - 1].1);
      FitsInv(s, Apply(s, ops[|ops| - 1].0, ops[|ops| - 1].1), what);
    }
  }

  lemma InvLatest(s: Timeline)
    requires Inv(s)
    ensures LatestFirst(s)
  {
    hide LatestFirst;
  }

  lemma ClockGrows(s: Timeline, op: Op, dt: nat)
    ensures s.clock <= Apply(s, op, dt).clock
  {
    hide Effect;
  }

  // ---- The guarantees ----

  /** Within 100 ms of a frame's latest emission, by whatever cause, the timer does nothing. */
  lemma TimerRearmed(h: Sender, op: Op, t1: int, t2: int)
    requires Effect(h, op, t1).frames != [] && t2 - t1 < 100
    ensures var r := Effect(h, op, t1).sender; Tick(r, t2) == Sent(r, [])
  {
    hide Encode, NextOctet;
  }

  /** In every run emissions of one frame are the same octets, at most three of them by timeout, 100 ms for each timeout. */
  lemma EmissionsPaced(clock: int, ops: seq<(Op, nat)>, j: nat, k: nat)
    requires var log := Run(clock, ops).log; j < k < |log| && log[j].idx == log[k].idx
    ensures var log := Run(clock, ops).log;
      && log[j].octets == log[k].octets && log[j].timeouts <= log[k].timeouts <= 3
      && log[k].at - log[j].at >= 100 * (log[k].timeouts - log[j].timeouts)
  {
    hide Run;
    RunInv(clock, ops);
    assert Spaced(Run(clock, ops).log[j], Run(clock, ops).log[k]);
  }

  /** Each link fault is for a frame that went out by timeout three times, and first 400 ms or more before the fault. */
  lemma FaultsEarned(clock: int, ops: seq<(Op, nat)>, i: nat)
    requires i < |Run(clock, ops).faults|
    ensures var s := Run(clock, ops);
      && s.host.linkFaults == |s.faults|
      && (exists k :: 0 <= k < |s.log| && s.log[k].idx == s.faults[i].idx && s.log[k].timeouts == 3)
      && (exists j :: 0 <= j < |s.log| && s.log[j].idx == s.faults[i].idx && s.log[j].timeouts == 0
                      && s.faults[i].at - s.log[j].at >= 400)
  {
    hide Run;
    RunInv(clock, ops);
    assert Earned(Run(clock, ops).log, Run(clock, ops).faults[i]);
  }

  /** The log's last entry is the outstanding frame's. */
  lemma Latest(clock: int, ops: seq<(Op, nat)>)
    requires Run(clock, ops).host.outstanding.Some?
    ensures var s := Run(clock, ops); var o := s.host.outstanding.value;
      && s.log != [] && s.begun > 0 && o.sentAt <= s.clock && o.retries <= 3
      && s.log[|s.log| - 1] == Emission(s.begun - 1, o.sentAt, o.frame, o.retries)
  {
    hide Run, Paced, Earned, FirstOf;
    RunInv(clock, ops);
  }

  /**
   * What the timer does, by the time since the latest emission: nothing for 100 ms, then the same octets go out again, and
   * after three such times the frame is dropped with a link fault.
   */
  lemma TickDecides(clock: int, ops: seq<(Op, nat)>, dt: nat)
    requires Run(clock, ops).host.outstanding.Some?
    ensures Run(clock, ops).log != []
    ensures var s := Run(clock, ops); var s', last := Apply(s, Ticking, dt), s.log[|s.log| - 1];
      && last.at <= s.clock
      && if s'.clock - last.at < 100 then s'.host == s.host && s'.log == s.log && s'.faults == s.faults
         else if last.timeouts < 3 then
           s'.log == s.log + [last.(at := s'.clock, timeouts := last.timeouts + 1)] && s'.faults == s.faults
           && s'.host.retransmits == s.host.retransmits + 1
         else s'.log == s.log && s'.faults == s.faults + [Fault(last.idx, s'.clock)] && s'.host.outstanding.None?
  {
    hide Run, Encode, Pump;
    Latest(clock, ops);
  }

  /** A NAK for the outstanding frame, and no other, makes it go out again at once, without counting as a timeout. */
  lemma NakDecides(clock: int, ops: seq<(Op, nat)>, payload: seq<byte>, dt: nat)
    requires Run(clock, ops).host.outstanding.Some?
    ensures Run(clock, ops).log != []
    ensures var s := Run(clock, ops); var s', last := Apply(s, Naked(payload), dt), s.log[|s.log| - 1];
      if payload != [] && payload[0] == s.host.outstanding.value.seqNo then
        s'.log == s.log + [last.(at := s'.clock)] && s'.host.retransmits == s.host.retransmits + 1 && s'.faults == s.faults
      else s'.host == s.host && s'.log == s.log && s'.faults == s.faults
  {
    hide Run, Encode, Pump;
    Latest(clock, ops);
  }

  /** A message submitted goes out at once if nothing is ahead of it, and otherwise queues behind what is. */
  lemma SubmitDecides(h: Sender, msg: Msg, now: int)
    ensures var r := Submit(h, msg, now);
      && (h.outstanding.Some? ==> r == Sent(h.(pending := h.pending + [msg]), []))
      && (h.outstanding.None? && h.pending == [] && |msg.payload| <= MAX_PAYLOAD ==>
            r.frames == [Encode(Frame(msg.typ, h.txSeq, msg.payload))] && r.sender.pending == [])
  {
    hide Encode, NextOctet;
  }

  /** The outstanding frame's ACK, and no other, releases the next queued message, which goes out at once if it fits. */
  lemma AckDecides(h: Sender, payload: seq<byte>, now: int)
    ensures var r := OnAck(h, payload, now);
      if h.outstanding.Some? && payload != [] && payload[0] == h.outstanding.value.seqNo then
        && (h.pending == [] ==> r == Sent(h.(outstanding := None), []))
        && (h.pending != [] && |h.pending[0].payload| <= MAX_PAYLOAD ==>
              && r.frames == [Encode(Frame(h.pending[0].typ, h.txSeq, h.pending[0].payload))]
              && r.sender.pending == h.pending[1..] && r.sender.outstanding.Some?)
      else r == Sent(h, [])
  {
    hide Encode, NextOctet;
  }

  /** Every emission but a frame's first is counted as a retransmission. */
  lemma RetransmissionsCounted(clock: int, ops: seq<(Op, nat)>)
    ensures var s := Run(clock, ops); |s.log| == s.begun + s.host.retransmits
  {
    hide Run;
    RunInv(clock, ops);
  }
}
