/** The sender against true time: how often, how far apart and with what octets each frame goes out. */
module Retransmission {
  import opened Bytes
  import opened Frame
  import opened Reliable

  /** One call of the wire callback, for the idx-th accepted frame, at a true time that never wraps. */
  datatype Emission = Emission(idx: nat, at: nat, octets: seq<byte>)

  /** The sender, true time, and what it has done: its emissions and the timed-out polls of the current frame. */
  datatype Sender = Sender(tx: Tx, clock: nat, accepted: nat, log: seq<Emission>, timeouts: nat)

  const START := Sender(TX_INIT, 0, 0, [], 0)

  /** Each operation happens dt milliseconds after the previous one. */
  datatype Op = Send(dt: nat, typ: byte, payload: seq<byte>) | Poll(dt: nat) | Ack(dt: nat, acked: byte) | Clear(dt: nat)

  /** The 32-bit tick the sender is handed for a true time. */
  function Tick(t: nat): u32 {
    t % 0x1_0000_0000
  }

  function Apply(s: Sender, op: Op): Sender {
    var t := s.clock + op.dt;
    match op
    case Send(_, typ, payload) =>
      var (tx, status) := TxSend(s.tx, typ, payload, Tick(t));
      if status != Ok then s.(clock := t)
      else Sender(tx, t, s.accepted + 1, s.log + [Emission(s.accepted, t, tx.frame)], 0)
    case Poll(_) =>
      var tx := TxPoll(s.tx, Tick(t));
      s.(tx := tx, clock := t,
         log := if Resends(s.tx, Tick(t)) && s.accepted > 0 then s.log + [Emission(s.accepted - 1, t, s.tx.frame)] else s.log,
         timeouts := s.timeouts + if TimedOut(s.tx, Tick(t)) then 1 else 0)
    case Ack(_, acked) => s.(tx := TxOnAck(s.tx, acked), clock := t)
    case Clear(_) => s.(tx := TxClearFault(s.tx), clock := t)
  }

  function Run(ops: seq<Op>): Sender
    decreases |ops|
  {
    if ops == [] then START else Apply(Run(ops[..|ops| - 1]), ops[|ops| - 1])
  }

  /**
   * Emissions of one frame are the same octets, at most four in number and next to each other, each at least 100 ms of
   * true time after the one before.
   */
  ghost predicate Paced(log: seq<Emission>) {
    forall j, k :: 0 <= j < k < |log| ==>
      && log[j].idx <= log[k].idx
      && (log[j].idx == log[k].idx ==>
            log[j].octets == log[k].octets && k - j <= MAX_RETRIES && log[k].at - log[j].at >= ACK_TIMEOUT_MS * (k - j))
  }

  /** The last retries + 1 emissions are those of the outstanding frame. */
  ghost predicate Outstanding(s: Sender) {
    var n := |s.log|;
    && s.accepted > 0 && s.tx.retries < n
    && (forall j :: 0 <= j < n ==> (s.log[j].idx == s.accepted - 1 <==> j >= n - 1 - s.tx.retries))
    && s.log[n - 1].octets == s.tx.frame && s.log[n - 1].at <= s.clock && s.tx.lastTxMs == Tick(s.log[n - 1].at)
  }

  ghost predicate Inv(s: Sender) {
    && Paced(s.log)
    && (forall j :: 0 <= j < |s.log| ==> s.log[j].idx < s.accepted && s.log[j].at <= s.clock)
    && s.tx.retries <= MAX_RETRIES
    && (s.tx.state != Idle ==> Outstanding(s))
    && (s.tx.state == WaitAck ==> s.timeouts == s.tx.retries)
    && (s.tx.state == LinkFault ==>
          s.tx.retries == MAX_RETRIES && s.timeouts == 4 && s.clock - s.log[|s.log| - 1].at >= ACK_TIMEOUT_MS)
  }

  /** Unsigned subtraction of wrapped ticks never overstates the time that really passed. */
  lemma ElapsedIsReal(t: nat, a: nat)
    requires a <= t
    ensures Sub32(Tick(t), Tick(a)) == (t - a) % 0x1_0000_0000 <= t - a
  {
    var m := 0x1_0000_0000;
    assert t == m * (t / m) + Tick(t) && a == m * (a / m) + Tick(a);
    var q := t / m - a / m;
    assert t - a == m * q + (Tick(t) - Tick(a));
    if Tick(t) >= Tick(a) {
      Residue(t - a, q, Tick(t) - Tick(a));
    } else {
      Residue(t - a, q - 1, Tick(t) - Tick(a) + m);
    }
  }

  lemma Residue(x: nat, q: int, r: nat)
    requires r < 0x1_0000_0000 && x == 0x1_0000_0000 * q + r
    ensures x % 0x1_0000_0000 == r
  {
  }

  lemma SendInv(s: Sender, op: Op)
    requires Inv(s) && op.Send?
    ensures Inv(Apply(s, op))
  {
    hide Encode, Sub32, Tick;
  }

  lemma PollInv(s: Sender, op: Op)
    requires Inv(s) && op.Poll?
    ensures Inv(Apply(s, op))
  {
    hide Sub32, Tick, Paced, Outstanding, Inv;
    var t := s.clock + op.dt;
    if TimedOut(s.tx, Tick(t)) {
      Overdue(s, t);
      if s.tx.retries < MAX_RETRIES {
        ResendInv(s, t);
      } else {
        GiveUpInv(s, t);
      }
    } else {
      WaitInv(s, t);
    }
  }

  lemma Overdue(s: Sender, t: nat)
    requires Inv(s) && s.clock <= t && TimedOut(s.tx, Tick(t))
    ensures s.accepted > 0 && s.log != [] && t - s.log[|s.log| - 1].at >= ACK_TIMEOUT_MS && s.tx.retries <= MAX_RETRIES
  {
    hide Sub32, Tick, Paced;
    ElapsedIsReal(t, s.log[|s.log| - 1].at);
  }

  lemma WaitInv(s: Sender, t: nat)
    requires Inv(s) && s.clock <= t
    ensures Inv(s.(clock := t))
  {
    hide Tick, Paced;
  }

  lemma GiveUpInv(s: Sender, t: nat)
    requires Inv(s) && s.clock <= t && s.tx.state == WaitAck && s.tx.retries == MAX_RETRIES
    requires s.log != [] && t - s.log[|s.log| - 1].at >= ACK_TIMEOUT_MS
    ensures Inv(s.(tx := s.tx.(state := LinkFault), clock := t, timeouts := s.timeouts + 1))
  {
    hide Tick, Paced;
  }

  lemma ResendInv(s: Sender, t: nat)
    requires Inv(s) && s.clock <= t && s.tx.state == WaitAck && s.tx.retries < MAX_RETRIES && s.accepted > 0
    requires s.log != [] && t - s.log[|s.log| - 1].at >= ACK_TIMEOUT_MS
    ensures Inv(s.(tx := s.tx.(retries := s.tx.retries + 1, lastTxMs := Tick(t)), clock := t,
                   log := s.log + [Emission(s.accepted - 1, t, s.tx.frame)], timeouts := s.timeouts + 1))
  {
    hide Tick, Paced;
    ResendPaced(s, t);
  }

  lemma ResendPaced(s: Sender, t: nat)
    requires Inv(s) && s.tx.state == WaitAck && s.tx.retries < MAX_RETRIES
    requires t - s.log[|s.log| - 1].at >= ACK_TIMEOUT_MS
    ensures Paced(s.log + [Emission(s.accepted - 1, t, s.tx.frame)])
  {
    var n := |s.log|;
    var log := s.log + [Emission(s.accepted - 1, t, s.tx.frame)];
    forall j | 0 <= j < n && log[j].idx == s.accepted - 1
      ensures log[j].octets == s.tx.frame && n - j <= MAX_RETRIES && t - log[j].at >= ACK_TIMEOUT_MS * (n - j)
    {
      assert j < n - 1 ==> log[n - 1].at - log[j].at >= ACK_TIMEOUT_MS * (n - 1 - j);
    }
  }

  lemma {:induction false} RunInv(ops: seq<Op>)
    ensures Inv(Run(ops))
    decreases |ops|
  {
    hide Apply;
    if ops != [] {
      var s, op := Run(ops[..|ops| - 1]), ops[|ops| - 1];
      RunInv(ops[..|ops| - 1]);
      match op {
        case Send(_, _, _) => SendInv(s, op);
        case Poll(_) => PollInv(s, op);
        case _ => QuietInv(s, op);
      }
    }
  }

  lemma QuietInv(s: Sender, op: Op)
    requires Inv(s) && (op.Ack? || op.Clear?)
    ensures Inv(Apply(s, op))
  {
  }

  /** Over every run, across any number of wraps of the tick. */
  lemma EmissionsPaced(ops: seq<Op>, j: nat, k: nat)
    requires var log := Run(ops).log; j < k < |log| && log[j].idx == log[k].idx
    ensures var log := Run(ops).log;
            k - j <= 3 && log[j].octets == log[k].octets && log[k].at - log[j].at >= 100 * (k - j)
  {
    hide Run;
    RunInv(ops);
  }

  /** A link fault is raised only after all four emissions, at least 400 ms after the first, at the fourth timeout. */
  lemma FaultOnlyAfterExhaustion(ops: seq<Op>)
    requires Run(ops).tx.state == LinkFault
    ensures var s := Run(ops); var n := |s.log|;
      && n >= 4 && s.timeouts == 4
      && (forall j :: n - 4 <= j < n ==> s.log[j].idx == s.accepted - 1 && s.log[j].octets == s.tx.frame)
      && s.clock - s.log[n - 4].at >= 400
  {
    hide Run;
    RunInv(ops);
    var s := Run(ops);
    var n := |s.log|;
    assert s.log[n - 1].at - s.log[n - 4].at >= ACK_TIMEOUT_MS * 3;
  }

  /** Four polls that find the timeout elapsed decide an unacknowledged frame: the fourth raises the fault. */
  lemma FourthTimeoutFaults(ops: seq<Op>, dt: nat)
    requires Run(ops).tx.state == WaitAck && TimedOut(Run(ops).tx, Tick(Run(ops).clock + dt))
    ensures var s, s' := Run(ops), Run(ops + [Poll(dt)]);
            s'.tx.state == (if s.timeouts == 3 then LinkFault else WaitAck) && s.timeouts <= 3 && s'.timeouts == s.timeouts + 1
  {
    hide Run;
    RunInv(ops);
    RunSnoc(ops, Poll(dt));
  }

  /**
   * What a poll does, by the true time since the last emission, modulo the tick's 2^32 ms: nothing for 100 ms, then the
   * same octets go out again, and after three such times the fault is raised.
   */
  lemma PollDecides(ops: seq<Op>, dt: nat)
    requires Run(ops).tx.state == WaitAck
    ensures Run(ops).log != []
    ensures var s, s' := Run(ops), Run(ops + [Poll(dt)]); var t := s.clock + dt; var last := s.log[|s.log| - 1];
      && last.at <= s.clock
      && if (t - last.at) % 0x1_0000_0000 < 100 then s' == s.(clock := t)
         else if s.timeouts < 3 then s'.tx.state == WaitAck && s'.log == s.log + [Emission(last.idx, t, last.octets)]
         else s'.tx.state == LinkFault && s'.log == s.log
  {
    hide Run, Sub32, Tick;
    RunInv(ops);
    RunSnoc(ops, Poll(dt));
    var s := Run(ops);
    ElapsedIsReal(s.clock + dt, s.log[|s.log| - 1].at);
  }

  lemma RunSnoc(ops: seq<Op>, op: Op)
    ensures Run(ops + [op]) == Apply(Run(ops), op)
  {
    assert (ops + [op])[..|ops|] == ops;
  }
}
