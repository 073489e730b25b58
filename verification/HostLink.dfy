/**
 * The ground station sending to the node over lossy, repeating channels that carry nothing but octets. Every run is
 * matched, step by step, by a run of the link of module Arq, from which its guarantees follow.
 */
module HostLink {
  import opened Bytes
  import opened Frame
  import opened Reliable
  import opened HostEndpoint
  import A = Arq
  import opened Repetition
  import C = Chains
  import E = ExactlyOnce

  datatype Link = Link(host: Sender, rx: Rx, data: seq<seq<byte>>, acks: seq<seq<byte>>, delivered: seq<Frame>)

  const START := Link(SENDER_INIT, RX_INIT, [], [], [])

  datatype Op =
    | Submitting(msg: A.Msg, now: int)
    | Ticking(now: int)
    | HostHears(now: int)                       // the oldest acknowledgement arrives
    | NakArrives(payload: seq<byte>, now: int)  // whatever it names
    | NodeHears                                 // the oldest data frame arrives
    | LoseData(i: nat)
    | DupData(i: nat)
    | LoseAck(i: nat)
    | DupAck(i: nat)

  function Emit(l: Link, r: Sent): Link {
    l.(host := r.sender, data := l.data + r.frames)
  }

  function HostHearsStep(l: Link, now: int): Link {
    if l.acks == [] then l
    else
      var fs, l' := Parse(l.acks[0]).frames, l.(acks := l.acks[1..]);
      if |fs| != 1 || fs[0].typ != TYPE_ACK then l' else Emit(l', OnAck(l.host, fs[0].payload, now))
  }

  function NodeHearsStep(l: Link): Link {
    if l.data == [] then l
    else
      var fs, l' := Parse(l.data[0]).frames, l.(data := l.data[1..]);
      if |fs| != 1 || fs[0].typ == TYPE_ACK then l'
      else
        l'.(rx := RxOnFrame(l.rx, fs[0]), acks := l.acks + [Encode(AckFrame(fs[0].seqNo))],
            delivered := if IsDuplicate(l.rx, fs[0].seqNo) then l.delivered else l.delivered + [fs[0]])
  }

  function Step(l: Link, op: Op): Link {
    match op
    case Submitting(msg, now) => Emit(l, Submit(l.host, msg, now))
    case Ticking(now) => Emit(l, Tick(l.host, now))
    case HostHears(now) => HostHearsStep(l, now)
    case NakArrives(payload, now) => Emit(l, OnNak(l.host, payload, now))
    case NodeHears => NodeHearsStep(l)
    case LoseData(i) => l.(data := A.Lose(l.data, i))
    case DupData(i) => l.(data := A.Dup(l.data, i))
    case LoseAck(i) => l.(acks := A.Lose(l.acks, i))
    case DupAck(i) => l.(acks := A.Dup(l.acks, i))
  }

  function Run(ops: seq<Op>): Link {
    if ops == [] then START else Step(Run(ops[..|ops| - 1]), ops[|ops| - 1])
  }

  /** The messages submitted during a run, in order. */
  function Submitted(ops: seq<Op>): seq<A.Msg> {
    if ops == [] then []
    else
      var before, op := Submitted(ops[..|ops| - 1]), ops[|ops| - 1];
      if op.Submitting? then before + [op.msg] else before
  }

  // ---- The link that a run of the ground station amounts to ----

  function Octets(ps: seq<A.Packet>): (os: seq<seq<byte>>)
    ensures |os| == |ps| && forall i :: 0 <= i < |ps| ==> os[i] == ps[i].octets
  {
    if ps == [] then [] else [ps[0].octets] + Octets(ps[1..])
  }

  function Frames(ds: seq<A.Delivery>): (fs: seq<Frame>)
    ensures |fs| == |ds| && forall i :: 0 <= i < |ds| ==> fs[i] == ds[i].frame
  {
    if ds == [] then [] else [ds[0].frame] + Frames(ds[1..])
  }

  /** How many messages were given up on after a link fault. */
  function Dropped(fates: seq<A.Fate>): nat {
    if fates == [] then 0
    else Dropped(fates[..|fates| - 1]) + if fates[|fates| - 1] == A.Abandoned then 1 else 0
  }

  /** Which messages were given up on after a link fault. */
  function Lost(fates: seq<A.Fate>): set<int> {
    set i | 0 <= i < |fates| && fates[i] == A.Abandoned
  }

  /** A step from h to h', with n messages taken off the queue before it, gives up on the last of them if a fault is raised. */
  function Newly(h: Sender, h': Sender, n: int): set<int> {
    if h'.linkFaults > h.linkFaults then {n - 1} else {}
  }

  /** The ground station's sender, but for its queue and its clock, is the node's. */
  predicate Speaks(h: Sender, tx: Tx) {
    && h.txSeq == tx.nextSeq && tx.state != LinkFault
    && (h.outstanding.Some? <==> tx.state == WaitAck)
    && (h.outstanding.Some? ==>
          var o := h.outstanding.value; o.seqNo == tx.curSeq && o.frame == tx.frame && o.retries == tx.retries)
  }

  predicate Mirrors(l: Link, s: A.Sys) {
    && Speaks(l.host, s.tx) && l.rx == s.rx && l.host.linkFaults == Dropped(s.fates)
    && l.data == Octets(s.data) && l.acks == Octets(s.acks) && l.delivered == Frames(s.delivered)
  }

  predicate Sequenced(msgs: seq<A.Msg>) {
    forall i :: 0 <= i < |msgs| ==> A.ReliableType(msgs[i].typ)
  }

  ghost predicate Matched(l: Link, s: A.Sys) {
    E.Reaches(A.INIT, s) && Mirrors(l, s)
  }

  lemma Advance(s: A.Sys, a: A.Action) returns (s': A.Sys)
    requires E.Reaches(A.INIT, s)
    ensures s' == A.Apply(s, a) && E.Reaches(A.INIT, s') && A.Inv(s) && A.Inv(s')
    ensures Lost(s'.fates) == Lost(s.fates) + Fallen(s, a)
  {
    hide E.Reaches, A.Inv, A.Apply;
    s' := A.Apply(s, a);
    E.ReachesStep(A.INIT, s, a);
    E.ReachedInv(s);
    E.ReachedInv(s');
    LostStep(s, a);
  }

  function Fallen(s: A.Sys, a: A.Action): set<int> {
    if a.ClearFault? && s.tx.state == LinkFault then {|s.accepted| - 1} else {}
  }

  lemma LostStep(s: A.Sys, a: A.Action)
    requires A.Inv(s)
    ensures Lost(A.Apply(s, a).fates) == Lost(s.fates) + Fallen(s, a)
  {
    hide A.Inv, A.Apply;
    FatesStep(s, a);
    var fates, fates' := s.fates, A.Apply(s, a).fates;
    forall i ensures i in Lost(fates') <==> i in Lost(fates) + Fallen(s, a) {
    }
  }

  /** How one action may change the fates. */
  lemma FatesStep(s: A.Sys, a: A.Action)
    requires A.Inv(s)
    ensures var fates, fates' := s.fates, A.Apply(s, a).fates; var n := |fates| - 1;
      && |fates| == |s.accepted|
      && if a.ClearFault? && s.tx.state == LinkFault then n >= 0 && fates[n] == A.Open && fates' == fates[..n] + [A.Abandoned]
         else || fates' == fates || fates' == fates + [A.Open] || fates' == fates + [A.Rejected]
              || (n >= 0 && fates[n] == A.Open && fates' == fates[..n] + [A.Acked])
  {
    hide Encode, Parse, A.SeqOf, A.NextOctet, A.ChannelInv, A.RxInv, A.DeliveredInOrder, A.ReliableType, A.Lose, A.Dup, A.FrameOf;
  }

  lemma OctetsAppend(ps: seq<A.Packet>, p: A.Packet)
    ensures Octets(ps + [p]) == Octets(ps) + [p.octets]
  {
  }

  lemma OctetsTail(ps: seq<A.Packet>)
    requires ps != []
    ensures Octets(ps) != [] && Octets(ps)[0] == ps[0].octets && Octets(ps)[1..] == Octets(ps[1..])
  {
  }

  lemma FramesAppend(ds: seq<A.Delivery>, d: A.Delivery)
    ensures Frames(ds + [d]) == Frames(ds) + [d.frame]
  {
  }

  lemma OctetsEmpty(ps: seq<A.Packet>)
    ensures Octets(ps) == [] <==> ps == []
  {
  }

  /** Releasing the oldest queued message: as a frame if it fits one, else by spending its number. */
  lemma PumpMatched(l: Link, s: A.Sys, now: int) returns (s': A.Sys)
    requires Matched(l, s) && Sequenced(l.host.pending)
    ensures var l' := Emit(l, Pump(l.host, now));
            Matched(l', s') && Sequenced(l'.host.pending) && s'.accepted + l'.host.pending == s.accepted + l.host.pending
    ensures Lost(s'.fates) == Lost(s.fates) && Pump(l.host, now).sender.linkFaults == l.host.linkFaults
  {
    hide Encode, A.Inv, E.Reaches, Mirrors, A.StepSend, A.StepReject;
    s' := s;
    if l.host.outstanding.None? && l.host.pending != [] {
      var msg := l.host.pending[0];
      MirrorsIdle(l, s);
      if |msg.payload| <= MAX_PAYLOAD {
        s' := Advance(s, A.Send(msg, 0));
        SendMirrors(l, s, now);
      } else {
        s' := Advance(s, A.Reject(msg));
        RejectMirrors(l, s, now);
      }
      assert s.accepted + l.host.pending == (s.accepted + [msg]) + l.host.pending[1..];
    }
    assert Emit(l, Sent(l.host, [])) == l;
  }

  lemma MirrorsIdle(l: Link, s: A.Sys)
    requires Mirrors(l, s) && l.host.outstanding.None?
    ensures s.tx.state == Idle
  {
  }

  lemma SendMirrors(l: Link, s: A.Sys, now: int)
    requires Mirrors(l, s) && l.host.outstanding.None? && l.host.pending != [] && |l.host.pending[0].payload| <= MAX_PAYLOAD
    ensures var s' := A.StepSend(s, l.host.pending[0], 0);
            Mirrors(Emit(l, Pump(l.host, now)), s') && s'.accepted == s.accepted + [l.host.pending[0]]
  {
    hide Encode, Octets, Frames, Dropped, A.NextOctet, Speaks;
    var msg := l.host.pending[0];
    SendSpeaks(l.host, s.tx, now);
    OctetsAppend(s.data, A.Packet(TxSend(s.tx, msg.typ, msg.payload, 0).0.frame, |s.accepted|));
    DroppedAppend(s.fates, A.Open);
  }

  lemma SendSpeaks(h: Sender, tx: Tx, now: int)
    requires Speaks(h, tx) && h.outstanding.None? && h.pending != [] && |h.pending[0].payload| <= MAX_PAYLOAD
    ensures var msg := h.pending[0]; var (tx', status) := TxSend(tx, msg.typ, msg.payload, 0);
            status == Ok && Speaks(Pump(h, now).sender, tx') && Pump(h, now).frames == [tx'.frame] && tx.state == Idle
            && Pump(h, now).sender.linkFaults == h.linkFaults
  {
    hide Encode;
  }

  lemma RejectMirrors(l: Link, s: A.Sys, now: int)
    requires Mirrors(l, s) && l.host.outstanding.None? && l.host.pending != [] && |l.host.pending[0].payload| > MAX_PAYLOAD
    ensures var s' := A.StepReject(s, l.host.pending[0]);
            Mirrors(Emit(l, Pump(l.host, now)), s') && s'.accepted == s.accepted + [l.host.pending[0]]
  {
    hide Encode, Octets, Frames, Dropped, A.NextOctet;
    DroppedAppend(s.fates, A.Rejected);
    assert l.data + [] == l.data;
  }

  lemma DroppedAppend(fates: seq<A.Fate>, f: A.Fate)
    ensures Dropped(fates + [f]) == Dropped(fates) + if f == A.Abandoned then 1 else 0
  {
    assert (fates + [f])[..|fates|] == fates;
  }

  /** A timeout is a poll at a time the node's clock would call a timeout, too; giving up also clears the fault. */
  lemma TickMatched(l: Link, s: A.Sys, now: int) returns (s': A.Sys)
    requires Matched(l, s)
    ensures Matched(Emit(l, Tick(l.host, now)), s') && s'.accepted == s.accepted
    ensures Lost(s'.fates) == Lost(s.fates) + Newly(l.host, Tick(l.host, now).sender, |s.accepted|)
  {
    hide Encode, A.Inv, E.Reaches, Mirrors, A.StepPoll, A.StepClear;
    s' := s;
    if l.host.outstanding.Some? && now - l.host.outstanding.value.sentAt >= ACK_TIMEOUT_MS {
      var later := Add32(s.tx.lastTxMs, ACK_TIMEOUT_MS);
      s' := Advance(s, A.Poll(later));
      MirrorsWaiting(l, s);
      HasAccepted(s);
      if l.host.outstanding.value.retries < MAX_RETRIES {
        ResendMirrors(l, s, now);
      } else {
        s' := Advance(s', A.ClearFault);
        FaultMirrors(l, s, now);
      }
    } else {
      assert Emit(l, Tick(l.host, now)) == l.(data := l.data + []) == l;
    }
  }

  lemma MirrorsWaiting(l: Link, s: A.Sys)
    requires Mirrors(l, s) && l.host.outstanding.Some?
    ensures s.tx.state == WaitAck && TimedOut(s.tx, Add32(s.tx.lastTxMs, ACK_TIMEOUT_MS))
    ensures s.tx.retries == l.host.outstanding.value.retries
  {
    LaterIsLater(s.tx.lastTxMs);
  }

  lemma LaterIsLater(t: u32)
    ensures Sub32(Add32(t, ACK_TIMEOUT_MS), t) == ACK_TIMEOUT_MS
  {
  }

  lemma ResendMirrors(l: Link, s: A.Sys, now: int)
    requires Mirrors(l, s) && l.host.outstanding.Some? && l.host.outstanding.value.retries < MAX_RETRIES
    requires now - l.host.outstanding.value.sentAt >= ACK_TIMEOUT_MS && s.accepted != []
    ensures var s' := A.StepPoll(s, Add32(s.tx.lastTxMs, ACK_TIMEOUT_MS));
            Mirrors(Emit(l, Tick(l.host, now)), s') && s'.accepted == s.accepted
  {
    hide Octets, Frames, Dropped, TimedOut, Add32;
    MirrorsWaiting(l, s);
    OctetsAppend(s.data, A.Packet(s.tx.frame, |s.accepted| - 1));
  }

  lemma FaultMirrors(l: Link, s: A.Sys, now: int)
    requires Mirrors(l, s) && l.host.outstanding.Some? && l.host.outstanding.value.retries >= MAX_RETRIES
    requires now - l.host.outstanding.value.sentAt >= ACK_TIMEOUT_MS && s.fates != [] && s.fates[|s.fates| - 1] == A.Open
    ensures var s' := A.StepClear(A.StepPoll(s, Add32(s.tx.lastTxMs, ACK_TIMEOUT_MS)));
            Mirrors(Emit(l, Tick(l.host, now)), s') && s'.accepted == s.accepted
    ensures var s1 := A.StepPoll(s, Add32(s.tx.lastTxMs, ACK_TIMEOUT_MS)); s1.tx.state == LinkFault && s1.accepted == s.accepted
  {
    hide Octets, Frames, Dropped, A.Settle, TimedOut, Add32;
    MirrorsWaiting(l, s);
    OneMoreDropped(s.fates);
    assert l.data + [] == l.data;
  }

  lemma HasAccepted(s: A.Sys)
    requires A.Inv(s) && s.tx.state != Idle
    ensures s.accepted != [] && |s.fates| == |s.accepted| && s.fates[|s.fates| - 1] == A.Open
  {
    hide A.ChannelInv, A.RxInv, A.DeliveredInOrder, A.FrameOf, A.SeqOf, Encode, A.Acceptable;
  }

  lemma OneMoreDropped(fates: seq<A.Fate>)
    requires fates != [] && fates[|fates| - 1] == A.Open
    ensures Dropped(A.Settle(fates, A.Abandoned)) == Dropped(fates) + 1
    ensures Dropped(A.Settle(fates, A.Acked)) == Dropped(fates)
  {
    var n := |fates| - 1;
    assert A.Settle(fates, A.Abandoned)[..n] == fates[..n] == A.Settle(fates, A.Acked)[..n];
  }

  lemma NakMatched(l: Link, s: A.Sys, payload: seq<byte>, now: int) returns (s': A.Sys)
    requires Matched(l, s)
    ensures Matched(Emit(l, OnNak(l.host, payload, now)), s') && s'.accepted == s.accepted
    ensures Lost(s'.fates) == Lost(s.fates) && OnNak(l.host, payload, now).sender.linkFaults == l.host.linkFaults
  {
    hide Encode, A.Inv, E.Reaches, Octets, Frames;
    s' := s;
    if Names(l.host, payload) {
      s' := Advance(s, A.Nudge);
      HasAccepted(s);
      OctetsAppend(s.data, A.Packet(s.tx.frame, |s.accepted| - 1));
    }
  }

  lemma AckMatched(l: Link, s: A.Sys, now: int) returns (s': A.Sys)
    requires Matched(l, s) && Sequenced(l.host.pending)
    ensures var l' := HostHearsStep(l, now);
            Matched(l', s') && Sequenced(l'.host.pending) && s'.accepted + l'.host.pending == s.accepted + l.host.pending
    ensures Lost(s'.fates) == Lost(s.fates) && HostHearsStep(l, now).host.linkFaults == l.host.linkFaults
  {
    hide Encode, Parse, A.Inv, E.Reaches, Frames, Octets, Pump, Dropped, A.Settle;
    s' := Advance(s, A.RecvAck);
    OctetsEmpty(s.acks);
    if l.acks != [] {
      OctetsTail(s.acks);
      var fs, l' := Parse(l.acks[0]).frames, l.(acks := l.acks[1..]);
      if |fs| == 1 && fs[0].typ == TYPE_ACK && Names(l.host, fs[0].payload) {
        HasAccepted(s);
        OneMoreDropped(s.fates);
        s' := PumpMatched(l'.(host := l.host.(outstanding := None)), s', now);
      }
    }
  }

  lemma NodeMatched(l: Link, s: A.Sys) returns (s': A.Sys)
    requires Matched(l, s)
    ensures Matched(NodeHearsStep(l), s') && s'.accepted == s.accepted
    ensures Lost(s'.fates) == Lost(s.fates)
  {
    hide Encode, Parse, A.Inv, E.Reaches, Octets, Frames, Dropped;
    s' := Advance(s, A.RecvData);
    OctetsEmpty(s.data);
    if l.data != [] {
      OctetsTail(s.data);
      var p, fs := s.data[0], Parse(l.data[0]).frames;
      if |fs| == 1 {
        OctetsAppend(s.acks, A.Packet(Encode(AckFrame(fs[0].seqNo)), p.idx));
        FramesAppend(s.delivered, A.Delivery(fs[0], p.idx));
      }
    }
  }

  lemma ChannelsMatched(l: Link, s: A.Sys, op: Op) returns (s': A.Sys)
    requires Matched(l, s) && (op.LoseData? || op.DupData? || op.LoseAck? || op.DupAck?)
    ensures Matched(Step(l, op), s') && s'.accepted == s.accepted
    ensures Lost(s'.fates) == Lost(s.fates)
  {
    hide A.Inv, E.Reaches, Frames, Dropped, Octets, A.Lose, A.Dup, Speaks;
    match op {
      case LoseData(i) => s' := Advance(s, A.LoseData(i)); LoseOctets(s.data, i);
      case DupData(i) => s' := Advance(s, A.DupData(i)); DupOctets(s.data, i);
      case LoseAck(i) => s' := Advance(s, A.LoseAck(i)); LoseOctets(s.acks, i);
      case DupAck(i) => s' := Advance(s, A.DupAck(i)); DupOctets(s.acks, i);
    }
  }

  lemma OctetsParts(ps: seq<A.Packet>, i: nat)
    requires i <= |ps|
    ensures Octets(ps[..i]) == Octets(ps)[..i] && Octets(ps[i..]) == Octets(ps)[i..]
  {
    hide Octets;
  }

  lemma OctetsJoin(ps: seq<A.Packet>, qs: seq<A.Packet>)
    ensures Octets(ps + qs) == Octets(ps) + Octets(qs)
  {
    hide Octets;
  }

  lemma LoseOctets(ps: seq<A.Packet>, i: nat)
    ensures Octets(A.Lose(ps, i)) == A.Lose(Octets(ps), i)
  {
    hide Octets;
    if i < |ps| {
      OctetsParts(ps, i);
      OctetsParts(ps, i + 1);
      OctetsJoin(ps[..i], ps[i + 1..]);
    }
  }

  lemma DupOctets(ps: seq<A.Packet>, i: nat)
    ensures Octets(A.Dup(ps, i)) == A.Dup(Octets(ps), i)
  {
    hide Octets;
    if i < |ps| {
      OctetsParts(ps, i);
      OctetsJoin(ps[..i], [ps[i]]);
      OctetsJoin(ps[..i] + [ps[i]], ps[i..]);
      OctetsOne(ps[i]);
    }
  }

  lemma OctetsOne(p: A.Packet)
    ensures Octets([p]) == [p.octets]
  {
  }

  /** One step of the ground station's link is at most two steps of the link of module Arq. */
  lemma StepMatched(l: Link, s: A.Sys, op: Op) returns (s': A.Sys)
    requires Matched(l, s) && Sequenced(l.host.pending) && (op.Submitting? ==> A.ReliableType(op.msg.typ))
    ensures var l' := Step(l, op);
      && Matched(l', s') && Sequenced(l'.host.pending)
      && s'.accepted + l'.host.pending == s.accepted + l.host.pending + (if op.Submitting? then [op.msg] else [])
      && Lost(s'.fates) == Lost(s.fates) + Newly(l.host, l'.host, |s.accepted|)
  {
    hide A.Inv, E.Reaches, Matched, HostHearsStep, Pump, Parse, A.ReliableType, Octets, Frames;
    match op {
      case Submitting(msg, now) => s' := SubmitMatched(l, s, msg, now);
      case Ticking(now) => s' := TickMatched(l, s, now);
      case HostHears(now) => s' := AckMatched(l, s, now);
      case NakArrives(payload, now) => s' := NakMatched(l, s, payload, now);
      case NodeHears => s' := NodeMatched(l, s);
      case _ => s' := ChannelsMatched(l, s, op);
    }
    assert s.accepted + l.host.pending + [] == s.accepted + l.host.pending;
  }

  lemma SubmitMatched(l: Link, s: A.Sys, msg: A.Msg, now: int) returns (s': A.Sys)
    requires Matched(l, s) && Sequenced(l.host.pending) && A.ReliableType(msg.typ)
    ensures var l' := Emit(l, Submit(l.host, msg, now));
            Matched(l', s') && Sequenced(l'.host.pending) && s'.accepted + l'.host.pending == s.accepted + l.host.pending + [msg]
    ensures Lost(s'.fates) == Lost(s.fates) && Submit(l.host, msg, now).sender.linkFaults == l.host.linkFaults
  {
    hide A.Inv, E.Reaches, Pump, A.ReliableType, Octets, Frames;
    var q := l.(host := l.host.(pending := l.host.pending + [msg]));
    s' := PumpMatched(q, s, now);
    assert s.accepted + q.host.pending == s.accepted + l.host.pending + [msg];
  }

  /**
   * The messages that fell to a link fault, by their place among the submitted ones: each time a fault is raised, the last
   * one taken off the queue.
   */
  function FaultedAt(ops: seq<Op>): set<int> {
    if ops == [] then {}
    else
      var before, l := ops[..|ops| - 1], Run(ops[..|ops| - 1]);
      FaultedAt(before) + Newly(l.host, Run(ops).host, |Submitted(before)| - |l.host.pending|)
  }

  lemma {:induction false} RunMatched(ops: seq<Op>) returns (s: A.Sys)
    requires Sequenced(Submitted(ops))
    ensures Matched(Run(ops), s) && A.Inv(s)
    ensures Sequenced(Run(ops).host.pending) && s.accepted + Run(ops).host.pending == Submitted(ops)
    ensures Lost(s.fates) == FaultedAt(ops)
  {
    hide A.Inv, E.Reaches, Matched, Step, A.ReliableType;
    if ops == [] {
      s := A.INIT;
      StartMatched();
    } else {
      var before, op := ops[..|ops| - 1], ops[|ops| - 1];
      assert Sequenced(Submitted(before)) && (op.Submitting? ==> A.ReliableType(op.msg.typ)) by {
        assert Submitted(before) <= Submitted(ops);
        assert op.Submitting? ==> Submitted(ops)[|Submitted(before)|] == op.msg;
      }
      s := RunMatched(before);
      s := StepMatched(Run(before), s, op);
    }
    assert A.Inv(s) by { MatchedInv(Run(ops), s); }
  }

  lemma StartMatched()
    ensures Matched(START, A.INIT)
  {
    hide E.Reaches;
    E.ReachesSelf(A.INIT);
  }

  lemma MatchedInv(l: Link, s: A.Sys)
    requires Matched(l, s)
    ensures A.Inv(s)
  {
    hide A.Inv, E.Reaches;
    E.ReachedInv(s);
  }

  // ---- What the ground station may rely on ----

  function MsgOf(f: Frame): A.Msg {
    A.Msg(f.typ, f.payload)
  }

  /** The frames are those messages of subs that idx picks out, in order, none twice. */
  predicate Picks(idx: seq<nat>, frames: seq<Frame>, subs: seq<A.Msg>) {
    && |idx| == |frames|
    && (forall i, j :: 0 <= i < j < |idx| ==> idx[i] < idx[j])
    && (forall i :: 0 <= i < |idx| ==> idx[i] < |subs| && MsgOf(frames[i]) == subs[idx[i]])
  }

  function Indices(ds: seq<A.Delivery>): (idx: seq<nat>)
    ensures |idx| == |ds| && forall i :: 0 <= i < |ds| ==> idx[i] == ds[i].idx
  {
    if ds == [] then [] else [ds[0].idx] + Indices(ds[1..])
  }

  /** The node is handed submitted messages only, in the order of submission, each at most once. */
  lemma DeliversInOrder(ops: seq<Op>)
    requires Sequenced(Submitted(ops))
    ensures exists idx :: Picks(idx, Run(ops).delivered, Submitted(ops))
  {
    hide Run, Submitted, Sequenced, E.Reaches, A.TxInv, A.ChannelInv, A.RxInv, A.SeqOf;
    var s := RunMatched(ops);
    assert forall i :: 0 <= i < |s.accepted| ==> Submitted(ops)[i] == s.accepted[i];
    assert Picks(Indices(s.delivered), Run(ops).delivered, Submitted(ops));
  }

  // ---- Nothing is lost silently ----

  /** Any 255 messages in a row include one that fits a frame and did not fall to a link fault. */
  ghost predicate Spaced(msgs: seq<A.Msg>, faulted: set<int>) {
    forall i: nat :: i + 255 <= |msgs| ==> HoldsGood(msgs, faulted, i)
  }

  ghost predicate HoldsGood(msgs: seq<A.Msg>, faulted: set<int>, i: nat) {
    exists k :: i <= k < i + 255 && k < |msgs| && Fits(msgs[k]) && k !in faulted
  }

  lemma SpacedIsCalm(s: A.Sys, subs: seq<A.Msg>)
    requires A.TxInv(s) && s.accepted <= subs && Spaced(subs, Lost(s.fates))
    ensures E.Calm(s.fates)
  {
    hide A.TxInv;
    RejectedAreLong(s);
    forall i: nat, j: nat | i + 255 <= j <= |s.fates| ensures !E.AllGivenUp(s.fates, i, j) {
      assert HoldsGood(subs, Lost(s.fates), i);
      var k :| i <= k < i + 255 && k < |subs| && Fits(subs[k]) && k !in Lost(s.fates);
      assert subs[k] == s.accepted[k] && !E.GivenUp(s.fates[k]);
    }
  }

  lemma RejectedAreLong(s: A.Sys)
    requires A.TxInv(s)
    ensures |s.fates| == |s.accepted|
    ensures forall k :: 0 <= k < |s.fates| && s.fates[k] == A.Rejected ==> !Fits(s.accepted[k])
  {
    hide A.SeqOf, Encode, A.FrameOf, A.ReliableType;
  }

  lemma FaithfulIfSpaced(s: A.Sys, subs: seq<A.Msg>)
    requires E.Reaches(A.INIT, s) && A.Inv(s) && s.accepted <= subs && Spaced(subs, Lost(s.fates))
    ensures E.Faithful(s)
  {
    hide A.Run, E.Faithful, A.TxInv, A.ChannelInv, A.RxInv, A.DeliveredInOrder, Spaced;
    SpacedIsCalm(s, subs);
    var acts :| A.Run(A.INIT, acts) == s;
    E.RunFaithful(acts);
  }

  lemma {:induction false} LostCount(fates: seq<A.Fate>)
    ensures |Lost(fates)| == Dropped(fates)
  {
    if fates == [] {
      assert Lost(fates) == {};
    } else {
      var n := |fates| - 1;
      LostCount(fates[..n]);
      assert Lost(fates) == Lost(fates[..n]) + if fates[n] == A.Abandoned then {n} else {};
    }
  }

  /** Every message but those still queued or outstanding was handed on, fell to a link fault, or fits no frame. */
  predicate Accounted(l: Link, subs: seq<A.Msg>, idx: seq<nat>, faulted: set<int>) {
    && Picks(idx, l.delivered, subs) && |faulted| == l.host.linkFaults
    && forall i: nat :: i < |subs| - InTransit(l) ==> i in idx || i in faulted || !Fits(subs[i])
  }

  function InTransit(l: Link): nat {
    |l.host.pending| + if l.host.outstanding.Some? then 1 else 0
  }

  /**
   * Unless 255 messages in a row were too long or fell to a link fault, no message is lost silently: the k-th delivery is
   * of message idx[k], and each message not in transit is delivered, is one of those for which a link fault was raised,
   * or is too long for a frame.
   */
  lemma NoSilentLoss(ops: seq<Op>)
    requires Sequenced(Submitted(ops)) && Spaced(Submitted(ops), FaultedAt(ops))
    ensures exists idx :: Accounted(Run(ops), Submitted(ops), idx, FaultedAt(ops))
  {
    hide Run, Submitted, FaultedAt, Sequenced, Spaced, E.Reaches, E.Faithful, Dropped, Lost, A.TxInv, A.ChannelInv, A.RxInv, A.DeliveredInOrder;
    var s := RunMatched(ops);
    var l, subs := Run(ops), Submitted(ops);
    assert s.accepted <= subs;
    FaithfulIfSpaced(s, subs);
    LostCount(s.fates);
    DeliveriesPicked(l, s, subs);
    Settled(l, s, subs);
    assert Accounted(l, subs, Indices(s.delivered), FaultedAt(ops));
  }

  lemma DeliveriesPicked(l: Link, s: A.Sys, subs: seq<A.Msg>)
    requires A.DeliveredInOrder(s) && l.delivered == Frames(s.delivered) && s.accepted <= subs
    ensures Picks(Indices(s.delivered), l.delivered, subs)
  {
    hide A.SeqOf;
  }

  lemma Settled(l: Link, s: A.Sys, subs: seq<A.Msg>)
    requires A.TxInv(s) && Mirrors(l, s) && E.Faithful(s) && s.accepted + l.host.pending == subs
    ensures forall i: nat :: i < |subs| - InTransit(l) ==>
              i in Indices(s.delivered) || i in Lost(s.fates) || !Fits(subs[i])
  {
    hide A.SeqOf, A.FrameOf, Encode, A.Acceptable, Octets, Frames, Dropped, E.NoneNewer;
    forall i: nat | i < |subs| - InTransit(l)
      ensures i in Indices(s.delivered) || i in Lost(s.fates) || !Fits(subs[i])
    {
      assert subs[i] == s.accepted[i] && s.fates[i] != A.Open;
      if s.fates[i] == A.Acked {
        assert E.WasDelivered(s, i);
        var k :| 0 <= k < |s.delivered| && s.delivered[k].idx == i;
        assert Indices(s.delivered)[k] == i;
      }
    }
  }

  // ---- Without link faults ----

  function Messages(fs: seq<Frame>): (msgs: seq<A.Msg>)
    ensures |msgs| == |fs| && forall i :: 0 <= i < |fs| ==> msgs[i] == MsgOf(fs[i])
  {
    if fs == [] then [] else [MsgOf(fs[0])] + Messages(fs[1..])
  }

  /** got is picked out of msgs by the increasing idx, the first k of it from the first n messages. */
  predicate Chosen(got: seq<A.Msg>, idx: seq<nat>, msgs: seq<A.Msg>, n: nat, k: nat) {
    && |got| == |idx| && k <= |idx| && n <= |msgs|
    && (forall i, j :: 0 <= i < j < |idx| ==> idx[i] < idx[j])
    && (forall j :: 0 <= j < |idx| ==> idx[j] < |msgs| && got[j] == msgs[idx[j]])
    && (forall j :: 0 <= j < |idx| ==> (j < k <==> idx[j] < n))
  }

  /** What is chosen from the first n messages, if those are the kept ones, is the kept ones in order. */
  lemma {:induction false} Sifted(got: seq<A.Msg>, idx: seq<nat>, msgs: seq<A.Msg>, n: nat, k: nat)
    requires Chosen(got, idx, msgs, n, k) && Covers(idx, msgs, n)
    ensures k <= |got| && n <= |msgs| && got[..k] == Kept(msgs[..n])
  {
    hide Kept, Keeps, Chosen, Covers;
    ChosenBounds(got, idx, msgs, n, k);
    if n == 0 {
      NoneChosen(got, idx, msgs, k);
      KeptNone(msgs);
    } else {
      CoversLess(idx, msgs, n);
      KeptGrows(msgs, n - 1);
      var m: nat := n - 1;
      if m in idx {
        LastChosen(got, idx, msgs, n, k);
        Sifted(got, idx, msgs, n - 1, k - 1);
        assert got[..k] == got[..k - 1] + [got[k - 1]];
      } else {
        NotLastChosen(got, idx, msgs, n, k);
        Sifted(got, idx, msgs, n - 1, k);
      }
    }
  }

  lemma KeptNone(msgs: seq<A.Msg>)
    ensures Kept(msgs[..0]) == []
  {
  }

  /** idx holds exactly those of the first n indices whose messages are kept. */
  predicate Covers(idx: seq<nat>, msgs: seq<A.Msg>, n: nat) {
    n <= |msgs| && forall i: nat :: i < n ==> (i in idx <==> Keeps(msgs, i))
  }

  lemma CoversLess(idx: seq<nat>, msgs: seq<A.Msg>, n: nat)
    requires Covers(idx, msgs, n) && n > 0
    ensures Covers(idx, msgs, n - 1) && n <= |msgs|
    ensures var m: nat := n - 1; m in idx <==> Keeps(msgs, m)
  {
    hide Keeps;
  }

  lemma ChosenBounds(got: seq<A.Msg>, idx: seq<nat>, msgs: seq<A.Msg>, n: nat, k: nat)
    requires Chosen(got, idx, msgs, n, k)
    ensures |got| == |idx| && k <= |got| && n <= |msgs|
  {
  }

  lemma NoneChosen(got: seq<A.Msg>, idx: seq<nat>, msgs: seq<A.Msg>, k: nat)
    requires Chosen(got, idx, msgs, 0, k)
    ensures k == 0
  {
    var first := if idx == [] then 0 else idx[0];
  }

  lemma LastChosen(got: seq<A.Msg>, idx: seq<nat>, msgs: seq<A.Msg>, n: nat, k: nat)
    requires Chosen(got, idx, msgs, n, k) && n > 0 && n - 1 in idx
    ensures 0 < k <= |got| && n <= |msgs| && got[k - 1] == msgs[n - 1] && Chosen(got, idx, msgs, n - 1, k - 1)
  {
    var last := if k == 0 then 0 else idx[k - 1];
    var j :| 0 <= j < |idx| && idx[j] == n - 1;
  }

  lemma NotLastChosen(got: seq<A.Msg>, idx: seq<nat>, msgs: seq<A.Msg>, n: nat, k: nat)
    requires Chosen(got, idx, msgs, n, k) && n > 0 && n - 1 !in idx
    ensures Chosen(got, idx, msgs, n - 1, k)
  {
    forall j | 0 <= j < |idx| ensures j < k <==> idx[j] < n - 1 {
      assert idx[j] in idx;
    }
  }

  /**
   * Without a link fault the node is handed exactly the kept messages, in order, up to the outstanding one, in every run
   * and whatever is submitted.
   */
  lemma FaultFreePrefix(ops: seq<Op>)
    requires Sequenced(Submitted(ops)) && Run(ops).host.linkFaults == 0
    ensures var l, subs := Run(ops), Submitted(ops);
      && InTransit(l) <= |subs|
      && var got, pumped := Messages(l.delivered), |subs| - |l.host.pending|;
         if l.host.outstanding.None? then got == Kept(subs[..pumped])
         else got == Kept(subs[..pumped]) || got == Kept(subs[..pumped - 1])
  {
    hide Run, Submitted, Sequenced, E.Reaches, C.Steady, Dropped, A.Inv, Kept, FaultedAt;
    var s := RunMatched(ops);
    var l, subs := Run(ops), Submitted(ops);
    NoneDropped(s);
    SteadyIfReached(s);
    FaultFreeSys(l, s);
    assert subs[..|s.accepted|] == s.accepted;
    assert l.host.outstanding.Some? ==> subs[..|s.accepted| - 1] == s.accepted[..|s.accepted| - 1];
  }

  /**
   * With no link fault and nothing outstanding, every message that was taken off the queue and fits a frame has been handed
   * on exactly if none of them is a multiple of 256 places behind the one before it; so if fewer than 255 in a row do not
   * fit.
   */
  lemma FaultFreeLossless(ops: seq<Op>)
    requires Sequenced(Submitted(ops)) && Run(ops).host.linkFaults == 0 && Run(ops).host.outstanding.None?
    ensures var l, subs := Run(ops), Submitted(ops);
      && |l.host.pending| <= |subs|
      && var pumped := subs[..|subs| - |l.host.pending|];
         && (Messages(l.delivered) == Fitting(pumped) <==> KeepsAll(pumped))
         && (Dense(pumped) ==> Messages(l.delivered) == Fitting(pumped))
  {
    hide Run, Submitted, Sequenced, Kept, Fitting, KeepsAll, Dense;
    FaultFreePrefix(ops);
    var pumped := Submitted(ops)[..|Submitted(ops)| - |Run(ops).host.pending|];
    NothingLost(pumped);
    if Dense(pumped) {
      DenseLosesNothing(pumped);
    }
  }

  lemma NoneDropped(s: A.Sys)
    requires Dropped(s.fates) == 0
    ensures C.NoneAbandoned(s)
  {
    hide Dropped;
    LostCount(s.fates);
    forall i | 0 <= i < |s.fates| ensures s.fates[i] != A.Abandoned {
      assert i !in Lost(s.fates);
    }
  }

  lemma SteadyIfReached(s: A.Sys)
    requires E.Reaches(A.INIT, s) && C.NoneAbandoned(s)
    ensures C.Steady(s)
  {
    hide A.Run, C.Steady, C.NoneAbandoned;
    var acts :| A.Run(A.INIT, acts) == s;
    C.RunSteady(acts);
  }

  lemma FaultFreeSys(l: Link, s: A.Sys)
    requires A.Inv(s) && Mirrors(l, s) && C.Steady(s) && C.NoneAbandoned(s)
    ensures if l.host.outstanding.None? then Messages(l.delivered) == Kept(s.accepted)
            else s.accepted != [] && (Messages(l.delivered) == Kept(s.accepted)
                                      || Messages(l.delivered) == Kept(s.accepted[..|s.accepted| - 1]))
  {
    hide A.Inv, C.Steady, C.NoneAbandoned, Dropped, Octets, Frames, Chosen, Kept, Keeps, Indices, Messages, Covers;
    var got, idx, n, m := Messages(l.delivered), Indices(s.delivered), |s.accepted|, |s.delivered|;
    if s.tx.state != Idle {
      HasAccepted(s);
    }
    var last: nat := if s.tx.state == Idle || (n > 0 && n - 1 in idx) then n else n - 1;
    DeliveredCovers(s, last);
    C.InvParts(s);
    AllChosen(l, s, last);
    Sifted(got, idx, s.accepted, last, m);
    assert s.accepted[..n] == s.accepted && got[..m] == got;
  }

  lemma DeliveredCovers(s: A.Sys, n: nat)
    requires A.Inv(s) && C.Steady(s) && C.NoneAbandoned(s) && n <= |s.accepted|
    requires n < |s.accepted| || s.tx.state == Idle || (n > 0 && n - 1 in Indices(s.delivered))
    ensures Covers(Indices(s.delivered), s.accepted, n)
  {
    hide A.Inv, C.Steady, C.NoneAbandoned, Keeps;
    forall i: nat | i < n ensures i in Indices(s.delivered) <==> Keeps(s.accepted, i) {
      C.DeliveredExactly(s, i);
      InIndices(s, i);
    }
  }

  lemma InIndices(s: A.Sys, i: nat)
    ensures i in Indices(s.delivered) <==> E.WasDelivered(s, i)
  {
    hide Indices;
    if i in Indices(s.delivered) {
      var k :| 0 <= k < |s.delivered| && Indices(s.delivered)[k] == i;
      assert s.delivered[k].idx == i;
    }
    if E.WasDelivered(s, i) {
      var k :| 0 <= k < |s.delivered| && s.delivered[k].idx == i;
      assert Indices(s.delivered)[k] == i;
    }
  }

  lemma AllChosen(l: Link, s: A.Sys, n: nat)
    requires A.DeliveredInOrder(s) && l.delivered == Frames(s.delivered)
    requires n <= |s.accepted| <= n + 1 && (n < |s.accepted| ==> n !in Indices(s.delivered))
    ensures Chosen(Messages(l.delivered), Indices(s.delivered), s.accepted, n, |s.delivered|)
  {
    hide A.SeqOf, A.ReliableType, Picks, A.DeliveredInOrder;
    DeliveriesPicked(l, s, s.accepted);
    PicksChosen(l.delivered, Indices(s.delivered), s.accepted, n);
  }

  lemma PicksChosen(frames: seq<Frame>, idx: seq<nat>, msgs: seq<A.Msg>, n: nat)
    requires Picks(idx, frames, msgs) && n <= |msgs| <= n + 1 && (n < |msgs| ==> n !in idx)
    ensures Chosen(Messages(frames), idx, msgs, n, |frames|)
  {
    hide Messages;
    forall j | 0 <= j < |idx| ensures 0 <= j < |frames| <==> idx[j] < n {
      assert idx[j] in idx;
    }
  }

  // ---- The bound of 255 is tight for messages too long for a frame, too ----

  /** The link is idle, with nothing queued or in flight. */
  predicate Resting(l: Link) {
    l.host.outstanding.None? && l.host.pending == [] && l.data == [] && l.acks == []
  }

  predicate Oversized(msgs: seq<A.Msg>) {
    forall i :: 0 <= i < |msgs| ==> |msgs[i].payload| > MAX_PAYLOAD
  }

  function Submits(msgs: seq<A.Msg>): seq<Op> {
    if msgs == [] then [] else Submits(msgs[..|msgs| - 1]) + [Submitting(msgs[|msgs| - 1], 0)]
  }

  lemma RunMore(ops: seq<Op>, op: Op)
    ensures Run(ops + [op]) == Step(Run(ops), op)
    ensures Submitted(ops + [op]) == if op.Submitting? then Submitted(ops) + [op.msg] else Submitted(ops)
  {
    hide Step;
    assert (ops + [op])[..|ops|] == ops;
  }

  /** Messages too long for a frame use up a sequence number each, modulo 256, and leave no other trace. */
  lemma {:induction false} OversizedSkipsNumber(ops: seq<Op>, big: seq<A.Msg>, n: nat)
    requires Resting(Run(ops)) && Run(ops).host.txSeq == A.SeqOf(n) && Oversized(big)
    ensures var l := Run(ops); Run(ops + Submits(big)) == l.(host := l.host.(txSeq := A.SeqOf(n + |big|)))
    ensures Submitted(ops + Submits(big)) == Submitted(ops) + big
  {
    hide Step, Run, Submitted, Resting, A.SeqOf, A.NextOctet;
    var l := Run(ops);
    if big == [] {
      assert ops + Submits(big) == ops;
    } else {
      var before, msg, m := big[..|big| - 1], big[|big| - 1], n + |big| - 1;
      OversizedSkipsNumber(ops, before, n);
      assert ops + Submits(big) == (ops + Submits(before)) + [Submitting(msg, 0)];
      RunMore(ops + Submits(before), Submitting(msg, 0));
      StillResting(l, A.SeqOf(m));
      SkipOne(l.(host := l.host.(txSeq := A.SeqOf(m))), msg);
      NumberAfter(m);
      assert big == before + [msg];
    }
  }

  lemma StillResting(l: Link, x: byte)
    requires Resting(l)
    ensures Resting(l.(host := l.host.(txSeq := x)))
  {
  }

  lemma NumberAfter(m: nat)
    ensures A.SeqOf(m + 1) == A.NextOctet(A.SeqOf(m))
  {
    hide A.NextOctet;
  }

  lemma SkipOne(l: Link, msg: A.Msg)
    requires Resting(l) && |msg.payload| > MAX_PAYLOAD
    ensures Step(l, Submitting(msg, 0)) == l.(host := l.host.(txSeq := A.NextOctet(l.host.txSeq)))
  {
    hide A.NextOctet, Encode;
    var q := l.host.pending + [msg];
    assert q[0] == msg && q[1..] == l.host.pending && l.data + [] == l.data;
  }

  function Exchanged(ops: seq<Op>, msg: A.Msg): seq<Op> {
    ops + [Submitting(msg, 0)] + [NodeHears] + [HostHears(0)]
  }

  /** A message makes it across and its acknowledgement back; it is handed on unless its number is the last one's. */
  lemma Exchange(ops: seq<Op>, msg: A.Msg)
    requires Resting(Run(ops)) && A.Acceptable(msg)
    ensures var l, l' := Run(ops), Run(Exchanged(ops, msg));
            && Submitted(Exchanged(ops, msg)) == Submitted(ops) + [msg]
            && Resting(l') && l'.host == l.host.(txSeq := A.NextOctet(l.host.txSeq))
            && l'.rx.haveLast && l'.rx.lastSeq == l.host.txSeq
            && l'.delivered == if IsDuplicate(l.rx, l.host.txSeq) then l.delivered
                               else l.delivered + [Frame(msg.typ, l.host.txSeq, msg.payload)]
  {
    hide Step, Run, Submitted, Resting;
    RunMore(ops, Submitting(msg, 0));
    RunMore(ops + [Submitting(msg, 0)], NodeHears);
    RunMore(ops + [Submitting(msg, 0)] + [NodeHears], HostHears(0));
    var l := Run(ops);
    SentOut(l, msg);
    HeardByNode(Step(l, Submitting(msg, 0)), Frame(msg.typ, l.host.txSeq, msg.payload));
    HeardByHost(Step(Step(l, Submitting(msg, 0)), NodeHears));
    assert l.(host := l.host.(txSeq := A.NextOctet(l.host.txSeq))).host == l.host.(txSeq := A.NextOctet(l.host.txSeq));
  }

  lemma SentOut(l: Link, msg: A.Msg)
    requires Resting(l) && A.Acceptable(msg)
    ensures var frame := Encode(Frame(msg.typ, l.host.txSeq, msg.payload));
            Step(l, Submitting(msg, 0)) == Link(
              l.host.(txSeq := A.NextOctet(l.host.txSeq), outstanding := Some(Outstanding(l.host.txSeq, frame, 0, 0))),
              l.rx, [frame], [], l.delivered)
    ensures l.host.outstanding.None? && l.host.pending == []
  {
    hide A.NextOctet, Encode, A.ReliableType;
    var q := l.host.pending + [msg];
    assert q[0] == msg && q[1..] == l.host.pending && [] + [Encode(Frame(msg.typ, l.host.txSeq, msg.payload))]
        == [Encode(Frame(msg.typ, l.host.txSeq, msg.payload))];
  }

  lemma HeardByNode(l: Link, f: Frame)
    requires A.ReliableType(f.typ) && |f.payload| <= MAX_PAYLOAD && l.data == [Encode(f)] && l.acks == []
    ensures Step(l, NodeHears) == Link(l.host, RxOnFrame(l.rx, f), [], [Encode(AckFrame(f.seqNo))],
                                       if IsDuplicate(l.rx, f.seqNo) then l.delivered else l.delivered + [f])
  {
    hide Encode, Parse, IsDuplicate;
    A.DecodeOne(f);
  }

  lemma HeardByHost(l: Link)
    requires l.host.outstanding.Some? && l.host.pending == [] && l.data == []
    requires l.acks == [Encode(AckFrame(l.host.outstanding.value.seqNo))]
    ensures Step(l, HostHears(0)) == l.(host := l.host.(outstanding := None), acks := []) && Resting(Step(l, HostHears(0)))
  {
    hide Encode, Parse;
    A.DecodeOne(AckFrame(l.host.outstanding.value.seqNo));
  }

  /**
   * After messages that are too long for a frame, 255 or 256 more than that, 512 more and so on, the next good one carries
   * the last delivered number: it is acknowledged and dequeued but never handed on, and no link fault tells.
   */
  lemma OversizedHazard(a: A.Msg, big: seq<A.Msg>, b: A.Msg)
    requires A.Acceptable(a) && A.Acceptable(b) && Oversized(big) && |big| % 256 == 255
    ensures exists ops ::
              && Submitted(ops) == [a] + big + [b]
              && Resting(Run(ops)) && Run(ops).host.linkFaults == 0
              && Run(ops).delivered == [Frame(a.typ, 0, a.payload)]
  {
    hide Run, Submitted, Exchanged, Submits, Oversized, A.SeqOf, A.NextOctet, A.Acceptable;
    var ops1 := FirstExchange(a);
    var ops2 := ops1 + Submits(big);
    OversizedSkipsNumber(ops1, big, 1);
    StillResting(Run(ops1), A.SeqOf(1 + |big|));
    FirstNumbers();
    C.NumbersMeet(0, 1 + |big|);
    Exchange(ops2, b);
    var ops := Exchanged(ops2, b);
    assert Submitted(ops) == [a] + big + [b] && Run(ops).host.linkFaults == 0;
  }

  lemma FirstExchange(a: A.Msg) returns (ops: seq<Op>)
    requires A.Acceptable(a)
    ensures Submitted(ops) == [a] && Resting(Run(ops)) && Run(ops).host.linkFaults == 0
    ensures Run(ops).host.txSeq == A.SeqOf(1) && IsDuplicate(Run(ops).rx, 0)
    ensures Run(ops).delivered == [Frame(a.typ, 0, a.payload)]
  {
    hide Run, Submitted, Exchanged, A.SeqOf, A.NextOctet, A.Acceptable;
    Started();
    FirstNumbers();
    Exchange([], a);
    ops := Exchanged([], a);
  }

  lemma Started()
    ensures Run([]) == START && Resting(START) && Submitted([]) == [] && !IsDuplicate(START.rx, 0)
  {
  }

  lemma FirstNumbers()
    ensures A.SeqOf(0) == 0 && A.SeqOf(1) == A.NextOctet(0)
  {
  }
}
