/**
 * The reliable link as a whole: one sender and one receiver joined by two FIFO channels that may lose packets and
 * duplicate them in place, with every interleaving of operations.
 */
module Arq {
  import opened Bytes
  import opened Frame
  import opened Framing
  import opened Reliable

  datatype Msg = Msg(typ: byte, payload: seq<byte>)

  /** Sequenced message types: DATA, CMD, HEARTBEAT, CFG_WRITE. */
  predicate ReliableType(t: byte) {
    t == 1 || t == 4 || t == 5 || t == 6
  }

  /**
   * One encoded frame in flight. Its index among the accepted messages is a history variable: no operation looks at it.
   */
  datatype Packet = Packet(octets: seq<byte>, idx: nat)

  datatype Delivery = Delivery(frame: Frame, idx: nat)

  /** What became of an accepted message, as far as the sender can tell. */
  datatype Fate =
    | Open
    | Acked
    | Abandoned   // given up on after a link fault
    | Rejected    // too long for a frame; never emitted

  datatype Sys = Sys(tx: Tx, rx: Rx, accepted: seq<Msg>, fates: seq<Fate>, data: seq<Packet>, acks: seq<Packet>,
                     delivered: seq<Delivery>)

  const INIT := Sys(TX_INIT, RX_INIT, [], [], [], [], [])

  datatype Action =
    | Send(msg: Msg, now: u32)
    | Poll(now: u32)
    | ClearFault
    | Nudge              // a NAK: the ground station emits the outstanding frame once more
    | Reject(msg: Msg)   // the ground station spends a number on a message too long for a frame
    | RecvData
    | RecvAck
    | LoseData(i: nat)
    | DupData(i: nat)
    | LoseAck(i: nat)
    | DupAck(i: nat)

  function Lose<T>(ps: seq<T>, i: nat): seq<T> {
    if i < |ps| then ps[..i] + ps[i + 1..] else ps
  }

  function Dup<T>(ps: seq<T>, i: nat): seq<T> {
    if i < |ps| then ps[..i] + [ps[i]] + ps[i..] else ps
  }

  function Settle(fates: seq<Fate>, f: Fate): seq<Fate> {
    if fates == [] then [] else fates[..|fates| - 1] + [f]
  }

  function StepSend(s: Sys, msg: Msg, now: u32): Sys {
    var (tx, status) := TxSend(s.tx, msg.typ, msg.payload, now);
    if status != Ok then s
    else s.(tx := tx, accepted := s.accepted + [msg], fates := s.fates + [Open],
            data := s.data + [Packet(tx.frame, |s.accepted|)])
  }

  function StepPoll(s: Sys, now: u32): Sys {
    s.(tx := TxPoll(s.tx, now),
       data := if Resends(s.tx, now) && s.accepted != [] then s.data + [Packet(s.tx.frame, |s.accepted| - 1)] else s.data)
  }

  function StepClear(s: Sys): Sys {
    s.(tx := TxClearFault(s.tx), fates := if s.tx.state == LinkFault then Settle(s.fates, Abandoned) else s.fates)
  }

  /** The outstanding frame is emitted ahead of its timeout. */
  function StepNudge(s: Sys): Sys {
    if s.tx.state != WaitAck || s.accepted == [] then s
    else s.(data := s.data + [Packet(s.tx.frame, |s.accepted| - 1)])
  }

  function StepReject(s: Sys, msg: Msg): Sys {
    if s.tx.state != Idle || |msg.payload| <= MAX_PAYLOAD then s
    else s.(tx := s.tx.(nextSeq := NextOctet(s.tx.nextSeq)), accepted := s.accepted + [msg], fates := s.fates + [Rejected])
  }

  /** The oldest data packet reaches the receiver's decoder and, if it is a frame, its ARQ layer. */
  function StepRecvData(s: Sys): Sys {
    if s.data == [] then s
    else
      var p, rest := s.data[0], s.data[1..];
      var fs := Parse(p.octets).frames;
      if |fs| != 1 || fs[0].typ == TYPE_ACK then s.(data := rest)
      else
        s.(data := rest, rx := RxOnFrame(s.rx, fs[0]),
           acks := s.acks + [Packet(Encode(AckFrame(fs[0].seqNo)), p.idx)],
           delivered := if IsDuplicate(s.rx, fs[0].seqNo) then s.delivered else s.delivered + [Delivery(fs[0], p.idx)])
  }

  /** The oldest acknowledgement reaches the sender. */
  function StepRecvAck(s: Sys): Sys {
    if s.acks == [] then s
    else
      var p, rest := s.acks[0], s.acks[1..];
      var fs := Parse(p.octets).frames;
      if |fs| != 1 || fs[0].typ != TYPE_ACK || fs[0].payload == [] then s.(acks := rest)
      else
        var tx := TxOnAck(s.tx, fs[0].payload[0]);
        s.(acks := rest, tx := tx, fates := if tx != s.tx then Settle(s.fates, Acked) else s.fates)
  }

  function Apply(s: Sys, a: Action): Sys {
    match a
    case Send(msg, now) => if ReliableType(msg.typ) then StepSend(s, msg, now) else s
    case Poll(now) => StepPoll(s, now)
    case ClearFault => StepClear(s)
    case Nudge => StepNudge(s)
    case Reject(msg) => StepReject(s, msg)
    case RecvData => StepRecvData(s)
    case RecvAck => StepRecvAck(s)
    case LoseData(i) => s.(data := Lose(s.data, i))
    case DupData(i) => s.(data := Dup(s.data, i))
    case LoseAck(i) => s.(acks := Lose(s.acks, i))
    case DupAck(i) => s.(acks := Dup(s.acks, i))
  }

  function Run(s: Sys, acts: seq<Action>): Sys
    decreases |acts|
  {
    if acts == [] then s else Apply(Run(s, acts[..|acts| - 1]), acts[|acts| - 1])
  }

  // ---- Sequence numbers ----

  /** An octet's successor; it wraps. */
  function NextOctet(b: byte): byte {
    b + 1
  }

  /** The sequence number of the i-th accepted message. */
  function SeqOf(i: nat): byte {
    if i == 0 then 0 else NextOctet(SeqOf(i - 1))
  }

  function Value(b: byte): nat {
    b as nat
  }

  lemma NextOctetWraps(b: byte)
    ensures Value(NextOctet(b)) == (Value(b) + 1) % 256
  {
  }

  lemma NextResidue(i: nat)
    requires i > 0
    ensures ((i - 1) % 256 + 1) % 256 == i % 256
  {
  }

  lemma {:induction false} SeqWraps(i: nat)
    ensures Value(SeqOf(i)) == i % 256
  {
    hide NextOctet, Value;
    if i == 0 {
      ZeroValue();
    } else {
      SeqWraps(i - 1);
      NextOctetWraps(SeqOf(i - 1));
      NextResidue(i);
    }
  }

  lemma ZeroValue()
    ensures Value(0) == 0
  {
  }

  lemma SameValue(a: byte, b: byte)
    ensures Value(a) == Value(b) <==> a == b
  {
  }

  /** Equal sequence numbers of different messages lie a whole wrap apart. */
  lemma SameSeq(i: nat, j: nat)
    requires i < j && SeqOf(i) == SeqOf(j)
    ensures j - i >= 256
  {
    hide SeqOf, Value;
    SeqWraps(i);
    SeqWraps(j);
  }

  // ---- The invariant that needs no assumption ----

  predicate Sorted(ps: seq<Packet>) {
    forall i, j :: 0 <= i < j < |ps| ==> ps[i].idx <= ps[j].idx
  }

  predicate AllBefore(ps: seq<Packet>, qs: seq<Packet>) {
    forall p, q :: p in ps && q in qs ==> p.idx <= q.idx
  }

  predicate Acceptable(m: Msg) {
    ReliableType(m.typ) && |m.payload| <= MAX_PAYLOAD
  }

  function FrameOf(accepted: seq<Msg>, i: nat): Frame
    requires i < |accepted|
  {
    Frame(accepted[i].typ, SeqOf(i), accepted[i].payload)
  }

  predicate Carries(p: Packet, accepted: seq<Msg>) {
    p.idx < |accepted| && Acceptable(accepted[p.idx]) && p.octets == Encode(FrameOf(accepted, p.idx))
  }

  predicate Acknowledges(p: Packet, accepted: seq<Msg>) {
    p.idx < |accepted| && p.octets == Encode(AckFrame(SeqOf(p.idx)))
  }

  predicate TxInv(s: Sys) {
    var n := |s.accepted|;
    && |s.fates| == n
    && (forall i :: 0 <= i < n ==>
          if s.fates[i] == Rejected then |s.accepted[i].payload| > MAX_PAYLOAD else Acceptable(s.accepted[i]))
    && s.tx.nextSeq == SeqOf(n)
    && (forall i :: 0 <= i < n ==> (s.fates[i] == Open <==> i == n - 1 && s.tx.state != Idle))
    && (s.tx.state != Idle ==>
          n > 0 && s.tx.curSeq == SeqOf(n - 1) && s.tx.frame == Encode(FrameOf(s.accepted, n - 1)))
  }

  predicate ChannelInv(s: Sys) {
    && Sorted(s.data) && Sorted(s.acks) && AllBefore(s.acks, s.data)
    && (forall p :: p in s.data ==> Carries(p, s.accepted))
    && (forall p :: p in s.acks ==> Acknowledges(p, s.accepted))
  }

  /** Deliveries happen in the order of acceptance, each message at most once, with its own contents. */
  predicate DeliveredInOrder(s: Sys) {
    && (forall i, j :: 0 <= i < j < |s.delivered| ==> s.delivered[i].idx < s.delivered[j].idx)
    && (forall i :: 0 <= i < |s.delivered| ==>
          && s.delivered[i].idx < |s.accepted| && Acceptable(s.accepted[s.delivered[i].idx])
          && s.delivered[i].frame == FrameOf(s.accepted, s.delivered[i].idx))
  }

  predicate RxInv(s: Sys) {
    var m := |s.delivered|;
    && (s.rx.haveLast <==> m > 0)
    && (m > 0 ==> s.rx.lastSeq == SeqOf(s.delivered[m - 1].idx))
    && (m > 0 ==> forall p :: p in s.data ==> s.delivered[m - 1].idx <= p.idx)
  }

  predicate Inv(s: Sys) {
    TxInv(s) && ChannelInv(s) && DeliveredInOrder(s) && RxInv(s)
  }

  lemma DecodeOne(f: Frame)
    requires Sendable(f)
    ensures Parse(Encode(f)).frames == [f]
  {
    hide Encode, Parse, KnownType;
    ParseEncode(f, []);
    ParseEmpty();
    assert Encode(f) + [] == Encode(f);
  }

  lemma DataDecodes(s: Sys, p: Packet)
    requires Carries(p, s.accepted)
    ensures p.idx < |s.accepted| && Acceptable(s.accepted[p.idx])
    ensures Parse(p.octets).frames == [FrameOf(s.accepted, p.idx)] && FrameOf(s.accepted, p.idx).typ != TYPE_ACK
  {
    hide Parse, Encode, SeqOf;
    DecodeOne(FrameOf(s.accepted, p.idx));
  }

  lemma AckDecodes(s: Sys, p: Packet)
    requires Acknowledges(p, s.accepted)
    ensures Parse(p.octets).frames == [AckFrame(SeqOf(p.idx))]
  {
    hide Parse, Encode, SeqOf;
    DecodeOne(AckFrame(SeqOf(p.idx)));
  }

  /** Accepting another message changes nothing for the packets of earlier ones. */
  lemma CarriesMore(accepted: seq<Msg>, msg: Msg)
    ensures forall p :: Carries(p, accepted) ==> Carries(p, accepted + [msg])
    ensures forall p :: Acknowledges(p, accepted) ==> Acknowledges(p, accepted + [msg])
    ensures forall i :: 0 <= i < |accepted| ==> FrameOf(accepted + [msg], i) == FrameOf(accepted, i)
  {
    hide SeqOf, Encode, ReliableType;
  }

  lemma SendInv(s: Sys, msg: Msg, now: u32)
    requires Inv(s) && ReliableType(msg.typ)
    ensures Inv(StepSend(s, msg, now))
  {
    hide Encode, ReliableType, SeqOf, Carries, Acknowledges, FrameOf, ChannelInv, TxInv, DeliveredInOrder, RxInv;
    SendTxInv(s, msg, now);
    SendOthers(s, msg, now);
  }

  lemma SendTxInv(s: Sys, msg: Msg, now: u32)
    requires TxInv(s) && ReliableType(msg.typ)
    ensures TxInv(StepSend(s, msg, now))
  {
    hide Encode, ReliableType;
  }

  lemma SendOthers(s: Sys, msg: Msg, now: u32)
    requires Inv(s) && TxInv(StepSend(s, msg, now))
    ensures Inv(StepSend(s, msg, now))
  {
    hide Encode, ReliableType, SeqOf, Carries, Acknowledges, FrameOf;
    var s' := StepSend(s, msg, now);
    if s' != s {
      CarriesMore(s.accepted, msg);
      LastIdx(s);
      LastCarries(s');
    }
  }

  lemma PollInv(s: Sys, now: u32)
    requires Inv(s)
    ensures Inv(StepPoll(s, now))
  {
    hide Encode, ReliableType, SeqOf, Carries, Acknowledges, FrameOf, ChannelInv, TxInv, DeliveredInOrder, RxInv;
    PollTxInv(s, now);
    if Resends(s.tx, now) {
      LastCarries(s);
      ResendChannels(s, StepPoll(s, now), Packet(s.tx.frame, |s.accepted| - 1));
    }
    PollOthers(s, now);
  }

  lemma PollTxInv(s: Sys, now: u32)
    requires TxInv(s)
    ensures TxInv(StepPoll(s, now))
  {
    hide Encode, ReliableType, SeqOf, FrameOf;
  }

  /** A packet of the last accepted message may join the queue of data packets. */
  lemma ResendChannels(s: Sys, s': Sys, p: Packet)
    requires Inv(s) && Carries(p, s.accepted) && p.idx == |s.accepted| - 1
    requires s'.accepted == s.accepted && s'.acks == s.acks && s'.data == s.data + [p]
    requires s'.rx == s.rx && s'.delivered == s.delivered
    ensures ChannelInv(s') && RxInv(s')
  {
    hide Encode, ReliableType, SeqOf, Carries, Acknowledges, FrameOf;
    LastIdx(s);
    assert forall q :: q in s'.data ==> q in s.data || q == p;
    assert |s.delivered| > 0 ==> s.delivered[|s.delivered| - 1] in s.delivered;
  }

  lemma PollOthers(s: Sys, now: u32)
    requires Inv(s) && TxInv(StepPoll(s, now))
    requires Resends(s.tx, now) ==> ChannelInv(StepPoll(s, now)) && RxInv(StepPoll(s, now))
    ensures Inv(StepPoll(s, now))
  {
    hide Encode, ReliableType, SeqOf, Carries, Acknowledges, FrameOf, Sorted, AllBefore;
  }

  lemma NudgeInv(s: Sys)
    requires Inv(s)
    ensures Inv(StepNudge(s))
  {
    hide Encode, ReliableType, SeqOf, Carries, Acknowledges, FrameOf, ChannelInv, TxInv, DeliveredInOrder, RxInv;
    var s' := StepNudge(s);
    NudgeTxInv(s);
    if s' != s {
      LastCarries(s);
      ResendChannels(s, s', Packet(s.tx.frame, |s.accepted| - 1));
      SameDeliveries(s, s');
    }
  }

  lemma SameDeliveries(s: Sys, s': Sys)
    requires DeliveredInOrder(s) && s'.delivered == s.delivered && s'.accepted == s.accepted
    ensures DeliveredInOrder(s')
  {
    hide FrameOf;
  }

  lemma NudgeTxInv(s: Sys)
    requires TxInv(s)
    ensures TxInv(StepNudge(s))
  {
    hide Encode, ReliableType, SeqOf, FrameOf;
  }

  lemma RejectInv(s: Sys, msg: Msg)
    requires Inv(s)
    ensures Inv(StepReject(s, msg))
  {
    hide Encode, ReliableType, SeqOf, NextOctet, Carries, Acknowledges, FrameOf, ChannelInv, TxInv, DeliveredInOrder, RxInv;
    var s' := StepReject(s, msg);
    RejectTxInv(s, msg);
    if s' != s {
      CarriesMore(s.accepted, msg);
      RejectOthers(s, s', msg);
    }
  }

  lemma RejectTxInv(s: Sys, msg: Msg)
    requires TxInv(s)
    ensures TxInv(StepReject(s, msg))
  {
    hide Encode, ReliableType, FrameOf, NextOctet;
  }

  /** Accepting a message changes nothing for what is in flight or delivered. */
  lemma RejectOthers(s: Sys, s': Sys, msg: Msg)
    requires ChannelInv(s) && DeliveredInOrder(s) && RxInv(s) && s'.accepted == s.accepted + [msg]
    requires s'.data == s.data && s'.acks == s.acks && s'.rx == s.rx && s'.delivered == s.delivered
    ensures ChannelInv(s') && DeliveredInOrder(s') && RxInv(s')
  {
    hide Encode, ReliableType, SeqOf, Carries, Acknowledges, FrameOf, Sorted, AllBefore;
    CarriesMore(s.accepted, msg);
  }

  lemma LastCarries(s: Sys)
    requires TxInv(s) && s.tx.state != Idle
    ensures s.accepted != [] && Carries(Packet(s.tx.frame, |s.accepted| - 1), s.accepted)
  {
    hide Encode, ReliableType, SeqOf;
  }

  /** No packet is newer than the last accepted message. */
  lemma LastIdx(s: Sys)
    requires Inv(s)
    ensures forall p :: p in s.data || p in s.acks ==> p.idx <= |s.accepted| - 1
    ensures forall d :: d in s.delivered ==> d.idx <= |s.accepted| - 1
  {
    hide Encode, ReliableType, SeqOf;
  }

  lemma ClearInv(s: Sys)
    requires Inv(s)
    ensures Inv(StepClear(s))
  {
    hide Encode, ReliableType, SeqOf, Carries, Acknowledges;
  }

  lemma RecvDataInv(s: Sys)
    requires Inv(s)
    ensures Inv(StepRecvData(s))
  {
    hide Encode, ReliableType, SeqOf, Parse, Carries, Acknowledges, FrameOf, Sorted, AllBefore, DeliveredInOrder, RxInv;
    if s.data != [] {
      var p := s.data[0];
      var s' := StepRecvData(s);
      assert p in s.data && (forall q :: q in s.data[1..] ==> q in s.data);
      DataDecodes(s, p);
      NewAck(s, p);
      HeadMoves(s.acks, s.data, Packet(Encode(AckFrame(SeqOf(p.idx))), p.idx));
      assert ChannelInv(s') && TxInv(s');
      ReceivedInOrder(s, s', p);
    }
  }

  lemma ReceivedInOrder(s: Sys, s': Sys, p: Packet)
    requires DeliveredInOrder(s) && RxInv(s) && p in s.data && p.idx < |s.accepted| && Acceptable(s.accepted[p.idx])
    requires s'.accepted == s.accepted && FrameOf(s.accepted, p.idx).seqNo == SeqOf(p.idx)
    requires forall q :: q in s'.data ==> q in s.data && p.idx <= q.idx
    requires var f := FrameOf(s.accepted, p.idx);
             && s'.rx == RxOnFrame(s.rx, f)
             && s'.delivered == if IsDuplicate(s.rx, f.seqNo) then s.delivered else s.delivered + [Delivery(f, p.idx)]
    ensures DeliveredInOrder(s') && RxInv(s')
  {
    hide SeqOf, FrameOf, DeliveredInOrder, Acceptable;
    if IsDuplicate(s.rx, SeqOf(p.idx)) {
      SameDeliveries(s, s');
    } else {
      NewDelivery(s, s', Delivery(FrameOf(s.accepted, p.idx), p.idx));
    }
  }

  lemma NewDelivery(s: Sys, s': Sys, d: Delivery)
    requires DeliveredInOrder(s) && s'.accepted == s.accepted && s'.delivered == s.delivered + [d]
    requires d.idx < |s.accepted| && Acceptable(s.accepted[d.idx]) && d.frame == FrameOf(s.accepted, d.idx)
    requires s.delivered != [] ==> s.delivered[|s.delivered| - 1].idx < d.idx
    ensures DeliveredInOrder(s')
  {
    hide FrameOf, Acceptable;
    var m := |s.delivered|;
    forall i | 0 <= i < m ensures s'.delivered[i].idx < d.idx {
      assert s.delivered[i].idx <= s.delivered[m - 1].idx;
    }
  }

  /** Moving the head of one queue, as its acknowledgement, to the tail of the other keeps the joint order. */
  lemma HeadMoves(acks: seq<Packet>, data: seq<Packet>, ack: Packet)
    requires Sorted(acks) && Sorted(data) && AllBefore(acks, data) && data != [] && ack.idx == data[0].idx
    ensures Sorted(acks + [ack]) && Sorted(data[1..]) && AllBefore(acks + [ack], data[1..])
    ensures forall q :: q in data[1..] ==> ack.idx <= q.idx
  {
    assert data[0] in data;
    TailSorted(data);
    assert AllBefore(acks, [data[0]]);
    AppendSorted(acks, ack, data[0]);
  }

  lemma TailSorted(data: seq<Packet>)
    requires Sorted(data) && data != []
    ensures Sorted(data[1..])
    ensures forall q :: q in data[1..] ==> q in data && data[0].idx <= q.idx
  {
  }

  lemma AppendSorted(acks: seq<Packet>, ack: Packet, p: Packet)
    requires Sorted(acks) && AllBefore(acks, [p]) && ack.idx == p.idx
    ensures Sorted(acks + [ack])
  {
    assert p in [p];
    assert forall k :: 0 <= k < |acks| ==> acks[k] in acks;
  }

  lemma NewAck(s: Sys, p: Packet)
    requires Carries(p, s.accepted)
    ensures FrameOf(s.accepted, p.idx).seqNo == SeqOf(p.idx)
    ensures Acknowledges(Packet(Encode(AckFrame(SeqOf(p.idx))), p.idx), s.accepted)
  {
    hide Encode, SeqOf, ReliableType;
  }

  lemma RecvAckInv(s: Sys)
    requires Inv(s)
    ensures Inv(StepRecvAck(s))
  {
    hide Encode, ReliableType, SeqOf, Parse, Carries, Acknowledges, FrameOf, DeliveredInOrder, ChannelInv, RxInv, TxInv;
    if s.acks != [] {
      AckTaken(s);
      var s' := StepRecvAck(s);
      SameDeliveries(s, s');
      AckLeaves(s, s');
      AckTxInv(s, s');
    }
  }

  lemma AckTaken(s: Sys)
    requires ChannelInv(s) && s.acks != []
    ensures s.acks[0].idx < |s.accepted| && Parse(s.acks[0].octets).frames == [AckFrame(SeqOf(s.acks[0].idx))]
  {
    hide Encode, SeqOf, Parse, Carries, Sorted, AllBefore;
    assert s.acks[0] in s.acks;
    AckDecodes(s, s.acks[0]);
  }

  /** An acknowledgement leaves its queue. */
  lemma AckLeaves(s: Sys, s': Sys)
    requires ChannelInv(s) && RxInv(s) && s.acks != [] && s'.acks == s.acks[1..]
    requires s'.accepted == s.accepted && s'.data == s.data && s'.rx == s.rx && s'.delivered == s.delivered
    ensures ChannelInv(s') && RxInv(s')
  {
    hide Carries, Acknowledges, SeqOf;
    TailSorted(s.acks);
  }

  lemma AckTxInv(s: Sys, s': Sys)
    requires TxInv(s) && s'.accepted == s.accepted
    requires (s'.tx == s.tx && s'.fates == s.fates)
          || (s.tx.state == WaitAck && s'.tx == s.tx.(state := Idle) && s'.fates == Settle(s.fates, Acked))
    ensures TxInv(s')
  {
    hide Encode, SeqOf, FrameOf, ReliableType;
  }

  /** Losing or repeating a packet in place keeps the channel's order and adds nothing to it. */
  predicate Thinned(qs: seq<Packet>, ps: seq<Packet>) {
    (forall q :: q in qs ==> q in ps) && (Sorted(ps) ==> Sorted(qs))
  }

  lemma LoseThins(ps: seq<Packet>, i: nat)
    ensures Thinned(Lose(ps, i), ps)
  {
    if i < |ps| {
      var qs := Lose(ps, i);
      assert forall k :: 0 <= k < |qs| ==> qs[k] == ps[if k < i then k else k + 1];
    }
  }

  lemma DupThins(ps: seq<Packet>, i: nat)
    ensures Thinned(Dup(ps, i), ps)
  {
    if i < |ps| {
      var qs := Dup(ps, i);
      assert forall k :: 0 <= k < |qs| ==> qs[k] == ps[if k <= i then k else k - 1];
    }
  }

  lemma ChannelsInv(s: Sys, data: seq<Packet>, acks: seq<Packet>)
    requires Inv(s) && Thinned(data, s.data) && Thinned(acks, s.acks)
    ensures Inv(s.(data := data, acks := acks))
  {
    hide Encode, ReliableType, SeqOf, Carries, Acknowledges;
  }

  lemma ApplyInv(s: Sys, a: Action)
    requires Inv(s)
    ensures Inv(Apply(s, a))
  {
    hide Inv, StepSend, StepPoll, StepClear, StepNudge, StepReject, StepRecvData, StepRecvAck, Lose, Dup;
    match a {
      case Send(msg, now) => if ReliableType(msg.typ) { SendInv(s, msg, now); }
      case Poll(now) => PollInv(s, now);
      case ClearFault => ClearInv(s);
      case Nudge => NudgeInv(s);
      case Reject(msg) => RejectInv(s, msg);
      case RecvData => RecvDataInv(s);
      case RecvAck => RecvAckInv(s);
      case LoseData(i) => LoseThins(s.data, i); ChannelsInv(s, Lose(s.data, i), s.acks);
      case DupData(i) => DupThins(s.data, i); ChannelsInv(s, Dup(s.data, i), s.acks);
      case LoseAck(i) => LoseThins(s.acks, i); ChannelsInv(s, s.data, Lose(s.acks, i));
      case DupAck(i) => DupThins(s.acks, i); ChannelsInv(s, s.data, Dup(s.acks, i));
    }
  }
}
