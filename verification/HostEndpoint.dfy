/**
 * The ground station's end of the reliable link. Unlike the node's sender it queues messages behind the outstanding one,
 * answers a NAK by emitting the outstanding frame again, and drops a frame whose retries are exhausted.
 */
module HostEndpoint {
  import opened Bytes
  import opened Frame
  import opened Reliable
  import opened Arq

  const TYPE_NAK: byte := 3

  datatype Option<T> = None | Some(value: T)

  datatype Outstanding = Outstanding(seqNo: byte, frame: seq<byte>, sentAt: int, retries: nat)

  // ---- Transmitting ----

  datatype Sender = Sender(txSeq: byte, outstanding: Option<Outstanding>, pending: seq<Msg>, retransmits: nat, linkFaults: nat)

  const SENDER_INIT := Sender(0, None, [], 0, 0)

  /** A sender, and the frames it has just handed to the transport. */
  datatype Sent = Sent(sender: Sender, frames: seq<seq<byte>>)

  /** The oldest queued message goes out if the link is free; one too long for a frame is dropped, its number used up. */
  function Pump(h: Sender, now: int): Sent {
    if h.outstanding.Some? || h.pending == [] then Sent(h, [])
    else
      var msg := h.pending[0];
      var popped := h.(pending := h.pending[1..], txSeq := NextOctet(h.txSeq));
      if |msg.payload| > MAX_PAYLOAD then Sent(popped, [])
      else
        var frame := Encode(Frame(msg.typ, h.txSeq, msg.payload));
        Sent(popped.(outstanding := Some(Outstanding(h.txSeq, frame, now, 0))), [frame])
  }

  function Submit(h: Sender, msg: Msg, now: int): Sent {
    Pump(h.(pending := h.pending + [msg]), now)
  }

  function Tick(h: Sender, now: int): Sent {
    match h.outstanding
    case None => Sent(h, [])
    case Some(o) =>
      if now - o.sentAt < ACK_TIMEOUT_MS then Sent(h, [])
      else if o.retries < MAX_RETRIES then
        Sent(h.(outstanding := Some(o.(retries := o.retries + 1, sentAt := now)), retransmits := h.retransmits + 1), [o.frame])
      else Sent(h.(outstanding := None, linkFaults := h.linkFaults + 1), [])
  }

  /** Is this the payload of an ACK or NAK for the outstanding frame? */
  predicate Names(h: Sender, payload: seq<byte>) {
    h.outstanding.Some? && payload != [] && payload[0] == h.outstanding.value.seqNo
  }

  function OnAck(h: Sender, payload: seq<byte>, now: int): Sent {
    if Names(h, payload) then Pump(h.(outstanding := None), now) else Sent(h, [])
  }

  function OnNak(h: Sender, payload: seq<byte>, now: int): Sent {
    if !Names(h, payload) then Sent(h, [])
    else
      var o := h.outstanding.value;
      Sent(h.(outstanding := Some(o.(sentAt := now)), retransmits := h.retransmits + 1), [o.frame])
  }

  // ---- Receiving ----

  datatype Receiver = Receiver(last: Option<byte>, dup: nat)

  const RECEIVER_INIT := Receiver(None, 0)

  function Hear(r: Receiver, f: Frame): Receiver {
    if r.last == Some(f.seqNo) then r.(dup := r.dup + 1) else r.(last := Some(f.seqNo))
  }

  /** What an end hands on and what it acknowledges when the frames fs arrive, one after the other. */
  datatype Heard<R> = Heard(receiver: R, delivered: seq<Frame>, acks: seq<seq<byte>>)

  /** The ground station routes ACK and NAK to its sender, everything else to its receiver. */
  predicate HostReceives(f: Frame) {
    f.typ != TYPE_ACK && f.typ != TYPE_NAK
  }

  /** The node routes only an ACK that names a sequence number to its sender. */
  predicate NodeReceives(f: Frame) {
    !(f.typ == TYPE_ACK && f.payload != [])
  }

  function HearOne(h: Heard<Receiver>, f: Frame): Heard<Receiver> {
    if !HostReceives(f) then h
    else
      Heard(Hear(h.receiver, f), if h.receiver.last == Some(f.seqNo) then h.delivered else h.delivered + [f],
            h.acks + [Encode(AckFrame(f.seqNo))])
  }

  function NodeHearOne(h: Heard<Rx>, f: Frame): Heard<Rx> {
    if !NodeReceives(f) then h
    else
      Heard(RxOnFrame(h.receiver, f), if IsDuplicate(h.receiver, f.seqNo) then h.delivered else h.delivered + [f],
            h.acks + [Encode(AckFrame(f.seqNo))])
  }

  function HearAll(fs: seq<Frame>): Heard<Receiver> {
    if fs == [] then Heard(RECEIVER_INIT, [], []) else HearOne(HearAll(fs[..|fs| - 1]), fs[|fs| - 1])
  }

  function NodeHearAll(fs: seq<Frame>): Heard<Rx> {
    if fs == [] then Heard(RX_INIT, [], []) else NodeHearOne(NodeHearAll(fs[..|fs| - 1]), fs[|fs| - 1])
  }

  predicate SameReceiver(r: Receiver, rx: Rx) {
    && (r.last.Some? <==> rx.haveLast)
    && (r.last.Some? ==> r.last.value == rx.lastSeq)
    && rx.dup == r.dup % 0x1_0000_0000
  }

  predicate Agree(h: Heard<Receiver>, n: Heard<Rx>) {
    h.delivered == n.delivered && h.acks == n.acks && SameReceiver(h.receiver, n.receiver)
  }

  /** Both ends route every frame alike: none is a NAK, or an ACK that names nothing. */
  predicate AlikeRouted(fs: seq<Frame>) {
    forall i :: 0 <= i < |fs| ==> (HostReceives(fs[i]) <==> NodeReceives(fs[i]))
  }

  /**
   * The ground station and the node hand on the same frames and acknowledge alike exactly as long as no NAK and no empty
   * ACK arrives: the node takes those for data.
   */
  lemma ReceiversAgree(fs: seq<Frame>)
    ensures Agree(HearAll(fs), NodeHearAll(fs)) <==> AlikeRouted(fs)
  {
    hide HearAll, NodeHearAll, Agree;
    AcksCounted(fs);
    if AlikeRouted(fs) {
      AgreeWhileAlike(fs);
    } else {
      assert !Agree(HearAll(fs), NodeHearAll(fs)) by { AgreeOnAcks(HearAll(fs), NodeHearAll(fs)); }
    }
  }

  lemma AgreeOnAcks(h: Heard<Receiver>, n: Heard<Rx>)
    ensures Agree(h, n) ==> |h.acks| == |n.acks|
  {
  }

  lemma {:induction false} AgreeWhileAlike(fs: seq<Frame>)
    requires AlikeRouted(fs)
    ensures Agree(HearAll(fs), NodeHearAll(fs))
  {
    hide Agree, HearOne, NodeHearOne;
    if fs == [] {
      AgreeAtStart();
    } else {
      var before := fs[..|fs| - 1];
      AgreeWhileAlike(before);
      AgreeStep(HearAll(before), NodeHearAll(before), fs[|fs| - 1]);
    }
  }

  lemma AgreeAtStart()
    ensures Agree(Heard(RECEIVER_INIT, [], []), Heard(RX_INIT, [], []))
  {
  }

  lemma AgreeStep(h: Heard<Receiver>, n: Heard<Rx>, f: Frame)
    requires Agree(h, n) && (HostReceives(f) <==> NodeReceives(f))
    ensures Agree(HearOne(h, f), NodeHearOne(n, f))
  {
    hide Encode, HostReceives, NodeReceives;
    DupCounted(h.receiver.dup);
  }

  lemma DupCounted(n: nat)
    ensures Add32(n % 0x1_0000_0000, 1) == (n + 1) % 0x1_0000_0000
  {
  }

  /** The node never acknowledges fewer frames, and acknowledges more once a frame is routed differently. */
  lemma {:induction false} AcksCounted(fs: seq<Frame>)
    ensures |HearAll(fs).acks| <= |NodeHearAll(fs).acks|
    ensures !AlikeRouted(fs) ==> |HearAll(fs).acks| < |NodeHearAll(fs).acks|
  {
    hide Encode, Hear, RxOnFrame, IsDuplicate;
    if fs != [] {
      AcksCounted(fs[..|fs| - 1]);
    }
  }

  /** Each acknowledgement is of a frame handed on or of a repetition counted, at either end. */
  lemma {:induction false} RepetitionsCounted(fs: seq<Frame>)
    ensures var h := HearAll(fs); |h.acks| == |h.delivered| + h.receiver.dup
    ensures var n := NodeHearAll(fs); n.receiver.dup == (|n.acks| - |n.delivered|) % 0x1_0000_0000
  {
    hide Encode, HostReceives, NodeReceives;
    if fs != [] {
      RepetitionsCounted(fs[..|fs| - 1]);
      var n := NodeHearAll(fs[..|fs| - 1]);
      OneMoreRepetition(|n.acks| - |n.delivered|);
    }
  }

  lemma OneMoreRepetition(k: int)
    ensures Add32(k % 0x1_0000_0000, 1) == (k + 1) % 0x1_0000_0000
  {
  }

  /**
   * A NAK, which the ground station sends unnumbered, makes the node forget the last sequence number: a message repeated
   * after it, as after a lost ACK, is handed on a second time, and so is the NAK, unless the message's number is 0 too.
   */
  lemma NakRedelivers(fs: seq<Frame>, d: Frame, nak: Frame)
    requires ReliableType(d.typ) && nak.typ == TYPE_NAK && nak.seqNo == 0
    ensures NodeHearAll(fs + [d, nak, d]).delivered
         == NodeHearAll(fs + [d]).delivered + if d.seqNo == 0 then [] else [nak, d]
  {
    hide Encode, NodeHearAll;
    NodeHearsMore(fs, d);
    NodeHearsMore(fs + [d], nak);
    NodeHearsMore(fs + [d, nak], d);
    assert fs + [d] + [nak] == fs + [d, nak] && fs + [d, nak] + [d] == fs + [d, nak, d];
  }

  lemma NodeHearsMore(fs: seq<Frame>, f: Frame)
    ensures NodeHearAll(fs + [f]) == NodeHearOne(NodeHearAll(fs), f)
  {
    hide NodeHearOne;
    assert (fs + [f])[..|fs|] == fs;
  }

  /** One end of the link; the logs collect what the callbacks are handed. */
  class Endpoint {
    var txSeq: byte
    var outstanding: Option<Outstanding>
    var pending: seq<Msg>
    var lastRxSeq: Option<byte>
    var dupCount: nat
    var retransmitCount: nat
    var linkFaultCount: nat
    var wire: seq<seq<byte>>
    var delivered: seq<Frame>
    var faults: seq<byte>

    ghost function View(): Sender
      reads this
    {
      Sender(txSeq, outstanding, pending, retransmitCount, linkFaultCount)
    }

    ghost function RxView(): Receiver
      reads this
    {
      Receiver(lastRxSeq, dupCount)
    }

    /** Only the sending half has changed, into that of r, and its frames have gone out. */
    twostate predicate Became(r: Sent)
      reads this
    {
      View() == r.sender && wire == old(wire) + r.frames && RxView() == old(RxView()) && delivered == old(delivered)
    }

    constructor ()
      ensures View() == SENDER_INIT && RxView() == RECEIVER_INIT && wire == [] && delivered == [] && faults == []
    {
      txSeq, outstanding, pending, lastRxSeq := 0, None, [], None;
      dupCount, retransmitCount, linkFaultCount := 0, 0, 0;
      wire, delivered, faults := [], [], [];
    }

    /** Reliable types are queued and sequenced; the others go out at once, unsequenced. An oversized payload is an error. */
    method Send(typ: byte, payload: seq<byte>, now: int) returns (ok: bool)
      modifies this
      ensures faults == old(faults)
      ensures ReliableType(typ) ==> Became(Submit(old(View()), Msg(typ, payload), now))
      ensures !ReliableType(typ) ==> ok == (|payload| <= MAX_PAYLOAD)
      ensures !ReliableType(typ) ==> Became(Sent(old(View()), if ok then [Encode(Frame(typ, 0, payload))] else []))
    {
      hide Encode;
      if ReliableType(typ) {
        pending := pending + [Msg(typ, payload)];
        ok := PumpQueue(now);
      } else {
        ok := |payload| <= MAX_PAYLOAD;
        if ok {
          wire := wire + [Encode(Frame(typ, 0, payload))];
        }
      }
    }

    /** Fails exactly when the message whose turn it is does not fit a frame. */
    method PumpQueue(now: int) returns (ok: bool)
      modifies this
      ensures faults == old(faults) && Became(Pump(old(View()), now))
      ensures ok <==> old(outstanding).Some? || old(pending) == [] || |old(pending)[0].payload| <= MAX_PAYLOAD
    {
      hide Encode, NextOctet;
      ok := true;
      if outstanding.None? && pending != [] {
        var msg, s := pending[0], txSeq;
        pending, txSeq := pending[1..], NextOctet(txSeq);
        ok := |msg.payload| <= MAX_PAYLOAD;
        if ok {
          var frame := Encode(Frame(msg.typ, s, msg.payload));
          outstanding := Some(Outstanding(s, frame, now, 0));
          wire := wire + [frame];
        }
      }
    }

    method ServiceTimer(now: int)
      modifies this
      ensures Became(Tick(old(View()), now))
      ensures faults == if linkFaultCount == old(linkFaultCount) then old(faults) else old(faults) + [old(outstanding).value.seqNo]
    {
      if outstanding.Some? {
        var o := outstanding.value;
        if now - o.sentAt < ACK_TIMEOUT_MS {
          return;
        }
        if o.retries < MAX_RETRIES {
          outstanding := Some(o.(retries := o.retries + 1, sentAt := now));
          retransmitCount := retransmitCount + 1;
          wire := wire + [o.frame];
        } else {
          outstanding := None;
          linkFaultCount := linkFaultCount + 1;
          faults := faults + [o.seqNo];
        }
      }
    }

    /** A frame from the decoder. */
    method OnFrame(f: Frame, now: int)
      modifies this
      ensures faults == old(faults)
      ensures f.typ == TYPE_ACK ==> Became(OnAck(old(View()), f.payload, now))
      ensures f.typ == TYPE_NAK ==> Became(OnNak(old(View()), f.payload, now))
      ensures f.typ != TYPE_ACK && f.typ != TYPE_NAK ==>
                && View() == old(View()) && RxView() == Hear(old(RxView()), f)
                && wire == old(wire) + [Encode(AckFrame(f.seqNo))]
                && delivered == if old(lastRxSeq) == Some(f.seqNo) then old(delivered) else old(delivered) + [f]
    {
      hide Encode;
      if f.typ == TYPE_ACK {
        if outstanding.Some? && f.payload != [] && outstanding.value.seqNo == f.payload[0] {
          outstanding := None;
          var _ := PumpQueue(now);
        }
        return;
      }
      if f.typ == TYPE_NAK {
        if outstanding.Some? && f.payload != [] && outstanding.value.seqNo == f.payload[0] {
          outstanding := Some(outstanding.value.(sentAt := now));
          retransmitCount := retransmitCount + 1;
          wire := wire + [outstanding.value.frame];
        }
        return;
      }
      var duplicate := lastRxSeq == Some(f.seqNo);
      wire := wire + [Encode(AckFrame(f.seqNo))];
      if duplicate {
        dupCount := dupCount + 1;
        return;
      }
      lastRxSeq := Some(f.seqNo);
      delivered := delivered + [f];
    }
  }
}
