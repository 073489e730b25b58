/** Stop-and-wait ARQ: the sender's and the receiver's operations, as functions on values and as the objects' methods. */
module Reliable {
  import opened Bytes
  import opened Frame
  import Encoder

  const ACK_TIMEOUT_MS: nat := 100
  const MAX_RETRIES: nat := 3
  const TYPE_ACK: byte := 2

  // ---- Sender ----

  datatype TxState = Idle | WaitAck | LinkFault

  datatype Status = Ok | Busy | EncodeErr

  datatype Tx = Tx(state: TxState, nextSeq: byte, curSeq: byte, retries: nat, lastTxMs: u32, frame: seq<byte>)

  const TX_INIT := Tx(Idle, 0, 0, 0, 0, [])

  function TxSend(tx: Tx, typ: byte, payload: seq<byte>, now: u32): (Tx, Status) {
    if tx.state != Idle then (tx, Busy)
    else if |payload| > MAX_PAYLOAD then (tx, EncodeErr)
    else (Tx(WaitAck, tx.nextSeq + 1, tx.nextSeq, 0, now, Encode(Frame(typ, tx.nextSeq, payload))), Ok)
  }

  function TxOnAck(tx: Tx, acked: byte): Tx {
    if tx.state == WaitAck && acked == tx.curSeq then tx.(state := Idle) else tx
  }

  predicate TimedOut(tx: Tx, now: u32) {
    tx.state == WaitAck && Sub32(now, tx.lastTxMs) >= ACK_TIMEOUT_MS
  }

  predicate Resends(tx: Tx, now: u32) {
    TimedOut(tx, now) && tx.retries < MAX_RETRIES
  }

  function TxPoll(tx: Tx, now: u32): Tx {
    if !TimedOut(tx, now) then tx
    else if tx.retries >= MAX_RETRIES then tx.(state := LinkFault)
    else tx.(retries := tx.retries + 1, lastTxMs := now)
  }

  function TxClearFault(tx: Tx): Tx {
    if tx.state == LinkFault then tx.(state := Idle) else tx
  }

  /** Why a frame is refused: the link is taken or faulted, or the payload is too long; and that nothing changes then. */
  lemma SendRefused(tx: Tx, typ: byte, payload: seq<byte>, now: u32)
    ensures var (tx', status) := TxSend(tx, typ, payload, now);
      && (status == Busy <==> tx.state != Idle)
      && (status == EncodeErr <==> tx.state == Idle && |payload| > MAX_PAYLOAD)
      && (status != Ok ==> tx' == tx)
  {
    hide Encode;
  }

  /** A link fault stays until it is cleared: no acknowledgement, poll or new frame gets past it. */
  lemma FaultLatches(tx: Tx, acked: byte, typ: byte, payload: seq<byte>, now: u32)
    requires tx.state == LinkFault
    ensures TxOnAck(tx, acked) == tx && TxPoll(tx, now) == tx && !Resends(tx, now)
    ensures TxSend(tx, typ, payload, now) == (tx, Busy) && TxClearFault(tx) == tx.(state := Idle)
  {
    hide Encode;
  }

  /** The node's sender; `wire` collects what it hands to the wire callback. */
  class GovTx {
    var state: TxState
    var nextSeq: byte
    var curSeq: byte
    var retries: nat
    var lastTxMs: u32
    var frameLen: nat
    const frame: array<byte>
    var wire: seq<seq<byte>>

    ghost predicate Valid()
      reads this
    {
      frame.Length == FRAME_MAX && frameLen <= FRAME_MAX
    }

    ghost function View(): Tx
      requires Valid()
      reads this, frame
    {
      Tx(state, nextSeq, curSeq, retries, lastTxMs, frame[..frameLen])
    }

    constructor ()
      ensures Valid() && View() == TX_INIT && wire == [] && fresh(frame)
    {
      state, nextSeq, curSeq, retries, lastTxMs, frameLen, wire := Idle, 0, 0, 0, 0, 0, [];
      frame := new byte[FRAME_MAX];
    }

    /** A frame accepted is emitted at once; a refused one changes nothing. */
    method Send(typ: byte, payload: seq<byte>, now: u32) returns (status: Status)
      requires Valid()
      modifies this, frame
      ensures Valid() && (View(), status) == TxSend(old(View()), typ, payload, now)
      ensures wire == if status == Ok then old(wire) + [View().frame] else old(wire)
    {
      hide Encode;
      if state != Idle {
        return Busy;
      }
      var n := Encoder.FrameEncode(typ, nextSeq, payload, frame);
      if n == 0 {
        return EncodeErr;
      }
      assert frame[..n] == Encode(Frame(typ, nextSeq, payload));
      frameLen := n;
      curSeq := nextSeq;
      nextSeq := nextSeq + 1;
      retries := 0;
      lastTxMs := now;
      state := WaitAck;
      wire := wire + [frame[..frameLen]];
      return Ok;
    }

    method OnAck(acked: byte)
      requires Valid()
      modifies this
      ensures Valid() && View() == TxOnAck(old(View()), acked) && wire == old(wire)
    {
      if state == WaitAck && acked == curSeq {
        state := Idle;
      }
    }

    /** On a timeout the identical octets go out again, until the retries are exhausted. */
    method Poll(now: u32) returns (result: TxState)
      requires Valid()
      modifies this
      ensures Valid() && View() == TxPoll(old(View()), now) && result == state
      ensures wire == if Resends(old(View()), now) then old(wire) + [old(View()).frame] else old(wire)
    {
      if state != WaitAck {
        return state;
      }
      if Sub32(now, lastTxMs) < ACK_TIMEOUT_MS {
        return state;
      }
      if retries >= MAX_RETRIES {
        state := LinkFault;
        return state;
      }
      retries := retries + 1;
      lastTxMs := now;
      wire := wire + [frame[..frameLen]];
      return state;
    }

    method ClearFault()
      requires Valid()
      modifies this
      ensures Valid() && View() == TxClearFault(old(View())) && wire == old(wire)
    {
      if state == LinkFault {
        state := Idle;
      }
    }
  }

  // ---- Receiver ----

  datatype Rx = Rx(lastSeq: byte, haveLast: bool, dup: u32)

  const RX_INIT := Rx(0, false, 0)

  predicate IsDuplicate(rx: Rx, seqNo: byte) {
    rx.haveLast && seqNo == rx.lastSeq
  }

  function RxOnFrame(rx: Rx, f: Frame): Rx {
    if IsDuplicate(rx, f.seqNo) then rx.(dup := Add32(rx.dup, 1)) else rx.(lastSeq := f.seqNo, haveLast := true)
  }

  /** The acknowledgement of sequence number s: unsequenced itself, s is its payload. */
  function AckFrame(s: byte): (f: Frame)
    ensures Sendable(f)
  {
    Frame(TYPE_ACK, 0, [s])
  }

  /** The node's receiver; `wire` collects its acknowledgements and `delivered` what the application is handed. */
  class GovRx {
    var lastSeq: byte
    var haveLast: bool
    var dup: u32
    var wire: seq<seq<byte>>
    var delivered: seq<Frame>

    ghost function View(): Rx
      reads this
    {
      Rx(lastSeq, haveLast, dup)
    }

    constructor ()
      ensures View() == RX_INIT && wire == [] && delivered == []
    {
      lastSeq, haveLast, dup, wire, delivered := 0, false, 0, [], [];
    }

    method SendAck(s: byte)
      modifies this`wire
      ensures wire == old(wire) + [Encode(AckFrame(s))]
    {
      hide Encode;
      var out := new byte[FRAME_MAX];
      var n := Encoder.FrameEncode(TYPE_ACK, 0, [s], out);
      if n != 0 {
        assert out[..n] == Encode(AckFrame(s));
        wire := wire + [out[..n]];
      }
    }

    /** Every reliable frame is acknowledged; only one whose sequence number is not the last accepted is delivered. */
    method OnFrame(f: Frame)
      modifies this
      ensures View() == RxOnFrame(old(View()), f)
      ensures wire == old(wire) + [Encode(AckFrame(f.seqNo))]
      ensures delivered == if IsDuplicate(old(View()), f.seqNo) then old(delivered) else old(delivered) + [f]
    {
      hide Encode;
      var duplicate := haveLast && f.seqNo == lastSeq;
      if duplicate {
        dup := Add32(dup, 1);
        SendAck(f.seqNo);
        return;
      }
      lastSeq := f.seqNo;
      haveLast := true;
      delivered := delivered + [f];
      SendAck(f.seqNo);
    }
  }
}
