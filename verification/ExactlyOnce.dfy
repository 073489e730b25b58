/** What the reliable link delivers, over every run: at most once always, exactly once short of 255 given up in a row. */
module ExactlyOnce {
  import opened Bytes
  import opened Frame
  import opened Reliable
  import opened Arq

  lemma {:induction false} RunInv(acts: seq<Action>)
    ensures Inv(Run(INIT, acts))
    decreases |acts|
  {
    hide Inv, Apply;
    if acts == [] {
      InitInv();
    } else {
      RunInv(acts[..|acts| - 1]);
      ApplyInv(Run(INIT, acts[..|acts| - 1]), acts[|acts| - 1]);
    }
  }

  lemma InitInv()
    ensures Inv(INIT)
  {
  }

  /**
   * Whatever is lost, repeated, timed out or given up on, the deliveries are a subsequence of the accepted messages,
   * in order, without repetition, each with its own type, sequence number and payload.
   */
  lemma AtMostOnce(acts: seq<Action>)
    ensures var s := Run(INIT, acts);
      && (forall i, j :: 0 <= i < j < |s.delivered| ==> s.delivered[i].idx < s.delivered[j].idx)
      && (forall i :: 0 <= i < |s.delivered| ==>
            var d := s.delivered[i];
            d.idx < |s.accepted|
            && d.frame == Frame(s.accepted[d.idx].typ, SeqOf(d.idx), s.accepted[d.idx].payload))
  {
    hide SeqOf, Carries, Acknowledges, Run;
    RunInv(acts);
  }

  // ---- Exactly once ----

  ghost predicate AllAbandoned(fates: seq<Fate>, i: nat, j: nat) {
    j <= |fates| && forall k :: i <= k < j ==> fates[k] == Abandoned
  }

  /** Abandoned, or never even emitted. */
  predicate GivenUp(f: Fate) {
    f == Abandoned || f == Rejected
  }

  ghost predicate AllGivenUp(fates: seq<Fate>, i: nat, j: nat) {
    j <= |fates| && forall k :: i <= k < j ==> GivenUp(fates[k])
  }

  /** Fewer than 255 messages in a row were given up on. */
  ghost predicate Calm(fates: seq<Fate>) {
    forall i: nat, j: nat :: i + 255 <= j <= |fates| ==> !AllGivenUp(fates, i, j)
  }

  ghost predicate WasDelivered(s: Sys, i: nat) {
    exists k :: 0 <= k < |s.delivered| && s.delivered[k].idx == i
  }

  /** No message newer than one still in flight has been acknowledged. */
  ghost predicate NoneNewer(s: Sys, p: Packet) {
    forall k :: p.idx < k < |s.fates| ==> s.fates[k] != Acked
  }

  ghost predicate Faithful(s: Sys) {
    && (forall i :: 0 <= i < |s.fates| && s.fates[i] == Acked ==> WasDelivered(s, i))
    && (forall p :: p in s.acks ==> WasDelivered(s, p.idx))
    && (forall p :: p in s.data || p in s.acks ==> NoneNewer(s, p))
  }

  /** Once given up on, a message stays given up on. */
  lemma GivenUpStays(s: Sys, a: Action)
    requires Inv(s)
    ensures var s' := Apply(s, a);
            |s.fates| <= |s'.fates| && forall k :: 0 <= k < |s.fates| && GivenUp(s.fates[k]) ==> GivenUp(s'.fates[k])
  {
    hide Encode, Parse, SeqOf, ChannelInv, RxInv, DeliveredInOrder, ReliableType, Lose, Dup;
  }

  lemma CalmBefore(s: Sys, a: Action)
    requires Inv(s) && Calm(Apply(s, a).fates)
    ensures Calm(s.fates)
  {
    hide Inv, Apply;
    GivenUpStays(s, a);
    var s' := Apply(s, a);
    forall i: nat, j: nat | i + 255 <= j <= |s.fates| ensures !AllGivenUp(s.fates, i, j) {
      assert !AllGivenUp(s'.fates, i, j);
    }
  }

  /** Everything between a message in flight and the last accepted one was given up on. */
  lemma GapGivenUp(s: Sys, i: nat)
    requires TxInv(s) && i < |s.fates|
    requires forall k :: i < k < |s.fates| - 1 ==> s.fates[k] != Acked
    ensures AllGivenUp(s.fates, i + 1, if i < |s.fates| - 1 then |s.fates| - 1 else i + 1)
  {
    hide Encode, SeqOf, ReliableType;
  }

  /** An acknowledgement that fits the outstanding message is that message's own. */
  lemma AckIsGenuine(s: Sys, p: Packet)
    requires Inv(s) && Faithful(s) && Calm(s.fates) && p in s.acks
    requires s.tx.state == WaitAck && SeqOf(p.idx) == s.tx.curSeq
    ensures p.idx == |s.accepted| - 1
  {
    hide Encode, SeqOf, Carries, ReliableType, Calm;
    var n := |s.accepted|;
    if p.idx < n - 1 {
      SameSeq(p.idx, n - 1);
      GapGivenUp(s, p.idx);
      LongGap(s.fates, p.idx + 1, n - 1);
    }
  }

  lemma LongGap(fates: seq<Fate>, i: nat, j: nat)
    requires Calm(fates) && AllGivenUp(fates, i, j)
    ensures j - i < 255
  {
  }

  /** A packet the receiver takes for a repetition is one. */
  lemma DuplicateIsGenuine(s: Sys, p: Packet)
    requires Inv(s) && Faithful(s) && Calm(s.fates) && p in s.data
    requires IsDuplicate(s.rx, SeqOf(p.idx))
    ensures WasDelivered(s, p.idx)
  {
    hide Encode, SeqOf, Carries, ReliableType, Calm, Acknowledges;
    LastIdx(s);
    var l := s.delivered[|s.delivered| - 1].idx;
    if l < p.idx {
      SameSeq(l, p.idx);
      forall k | l < k < p.idx ensures GivenUp(s.fates[k]) {
        NotDelivered(s, k);
      }
      assert AllGivenUp(s.fates, l + 1, p.idx);
      LongGap(s.fates, l + 1, p.idx);
    }
  }

  /** Past the last delivery nothing has been delivered, so nothing has been acknowledged. */
  lemma NotDelivered(s: Sys, k: nat)
    requires Inv(s) && Faithful(s) && s.delivered != []
    requires s.delivered[|s.delivered| - 1].idx < k < |s.accepted| - 1
    ensures GivenUp(s.fates[k])
  {
    hide Encode, SeqOf, Carries, Acknowledges, ReliableType;
  }

  lemma {:induction false} FaithfulStep(s: Sys, a: Action)
    requires Inv(s) && Faithful(s) && Calm(s.fates)
    ensures Faithful(Apply(s, a))
  {
    hide Inv, Faithful, StepSend, StepPoll, StepClear, StepNudge, StepReject, StepRecvData, StepRecvAck, Lose, Dup;
    match a {
      case Send(msg, now) => if ReliableType(msg.typ) { FaithfulSend(s, msg, now); }
      case Poll(now) => FaithfulPoll(s, now);
      case ClearFault => FaithfulClear(s);
      case Nudge => FaithfulNudge(s);
      case Reject(msg) => FaithfulReject(s, msg);
      case RecvData => FaithfulRecvData(s);
      case RecvAck => FaithfulRecvAck(s);
      case LoseData(i) => LoseThins(s.data, i); FaithfulChannels(s, Lose(s.data, i), s.acks);
      case DupData(i) => DupThins(s.data, i); FaithfulChannels(s, Dup(s.data, i), s.acks);
      case LoseAck(i) => LoseThins(s.acks, i); FaithfulChannels(s, s.data, Lose(s.acks, i));
      case DupAck(i) => DupThins(s.acks, i); FaithfulChannels(s, s.data, Dup(s.acks, i));
    }
  }

  lemma FaithfulSend(s: Sys, msg: Msg, now: u32)
    requires Inv(s) && Faithful(s)
    ensures Faithful(StepSend(s, msg, now))
  {
    hide Encode, SeqOf, Carries, Acknowledges, ReliableType;
    var s' := StepSend(s, msg, now);
    assert forall i :: WasDelivered(s, i) ==> WasDelivered(s', i);
  }

  lemma FaithfulPoll(s: Sys, now: u32)
    requires Inv(s) && Faithful(s)
    ensures Faithful(StepPoll(s, now))
  {
    hide Encode, SeqOf, Carries, Acknowledges, ReliableType;
    var s' := StepPoll(s, now);
    assert forall i :: WasDelivered(s, i) ==> WasDelivered(s', i);
    assert forall p :: NoneNewer(s, p) ==> NoneNewer(s', p);
  }

  lemma FaithfulClear(s: Sys)
    requires Inv(s) && Faithful(s)
    ensures Faithful(StepClear(s))
  {
    hide Encode, SeqOf, Carries, Acknowledges, ReliableType;
    var s' := StepClear(s);
    assert forall i :: WasDelivered(s, i) ==> WasDelivered(s', i);
    assert forall p :: NoneNewer(s, p) ==> NoneNewer(s', p);
  }

  lemma FaithfulNudge(s: Sys)
    requires Inv(s) && Faithful(s)
    ensures Faithful(StepNudge(s))
  {
    hide Encode, SeqOf, Carries, Acknowledges, ReliableType;
    var s' := StepNudge(s);
    assert forall i :: WasDelivered(s, i) ==> WasDelivered(s', i);
    assert forall p :: NoneNewer(s, p) ==> NoneNewer(s', p);
  }

  lemma FaithfulReject(s: Sys, msg: Msg)
    requires Inv(s) && Faithful(s)
    ensures Faithful(StepReject(s, msg))
  {
    hide Encode, SeqOf, Carries, Acknowledges, ReliableType;
    var s' := StepReject(s, msg);
    assert forall i :: WasDelivered(s, i) ==> WasDelivered(s', i);
    assert forall p :: NoneNewer(s, p) ==> NoneNewer(s', p);
  }

  lemma FaithfulChannels(s: Sys, data: seq<Packet>, acks: seq<Packet>)
    requires Faithful(s) && Thinned(data, s.data) && Thinned(acks, s.acks)
    ensures Faithful(s.(data := data, acks := acks))
  {
    var s' := s.(data := data, acks := acks);
    assert forall i :: WasDelivered(s, i) ==> WasDelivered(s', i);
    assert forall p :: NoneNewer(s, p) ==> NoneNewer(s', p);
  }

  lemma FaithfulRecvData(s: Sys)
    requires Inv(s) && Faithful(s) && Calm(s.fates)
    ensures Faithful(StepRecvData(s))
  {
    hide Encode, SeqOf, Acknowledges, ReliableType, Parse, Calm, Carries, FrameOf, Faithful, Sorted, AllBefore;
    if s.data != [] {
      var p := s.data[0];
      var s' := StepRecvData(s);
      assert p in s.data;
      DataDecodes(s, p);
      NewAck(s, p);
      DeliveredStays(s, s');
      if IsDuplicate(s.rx, SeqOf(p.idx)) {
        DuplicateIsGenuine(s, p);
      } else {
        assert s'.delivered[|s.delivered|].idx == p.idx;
      }
      FaithfulMove(s, s', Packet(Encode(AckFrame(SeqOf(p.idx))), p.idx));
    }
  }

  /** A delivered message's packet may leave the one queue and its acknowledgement join the other. */
  lemma FaithfulMove(s: Sys, s': Sys, ack: Packet)
    requires Faithful(s) && s.data != [] && ack.idx == s.data[0].idx
    requires s'.data == s.data[1..] && s'.acks == s.acks + [ack] && s'.fates == s.fates
    requires s.delivered <= s'.delivered && WasDelivered(s', ack.idx)
    ensures Faithful(s')
  {
    DeliveredStays(s, s');
    assert s.data[0] in s.data && forall q :: q in s'.data ==> q in s.data;
    assert forall q :: q in s'.acks ==> q in s.acks || q == ack;
    assert forall q :: NoneNewer(s, q) ==> NoneNewer(s', q);
    assert NoneNewer(s, s.data[0]) ==> NoneNewer(s', ack);
  }

  lemma DeliveredStays(s: Sys, s': Sys)
    requires s.delivered <= s'.delivered
    ensures forall i :: WasDelivered(s, i) ==> WasDelivered(s', i)
  {
    forall i | WasDelivered(s, i) ensures WasDelivered(s', i) {
      var k :| 0 <= k < |s.delivered| && s.delivered[k].idx == i;
      assert s'.delivered[k].idx == i;
    }
  }

  lemma FaithfulRecvAck(s: Sys)
    requires Inv(s) && Faithful(s) && Calm(s.fates)
    ensures Faithful(StepRecvAck(s))
  {
    hide Encode, SeqOf, Acknowledges, ReliableType, Parse, Calm, Inv;
    if s.acks != [] {
      var p := s.acks[0];
      var s' := StepRecvAck(s);
      assert p in s.acks && forall q :: q in s.acks[1..] ==> q in s.acks;
      InOrderAfter(s);
      AckDecodes(s, p);
      DeliveredStays(s, s');
      if s'.tx == s.tx {
        assert forall q :: NoneNewer(s, q) ==> NoneNewer(s', q);
      } else {
        AckIsGenuine(s, p);
        assert forall q :: q in s'.data || q in s'.acks ==> NoneNewer(s', q);
      }
    }
  }

  lemma InOrderAfter(s: Sys)
    requires Inv(s) && s.acks != []
    ensures Acknowledges(s.acks[0], s.accepted) && |s.fates| == |s.accepted|
    ensures s.tx.state != Idle ==> s.accepted != []
    ensures forall q :: q in s.acks[1..] || q in s.data ==> s.acks[0].idx <= q.idx
  {
    hide Encode, SeqOf, Acknowledges, ReliableType, Carries;
    assert s.acks[0] in s.acks;
  }

  lemma {:induction false} RunFaithful(acts: seq<Action>)
    requires Calm(Run(INIT, acts).fates)
    ensures Faithful(Run(INIT, acts))
    decreases |acts|
  {
    hide Apply, Inv, Calm, Faithful;
    if acts == [] {
      InitFaithful();
    } else {
      var before := acts[..|acts| - 1];
      RunInv(before);
      CalmBefore(Run(INIT, before), acts[|acts| - 1]);
      RunFaithful(before);
      FaithfulStep(Run(INIT, before), acts[|acts| - 1]);
    }
  }

  lemma InitFaithful()
    ensures Faithful(INIT)
  {
  }

  /** Short of 255 messages given up on in a row, every acknowledged message has been delivered, exactly once. */
  lemma AckedExactlyOnce(acts: seq<Action>, i: nat)
    requires var s := Run(INIT, acts); Calm(s.fates) && i < |s.fates| && s.fates[i] == Acked
    ensures var s := Run(INIT, acts); exists k :: OnlyDelivery(s, k, i)
  {
    hide Run, Calm, Inv;
    RunFaithful(acts);
    AtMostOnce(acts);
    var s := Run(INIT, acts);
    assert WasDelivered(s, i);
    var k :| 0 <= k < |s.delivered| && s.delivered[k].idx == i;
    assert OnlyDelivery(s, k, i);
  }

  /** The k-th delivery, and no other, is of message i. */
  ghost predicate OnlyDelivery(s: Sys, k: nat, i: nat) {
    k < |s.delivered| && forall j :: 0 <= j < |s.delivered| ==> (s.delivered[j].idx == i <==> j == k)
  }

  /** With nothing given up on, the deliveries are all accepted messages, or all but the last, in order. */
  lemma FaultFreeRun(acts: seq<Action>)
    requires var s := Run(INIT, acts); forall i :: 0 <= i < |s.fates| ==> !GivenUp(s.fates[i])
    ensures var s := Run(INIT, acts);
      && |s.accepted| - 1 <= |s.delivered| <= |s.accepted|
      && (s.tx.state == Idle ==> |s.delivered| == |s.accepted|)
      && forall k :: 0 <= k < |s.delivered| ==>
           s.delivered[k] == Delivery(Frame(s.accepted[k].typ, SeqOf(k), s.accepted[k].payload), k)
  {
    hide Run, SeqOf, Carries, Acknowledges, Encode;
    var s := Run(INIT, acts);
    RunInv(acts);
    NothingGivenUp(s.fates);
    RunFaithful(acts);
    var m := if s.tx.state == Idle then |s.accepted| else |s.accepted| - 1;
    forall i | 0 <= i < m ensures WasDelivered(s, i) {
      assert s.fates[i] == Acked;
    }
    DenseDeliveries(s, m, 0);
  }

  lemma NothingGivenUp(fates: seq<Fate>)
    requires forall i :: 0 <= i < |fates| ==> !GivenUp(fates[i])
    ensures Calm(fates)
  {
    forall i: nat, j: nat | i + 255 <= j <= |fates| ensures !AllGivenUp(fates, i, j) {
      assert !GivenUp(fates[i]);
    }
  }

  lemma {:induction false} IndexAtLeast(s: Sys, j: nat)
    requires DeliveredInOrder(s) && j < |s.delivered|
    ensures j <= s.delivered[j].idx < |s.accepted|
  {
    hide SeqOf;
    if j > 0 {
      IndexAtLeast(s, j - 1);
      assert s.delivered[j - 1].idx < s.delivered[j].idx;
    }
  }

  /** Strictly increasing indices that cover 0..m leave no gap, from the k-th on. */
  lemma {:induction false} DenseDeliveries(s: Sys, m: nat, k: nat)
    requires DeliveredInOrder(s) && m <= |s.accepted| <= m + 1 && k <= m
    requires forall i :: 0 <= i < m ==> WasDelivered(s, i)
    requires k <= |s.delivered| && forall j :: 0 <= j < k ==> s.delivered[j].idx == j
    ensures m <= |s.delivered| <= |s.accepted| && forall j :: 0 <= j < |s.delivered| ==> s.delivered[j].idx == j
    decreases m - k
  {
    hide SeqOf;
    if k < m {
      assert WasDelivered(s, k);
      var j :| 0 <= j < |s.delivered| && s.delivered[j].idx == k;
      IndexAtLeast(s, k);
      assert s.delivered[k].idx == k;
      DenseDeliveries(s, m, k + 1);
    } else {
      forall j | m <= j < |s.delivered| ensures s.delivered[j].idx == j == m {
        IndexAtLeast(s, j);
      }
      if s.delivered != [] {
        IndexAtLeast(s, |s.delivered| - 1);
      }
    }
  }

  // ---- The bound is tight ----

  ghost predicate Reaches(s: Sys, s': Sys) {
    exists acts :: Run(s, acts) == s'
  }

  lemma ReachesStep(s: Sys, s': Sys, a: Action)
    requires Reaches(s, s')
    ensures Reaches(s, Apply(s', a))
  {
    hide Apply;
    var acts :| Run(s, acts) == s';
    assert (acts + [a])[..|acts|] == acts;
    assert Run(s, acts + [a]) == Apply(s', a);
  }

  const DATUM := Msg(1, [])

  /** The link is idle with nothing in flight. */
  ghost predicate Resting(s: Sys) {
    s.tx.state == Idle && s.data == [] && s.acks == []
  }

  /** All four emissions of a message are lost and the sender gives it up. */
  lemma GiveUpOne(o: Sys, s: Sys) returns (s': Sys)
    requires Reaches(o, s) && Resting(s)
    ensures Reaches(o, s') && Resting(s')
    ensures s' == s.(tx := s'.tx, accepted := s.accepted + [DATUM], fates := s.fates + [Abandoned])
  {
    hide Run, Encode;
    s' := Apply(s, Send(DATUM, 0));
    ReachesStep(o, s, Send(DATUM, 0));
    s' := LoseAndPoll(o, s', 100);
    s' := LoseAndPoll(o, s', 200);
    s' := LoseAndPoll(o, s', 300);
    ReachesStep(o, s', LoseData(0));
    s' := Apply(s', LoseData(0));
    ReachesStep(o, s', Poll(400));
    s' := Apply(s', Poll(400));
    ReachesStep(o, s', ClearFault);
    s' := Apply(s', ClearFault);
  }

  lemma LoseAndPoll(o: Sys, s: Sys, now: u32) returns (s': Sys)
    requires Reaches(o, s) && |s.data| == 1 && Resends(s.tx, now) && s.accepted != []
    ensures Reaches(o, s') && |s'.data| == 1
    ensures s' == s.(tx := s.tx.(retries := s.tx.retries + 1, lastTxMs := now), data := s'.data)
  {
    hide Run;
    ReachesStep(o, s, LoseData(0));
    s' := Apply(s, LoseData(0));
    ReachesStep(o, s', Poll(now));
    s' := Apply(s', Poll(now));
  }

  lemma {:induction false} GiveUpMany(o: Sys, s: Sys, n: nat) returns (s': Sys)
    requires Reaches(o, s) && Resting(s) && |s.fates| == |s.accepted|
    ensures Reaches(o, s') && Resting(s') && |s'.fates| == |s'.accepted| == |s.fates| + n
    ensures s'.rx == s.rx && s'.delivered == s.delivered
    ensures s.fates <= s'.fates && AllAbandoned(s'.fates, |s.fates|, |s'.fates|)
  {
    hide Reaches;
    s' := s;
    if n > 0 {
      s' := GiveUpMany(o, s, n - 1);
      s' := GiveUpOne(o, s');
    }
  }

  /** One message makes it across and its acknowledgement back. */
  lemma Exchange(o: Sys, s: Sys) returns (s': Sys)
    requires Reaches(o, s) && Resting(s) && Inv(s)
    ensures Reaches(o, s') && Resting(s') && s'.fates == s.fates + [Acked] && |s'.accepted| == |s.accepted| + 1
    ensures s'.rx.lastSeq == SeqOf(|s.accepted|) && s'.rx.haveLast
    ensures s'.delivered == if IsDuplicate(s.rx, SeqOf(|s.accepted|)) then s.delivered
                            else s.delivered + [Delivery(FrameOf(s'.accepted, |s.accepted|), |s.accepted|)]
  {
    hide Run, Encode, Parse, SeqOf, ChannelInv, RxInv, DeliveredInOrder, Carries, Acknowledges;
    var n := |s.accepted|;
    ReachesStep(o, s, Send(DATUM, 0));
    s' := Apply(s, Send(DATUM, 0));
    DecodeOne(FrameOf(s'.accepted, n));
    ReachesStep(o, s', RecvData);
    s' := Apply(s', RecvData);
    DecodeOne(AckFrame(SeqOf(n)));
    ReachesStep(o, s', RecvAck);
    s' := Apply(s', RecvAck);
  }

  /** A message is delivered, but its acknowledgement and all its further emissions are lost: it is given up, too. */
  lemma GiveUpDelivered(o: Sys, s: Sys) returns (s': Sys)
    requires Reaches(o, s) && Resting(s) && Inv(s)
    ensures Reaches(o, s') && Resting(s') && s'.fates == s.fates + [Abandoned] && |s'.accepted| == |s.accepted| + 1
    ensures s'.rx.lastSeq == SeqOf(|s.accepted|) && s'.rx.haveLast
  {
    hide Run, Encode, Parse, SeqOf, ChannelInv, RxInv, DeliveredInOrder, Carries, Acknowledges;
    var n := |s.accepted|;
    ReachesStep(o, s, Send(DATUM, 0));
    s' := Apply(s, Send(DATUM, 0));
    DecodeOne(FrameOf(s'.accepted, n));
    ReachesStep(o, s', RecvData);
    s' := Apply(s', RecvData);
    ReachesStep(o, s', LoseAck(0));
    s' := Apply(s', LoseAck(0));
    s' := GiveUpOutstanding(o, s');
  }

  /** The outstanding message's remaining emissions are lost and the sender gives it up. */
  lemma GiveUpOutstanding(o: Sys, s: Sys) returns (s': Sys)
    requires Reaches(o, s) && s.data == [] && s.acks == [] && s.accepted != [] && s.fates != []
    requires s.tx.state == WaitAck && s.tx.retries == 0 && s.tx.lastTxMs == 0
    ensures Reaches(o, s') && Resting(s')
    ensures s' == s.(tx := s'.tx, fates := s.fates[..|s.fates| - 1] + [Abandoned])
  {
    hide Run;
    ReachesStep(o, s, Poll(100));
    s' := Apply(s, Poll(100));
    s' := LoseAndPoll(o, s', 200);
    s' := LoseAndPoll(o, s', 300);
    ReachesStep(o, s', LoseData(0));
    s' := Apply(s', LoseData(0));
    ReachesStep(o, s', Poll(400));
    s' := Apply(s', Poll(400));
    ReachesStep(o, s', ClearFault);
    s' := Apply(s', ClearFault);
  }

  /**
   * After any number of messages abandoned in a row that is at least 255, the next can be acknowledged although it was
   * never delivered: it has the number of the one 256 before it, if that was the last one delivered.
   */
  lemma WrapHazard(n: nat)
    requires n >= 255
    ensures exists s :: Reaches(INIT, s) && |s.fates| == n + 2 && AllAbandoned(s.fates, 1, n + 1)
                        && s.fates[n + 1] == Acked && !WasDelivered(s, n + 1)
  {
    hide Run, Inv, Reaches, SeqOf, WasDelivered, Resting;
    var s2 := LastDelivered(n - 255);
    var s3 := GiveUpMany(INIT, s2, 255);
    ReachedInv(s3);
    SameNumber(n - 255);
    var s4 := Exchange(INIT, s3);
    assert AllAbandoned(s4.fates, 1, n + 1);
    NotYetDelivered(s3, n + 1);
    SameDelivered(s3, s4, n + 1);
  }

  /** After one exchange j messages are abandoned, of which the last has been delivered. */
  lemma LastDelivered(j: nat) returns (s: Sys)
    ensures Reaches(INIT, s) && Resting(s) && |s.fates| == |s.accepted| == j + 1 && AllAbandoned(s.fates, 1, j + 1)
    ensures s.rx.haveLast && s.rx.lastSeq == SeqOf(j)
  {
    hide Run, Inv, Reaches, SeqOf, WasDelivered;
    ReachesSelf(INIT);
    InitInv();
    s := Exchange(INIT, INIT);
    if j > 0 {
      s := GiveUpMany(INIT, s, j - 1);
      ReachedInv(s);
      var t := GiveUpDelivered(INIT, s);
      assert AllAbandoned(t.fates, 1, j + 1);
      s := t;
    }
  }

  lemma SameNumber(j: nat)
    ensures SeqOf(j + 256) == SeqOf(j)
  {
    hide SeqOf, Value;
    SeqWraps(j + 256);
    SeqWraps(j);
    SameValue(SeqOf(j + 256), SeqOf(j));
  }

  /** Nothing is delivered that has not been accepted. */
  lemma NotYetDelivered(s: Sys, i: nat)
    requires Reaches(INIT, s) && |s.accepted| <= i
    ensures !WasDelivered(s, i)
  {
    hide Reaches, Run, TxInv, ChannelInv, RxInv, SeqOf;
    ReachedInv(s);
  }

  lemma SameDelivered(s: Sys, s': Sys, i: nat)
    requires s'.delivered == s.delivered
    ensures WasDelivered(s', i) == WasDelivered(s, i)
  {
  }

  lemma ReachesSelf(s: Sys)
    ensures Reaches(s, s)
  {
    assert Run(s, []) == s;
  }

  lemma ReachedInv(s: Sys)
    requires Reaches(INIT, s)
    ensures Inv(s)
  {
    hide Inv;
    var acts :| Run(INIT, acts) == s;
    RunInv(acts);
  }
}
