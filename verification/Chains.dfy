/**
 * The link while no message is abandoned: what is delivered depends on which messages fit a frame and on nothing else,
 * however many numbers are spent on messages that do not.
 */
module Chains {
  import opened Bytes
  import opened Frame
  import opened Reliable
  import opened Arq
  import opened Repetition
  import E = ExactlyOnce

  ghost predicate NoneAbandoned(s: Sys) {
    forall i :: 0 <= i < |s.fates| ==> s.fates[i] != Abandoned
  }

  /** From message j to message i all that fit a frame carry the same number. */
  ghost predicate Chain(msgs: seq<Msg>, j: nat, i: nat) {
    j <= i < |msgs| && forall k: nat :: j <= k <= i && Fits(msgs[k]) ==> SeqOf(k) == SeqOf(j)
  }

  /** Some message from which a chain leads to i has been delivered. */
  ghost predicate Handled(s: Sys, i: nat) {
    exists k :: 0 <= k < |s.delivered| && Chain(s.accepted, s.delivered[k].idx, i)
  }

  /** No earlier message that fits a frame begins a chain to d. */
  ghost predicate Fresh(msgs: seq<Msg>, d: nat) {
    forall j: nat :: j < d && j < |msgs| && Fits(msgs[j]) ==> !Chain(msgs, j, d)
  }

  /** Every newer message acknowledged continues the chain of one still in flight. */
  ghost predicate NewerChained(s: Sys, p: Packet) {
    forall k: nat :: p.idx < k < |s.fates| && s.fates[k] == Acked ==> Chain(s.accepted, p.idx, k)
  }

  ghost predicate Steady(s: Sys) {
    && (forall i: nat :: i < |s.fates| && s.fates[i] == Acked ==> Handled(s, i))
    && (forall p :: p in s.acks ==> Handled(s, p.idx) && p.idx < |s.accepted| && Fits(s.accepted[p.idx]))
    && (forall p :: p in s.data || p in s.acks ==> NewerChained(s, p))
    && (forall k :: 0 <= k < |s.delivered| ==> Fresh(s.accepted, s.delivered[k].idx))
  }

  // ---- Chains ----

  lemma ChainJoins(msgs: seq<Msg>, a: nat, b: nat, c: nat)
    requires Chain(msgs, a, b) && Chain(msgs, b, c) && Fits(msgs[b])
    ensures Chain(msgs, a, c)
  {
    hide SeqOf, Fits;
  }

  lemma ChainTail(msgs: seq<Msg>, a: nat, b: nat, c: nat)
    requires Chain(msgs, a, c) && a <= b <= c && Fits(msgs[b])
    ensures Chain(msgs, b, c) && SeqOf(b) == SeqOf(a)
  {
    hide SeqOf, Fits;
  }

  lemma ChainSelf(msgs: seq<Msg>, i: nat)
    requires i < |msgs|
    ensures Chain(msgs, i, i)
  {
  }

  /** Accepting another message changes no chain among earlier ones. */
  lemma ChainMore(msgs: seq<Msg>, msg: Msg, j: nat, i: nat)
    requires i < |msgs|
    ensures Chain(msgs + [msg], j, i) == Chain(msgs, j, i)
  {
    hide SeqOf, Fits;
    assert forall k: nat :: k < |msgs| ==> (msgs + [msg])[k] == msgs[k];
  }

  lemma HandledBy(s: Sys, k: nat, i: nat)
    requires k < |s.delivered| && Chain(s.accepted, s.delivered[k].idx, i)
    ensures Handled(s, i)
  {
  }

  // ---- What is settled ----

  /** Before the last message, one that fits a frame has been acknowledged. */
  lemma FitsAcked(s: Sys, k: nat)
    requires TxInv(s) && NoneAbandoned(s) && k < |s.accepted| && Fits(s.accepted[k])
    requires k < |s.accepted| - 1 || s.tx.state == Idle
    ensures k < |s.fates| && s.fates[k] == Acked
  {
    hide SeqOf, FrameOf, Encode, ReliableType;
  }

  lemma DeliveredFits(s: Sys, k: nat)
    requires DeliveredInOrder(s) && k < |s.delivered|
    ensures s.delivered[k].idx < |s.accepted| && Fits(s.accepted[s.delivered[k].idx])
    ensures forall j :: 0 <= j < |s.delivered| ==> (j <= k ==> s.delivered[j].idx <= s.delivered[k].idx)
  {
    hide SeqOf, FrameOf, ReliableType;
  }

  // ---- The steps ----

  lemma AbandonedStays(s: Sys, a: Action)
    requires Inv(s) && NoneAbandoned(Apply(s, a))
    ensures NoneAbandoned(s)
  {
    hide Encode, Parse, SeqOf, ChannelInv, RxInv, DeliveredInOrder, ReliableType, Lose, Dup, FrameOf, NextOctet;
    var s' := Apply(s, a);
    assert forall k :: 0 <= k < |s.fates| && s.fates[k] == Abandoned ==> s'.fates[k] == Abandoned;
  }

  lemma SteadyStep(s: Sys, a: Action)
    requires Inv(s) && Steady(s) && NoneAbandoned(Apply(s, a))
    ensures Steady(Apply(s, a))
  {
    hide Inv, Steady, NoneAbandoned, StepSend, StepPoll, StepClear, StepNudge, StepReject, StepRecvData, StepRecvAck, Lose, Dup;
    AbandonedStays(s, a);
    match a {
      case Send(msg, now) => if ReliableType(msg.typ) { SteadySend(s, msg, now); }
      case Poll(now) => SteadyPoll(s, now);
      case ClearFault => SteadyClear(s);
      case Nudge => SteadyNudge(s);
      case Reject(msg) => SteadyReject(s, msg);
      case RecvData => SteadyRecvData(s);
      case RecvAck => SteadyRecvAck(s);
      case LoseData(i) => LoseThins(s.data, i); SteadyChannels(s, Lose(s.data, i), s.acks);
      case DupData(i) => DupThins(s.data, i); SteadyChannels(s, Dup(s.data, i), s.acks);
      case LoseAck(i) => LoseThins(s.acks, i); SteadyChannels(s, s.data, Lose(s.acks, i));
      case DupAck(i) => DupThins(s.acks, i); SteadyChannels(s, s.data, Dup(s.acks, i));
    }
  }

  /** A message accepted, and perhaps emitted, that is not acknowledged yet. */
  lemma SteadyMore(s: Sys, s': Sys, msg: Msg, f: Fate, p: Packet)
    requires Inv(s) && Steady(s) && f != Acked
    requires s'.accepted == s.accepted + [msg] && s'.fates == s.fates + [f] && s'.acks == s.acks && s'.delivered == s.delivered
    requires s'.data == s.data || (s'.data == s.data + [p] && p.idx == |s.accepted|)
    ensures Steady(s')
  {
    hide Inv, Chain, Fits, Fresh, Handled, NewerChained;
    AsMany(s);
    forall i: nat | i < |s.accepted| && Handled(s, i) ensures Handled(s', i) {
      HandledMore(s, s', msg, i);
    }
    forall q | NewerChained(s, q) || q.idx == |s.accepted| ensures NewerChained(s', q) {
      NewerMore(s, s', msg, f, q);
    }
    forall k | 0 <= k < |s.delivered| ensures Fresh(s'.accepted, s.delivered[k].idx) {
      DeliveredBefore(s, k);
      FreshMore(s.accepted, msg, s.delivered[k].idx);
    }
    assert forall i: nat :: i < |s'.fates| && s'.fates[i] == Acked ==> i < |s.fates| && s.fates[i] == Acked;
    assert forall q :: q in s'.data ==> q in s.data || q == p;
  }

  lemma HandledMore(s: Sys, s': Sys, msg: Msg, i: nat)
    requires i < |s.accepted| && Handled(s, i) && s'.accepted == s.accepted + [msg] && s'.delivered == s.delivered
    ensures Handled(s', i)
  {
    hide Chain;
    var k :| 0 <= k < |s.delivered| && Chain(s.accepted, s.delivered[k].idx, i);
    ChainMore(s.accepted, msg, s.delivered[k].idx, i);
  }

  lemma NewerMore(s: Sys, s': Sys, msg: Msg, f: Fate, q: Packet)
    requires |s.fates| == |s.accepted| && s'.accepted == s.accepted + [msg] && s'.fates == s.fates + [f] && f != Acked
    requires NewerChained(s, q) || q.idx == |s.accepted|
    ensures NewerChained(s', q)
  {
    hide Chain;
    forall k: nat | q.idx < k < |s'.fates| && s'.fates[k] == Acked ensures Chain(s'.accepted, q.idx, k) {
      ChainMore(s.accepted, msg, q.idx, k);
    }
  }

  lemma FreshMore(msgs: seq<Msg>, msg: Msg, d: nat)
    requires d < |msgs| && Fresh(msgs, d)
    ensures Fresh(msgs + [msg], d)
  {
    hide Chain, Fits;
    forall j: nat | j < d && Fits((msgs + [msg])[j]) ensures !Chain(msgs + [msg], j, d) {
      ChainMore(msgs, msg, j, d);
      assert (msgs + [msg])[j] == msgs[j];
    }
  }

  lemma DeliveredBefore(s: Sys, k: nat)
    requires Inv(s) && k < |s.delivered|
    ensures s.delivered[k].idx < |s.accepted|
  {
    hide TxInv, ChannelInv, RxInv, SeqOf, FrameOf;
  }

  lemma AsMany(s: Sys)
    requires Inv(s)
    ensures |s.fates| == |s.accepted|
  {
    hide SeqOf, Encode, ReliableType, Carries, Acknowledges, FrameOf;
  }

  lemma SteadySend(s: Sys, msg: Msg, now: u32)
    requires Inv(s) && Steady(s)
    ensures Steady(StepSend(s, msg, now))
  {
    hide Inv, Steady, Encode, SeqOf;
    var s' := StepSend(s, msg, now);
    if s' != s {
      SteadyMore(s, s', msg, Open, Packet(s'.tx.frame, |s.accepted|));
    }
  }

  lemma SteadyReject(s: Sys, msg: Msg)
    requires Inv(s) && Steady(s)
    ensures Steady(StepReject(s, msg))
  {
    hide Inv, Steady, Encode, SeqOf, NextOctet;
    var s' := StepReject(s, msg);
    if s' != s {
      SteadyMore(s, s', msg, Rejected, Packet([], 0));
    }
  }

  /** Another packet of the last accepted message. */
  lemma SteadyEmit(s: Sys, s': Sys, p: Packet)
    requires Inv(s) && Steady(s) && p.idx == |s.accepted| - 1
    requires s'.data == s.data || s'.data == s.data + [p]
    requires s'.accepted == s.accepted && s'.fates == s.fates && s'.acks == s.acks && s'.delivered == s.delivered
    ensures Steady(s')
  {
    hide Inv, Chain, Fresh, Fits;
    AsMany(s);
    assert forall i: nat :: Handled(s, i) ==> Handled(s', i);
    assert forall q :: NewerChained(s, q) ==> NewerChained(s', q);
    assert NewerChained(s', p);
  }

  lemma SteadyPoll(s: Sys, now: u32)
    requires Inv(s) && Steady(s)
    ensures Steady(StepPoll(s, now))
  {
    hide Inv, Steady, Encode, SeqOf;
    if s.accepted != [] {
      SteadyEmit(s, StepPoll(s, now), Packet(s.tx.frame, |s.accepted| - 1));
    } else {
      SteadySame(s, StepPoll(s, now));
    }
  }

  lemma SteadyNudge(s: Sys)
    requires Inv(s) && Steady(s)
    ensures Steady(StepNudge(s))
  {
    hide Inv, Steady, Encode, SeqOf;
    if s.accepted != [] {
      SteadyEmit(s, StepNudge(s), Packet(s.tx.frame, |s.accepted| - 1));
    }
  }

  lemma SteadySame(s: Sys, s': Sys)
    requires Steady(s) && s'.data == s.data && s'.acks == s.acks && s'.accepted == s.accepted && s'.fates == s.fates
    requires s'.delivered == s.delivered
    ensures Steady(s')
  {
    SteadyChannelsOf(s, s');
  }

  lemma SteadyClear(s: Sys)
    requires Inv(s) && Steady(s) && NoneAbandoned(StepClear(s))
    ensures Steady(StepClear(s))
  {
    hide Steady, Encode, SeqOf, ChannelInv, RxInv, DeliveredInOrder, FrameOf, ReliableType, TxInv, NoneAbandoned;
    ClearAbandons(s);
    SteadySame(s, StepClear(s));
  }

  lemma ClearAbandons(s: Sys)
    requires TxInv(s)
    ensures s.tx.state == LinkFault ==> !NoneAbandoned(StepClear(s))
  {
    hide Encode, SeqOf, FrameOf, ReliableType;
    var fates := StepClear(s).fates;
    assert s.tx.state == LinkFault ==> fates[|fates| - 1] == Abandoned;
  }

  lemma SteadyChannelsOf(s: Sys, s': Sys)
    requires Steady(s) && Thinned(s'.data, s.data) && Thinned(s'.acks, s.acks)
    requires s'.accepted == s.accepted && s'.fates == s.fates && s'.delivered == s.delivered
    ensures Steady(s')
  {
    hide Chain, Fresh, Fits, Sorted;
    assert forall i: nat :: Handled(s, i) ==> Handled(s', i);
    assert forall q :: NewerChained(s, q) ==> NewerChained(s', q);
  }

  lemma SteadyChannels(s: Sys, data: seq<Packet>, acks: seq<Packet>)
    requires Steady(s) && Thinned(data, s.data) && Thinned(acks, s.acks)
    ensures Steady(s.(data := data, acks := acks))
  {
    hide Steady, Thinned;
    SteadyChannelsOf(s, s.(data := data, acks := acks));
  }

  // ---- The receiver's step ----

  /** A packet taken for a repetition continues the chain of the last delivery. */
  lemma RepetitionChained(s: Sys, p: Packet)
    requires Inv(s) && Steady(s) && NoneAbandoned(s) && p in s.data && IsDuplicate(s.rx, SeqOf(p.idx))
    ensures Handled(s, p.idx)
  {
    hide SeqOf, Encode, Carries, Acknowledges, ReliableType, FrameOf, Fresh, Chain, Fits, TxInv, ChannelInv, DeliveredInOrder;
    var m := |s.delivered| - 1;
    var l := s.delivered[m].idx;
    LastIdx(s);
    DeliveredFits(s, m);
    forall k: nat | l <= k <= p.idx && Fits(s.accepted[k]) ensures SeqOf(k) == SeqOf(l) {
      if l < k < p.idx {
        FitsAcked(s, k);
        SameAsLast(s, k);
      }
    }
    ChainOf(s.accepted, l, p.idx);
    HandledBy(s, m, p.idx);
  }

  lemma ChainOf(msgs: seq<Msg>, j: nat, i: nat)
    requires j <= i < |msgs| && forall k: nat :: j <= k <= i && Fits(msgs[k]) ==> SeqOf(k) == SeqOf(j)
    ensures Chain(msgs, j, i)
  {
  }

  /** An acknowledged message past the last delivery continues the last delivery's chain. */
  lemma SameAsLast(s: Sys, k: nat)
    requires DeliveredInOrder(s) && Handled(s, k) && Fits(s.accepted[k])
    requires s.delivered != [] ==> s.delivered[|s.delivered| - 1].idx <= k
    ensures s.delivered != [] && SeqOf(k) == SeqOf(s.delivered[|s.delivered| - 1].idx)
  {
    hide SeqOf, Fits, DeliveredInOrder;
    var t :| 0 <= t < |s.delivered| && Chain(s.accepted, s.delivered[t].idx, k);
    var m := |s.delivered| - 1;
    DeliveredFits(s, m);
    ChainTail(s.accepted, s.delivered[t].idx, s.delivered[m].idx, k);
  }

  /** A packet delivered begins a chain. */
  lemma NewIsFresh(s: Sys, p: Packet)
    requires Inv(s) && Steady(s) && NoneAbandoned(s) && p in s.data && !IsDuplicate(s.rx, SeqOf(p.idx))
    requires p.idx < |s.accepted| && Fits(s.accepted[p.idx])
    ensures Fresh(s.accepted, p.idx)
  {
    hide SeqOf, Encode, Carries, Acknowledges, ReliableType, FrameOf, Chain, Fits, DeliveredInOrder, TxInv, ChannelInv;
    forall j: nat | j < p.idx && Fits(s.accepted[j]) ensures !Chain(s.accepted, j, p.idx) {
      if Chain(s.accepted, j, p.idx) {
        FitsAcked(s, j);
        var t :| 0 <= t < |s.delivered| && Chain(s.accepted, s.delivered[t].idx, j);
        ChainJoins(s.accepted, s.delivered[t].idx, j, p.idx);
        HandledBy(s, t, p.idx);
        SameAsLast(s, p.idx);
      }
    }
  }

  lemma SteadyRecvData(s: Sys)
    requires Inv(s) && Steady(s) && NoneAbandoned(s)
    ensures Steady(StepRecvData(s))
  {
    hide Encode, SeqOf, Acknowledges, ReliableType, Parse, Carries, FrameOf, Steady, Sorted, AllBefore, Chain, Fresh;
    if s.data != [] {
      var p := s.data[0];
      var s' := StepRecvData(s);
      assert p in s.data && Carries(p, s.accepted);
      DataDecodes(s, p);
      NewAck(s, p);
      if IsDuplicate(s.rx, SeqOf(p.idx)) {
        RepetitionChained(s, p);
        HandledStays(s, s', p.idx);
      } else {
        NewIsFresh(s, p);
        ChainSelf(s.accepted, p.idx);
        HandledBy(s', |s.delivered|, p.idx);
      }
      SteadyMove(s, s', Packet(Encode(AckFrame(SeqOf(p.idx))), p.idx));
    }
  }

  lemma HandledStays(s: Sys, s': Sys, i: nat)
    requires Handled(s, i) && s'.accepted == s.accepted && s.delivered <= s'.delivered
    ensures Handled(s', i)
  {
    hide Chain;
    var k :| 0 <= k < |s.delivered| && Chain(s.accepted, s.delivered[k].idx, i);
    assert s'.delivered[k] == s.delivered[k];
  }

  lemma SteadyMove(s: Sys, s': Sys, ack: Packet)
    requires Steady(s) && s.data != [] && ack.idx == s.data[0].idx && ack.idx < |s.accepted| && Fits(s.accepted[ack.idx])
    requires s'.data == s.data[1..] && s'.acks == s.acks + [ack] && s'.fates == s.fates && s'.accepted == s.accepted
    requires s.delivered <= s'.delivered && Handled(s', ack.idx)
    requires forall k :: |s.delivered| <= k < |s'.delivered| ==> Fresh(s.accepted, s'.delivered[k].idx)
    ensures Steady(s')
  {
    hide Chain, Fresh, Fits, Handled;
    forall i: nat | Handled(s, i) ensures Handled(s', i) {
      HandledStays(s, s', i);
    }
    assert s.data[0] in s.data && forall q :: q in s'.data ==> q in s.data;
    assert forall q :: q in s'.acks ==> q in s.acks || q == ack;
    assert forall q :: NewerChained(s, q) ==> NewerChained(s', q);
    assert NewerChained(s, s.data[0]) ==> NewerChained(s', ack);
    assert forall k :: 0 <= k < |s.delivered| ==> s'.delivered[k] == s.delivered[k];
  }

  // ---- The sender's step ----

  /** An acknowledgement that fits the outstanding message belongs to that message or to the chain it continues. */
  lemma AckChained(s: Sys, p: Packet)
    requires Inv(s) && Steady(s) && NoneAbandoned(s) && p in s.acks
    requires s.tx.state != Idle && SeqOf(p.idx) == s.tx.curSeq
    ensures s.accepted != [] && Chain(s.accepted, p.idx, |s.accepted| - 1)
  {
    hide SeqOf, Encode, Carries, Acknowledges, ReliableType, FrameOf, Fresh, Fits, Handled, Chain, DeliveredInOrder, RxInv;
    LastIdx(s);
    var n := |s.accepted|;
    forall k: nat | p.idx <= k <= n - 1 && Fits(s.accepted[k]) ensures SeqOf(k) == SeqOf(p.idx) {
      if p.idx < k < n - 1 {
        FitsAcked(s, k);
        assert NewerChained(s, p);
        ChainEnds(s.accepted, p.idx, k);
      }
    }
    ChainOf(s.accepted, p.idx, n - 1);
  }

  lemma ChainEnds(msgs: seq<Msg>, j: nat, i: nat)
    requires Chain(msgs, j, i) && Fits(msgs[i])
    ensures SeqOf(i) == SeqOf(j)
  {
    hide SeqOf, Fits;
  }

  lemma SteadyRecvAck(s: Sys)
    requires Inv(s) && Steady(s) && NoneAbandoned(s)
    ensures Steady(StepRecvAck(s))
  {
    hide Encode, SeqOf, Acknowledges, ReliableType, Parse, Inv, Steady, Chain, NoneAbandoned;
    if s.acks != [] {
      var p := s.acks[0];
      var s' := StepRecvAck(s);
      assert p in s.acks;
      E.InOrderAfter(s);
      AckDecodes(s, p);
      TailThins(s.acks);
      if s'.tx == s.tx {
        SteadyChannelsOf(s, s');
      } else {
        AckChained(s, p);
        SteadyAcked(s, s', p);
      }
    }
  }

  lemma TailThins(ps: seq<Packet>)
    requires ps != []
    ensures Thinned(ps[1..], ps) && Thinned(ps, ps)
  {
  }

  lemma SteadyAcked(s: Sys, s': Sys, p: Packet)
    requires Inv(s) && Steady(s) && s.acks != [] && p == s.acks[0] && s.accepted != []
    requires Chain(s.accepted, p.idx, |s.accepted| - 1)
    requires s'.accepted == s.accepted && s'.fates == Settle(s.fates, Acked) && s'.delivered == s.delivered
    requires s'.data == s.data && s'.acks == s.acks[1..]
    ensures Steady(s')
  {
    hide SeqOf, Encode, Carries, Acknowledges, ReliableType, FrameOf, Fresh, Fits, Chain, Handled, TxInv, ChannelInv, RxInv, DeliveredInOrder;
    var n := |s.accepted|;
    AsMany(s);
    E.InOrderAfter(s);
    assert p in s.acks && forall q :: q in s'.acks ==> q in s.acks;
    JoinHandled(s, p.idx, n - 1);
    forall i: nat | Handled(s, i) ensures Handled(s', i) {
      HandledStays(s, s', i);
    }
    forall q | q in s'.data || q in s'.acks ensures NewerChained(s', q) {
      InFlightFits(s, q);
      assert NewerChained(s, q);
      if q.idx < n - 1 {
        ChainTail(s.accepted, p.idx, q.idx, n - 1);
      }
    }
  }

  lemma JoinHandled(s: Sys, j: nat, i: nat)
    requires Handled(s, j) && Chain(s.accepted, j, i) && Fits(s.accepted[j])
    ensures Handled(s, i)
  {
    hide Chain, Fits;
    var k :| 0 <= k < |s.delivered| && Chain(s.accepted, s.delivered[k].idx, j);
    ChainJoins(s.accepted, s.delivered[k].idx, j, i);
  }

  lemma InFlightFits(s: Sys, q: Packet)
    requires Inv(s) && Steady(s) && (q in s.data || q in s.acks)
    ensures q.idx < |s.accepted| && Fits(s.accepted[q.idx])
  {
    hide SeqOf, Encode, Acknowledges, ReliableType, FrameOf, Chain, Handled, Fresh, TxInv, RxInv, DeliveredInOrder;
  }

  // ---- Over runs ----

  lemma {:induction false} RunSteady(acts: seq<Action>)
    requires NoneAbandoned(Run(INIT, acts))
    ensures Steady(Run(INIT, acts))
    decreases |acts|
  {
    hide Apply, Inv, Steady, NoneAbandoned;
    if acts == [] {
      InitSteady();
    } else {
      var before, a := acts[..|acts| - 1], acts[|acts| - 1];
      E.RunInv(before);
      AbandonedStays(Run(INIT, before), a);
      RunSteady(before);
      SteadyStep(Run(INIT, before), a);
    }
  }

  lemma InitSteady()
    ensures Steady(INIT)
  {
  }

  // ---- Fresh messages are the kept ones ----

  lemma NumbersMeet(p: nat, i: nat)
    requires p <= i
    ensures SeqOf(p) == SeqOf(i) <==> (i - p) % 256 == 0
  {
    hide SeqOf, Value;
    SeqWraps(p);
    SeqWraps(i);
    SameValue(SeqOf(p), SeqOf(i));
    Residues(p, i);
  }

  lemma Residues(p: nat, i: nat)
    requires p <= i
    ensures p % 256 == i % 256 <==> (i - p) % 256 == 0
  {
  }

  lemma FreshKept(msgs: seq<Msg>, i: nat)
    requires i < |msgs| && Fits(msgs[i]) && Fresh(msgs, i)
    ensures Keeps(msgs, i)
  {
    hide SeqOf, Fits, LastFitting;
    LastBefore(msgs, i);
    var p := LastFitting(msgs[..i]);
    if p >= 0 {
      NumbersMeet(p, i);
      if SeqOf(p) == SeqOf(i) {
        ChainOf(msgs, p, i);
      }
    }
  }

  /** A kept message to which a chain leads is where the chain begins. */
  lemma KeptBegins(msgs: seq<Msg>, j: nat, i: nat)
    requires Chain(msgs, j, i) && Fits(msgs[j]) && Keeps(msgs, i)
    ensures j == i
  {
    hide SeqOf, Fits, LastFitting;
    LastBefore(msgs, i);
    var p := LastFitting(msgs[..i]);
    if j < i {
      KeepsFits(msgs, i);
      NumbersMeet(p, i);
    }
  }

  /** With nothing abandoned the node is handed exactly the kept messages, up to the outstanding one. */
  lemma DeliveredExactly(s: Sys, i: nat)
    requires Inv(s) && Steady(s) && NoneAbandoned(s) && i < |s.accepted|
    ensures E.WasDelivered(s, i) ==> Keeps(s.accepted, i)
    ensures Keeps(s.accepted, i) && (i < |s.accepted| - 1 || s.tx.state == Idle) ==> E.WasDelivered(s, i)
  {
    hide Inv, Keeps, Fresh, Chain;
    InvParts(s);
    if E.WasDelivered(s, i) {
      var k :| 0 <= k < |s.delivered| && s.delivered[k].idx == i;
      DeliveredFits(s, k);
      FreshKept(s.accepted, i);
    }
    if Keeps(s.accepted, i) && (i < |s.accepted| - 1 || s.tx.state == Idle) {
      KeepsFits(s.accepted, i);
      FitsAcked(s, i);
      var t :| 0 <= t < |s.delivered| && Chain(s.accepted, s.delivered[t].idx, i);
      DeliveredFits(s, t);
      KeptBegins(s.accepted, s.delivered[t].idx, i);
    }
  }

  lemma InvParts(s: Sys)
    requires Inv(s)
    ensures TxInv(s) && DeliveredInOrder(s)
  {
    hide TxInv, ChannelInv, DeliveredInOrder, RxInv;
  }
}
