/**
 * The ring with its two sides running concurrently: every read and write of a shared index, and the start and end of every
 * slot copy, is a step of its own, and steps of the two sides interleave freely (sequential consistency).
 */
module RingInterleaving {
  import opened Bytes
  import opened Ring

  /** A slot is Partial while the producer is copying into it. */
  datatype Slot<T> = Partial | Whole(rec: T)

  /** Where the producer is in a push: it has read head; it has read tail and found the ring full, or not; it is copying; it has copied. */
  datatype Producer<T> =
    | Resting
    | HeadRead(rec: T, h: nat)
    | SeenFull(rec: T)
    | SeenRoom(rec: T, h: nat)
    | Copying(rec: T, h: nat)
    | Copied(rec: T, h: nat)

  /** Where the consumer is in a pop: it has read tail; it is copying out; it has copied out. */
  datatype Consumer<T> = Waiting | TailRead(t: nat) | Fetching(t: nat) | Fetched(t: nat, slot: Slot<T>)

  /** accepted, popped, attempts and lost record the history; no step depends on them. */
  datatype Sys<T> = Sys(buf: seq<Slot<T>>, head: nat, tail: nat, drops: u32, p: Producer<T>, c: Consumer<T>,
                        accepted: seq<T>, popped: seq<Slot<T>>, attempts: nat, lost: nat)

  datatype Step<T> = StartPush(rec: T) | ProducerStep | StartPop | ConsumerStep

  function Start<T>(): Sys<T> {
    Sys(seq(SLOTS, _ => Partial), 0, 0, 0, Resting, Waiting, [], [], 0, 0)
  }

  function ProducerNext<T>(s: Sys<T>): Sys<T>
    requires |s.buf| == SLOTS
  {
    match s.p
    case Resting => s
    case HeadRead(rec, h) =>
      s.(p := if Next(h) == s.tail then SeenFull(rec) else SeenRoom(rec, h))   // reads tail
    case SeenFull(_) => s.(p := Resting, drops := Add32(s.drops, 1), lost := s.lost + 1)
    case SeenRoom(rec, h) => s.(p := Copying(rec, h), buf := if h < SLOTS then s.buf[h := Partial] else s.buf)
    case Copying(rec, h) => s.(p := Copied(rec, h), buf := if h < SLOTS then s.buf[h := Whole(rec)] else s.buf)
    case Copied(rec, h) => s.(p := Resting, head := Next(h), accepted := s.accepted + [rec])
  }

  function ConsumerNext<T>(s: Sys<T>): Sys<T>
    requires |s.buf| == SLOTS
  {
    match s.c
    case Waiting => s
    case TailRead(t) => s.(c := if t == s.head then Waiting else Fetching(t))   // reads head
    case Fetching(t) => s.(c := Fetched(t, if t < SLOTS then s.buf[t] else Partial))
    case Fetched(t, slot) => s.(c := Waiting, tail := Next(t), popped := s.popped + [slot])
  }

  function Apply<T>(s: Sys<T>, a: Step<T>): (s': Sys<T>)
    requires |s.buf| == SLOTS
    ensures |s'.buf| == SLOTS
  {
    match a
    case StartPush(rec) => if s.p.Resting? then s.(p := HeadRead(rec, s.head), attempts := s.attempts + 1) else s
    case ProducerStep => ProducerNext(s)
    case StartPop => if s.c.Waiting? then s.(c := TailRead(s.tail)) else s
    case ConsumerStep => ConsumerNext(s)
  }

  function Run<T>(steps: seq<Step<T>>): (s: Sys<T>)
    ensures |s.buf| == SLOTS
    decreases |steps|
  {
    if steps == [] then Start() else Apply(Run(steps[..|steps| - 1]), steps[|steps| - 1])
  }

  // ---- The invariant ----

  /** The published records not yet released sit whole in their slots. */
  ghost predicate Stored<T>(s: Sys<T>)
    requires |s.buf| == SLOTS
  {
    forall i :: |s.popped| <= i < |s.accepted| ==> s.buf[i % SLOTS] == Whole(s.accepted[i])
  }

  ghost predicate Indices<T>(s: Sys<T>) {
    && |s.popped| <= |s.accepted| <= |s.popped| + DEPTH
    && s.head == |s.accepted| % SLOTS && s.tail == |s.popped| % SLOTS
    && forall i :: 0 <= i < |s.popped| ==> s.popped[i] == Whole(s.accepted[i])
  }

  ghost predicate ProducerInv<T>(s: Sys<T>)
    requires |s.buf| == SLOTS
  {
    match s.p
    case HeadRead(_, h) => h == s.head
    case SeenRoom(_, h) => h == s.head && |s.accepted| < |s.popped| + DEPTH
    case Copying(_, h) => h == s.head && |s.accepted| < |s.popped| + DEPTH
    case Copied(rec, h) => h == s.head && |s.accepted| < |s.popped| + DEPTH && s.buf[s.head % SLOTS] == Whole(rec)
    case _ => true
  }

  ghost predicate ConsumerInv<T>(s: Sys<T>) {
    match s.c
    case Waiting => true
    case TailRead(t) => t == s.tail
    case Fetching(t) => t == s.tail && |s.popped| < |s.accepted|
    case Fetched(t, slot) => t == s.tail && |s.popped| < |s.accepted| && slot == Whole(s.accepted[|s.popped|])
  }

  ghost predicate Counted<T>(s: Sys<T>) {
    s.attempts == |s.accepted| + s.lost + (if s.p.Resting? then 0 else 1) && s.drops == s.lost % 0x1_0000_0000
  }

  ghost predicate Inv<T>(s: Sys<T>)
    requires |s.buf| == SLOTS
  {
    Indices(s) && Stored(s) && ProducerInv(s) && ConsumerInv(s) && Counted(s)
  }

  lemma NextIs(i: nat)
    ensures Next(i % SLOTS) == (i + 1) % SLOTS
  {
  }

  lemma SameSlot(i: nat, j: nat)
    requires i <= j < i + SLOTS && i % SLOTS == j % SLOTS
    ensures i == j
  {
  }

  lemma ProducerKeeps<T>(s: Sys<T>)
    requires |s.buf| == SLOTS && Inv(s)
    ensures |ProducerNext(s).buf| == SLOTS && Inv(ProducerNext(s))
  {
    hide Indices, Stored, Counted, ConsumerInv;
    HeadInside(s);
    match s.p {
      case HeadRead(_, _) => RoomIsReal(s);
      case SeenRoom(rec, h) => SlotWritten(s, Partial);
      case Copying(rec, h) => SlotWritten(s, Whole(rec));
      case Copied(rec, h) => Published(s);
      case _ =>
    }
    if !s.p.Copied? {
      SameRecords(s, ProducerNext(s));
      SameRecords(s, s.(buf := ProducerNext(s).buf));
      SameRecords(s.(buf := ProducerNext(s).buf), ProducerNext(s));
    }
    CountedKeeps(s);
    ConsumerUndisturbed(s, ProducerNext(s));
  }

  lemma CountedKeeps<T>(s: Sys<T>)
    requires |s.buf| == SLOTS && Counted(s)
    ensures Counted(ProducerNext(s))
  {
    DropCounted(s.lost);
  }

  lemma DropCounted(n: nat)
    ensures Add32(n % 0x1_0000_0000, 1) == (n + 1) % 0x1_0000_0000
  {
  }

  lemma ConsumerUndisturbed<T>(s: Sys<T>, s': Sys<T>)
    requires ConsumerInv(s) && s'.c == s.c && s'.tail == s.tail && s'.popped == s.popped && s.accepted <= s'.accepted
    ensures ConsumerInv(s')
  {
  }

  lemma HeadInside<T>(s: Sys<T>)
    requires Indices(s)
    ensures s.head < SLOTS && s.tail < SLOTS
  {
  }

  /** The invariant on indices and slots looks at nothing else. */
  lemma SameRecords<T>(s: Sys<T>, s': Sys<T>)
    requires Indices(s) && s'.accepted == s.accepted && s'.popped == s.popped && s'.head == s.head && s'.tail == s.tail
    ensures Indices(s')
    ensures |s.buf| == |s'.buf| == SLOTS && s.buf == s'.buf ==> (Stored(s) <==> Stored(s'))
  {
  }

  /** Seeing tail elsewhere than right after head means there was, and so still is, room. */
  lemma RoomIsReal<T>(s: Sys<T>)
    requires Indices(s)
    ensures Next(s.head) != s.tail ==> |s.accepted| < |s.popped| + DEPTH
  {
    NextIs(|s.accepted|);
    if |s.accepted| == |s.popped| + DEPTH {
      assert (|s.accepted| + 1) % SLOTS == |s.popped| % SLOTS;
    }
  }

  lemma SlotWritten<T>(s: Sys<T>, slot: Slot<T>)
    requires |s.buf| == SLOTS && Indices(s) && Stored(s)
    ensures s.head < SLOTS && Stored(s.(buf := s.buf[s.head := slot]))
  {
    OtherSlots(s);
  }

  lemma Published<T>(s: Sys<T>)
    requires |s.buf| == SLOTS && Inv(s) && s.p.Copied?
    ensures Indices(ProducerNext(s)) && Stored(ProducerNext(s))
  {
    NextIs(|s.accepted|);
  }

  /** No queued record sits in the slot at head. */
  lemma OtherSlots<T>(s: Sys<T>)
    requires Indices(s)
    ensures forall i :: |s.popped| <= i < |s.accepted| ==> i % SLOTS != |s.accepted| % SLOTS
  {
    forall i | |s.popped| <= i < |s.accepted| ensures i % SLOTS != |s.accepted| % SLOTS {
      if i % SLOTS == |s.accepted| % SLOTS {
        SameSlot(i, |s.accepted|);
      }
    }
  }

  lemma ConsumerKeeps<T>(s: Sys<T>)
    requires |s.buf| == SLOTS && Inv(s)
    ensures |ConsumerNext(s).buf| == SLOTS && Inv(ConsumerNext(s))
  {
    NextIs(|s.popped|);
    if s.head != s.tail {
      assert |s.accepted| != |s.popped|;
    }
  }

  lemma {:induction false} RunInv<T>(steps: seq<Step<T>>)
    ensures Inv(Run(steps))
    decreases |steps|
  {
    if steps != [] {
      var s := Run(steps[..|steps| - 1]);
      RunInv(steps[..|steps| - 1]);
      StepKeeps(s, steps[|steps| - 1]);
    }
  }

  // ---- What it means ----

  /** The queue as the two sides see it. */
  function Queue<T>(s: Sys<T>): seq<T>
    requires |s.popped| <= |s.accepted|
  {
    s.accepted[|s.popped|..]
  }

  /**
   * In every interleaving: what comes out is a prefix of what went in, whole; at most eight records are queued; every push
   * attempt is accepted, lost and counted, or under way; and the copies in and out never share a slot.
   */
  lemma RingSafety<T>(steps: seq<Step<T>>)
    ensures var s := Run(steps);
      && |s.popped| <= |s.accepted| <= |s.popped| + 8
      && (forall i :: 0 <= i < |s.popped| ==> s.popped[i] == Whole(s.accepted[i]))
      && s.attempts == |s.accepted| + s.lost + (if s.p.Resting? then 0 else 1) && s.drops == s.lost % 0x1_0000_0000
      && (s.p.Copying? && s.c.Fetching? ==> s.p.h != s.c.t)
      && (s.c.Fetching? ==> s.c.t < SLOTS && |s.popped| < |s.accepted| && s.buf[s.c.t] == Whole(s.accepted[|s.popped|]))
      && CountOf(s.head, s.tail) == |Queue(s)|
  {
    RunInv(steps);
    var s := Run(steps);
    if s.p.Copying? && s.c.Fetching? && s.p.h == s.c.t {
      SameSlot(|s.popped|, |s.accepted|);
    }
    CountIs(|s.accepted|, |s.popped|);
  }

  lemma CountIs(a: nat, b: nat)
    requires b <= a <= b + DEPTH
    ensures CountOf(a % SLOTS, b % SLOTS) == a - b
  {
  }

  /** What a step may do to the queue: nothing, append the producer's record while there is room, or take the head. */
  ghost predicate FifoStep<T>(s: Sys<T>, s': Sys<T>)
    requires |s.popped| <= |s.accepted| && |s'.popped| <= |s'.accepted|
  {
    var q, q' := Queue(s), Queue(s');
    || (q' == q && s'.popped == s.popped)
    || (s.p.Copied? && |q| < 8 && q' == q + [s.p.rec] && s'.popped == s.popped)
    || (q != [] && q' == q[1..] && s'.popped == s.popped + [Whole(q[0])])
  }

  /** Every step is a step of a bounded queue, and a push is lost only when eight records are queued. */
  lemma RefinesFifo<T>(s: Sys<T>, a: Step<T>)
    requires |s.buf| == SLOTS && Inv(s)
    ensures Inv(Apply(s, a)) && FifoStep(s, Apply(s, a))
    ensures s.p.HeadRead? && Apply(s, a).p.SeenFull? ==> |Queue(s)| == 8
  {
    hide Stored;
    StepKeeps(s, a);
    if Next(s.head) == s.tail {
      FullMeansEight(s);
    }
    if a == ProducerStep && s.p.Copied? {
      assert Queue(Apply(s, a)) == Queue(s) + [s.p.rec];
    }
  }

  lemma StepKeeps<T>(s: Sys<T>, a: Step<T>)
    requires |s.buf| == SLOTS && Inv(s)
    ensures Inv(Apply(s, a))
  {
    ProducerKeeps(s);
    ConsumerKeeps(s);
  }

  lemma FullMeansEight<T>(s: Sys<T>)
    requires |s.buf| == SLOTS && Inv(s) && Next(s.head) == s.tail
    ensures |s.accepted| == |s.popped| + DEPTH
  {
    NextIs(|s.accepted|);
    if |s.accepted| + 1 < |s.popped| + SLOTS {
      SameSlot(|s.popped|, |s.accepted| + 1);
    }
  }
}
