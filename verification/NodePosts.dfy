/** The node seen through the events its coordinator posts to the safety machine, over whole runs. */
module NodePosts {
  import opened Bytes
  import opened Safety
  import opened Control
  import opened Node
  import opened NodeRuns
  import opened NodeSafety

  /** An event as posted: the state the machine was in, the event, its time. */
  datatype Post = Post(state: State, ev: Event, t: u32)

  /** What a report on cause c makes the coordinator post: at most one event. */
  function CauseEvents(n: Node, c: Cause, healthy: bool): seq<Event> {
    if !healthy then [if c !in n.causes && n.causes - {c} != {} then SecondFault else FaultEvent(c)]
    else if c in n.causes && n.causes - {c} == {} then [CauseCleared]
    else []
  }

  function Events(n: Node, op: Op): seq<Event> {
    match op
    case Sensor(_, healthy, _) => CauseEvents(n, SensorCause, healthy)
    case Link(healthy, _) => CauseEvents(n, LinkCause, healthy)
    case Timing(healthy, _) => CauseEvents(n, TimingCause, healthy)
    case Selftest(_) => [SelftestOk]
    case ControlTick(measurement, _) =>
      [if PidStep(n.pid, PID_CFG, n.setpoint, measurement, CTRL_PERIOD_MS).0.diverging then Diverge else Tick]
    case External(ev, _) => [ev]
  }

  function Posts(n: Node, op: Op): (ps: seq<Post>)
    ensures |ps| <= 1
  {
    if Events(n, op) == [] then [] else [Post(n.sm.state, Events(n, op)[0], op.t)]
  }

  /** Everything posted during a run. */
  function Log(n: Node, ops: seq<Op>): seq<Post>
    decreases |ops|
  {
    if ops == [] then [] else Log(n, ops[..|ops| - 1]) + Posts(Run(n, ops[..|ops| - 1]), ops[|ops| - 1])
  }

  function Replay(s: Sm, posts: seq<Post>): Sm {
    if posts == [] then s
    else var p := posts[|posts| - 1]; Step(Replay(s, posts[..|posts| - 1]), p.ev, p.t)
  }

  /** Each entry shows the state the machine was in. */
  ghost predicate Genuine(s: Sm, posts: seq<Post>) {
    forall i :: 0 <= i < |posts| ==> posts[i].state == Replay(s, posts[..i]).state
  }

  /** One operation touches the machine by what it posts and in no other way. */
  lemma PostsAreAll(n: Node, op: Op)
    ensures Apply(n, op).sm == if Posts(n, op) == [] then n.sm else Step(n.sm, Posts(n, op)[0].ev, op.t)
    ensures Posts(n, op) != [] ==> Posts(n, op)[0].state == n.sm.state && Posts(n, op)[0].t == op.t
  {
    hide Step, PidStep, PlantStep, Clamp, Truncate;
  }

  /** The posted events alone make the machine what it is after the run. */
  lemma {:induction false} LogReplays(n: Node, ops: seq<Op>)
    ensures Run(n, ops).sm == Replay(n.sm, Log(n, ops)) && Genuine(n.sm, Log(n, ops))
    decreases |ops|
  {
    hide Step, Apply, Posts, Events;
    if ops != [] {
      var before, op := ops[..|ops| - 1], ops[|ops| - 1];
      LogReplays(n, before);
      PostsAreAll(Run(n, before), op);
      LogGrows(n.sm, Log(n, before), Posts(Run(n, before), op));
    }
  }

  lemma LogGrows(s: Sm, posts: seq<Post>, more: seq<Post>)
    requires Genuine(s, posts) && |more| <= 1
    requires more != [] ==> more[0].state == Replay(s, posts).state
    ensures Genuine(s, posts + more)
    ensures Replay(s, posts + more) == if more == [] then Replay(s, posts) else Step(Replay(s, posts), more[0].ev, more[0].t)
  {
    hide Step;
    var all := posts + more;
    if more == [] {
      assert all == posts;
    } else {
      assert all[..|posts|] == posts;
      assert forall i :: 0 <= i < |posts| ==> all[..i] == posts[..i];
    }
  }

  /**
   * In no run of a driven node is a second fault posted to a machine in RUN or INIT, which would only count it; and the
   * posts are all there is to the machine's history.
   */
  lemma {:induction false} NoSecondFaultInRun(setpoint: real, carried: set<Flag>, ops: seq<Op>)
    requires AllDriven(ops)
    ensures var boot := Booted(setpoint, carried); var log := Log(boot, ops);
      && (forall i :: 0 <= i < |log| && log[i].ev == SecondFault ==> log[i].state != Running && log[i].state != Init)
      && Genuine(boot.sm, log) && Run(boot, ops).sm == Replay(boot.sm, log)
    decreases |ops|
  {
    hide Apply, Step, Replay, Genuine, Driven, Inv;
    var boot := Booted(setpoint, carried);
    LogReplays(boot, ops);
    if ops != [] {
      var before, op := ops[..|ops| - 1], ops[|ops| - 1];
      NoSecondFaultInRun(setpoint, carried, before);
      BootInv(setpoint, carried);
      RunInv(boot, before);
      assert Driven(op);
      SecondFaultPost(Run(boot, before), op);
    }
  }

  lemma SecondFaultPost(n: Node, op: Op)
    requires Inv(n) && Driven(op)
    ensures Posts(n, op) != [] && Posts(n, op)[0].ev == SecondFault ==> n.sm.state != Running && n.sm.state != Init
  {
    hide Timed, Flagged, PidStep;
  }

  // ---- How long DEGRADED lasts ----

  /** A control tick or external event comes at least every p milliseconds. */
  ghost predicate Cadenced(ops: seq<Op>, p: nat) {
    forall j :: 0 <= j < |ops| ==> ops[j].t <= p || StepSince(ops, j, p)
  }

  ghost predicate StepSince(ops: seq<Op>, j: nat, p: nat)
    requires j < |ops|
  {
    exists i :: 0 <= i < j && Steps(ops[i]) && ops[j].t <= ops[i].t + p
  }

  /** Operation i takes the node into DEGRADED, where it still is when operation j comes. */
  ghost predicate Episode(n: Node, ops: seq<Op>, i: nat, j: nat) {
    && i < j <= |ops| && Run(n, ops[..i]).sm.state != Degraded
    && forall k :: i < k <= j ==> Run(n, ops[..k]).sm.state == Degraded
  }

  /** With steps at most p ms apart a DEGRADED episode is over 5000 + p ms after it began. */
  lemma DegradedIsBounded(setpoint: real, carried: set<Flag>, ops: seq<Op>, i: nat, j: nat, p: nat)
    requires var boot := Booted(setpoint, carried); AllDriven(ops) && Monotone(boot, ops) && Episode(boot, ops, i, j)
    requires j < |ops| && Cadenced(ops, p)
    ensures ops[j].t < ops[i].t + 5000 + p
  {
    hide Apply, Step, Run, Driven, Inv;
    var boot := Booted(setpoint, carried);
    BootInv(setpoint, carried);
    DrivenPrefix(ops, j);
    RunInv(boot, ops[..j]);
    DegradedInTime(Run(boot, ops[..j]));
    EpisodeSince(boot, ops, i, j);
    if ops[j].t > p {
      assert StepSince(ops, j, p);
      var k :| 0 <= k < j && Steps(ops[k]) && ops[j].t <= ops[k].t + p;
      ClockAtLeast(boot, ops, k, j);
    }
  }

  lemma DrivenPrefix(ops: seq<Op>, j: nat)
    requires AllDriven(ops) && j <= |ops|
    ensures AllDriven(ops[..j])
  {
  }

  lemma DegradedInTime(n: Node)
    requires Inv(n) && n.sm.state == Degraded
    ensures n.sm.now < n.sm.since + DEGRADE_MAX_MS
  {
  }

  lemma RunTo(n: Node, ops: seq<Op>, k: nat)
    requires k < |ops|
    ensures Run(n, ops[..k + 1]) == Apply(Run(n, ops[..k]), ops[k])
  {
    hide Apply;
    assert ops[..k + 1][..k] == ops[..k];
  }

  lemma MonotoneTo(n: Node, ops: seq<Op>, k: nat)
    requires Monotone(n, ops) && k < |ops|
    ensures Run(n, ops[..k]).sm.now <= ops[k].t
  {
    hide Apply;
    RunClock(n, ops[..k]);
  }

  /** The machine's clock has reached every step so far. */
  lemma {:induction false} ClockAtLeast(n: Node, ops: seq<Op>, k: nat, j: nat)
    requires Monotone(n, ops) && k < j <= |ops| && Steps(ops[k])
    ensures ops[k].t <= Run(n, ops[..j]).sm.now
  {
    hide Apply, Run;
    RunTo(n, ops, j - 1);
    MonotoneTo(n, ops, j - 1);
    if k < j - 1 {
      ClockAtLeast(n, ops, k, j - 1);
      ClockFollows(Run(n, ops[..j - 1]), ops[j - 1]);
    } else {
      StepsStep(Run(n, ops[..k]), ops[k]);
    }
  }

  lemma StepsStep(n: Node, op: Op)
    requires Steps(op) && n.sm.now <= op.t
    ensures Apply(n, op).sm.now == op.t
  {
    hide Step, PidStep, Apply;
    PostsAreAll(n, op);
    StepClock(n.sm, Events(n, op)[0], op.t);
  }

  /** The stamp of a DEGRADED episode is the time of the operation that began it. */
  lemma {:induction false} EpisodeSince(n: Node, ops: seq<Op>, i: nat, j: nat)
    requires Monotone(n, ops) && Episode(n, ops, i, j)
    ensures Run(n, ops[..j]).sm.since == ops[i].t
  {
    hide Apply, Run;
    RunTo(n, ops, j - 1);
    MonotoneTo(n, ops, j - 1);
    SinceKept(Run(n, ops[..j - 1]), ops[j - 1]);
    if i < j - 1 {
      EpisodeSince(n, ops, i, j - 1);
    }
  }

  lemma SinceKept(n: Node, op: Op)
    requires n.sm.now <= op.t && Apply(n, op).sm.state == Degraded
    ensures Apply(n, op).sm.since == if n.sm.state == Degraded then n.sm.since else op.t
  {
    hide Apply, Posts, Step;
    PostsAreAll(n, op);
    if Posts(n, op) != [] {
      StepSinceKept(n.sm, Posts(n, op)[0].ev, op.t);
    }
  }

  lemma StepSinceKept(s: Sm, ev: Event, t: u32)
    requires s.now <= t && Step(s, ev, t).state == Degraded
    ensures Step(s, ev, t).since == if s.state == Degraded then s.since else t
  {
    hide Add32, Sub32;
  }
}
