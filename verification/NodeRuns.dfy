/** The node over whole runs: coherence of the coordinator's shadow with the safety machine, and what follows from it. */
module NodeRuns {
  import opened Bytes
  import opened Safety
  import opened Control
  import opened Node

  datatype Op =
    | Sensor(flags: set<Flag>, healthy: bool, t: u32)
    | Link(healthy: bool, t: u32)
    | Timing(healthy: bool, t: u32)
    | Selftest(t: u32)
    | ControlTick(measurement: real, t: u32)
    | External(ev: Event, t: u32)

  function Apply(n: Node, op: Op): Node {
    match op
    case Sensor(flags, healthy, t) => NoteSensor(n, flags, healthy, t)
    case Link(healthy, t) => NoteCause(n, LinkCause, healthy, t)
    case Timing(healthy, t) => NoteCause(n, TimingCause, healthy, t)
    case Selftest(t) => Posted(n, SelftestOk, t)
    case ControlTick(measurement, t) => ControlStep(n, measurement, t).0
    case External(ev, t) => PostEvent(n, ev, t)
  }

  /** The events whose posting the coordinator keeps to itself. */
  predicate Internalised(ev: Event) {
    ev == SensorFault || ev == LinkFault || ev == DeadlineMiss || ev == CauseCleared || ev == SecondFault
  }

  /**
   * How the application drives the node: health through the note operations, never at time 0 and with the drivers' own
   * flags only; any other event from outside.
   */
  predicate Driven(op: Op) {
    match op
    case Sensor(flags, _, t) => flags <= DRIVER_FLAGS && t > 0
    case Link(_, t) => t > 0
    case Timing(_, t) => t > 0
    case External(ev, _) => !Internalised(ev)
    case _ => true
  }

  function Run(n: Node, ops: seq<Op>): Node
    decreases |ops|
  {
    if ops == [] then n else Apply(Run(n, ops[..|ops| - 1]), ops[|ops| - 1])
  }

  ghost predicate AllDriven(ops: seq<Op>) {
    forall i :: 0 <= i < |ops| ==> Driven(ops[i])
  }

  // ---- The invariant ----

  /** Stamps are not in the future, dwells have not run out, and a dwell runs only while degraded. */
  predicate Timed(s: Sm) {
    && s.initStart <= s.now && s.since <= s.now && s.causeClear <= s.now
    && (s.state == Init ==> s.now - s.initStart < INIT_TIMEOUT_MS)
    && (s.state == Degraded ==> s.now - s.since < DEGRADE_MAX_MS)
    && (s.state != Degraded ==> s.causeClear == 0)
    && (s.causeClear != 0 ==> s.now - s.causeClear < RECOVER_MS)
  }

  /** Each state that is not normal operation shows one of its causes in the fault word. */
  predicate Flagged(s: Sm) {
    && s.sticky <= {WatchdogBit} && s.sticky <= s.faults
    && (s.state == Degraded ==> s.faults * {SensorActive, LinkBit, TimingBit} != {})
    && (s.state == SafeStop ==> s.faults * {OperatorStopBit, InitBit, DivergeBit, Escalated} != {})
    && (s.state == FaultHalt ==> Internal in s.faults)
  }

  predicate AtMostOne(causes: set<Cause>) {
    causes == {} || causes == {SensorCause} || causes == {LinkCause} || causes == {TimingCause}
  }

  /** The shadow of active causes against the safety machine. */
  predicate CausesCoherent(n: Node) {
    && (n.sm.state == Init ==> n.causes == {})
    && (n.sm.state == Running ==> n.causes == {})
    && (n.sm.state == Degraded ==> AtMostOne(n.causes) && (n.causes == {} <==> n.sm.causeClear != 0))
  }

  /** The drivers' specific bits against the shadow. */
  predicate DriverCoherent(n: Node) {
    && n.driver <= DRIVER_FLAGS
    && (n.sm.state == Init ==> n.driver == {})
    && (ActuationAllowed(n.sm) && n.driver != {} ==> SensorCause in n.causes)
  }

  predicate Coherent(n: Node) {
    CausesCoherent(n) && DriverCoherent(n)
  }

  predicate Inv(n: Node) {
    Timed(n.sm) && Flagged(n.sm) && Coherent(n)
  }

  lemma Elapsed(a: u32, b: u32)
    requires b <= a
    ensures Sub32(a, b) == a - b
  {
  }

  lemma StepTimed(s: Sm, ev: Event, now: u32)
    requires Timed(s)
    ensures Timed(Step(s, ev, now))
  {
    hide Add32, Sub32;
    if now >= s.now {
      var r := React(s.(now := now), ev, now);
      ReactStamps(s, ev, now);
      Elapsed(now, r.initStart);
      Elapsed(now, r.since);
      Elapsed(now, r.causeClear);
    }
  }

  lemma ReactStamps(s: Sm, ev: Event, now: u32)
    requires Timed(s) && s.now <= now
    ensures var r := React(s.(now := now), ev, now);
            && r.now == now && r.initStart <= now && r.since <= now && r.causeClear <= now
            && (r.state != Degraded ==> r.causeClear == 0)
  {
    hide Add32;
  }

  lemma StepFlagged(s: Sm, ev: Event, now: u32)
    requires Flagged(s)
    ensures Flagged(Step(s, ev, now))
  {
    hide Add32, Sub32;
    var m := s.(now := now);
    ReactFlagged(m, ev, now);
    TimersFlagged(React(m, ev, now), now);
  }

  lemma ReactFlagged(s: Sm, ev: Event, now: u32)
    requires Flagged(s)
    ensures Flagged(React(s, ev, now))
  {
    hide Add32;
    assert SensorActive in (s.faults + {SensorActive}) * {SensorActive, LinkBit, TimingBit};
    assert LinkBit in (s.faults + {LinkBit}) * {SensorActive, LinkBit, TimingBit};
    assert TimingBit in (s.faults + {TimingBit}) * {SensorActive, LinkBit, TimingBit};
    forall f | f in {OperatorStopBit, InitBit, DivergeBit, Escalated}
      ensures (s.faults + {f}) * {OperatorStopBit, InitBit, DivergeBit, Escalated} != {}
    {
      assert f in (s.faults + {f}) * {OperatorStopBit, InitBit, DivergeBit, Escalated};
    }
  }

  lemma TimersFlagged(s: Sm, now: u32)
    requires Flagged(s)
    ensures Flagged(Timers(s, now))
  {
    hide Add32, Sub32;
    assert InitBit in (s.faults + {InitBit}) * {OperatorStopBit, InitBit, DivergeBit, Escalated};
    assert Escalated in (s.faults + {Escalated}) * {OperatorStopBit, InitBit, DivergeBit, Escalated};
  }

  /** An event from outside either leaves DEGRADED's dwell alone or leaves DEGRADED. */
  lemma OutsideEvent(s: Sm, ev: Event, now: u32)
    requires Timed(s) && !Internalised(ev)
    ensures var r := Step(s, ev, now);
            && (r.state == Degraded ==> s.state == Degraded && r.causeClear == s.causeClear)
            && (r.state == Running ==> s.state == Running || s.state == Init || (s.state == Degraded && s.causeClear != 0))
  {
    hide Add32, Sub32;
  }

  lemma PostCoherent(n: Node, ev: Event, t: u32)
    requires Inv(n) && !Internalised(ev)
    ensures Coherent(Resync(Posted(n, ev, t)))
    ensures ev == SelftestOk ==> Coherent(Posted(n, ev, t))
  {
    hide Step, Flagged;
    OutsideEvent(n.sm, ev, t);
    if ev == SelftestOk {
      InitOnlyBefore(n.sm, t);
    }
  }

  lemma InitOnlyBefore(s: Sm, t: u32)
    ensures Step(s, SelftestOk, t).state != Init
  {
    hide Add32, Sub32;
  }

  /** What a cause's own fault event does. */
  lemma FaultPosted(s: Sm, c: Cause, t: u32)
    requires Timed(s)
    ensures var r := Step(s, FaultEvent(c), t);
            && r.state != Running
            && (r.state == Degraded ==> ActuationAllowed(s) && r.causeClear == 0 && CauseFlag(c) in r.faults)
            && (s.state == Running && s.now <= t ==> r.state == Degraded)
            && (s.state == Degraded && s.now <= t && r.state != Degraded ==> r.state == SafeStop && Escalated in r.faults)
  {
    hide Add32;
    if s.now <= t {
      Elapsed(t, t);
    }
  }

  /** A second fault while degraded escalates; elsewhere it is only counted. */
  lemma SecondPosted(s: Sm, t: u32)
    requires Timed(s)
    ensures var r := Step(s, SecondFault, t);
            && r.state != Degraded
            && (r.state == Running ==> s.state == Running)
            && (s.state == Degraded && s.now <= t ==> r.state == SafeStop && Escalated in r.faults)
  {
    hide Add32, Sub32;
  }

  lemma ClearPosted(s: Sm, t: u32)
    requires Timed(s) && t > 0
    ensures var r := Step(s, CauseCleared, t);
            && (r.state == Degraded ==> s.state == Degraded && r.causeClear == if s.causeClear == 0 then t else s.causeClear)
            && (r.state == Running ==> s.state == Running || (s.state == Degraded && s.causeClear != 0))
  {
    hide Add32;
    if s.now <= t {
      Elapsed(t, t);
    }
  }

  lemma UnhealthyCoherent(n: Node, c: Cause, t: u32)
    requires Timed(n.sm) && CausesCoherent(n)
    ensures var m := NoteCause(n, c, false, t); CausesCoherent(m) && (m.sm.state == Init || c in m.causes)
    ensures NoteCause(n, c, false, t).sm.state != Running
    ensures ActuationAllowed(NoteCause(n, c, false, t).sm) ==> ActuationAllowed(n.sm)
  {
    hide Step;
    FaultPosted(n.sm, c, t);
    SecondPosted(n.sm, t);
    if AtMostOne(n.causes) && (c in n.causes || n.causes - {c} == {}) {
      OnlyCause(n.causes, c);
    }
  }

  lemma OnlyCause(causes: set<Cause>, c: Cause)
    requires AtMostOne(causes) && (c in causes || causes - {c} == {})
    ensures causes + {c} == {c} && AtMostOne({c})
  {
    if c !in causes {
      assert causes - {c} == causes;
    }
  }

  lemma HealthyCoherent(n: Node, c: Cause, t: u32)
    requires Timed(n.sm) && CausesCoherent(n) && t > 0
    ensures var m := NoteCause(n, c, true, t);
            && CausesCoherent(m) && (m.sm.state == Init || m.causes == n.causes - {c})
            && (ActuationAllowed(m.sm) ==> ActuationAllowed(n.sm))
  {
    hide Step;
    ClearPosted(n.sm, t);
    if c !in n.causes {
      assert n.causes - {c} == n.causes;
    } else if AtMostOne(n.causes) {
      assert n.causes - {c} == {};
    }
  }

  lemma NoteCoherent(n: Node, c: Cause, healthy: bool, t: u32)
    requires Inv(n) && t > 0
    ensures CausesCoherent(NoteCause(n, c, healthy, t))
    ensures c != SensorCause ==> Coherent(NoteCause(n, c, healthy, t))
  {
    hide Step, Flagged, NoteCause;
    if healthy {
      HealthyCoherent(n, c, t);
    } else {
      UnhealthyCoherent(n, c, t);
    }
    NoteKeeps(n, c, healthy, t);
  }

  /** Noting a cause changes the other causes and the drivers' bits only when bring-up starts afresh. */
  lemma NoteKeeps(n: Node, c: Cause, healthy: bool, t: u32)
    ensures var m := NoteCause(n, c, healthy, t);
            && (m.sm.state == Init ==> m.driver == {} && m.causes == {})
            && (m.sm.state != Init ==> m.driver == n.driver && forall d :: d != c ==> (d in m.causes <==> d in n.causes))
  {
    hide Step;
  }

  lemma SensorCoherent(n: Node, flags: set<Flag>, healthy: bool, t: u32)
    requires Inv(n) && flags <= DRIVER_FLAGS && t > 0
    ensures Coherent(NoteSensor(n, flags, healthy, t))
  {
    hide Step, Flagged, NoteCause;
    var m := if !healthy then n.(driver := n.driver + flags)
             else if ActuationAllowed(n.sm) then n.(driver := n.driver - DRIVER_FLAGS) else n;
    NoteKeeps(m, SensorCause, healthy, t);
    if healthy {
      HealthyCoherent(m, SensorCause, t);
      if ActuationAllowed(n.sm) {
        assert m.driver == {};
      }
    } else {
      UnhealthyCoherent(m, SensorCause, t);
    }
  }

  lemma ControlCoherent(n: Node, measurement: real, t: u32)
    requires Inv(n)
    ensures Inv(ControlStep(n, measurement, t).0)
  {
    hide Step, Flagged, Timed, PidStep, PlantStep, Clamp, Truncate;
    var pid := PidStep(n.pid, PID_CFG, n.setpoint, measurement, CTRL_PERIOD_MS).0;
    var ev := if pid.diverging then Diverge else Tick;
    PostCoherent(n, ev, t);
    StepTimed(n.sm, ev, t);
    StepFlagged(n.sm, ev, t);
  }

  lemma NoteInv(n: Node, c: Cause, healthy: bool, t: u32)
    requires Timed(n.sm) && Flagged(n.sm)
    ensures var m := NoteCause(n, c, healthy, t); Timed(m.sm) && Flagged(m.sm)
  {
    hide Step, Flagged, Timed;
    StepTimed(n.sm, FaultEvent(c), t);
    StepTimed(n.sm, SecondFault, t);
    StepTimed(n.sm, CauseCleared, t);
    StepFlagged(n.sm, FaultEvent(c), t);
    StepFlagged(n.sm, SecondFault, t);
    StepFlagged(n.sm, CauseCleared, t);
  }

  lemma ApplyInv(n: Node, op: Op)
    requires Inv(n) && Driven(op)
    ensures Inv(Apply(n, op))
  {
    hide Step, Flagged, Timed, Coherent, NoteCause, ControlStep;
    match op {
      case Sensor(flags, healthy, t) =>
        SensorCoherent(n, flags, healthy, t);
        NoteInv(if !healthy then n.(driver := n.driver + flags)
                else if ActuationAllowed(n.sm) then n.(driver := n.driver - DRIVER_FLAGS) else n, SensorCause, healthy, t);
      case Link(healthy, t) =>
        NoteCoherent(n, LinkCause, healthy, t);
        NoteInv(n, LinkCause, healthy, t);
      case Timing(healthy, t) =>
        NoteCoherent(n, TimingCause, healthy, t);
        NoteInv(n, TimingCause, healthy, t);
      case ControlTick(measurement, t) => ControlCoherent(n, measurement, t);
      case Selftest(t) =>
        PostInv(n, SelftestOk, t);
      case External(ev, t) =>
        PostInv(n, ev, t);
    }
  }

  lemma PostInv(n: Node, ev: Event, t: u32)
    requires Inv(n) && !Internalised(ev)
    ensures Inv(PostEvent(n, ev, t)) && (ev == SelftestOk ==> Inv(Posted(n, ev, t)))
  {
    hide Step, Flagged, Timed, Coherent;
    PostCoherent(n, ev, t);
    StepTimed(n.sm, ev, t);
    StepFlagged(n.sm, ev, t);
  }

  lemma BootInv(setpoint: real, carried: set<Flag>)
    ensures Inv(Booted(setpoint, carried))
  {
  }

  /** Shadow and safety machine agree, flags are raised and dwells are bounded in every state the node can reach. */
  lemma {:induction false} RunInv(n: Node, ops: seq<Op>)
    requires Inv(n) && AllDriven(ops)
    ensures Inv(Run(n, ops))
    decreases |ops|
  {
    hide Inv, Apply, Driven;
    if ops != [] {
      RunInv(n, ops[..|ops| - 1]);
      assert Driven(ops[|ops| - 1]);
      ApplyInv(Run(n, ops[..|ops| - 1]), ops[|ops| - 1]);
    }
  }
}
