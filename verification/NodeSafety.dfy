/** Safety theorems about every run of the node. */
module NodeSafety {
  import opened Bytes
  import opened Safety
  import opened Control
  import opened Node
  import opened NodeRuns

  /** What every reachable state of a driven node satisfies. */
  lemma ReachableStates(setpoint: real, carried: set<Flag>, ops: seq<Op>)
    requires AllDriven(ops)
    ensures var n := Run(Booted(setpoint, carried), ops); var s := n.sm;
      // the shadow agrees with the machine
      && (s.state == Init ==> n.causes == {} && n.driver == {})
      && (s.state == Running ==> n.causes == {} && n.driver == {})
      && (s.state == Degraded ==> |n.causes| <= 1 && (n.causes == {} <==> s.causeClear != 0))
      && (ActuationAllowed(s) && n.driver != {} ==> SensorCause in n.causes)
      // no state without its flag
      && (s.state == Degraded ==> s.faults * {SensorActive, LinkBit, TimingBit} != {})
      && (s.state == SafeStop ==> s.faults * {OperatorStopBit, InitBit, DivergeBit, Escalated} != {})
      && (s.state == FaultHalt ==> Internal in s.faults)
      // no dwell is overrun at the latest step
      && (s.state == Init ==> s.now < s.initStart + 2000)
      && (s.state == Degraded ==> s.now < s.since + 5000)
      && (s.causeClear != 0 ==> s.state == Degraded && s.now < s.causeClear + 500)
  {
    hide Run, Step;
    BootInv(setpoint, carried);
    RunInv(Booted(setpoint, carried), ops);
  }

  // ---- No fault is swallowed ----

  predicate Unhealthy(op: Op) {
    match op
    case Sensor(_, healthy, _) => !healthy
    case Link(healthy, _) => !healthy
    case Timing(healthy, _) => !healthy
    case _ => false
  }

  function CauseOf(op: Op): Cause
    requires op.Sensor? || op.Link? || op.Timing?
  {
    match op
    case Sensor(_, _, _) => SensorCause
    case Link(_, _) => LinkCause
    case Timing(_, _) => TimingCause
  }

  /**
   * A fault reported while actuating, at a time not in the past, always ends outside RUN: from RUN in DEGRADED with
   * that cause's flag and only that cause active; from DEGRADED there too, or latched in SAFE_STOP as escalated.
   */
  lemma NoFaultSwallowed(n: Node, op: Op)
    requires Inv(n) && Driven(op) && Unhealthy(op) && n.sm.now <= op.t && ActuationAllowed(n.sm)
    ensures var m, c := Apply(n, op), CauseOf(op);
      && (n.sm.state == Running ==> m.sm.state == Degraded && CauseFlag(c) in m.sm.faults && m.causes == {c})
      && (n.sm.state == Degraded ==>
            || (m.sm.state == Degraded && CauseFlag(c) in m.sm.faults && m.sm.causeClear == 0)
            || (m.sm.state == SafeStop && Escalated in m.sm.faults))
  {
    hide Step, Flagged, Timed;
    var c := CauseOf(op);
    FaultPosted(n.sm, c, op.t);
    SecondPosted(n.sm, op.t);
    if n.sm.state == Running {
      assert n.causes + {c} == {c} && n.causes - {c} == {};
    }
  }

  // ---- Latching ----

  predicate Latched(s: Sm) {
    s.state == SafeStop || s.state == FaultHalt
  }

  /** Exactly which events leave a latched state. A watchdog event leaves even FAULT_HALT. */
  lemma LatchExits(s: Sm, ev: Event, now: u32)
    requires Timed(s) && s.now <= now
    ensures s.state == SafeStop ==> (Step(s, ev, now).state == Init <==> ev == OperatorClear || ev == Watchdog)
    ensures s.state == SafeStop ==> (Step(s, ev, now).state == FaultHalt <==> ev == InternalViolation)
    ensures s.state == FaultHalt ==> (Step(s, ev, now).state != FaultHalt <==> ev == Watchdog)
    ensures Latched(s) && Step(s, ev, now).state != Init ==> Latched(Step(s, ev, now))
  {
    hide Add32;
    Elapsed(now, now);
  }

  /** A watchdog event keeps the old fault bits, so bring-up after it starts with them still showing. */
  lemma WatchdogKeepsFaults(s: Sm, now: u32)
    requires s.now <= now
    ensures var r := Step(s, Watchdog, now); r.state == Init && r.faults == s.faults + {WatchdogBit}
  {
    hide Add32;
    Elapsed(now, now);
  }

  /** Bring-up is entered only by an operator's clear or a watchdog event, and left for RUN only by a passed self-test. */
  predicate Restarts(op: Op) {
    op.External? && (op.ev == OperatorClear || op.ev == Watchdog)
  }

  predicate Passes(op: Op) {
    op.Selftest? || (op.External? && op.ev == SelftestOk)
  }

  ghost predicate Released(ops: seq<Op>) {
    exists i, j :: 0 <= i < j < |ops| && Restarts(ops[i]) && Passes(ops[j])
  }

  lemma StaysLatched(s: Sm, ev: Event, now: u32)
    requires Timed(s)
    ensures var r := Step(s, ev, now);
            && (Latched(s) ==> Latched(r) || (r.state == Init && (ev == OperatorClear || ev == Watchdog)))
            && (!ActuationAllowed(s) ==> !ActuationAllowed(r) || (s.state == Init && ev == SelftestOk))
  {
    hide Add32, Sub32;
  }

  lemma LatchedApply(n: Node, op: Op)
    requires Timed(n.sm) && Driven(op)
    ensures var m := Apply(n, op);
            && (Latched(n.sm) ==> Latched(m.sm) || Restarts(op))
            && (!ActuationAllowed(n.sm) ==> !ActuationAllowed(m.sm) || Passes(op))
            && (Latched(n.sm) ==> !ActuationAllowed(m.sm))
  {
    hide Step, Timed;
    forall ev | true ensures var r := Step(n.sm, ev, op.t);
            && (Latched(n.sm) ==> Latched(r) || (r.state == Init && (ev == OperatorClear || ev == Watchdog)))
            && (!ActuationAllowed(n.sm) ==> !ActuationAllowed(r) || (n.sm.state == Init && ev == SelftestOk))
    {
      StaysLatched(n.sm, ev, op.t);
    }
  }

  ghost predicate Restarted(ops: seq<Op>) {
    exists i :: 0 <= i < |ops| && Restarts(ops[i])
  }

  /** A node that has latched actuates again only after a restart followed by a passed self-test. */
  lemma {:induction false} LatchedUntilReleased(n: Node, ops: seq<Op>)
    requires Inv(n) && Latched(n.sm) && AllDriven(ops)
    ensures var m := Run(n, ops);
            && (!Latched(m.sm) ==> Restarted(ops))
            && (ActuationAllowed(m.sm) ==> Released(ops))
    decreases |ops|
  {
    hide Inv, Apply, Driven;
    if ops != [] {
      var before, op := ops[..|ops| - 1], ops[|ops| - 1];
      LatchedUntilReleased(n, before);
      RunInv(n, before);
      assert Driven(op);
      RunTimed(Run(n, before));
      LatchedApply(Run(n, before), op);
      RestartedMore(before, op);
    }
  }

  lemma RunTimed(n: Node)
    requires Inv(n)
    ensures Timed(n.sm)
  {
  }

  lemma RestartedMore(before: seq<Op>, op: Op)
    ensures Restarted(before) ==> Restarted(before + [op])
    ensures Released(before) ==> Released(before + [op])
    ensures Restarts(op) ==> Restarted(before + [op])
    ensures Restarted(before) && Passes(op) ==> Released(before + [op])
  {
    hide Restarts, Passes;
    var ops := before + [op];
    assert forall i :: 0 <= i < |before| ==> ops[i] == before[i];
    assert ops[|before|] == op;
    if Restarted(before) && Passes(op) {
      var i :| 0 <= i < |before| && Restarts(before[i]);
      assert Restarts(ops[i]) && Passes(ops[|before|]);
    }
    if Released(before) {
      var i, j :| 0 <= i < j < |before| && Restarts(before[i]) && Passes(before[j]);
      assert Restarts(ops[i]) && Passes(ops[j]);
    }
  }

  /** ... and until then every control step applies the safe output 0. */
  lemma LatchedOutputIsZero(n: Node, ops: seq<Op>, measurement: real, t: u32)
    requires Inv(n) && Latched(n.sm) && AllDriven(ops) && !Released(ops)
    ensures ControlStep(Run(n, ops), measurement, t).1 == 0.0
  {
    hide Inv, Run, Step, PidStep, PlantStep, Released, Driven;
    LatchedUntilReleased(n, ops);
    var m := Run(n, ops);
    RunInv(n, ops);
    RunTimed(m);
    ControlKeepsInhibited(m, measurement, t);
  }

  lemma ControlKeepsInhibited(n: Node, measurement: real, t: u32)
    requires Timed(n.sm) && !ActuationAllowed(n.sm)
    ensures var (m, applied) := ControlStep(n, measurement, t); !ActuationAllowed(m.sm) && applied == 0.0
  {
    hide Timed, Step, PidStep, PlantStep, Truncate;
    StaysLatched(n.sm, Diverge, t);
    StaysLatched(n.sm, Tick, t);
  }

  // ---- Recovery ----

  /** The machine's clock follows the operations: they carry non-decreasing times, none before its latest step. */
  ghost predicate Monotone(n: Node, ops: seq<Op>) {
    && (forall i :: 0 <= i < |ops| ==> n.sm.now <= ops[i].t)
    && (forall i, j :: 0 <= i < j < |ops| ==> ops[i].t <= ops[j].t)
  }

  /** No operation moves the machine's clock past its own time. */
  lemma ClockFollows(n: Node, op: Op)
    requires n.sm.now <= op.t
    ensures n.sm.now <= Apply(n, op).sm.now <= op.t
  {
    hide Add32, Sub32, PidStep, PlantStep, Clamp, Truncate;
    forall ev | true ensures n.sm.now <= Step(n.sm, ev, op.t).now <= op.t {
      StepClock(n.sm, ev, op.t);
    }
  }

  lemma StepClock(s: Sm, ev: Event, t: u32)
    requires s.now <= t
    ensures Step(s, ev, t).now == t
  {
    hide Add32, Sub32;
  }

  /** A running dwell started no earlier than every unhealthy report so far. */
  ghost predicate DwellAfter(n: Node, ops: seq<Op>) {
    n.sm.state == Degraded && n.sm.causeClear != 0 ==>
      forall i :: 0 <= i < |ops| && Unhealthy(ops[i]) ==> ops[i].t <= n.sm.causeClear
  }

  /** A dwell that is running after an operation either ran before it, with nothing unhealthy now, or starts at its time. */
  lemma DwellStep(n: Node, op: Op)
    requires Inv(n) && Driven(op) && n.sm.now <= op.t
    ensures var m := Apply(n, op);
            m.sm.state == Degraded && m.sm.causeClear != 0 ==>
              || m.sm.causeClear == op.t
              || (n.sm.state == Degraded && m.sm.causeClear == n.sm.causeClear && !Unhealthy(op))
  {
    hide Step, Flagged, PidStep, PlantStep, Clamp, Truncate;
    forall ev | !Internalised(ev) ensures var r := Step(n.sm, ev, op.t);
      r.state == Degraded ==> n.sm.state == Degraded && r.causeClear == n.sm.causeClear
    {
      OutsideEvent(n.sm, ev, op.t);
    }
    if op.Sensor? || op.Link? || op.Timing? {
      FaultPosted(n.sm, CauseOf(op), op.t);
      SecondPosted(n.sm, op.t);
      ClearPosted(n.sm, op.t);
    }
  }

  /** DEGRADED is left for RUN only by a control tick or external event that finds the dwell run out. */
  lemma RecoveryStep(n: Node, op: Op)
    requires Inv(n) && Driven(op) && n.sm.now <= op.t
    requires n.sm.state == Degraded && Apply(n, op).sm.state == Running
    ensures n.sm.causeClear != 0 && n.sm.causeClear + RECOVER_MS <= op.t && !Unhealthy(op)
    ensures n.causes == {} && Apply(n, op).causes == {} && Apply(n, op).sm.faults <= {WatchdogBit}
  {
    hide Step, PidStep, PlantStep, Clamp, Truncate;
    forall ev | true ensures var r := Step(n.sm, ev, op.t);
      r.state == Running ==> n.sm.causeClear != 0 && n.sm.causeClear + RECOVER_MS <= op.t && r.faults <= {WatchdogBit}
    {
      if Step(n.sm, ev, op.t).state == Running {
        DwellRunsOut(n.sm, ev, op.t);
      }
    }
    if op.Sensor? || op.Link? || op.Timing? {
      FaultPosted(n.sm, CauseOf(op), op.t);
      SecondPosted(n.sm, op.t);
    }
  }

  lemma DwellRunsOut(s: Sm, ev: Event, t: u32)
    requires Timed(s) && Flagged(s) && s.now <= t && s.state == Degraded && Step(s, ev, t).state == Running
    ensures s.causeClear != 0 && s.causeClear + RECOVER_MS <= t && Step(s, ev, t).faults <= {WatchdogBit}
  {
    hide Add32;
    Elapsed(t, s.since);
    Elapsed(t, s.causeClear);
    Elapsed(t, t);
  }

  lemma {:induction false} RunClock(n: Node, ops: seq<Op>)
    requires Monotone(n, ops)
    ensures n.sm.now <= Run(n, ops).sm.now && (ops != [] ==> Run(n, ops).sm.now <= ops[|ops| - 1].t)
    ensures ops == [] ==> Run(n, ops) == n
    decreases |ops|
  {
    hide Apply;
    if ops != [] {
      RunClock(n, ops[..|ops| - 1]);
      ClockFollows(Run(n, ops[..|ops| - 1]), ops[|ops| - 1]);
    }
  }

  lemma {:induction false} RunDwell(n: Node, ops: seq<Op>)
    requires Inv(n) && AllDriven(ops) && Monotone(n, ops) && !(n.sm.state == Degraded)
    ensures DwellAfter(Run(n, ops), ops)
    decreases |ops|
  {
    hide Apply, Inv, Driven;
    if ops != [] {
      var before, op := ops[..|ops| - 1], ops[|ops| - 1];
      RunDwell(n, before);
      RunInv(n, before);
      RunClock(n, before);
      assert Driven(op);
      DwellStep(Run(n, before), op);
    }
  }

  /**
   * Recovery is sound: whenever an operation at time t takes the node from DEGRADED back to RUN, no unhealthy report
   * has come in since t - 500, no cause is active, and only the watchdog's flag can still be showing.
   */
  lemma RecoverySound(setpoint: real, carried: set<Flag>, ops: seq<Op>, op: Op)
    requires AllDriven(ops) && Driven(op) && Monotone(Booted(setpoint, carried), ops + [op])
    requires var n := Run(Booted(setpoint, carried), ops); n.sm.state == Degraded && Apply(n, op).sm.state == Running
    ensures var m := Apply(Run(Booted(setpoint, carried), ops), op);
      && (forall i :: 0 <= i < |ops| && Unhealthy(ops[i]) ==> ops[i].t + RECOVER_MS <= op.t)
      && !Unhealthy(op) && m.causes == {} && m.sm.faults <= {WatchdogBit}
  {
    hide Run, Apply, Driven, Inv;
    var boot := Booted(setpoint, carried);
    BootInv(setpoint, carried);
    RunInv(boot, ops);
    MonotonePrefix(boot, ops, op);
    RunClock(boot, ops);
    RunDwell(boot, ops);
    RecoveryStep(Run(boot, ops), op);
  }

  lemma MonotonePrefix(n: Node, ops: seq<Op>, op: Op)
    requires Monotone(n, ops + [op])
    ensures Monotone(n, ops) && n.sm.now <= op.t && forall i :: 0 <= i < |ops| ==> ops[i].t <= op.t
  {
    var all := ops + [op];
    assert forall i :: 0 <= i < |ops| ==> all[i] == ops[i];
    assert all[|ops|] == op;
  }

  /** An operation that reports nothing new: a healthy note, a control tick without divergence, a bare tick. */
  predicate Quiet(n: Node, op: Op) {
    match op
    case Sensor(_, healthy, _) => healthy
    case Link(healthy, _) => healthy
    case Timing(healthy, _) => healthy
    case Selftest(_) => false
    case ControlTick(y, _) => !PidStep(n.pid, PID_CFG, n.setpoint, y, CTRL_PERIOD_MS).0.diverging
    case External(ev, _) => ev == Tick
  }

  /** Every operation is quiet where it occurs. */
  ghost predicate QuietRun(n: Node, ops: seq<Op>)
    decreases |ops|
  {
    ops == [] || (QuietRun(n, ops[..|ops| - 1]) && Quiet(Run(n, ops[..|ops| - 1]), ops[|ops| - 1]))
  }

  predicate Steps(op: Op) {
    op.ControlTick? || op.External?
  }

  /** The node is on its way from the dwell begun at t1, in a DEGRADED episode entered at t0, to RUN. */
  predicate Recovering(n: Node, t0: u32, t1: u32) {
    && n.causes == {}
    && (n.sm.state == Running || (n.sm.state == Degraded && n.sm.since == t0 && n.sm.causeClear == t1))
    && (n.sm.state == Running ==> n.sm.faults <= {WatchdogBit})
  }

  lemma QuietStep(n: Node, op: Op, t0: u32, t1: u32)
    requires Inv(n) && Recovering(n, t0, t1) && Quiet(n, op) && n.sm.now <= op.t && op.t < t0 + DEGRADE_MAX_MS
    ensures Recovering(Apply(n, op), t0, t1)
    ensures Steps(op) && t1 + RECOVER_MS <= op.t ==> Apply(n, op).sm.state == Running
  {
    hide Step, PidStep, PlantStep, Clamp, Truncate, Flagged;
    TickStep(n.sm, op.t);
  }

  lemma TickStep(s: Sm, t: u32)
    requires Timed(s) && Flagged(s) && s.now <= t
    ensures var r := Step(s, Tick, t);
      && (s.state == Running ==> r == s.(now := t))
      && (s.state == Degraded && s.causeClear != 0 && t < s.since + DEGRADE_MAX_MS ==>
            if s.causeClear + RECOVER_MS <= t then r.state == Running && r.faults <= {WatchdogBit}
            else r == s.(now := t))
  {
    hide Add32;
    Elapsed(t, s.since);
    Elapsed(t, s.causeClear);
  }

  /**
   * Recovery is complete: once the last cause has cleared at t1, if nothing else is reported and a control tick comes at
   * t2 with t1 + 500 <= t2, before the episode is 5000 ms old, the node is back in RUN with only sticky flags showing.
   */
  lemma {:induction false} RecoveryComplete(n: Node, ops: seq<Op>)
    requires Inv(n) && n.sm.state == Degraded && n.causes == {}
    requires AllDriven(ops) && Monotone(n, ops) && QuietRun(n, ops)
    requires forall i :: 0 <= i < |ops| ==> ops[i].t < n.sm.since + DEGRADE_MAX_MS
    ensures Recovering(Run(n, ops), n.sm.since, n.sm.causeClear)
    ensures (exists i :: 0 <= i < |ops| && Steps(ops[i]) && n.sm.causeClear + RECOVER_MS <= ops[i].t) ==>
              Run(n, ops).sm.state == Running
    decreases |ops|
  {
    hide Apply, Inv, Driven, Quiet, Steps;
    InvParts(n);
    if ops != [] {
      var before, op := ops[..|ops| - 1], ops[|ops| - 1];
      RecoveryComplete(n, before);
      RunInv(n, before);
      RunClock(n, before);
      QuietStep(Run(n, before), op, n.sm.since, n.sm.causeClear);
      RunningStays(Run(n, before), op, n.sm.since, n.sm.causeClear);
    }
  }

  lemma InvParts(n: Node)
    requires Inv(n) && n.sm.state == Degraded && n.causes == {}
    ensures n.sm.causeClear != 0
  {
  }

  lemma RunningStays(n: Node, op: Op, t0: u32, t1: u32)
    requires Inv(n) && Recovering(n, t0, t1) && Quiet(n, op) && n.sm.now <= op.t
    ensures n.sm.state == Running ==> Apply(n, op).sm.state == Running
  {
    hide Step, PidStep, PlantStep, Clamp, Truncate, Flagged;
    TickStep(n.sm, op.t);
  }

  /** The dwell's start time doubles as "not running" when 0: a cause that clears at time 0 starts no dwell. */
  lemma DwellNeedsNonzeroTime(s: Sm, t: u32)
    requires Timed(s) && s.state == Degraded && s.causeClear == 0 && s.now <= t && t < s.since + DEGRADE_MAX_MS
    ensures var r := Step(s, CauseCleared, t); r.state == Degraded && (r.causeClear != 0 <==> t != 0)
  {
    hide Add32;
    Elapsed(t, s.since);
    Elapsed(t, t);
  }

  /** The healthy report of the one active cause starts the dwell at its own time, unless the episode is already too old. */
  lemma LastCauseStartsDwell(n: Node, op: Op)
    requires Inv(n) && Driven(op) && n.sm.state == Degraded && n.sm.now <= op.t < n.sm.since + DEGRADE_MAX_MS
    requires (op.Sensor? || op.Link? || op.Timing?) && !Unhealthy(op) && n.causes == {CauseOf(op)}
    ensures var m := Apply(n, op);
            m.sm.state == Degraded && m.causes == {} && m.sm.causeClear == op.t && m.sm.since == n.sm.since
  {
    hide Flagged, Add32;
    assert n.causes - {CauseOf(op)} == {};
    Elapsed(op.t, n.sm.since);
    Elapsed(op.t, op.t);
  }

  /** A step at an earlier time than the last, as when the 32-bit tick wraps, halts the machine whatever the event. */
  lemma BackwardTimeHalts(s: Sm, ev: Event, t: u32)
    ensures t < s.now ==> var r := Step(s, ev, t); r.state == FaultHalt && r.faults == s.faults + {Internal} && r.now == s.now
    ensures Timed(s) && s.now <= t && ev != InternalViolation && s.state != FaultHalt ==> Step(s, ev, t).state != FaultHalt
  {
    hide Add32, Sub32;
  }
}
