/** What single operations on the node bring about, and what of it lasts over runs. */
module NodeOutcomes {
  import opened Bytes
  import opened Safety
  import opened Control
  import opened Node
  import opened NodeRuns
  import opened NodeSafety
  import opened NodePosts
  import opened Transitions

  // ---- The operator's stop ----

  /** An operator's stop takes an operating node to SAFE_STOP with its flag, and never leaves a node actuating. */
  lemma OperatorStopStops(n: Node, t: u32)
    requires Inv(n)
    ensures var m := Apply(n, External(OperatorStop, t)).sm;
      && (Operating(n.sm.state) && n.sm.now <= t ==> m.state == SafeStop && m.faults == n.sm.faults + {OperatorStopBit})
      && Latched(m)
  {
    hide Step, Flagged, Coherent;
    PostsAreAll(n, External(OperatorStop, t));
    if n.sm.now <= t {
      Destinations(n.sm, OperatorStop, t);
      if Operating(n.sm.state) {
        OperatorStopLatches(n.sm, t);
      }
    } else {
      BackwardTimeHalts(n.sm, OperatorStop, t);
    }
  }

  /** After it every control step applies 0 until a restart and then a passed self-test. */
  lemma OperatorStopHolds(n: Node, t: u32, ops: seq<Op>, measurement: real, t': u32)
    requires Inv(n) && AllDriven(ops) && !Released(ops)
    ensures ControlStep(Run(Apply(n, External(OperatorStop, t)), ops), measurement, t').1 == 0.0
  {
    hide Inv, Apply, Run, Step, Driven, Released, ControlStep, Latched;
    OperatorStopStops(n, t);
    assert Driven(External(OperatorStop, t)) by { StopIsDriven(t); }
    NodeRuns.ApplyInv(n, External(OperatorStop, t));
    LatchedOutputIsZero(Apply(n, External(OperatorStop, t)), ops, measurement, t');
  }

  lemma StopIsDriven(t: u32)
    ensures Driven(External(OperatorStop, t))
  {
  }

  // ---- Healthy reports ----

  /** The machine hears of a healthy report only when it ends the last active cause. */
  lemma HealthySilent(n: Node, c: Cause, t: u32)
    requires c !in n.causes || n.causes - {c} != {}
    ensures NoteCause(n, c, true, t).sm == n.sm
  {
    hide Step;
  }

  // ---- The drivers' fault bits ----

  /**
   * A faulty sensor's bits are added to those reported; a healthy read clears them only while actuating; and a bring-up
   * starts without any.
   */
  lemma SensorBits(n: Node, flags: set<Flag>, healthy: bool, t: u32)
    requires Inv(n)
    ensures var m := Apply(n, Sensor(flags, healthy, t));
      m.driver == if m.sm.state == Init then {}
                  else if !healthy then n.driver + flags
                  else if ActuationAllowed(n.sm) then {}
                  else n.driver
  {
    hide Step, Timed, Flagged, NoteCause;
    var k := if !healthy then n.(driver := n.driver + flags)
             else if ActuationAllowed(n.sm) then n.(driver := n.driver - DRIVER_FLAGS) else n;
    NoteKeeps(k, SensorCause, healthy, t);
    assert n.driver - DRIVER_FLAGS == {};
  }

  /** No other operation touches the bits, but that a bring-up drops them. */
  lemma OtherBits(n: Node, op: Op)
    requires !op.Sensor? && Inv(n)
    ensures Apply(n, op).driver == n.driver || Apply(n, op).sm.state == Init
  {
    hide Step, Timed, Flagged, PidStep, PlantStep, Clamp, Truncate, NoteCause;
    match op {
      case Link(healthy, t) => NoteKeeps(n, LinkCause, healthy, t);
      case Timing(healthy, t) => NoteKeeps(n, TimingCause, healthy, t);
      case _ =>
    }
  }

  /** A latched node goes on showing why it stopped: no flag and no driver's bit is cleared before a restart. */
  lemma {:induction false} LatchedShowsCause(n: Node, ops: seq<Op>)
    requires Inv(n) && Latched(n.sm) && AllDriven(ops) && !Restarted(ops)
    ensures var m := Run(n, ops); Latched(m.sm) && n.sm.faults <= m.sm.faults && n.driver <= m.driver
    decreases |ops|
  {
    hide Inv, Apply, Driven, Restarted, Restarts, Latched;
    if ops != [] {
      var before, op := ops[..|ops| - 1], ops[|ops| - 1];
      assert ops == before + [op] && Driven(op);
      RestartedMore(before, op);
      LatchedShowsCause(n, before);
      RunInv(n, before);
      LatchedStep(Run(n, before), op);
    }
  }

  lemma LatchedStep(n: Node, op: Op)
    requires Inv(n) && Latched(n.sm) && Driven(op) && !Restarts(op)
    ensures var m := Apply(n, op); Latched(m.sm) && n.sm.faults <= m.sm.faults && n.driver <= m.driver
  {
    hide Step, Apply, Coherent, Posts, Timed, Flagged;
    PostsAreAll(n, op);
    if Posts(n, op) != [] {
      PostIsRestart(n, op);
      LatchedPost(n.sm, Posts(n, op)[0].ev, op.t);
    }
    LatchedApply(n, op);
    if op.Sensor? {
      SensorBits(n, op.flags, op.healthy, op.t);
    } else {
      OtherBits(n, op);
    }
  }

  lemma LatchedPost(s: Sm, ev: Event, t: u32)
    requires Latched(s) && ev != OperatorClear
    ensures s.faults <= Step(s, ev, t).faults
  {
    hide Add32, Sub32;
  }

  lemma PostIsRestart(n: Node, op: Op)
    requires Posts(n, op) != [] && !Restarts(op)
    ensures Posts(n, op)[0].ev != OperatorClear && Posts(n, op)[0].ev != Watchdog
  {
    hide PidStep;
  }

  // ---- The watchdog is remembered ----

  predicate IsWatchdog(op: Op) {
    op == External(Watchdog, op.t)
  }

  ghost predicate WatchdogFired(ops: seq<Op>) {
    exists i :: 0 <= i < |ops| && IsWatchdog(ops[i])
  }

  /** The watchdog's flag shows exactly if the node was restarted with it or a watchdog event has come since. */
  lemma {:induction false} WatchdogRemembered(setpoint: real, carried: set<Flag>, ops: seq<Op>)
    requires AllDriven(ops) && Monotone(Booted(setpoint, carried), ops)
    ensures var s := Run(Booted(setpoint, carried), ops).sm;
            WatchdogBit in s.faults <==> WatchdogBit in carried || WatchdogFired(ops)
    decreases |ops|
  {
    hide Apply, Inv, Driven, IsWatchdog;
    if ops != [] {
      var before, op := ops[..|ops| - 1], ops[|ops| - 1];
      var boot := Booted(setpoint, carried);
      assert ops == before + [op] && Driven(op);
      MonotonePrefix(boot, before, op);
      WatchdogRemembered(setpoint, carried, before);
      BootInv(setpoint, carried);
      RunInv(boot, before);
      RunClock(boot, before);
      StickyRun(boot, before);
      WatchdogStep(Run(boot, before), op);
      assert WatchdogFired(ops) <==> WatchdogFired(before) || IsWatchdog(op) by {
        if IsWatchdog(op) {
          assert IsWatchdog(ops[|before|]);
        }
        if WatchdogFired(before) {
          var i :| 0 <= i < |before| && IsWatchdog(before[i]);
          assert IsWatchdog(ops[i]);
        }
      }
    }
  }

  /** The watchdog's flag is sticky: it stands among the sticky flags exactly when it shows. */
  predicate WatchdogSticks(s: Sm) {
    WatchdogBit in s.faults <==> WatchdogBit in s.sticky
  }

  lemma {:induction false} StickyRun(n: Node, ops: seq<Op>)
    requires Inv(n) && AllDriven(ops) && Monotone(n, ops) && WatchdogSticks(n.sm)
    ensures WatchdogSticks(Run(n, ops).sm)
    decreases |ops|
  {
    hide Apply, Inv, Driven, WatchdogSticks;
    if ops != [] {
      var before, op := ops[..|ops| - 1], ops[|ops| - 1];
      assert ops == before + [op] && Driven(op);
      MonotonePrefix(n, before, op);
      StickyRun(n, before);
      RunInv(n, before);
      RunClock(n, before);
      WatchdogStep(Run(n, before), op);
    }
  }

  lemma WatchdogStep(n: Node, op: Op)
    requires Inv(n) && Driven(op) && n.sm.now <= op.t && WatchdogSticks(n.sm)
    ensures var m := Apply(n, op).sm;
            WatchdogSticks(m) && (WatchdogBit in m.faults <==> WatchdogBit in n.sm.faults || IsWatchdog(op))
  {
    hide Step, Apply, Coherent, Posts, Timed, Flagged;
    PostsAreAll(n, op);
    PostedWatchdog(n, op);
    if Posts(n, op) != [] {
      var ev := Posts(n, op)[0].ev;
      FlagsRaised(n.sm, ev, op.t, WatchdogBit);
      Stamps(n.sm, ev, op.t);
    }
  }

  lemma PostedWatchdog(n: Node, op: Op)
    ensures IsWatchdog(op) <==> Posts(n, op) != [] && Posts(n, op)[0].ev == Watchdog
  {
    hide PidStep;
  }

  // ---- The control step ----

  /**
   * The safety machine's state after the step decides what is applied: in RUN the controller's command without its fraction,
   * in DEGRADED half of that, elsewhere 0. That, the time and the measurement are recorded, and the plant gets it.
   */
  lemma ControlApplies(n: Node, measurement: real, t: u32)
    ensures var (m, applied) := ControlStep(n, measurement, t);
            var desired := PidStep(n.pid, PID_CFG, n.setpoint, measurement, 10).1;
      && (m.sm.state == Running ==> applied <= desired < applied + 1.0)
      && (m.sm.state == Degraded ==> 2.0 * applied <= desired < 2.0 * applied + 2.0)
      && (!ActuationAllowed(m.sm) ==> applied == 0.0)
      && m.tickMs == t && m.lastMeas == measurement && m.lastOutput == applied
      && m.plant.y == n.plant.y + 0.1 * (applied - n.plant.y) + n.plant.disturbance
      && m.plant.disturbance == n.plant.disturbance
  {
    hide Step, PidStep, PlantStep, Clamp, Truncate;
    var desired := PidStep(n.pid, PID_CFG, n.setpoint, measurement, CTRL_PERIOD_MS).1;
    CommandNotNegative(n.pid, n.setpoint, measurement);
    Truncates(desired);
    var (m, applied) := ControlStep(n, measurement, t);
    AppliedIs(n, measurement, t);
    ClampBounds(m.sm, Truncate(desired));
    PlantMoves(n.plant, applied);
  }

  lemma AppliedIs(n: Node, measurement: real, t: u32)
    ensures var (m, applied) := ControlStep(n, measurement, t);
            var desired := PidStep(n.pid, PID_CFG, n.setpoint, measurement, CTRL_PERIOD_MS).1;
            applied == Clamp(m.sm, Truncate(desired)) as real
    ensures ControlStep(n, measurement, t).0.plant
         == PlantStep(n.plant, PLANT_CFG, ControlStep(n, measurement, t).1, CTRL_PERIOD_MS)
  {
    hide Step, PidStep, PlantStep, Clamp, Truncate;
  }

  lemma CommandNotNegative(p: Pid, setpoint: real, measurement: real)
    ensures PidStep(p, PID_CFG, setpoint, measurement, CTRL_PERIOD_MS).1 >= 0.0
  {
    hide NextInteg, PTerm, DTerm, Add32, Fabs;
  }

  lemma Truncates(x: real)
    requires x >= 0.0
    ensures 0 <= Truncate(x) && Truncate(x) as real <= x < Truncate(x) as real + 1.0
  {
  }

  lemma PlantMoves(pl: Plant, u: real)
    ensures var moved := PlantStep(pl, PLANT_CFG, u, CTRL_PERIOD_MS);
            moved.y == pl.y + 0.1 * (u - pl.y) + pl.disturbance && moved.disturbance == pl.disturbance
  {
  }
}
