/** The control loop closed around the plant, through the safety clamp. */
module ClosedLoop {
  import opened Bytes
  import opened Safety
  import opened Control
  import opened Node
  import opened NodeRuns
  import opened NodeSafety

  predicate InRange(x: real) {
    0.0 <= x <= 100.0
  }

  /** The loop within its operating envelope. */
  predicate Enveloped(n: Node) {
    && InRange(n.setpoint) && InRange(n.plant.y) && InRange(n.lastOutput) && n.plant.disturbance == 0.0
    && Bounded(n.pid, PID_CFG)
  }

  /** The measurement of a control tick is the plant's output. */
  predicate FedBack(n: Node, op: Op) {
    op.ControlTick? ==> op.measurement == n.plant.y
  }

  ghost predicate FedBackRun(n: Node, ops: seq<Op>)
    decreases |ops|
  {
    ops == [] || (FedBackRun(n, ops[..|ops| - 1]) && FedBack(Run(n, ops[..|ops| - 1]), ops[|ops| - 1]))
  }

  lemma TruncateInRange(x: real)
    requires InRange(x)
    ensures 0 <= Truncate(x) <= 100
  {
  }

  lemma ClampInRange(s: Sm, d: int)
    requires 0 <= d <= 100
    ensures 0 <= Clamp(s, d) <= 100
  {
  }

  lemma PlantInRange(pl: Plant, u: real)
    requires pl.disturbance == 0.0 && InRange(pl.y) && InRange(u)
    ensures InRange(PlantStep(pl, PLANT_CFG, u, CTRL_PERIOD_MS).y)
    ensures PlantStep(pl, PLANT_CFG, u, CTRL_PERIOD_MS).disturbance == 0.0
  {
    PlantTenth(pl, u);
  }

  lemma ClosedStep(n: Node, op: Op)
    requires Enveloped(n) && FedBack(n, op)
    ensures Enveloped(Apply(n, op))
    ensures op.ControlTick? ==> !Apply(n, op).pid.diverging && InRange(ControlStep(n, op.measurement, op.t).1)
  {
    hide Step, PidStep, PlantStep, Clamp, Truncate;
    if op.ControlTick? {
      PidBounds(n.pid, PID_CFG, n.setpoint, op.measurement, CTRL_PERIOD_MS);
      var (pid, desired) := PidStep(n.pid, PID_CFG, n.setpoint, op.measurement, CTRL_PERIOD_MS);
      TruncateInRange(desired);
      var sm := Step(n.sm, if pid.diverging then Diverge else Tick, op.t);
      ClampInRange(sm, Truncate(desired));
      PlantInRange(n.plant, Clamp(sm, Truncate(desired)) as real);
    }
  }

  /**
   * With the setpoint in range, no disturbance and the plant's own output as measurement, every run, whatever else
   * happens to the node, keeps plant, output and integrator within limits, and divergence is never reported.
   */
  lemma {:induction false} ClosedLoopBounds(setpoint: real, carried: set<Flag>, ops: seq<Op>)
    requires InRange(setpoint) && FedBackRun(Booted(setpoint, carried), ops)
    ensures var n := Run(Booted(setpoint, carried), ops); Enveloped(n) && !n.pid.diverging
    decreases |ops|
  {
    hide Apply;
    if ops == [] {
      assert Bounded(PID_RESET, PID_CFG);
    } else {
      var before := ops[..|ops| - 1];
      ClosedLoopBounds(setpoint, carried, before);
      ClosedStep(Run(Booted(setpoint, carried), before), ops[|ops| - 1]);
      PidUntouched(Run(Booted(setpoint, carried), before), ops[|ops| - 1]);
    }
  }

  /** Only a control tick touches controller and plant. */
  lemma PidUntouched(n: Node, op: Op)
    ensures !op.ControlTick? ==> Apply(n, op).pid == n.pid && Apply(n, op).plant == n.plant
    ensures Apply(n, op).setpoint == n.setpoint
  {
    hide Step, PidStep, PlantStep, Clamp, Truncate;
  }

  // ---- Inhibited actuation: geometric decay ----

  function Decay(y: real, k: nat): real {
    if k == 0 then y else 0.9 * Decay(y, k - 1)
  }

  function Ticks(ops: seq<Op>): nat
    decreases |ops|
  {
    if ops == [] then 0 else Ticks(ops[..|ops| - 1]) + if ops[|ops| - 1].ControlTick? then 1 else 0
  }

  /** From a latched state until release, the plant's output decays by a tenth with every control tick. */
  lemma {:induction false} LatchedDecay(n: Node, ops: seq<Op>)
    requires Inv(n) && Latched(n.sm) && AllDriven(ops) && !Released(ops) && n.plant.disturbance == 0.0
    ensures Run(n, ops).plant == Plant(Decay(n.plant.y, Ticks(ops)), 0.0)
    decreases |ops|
  {
    hide Apply, Inv, Driven, Released;
    if ops != [] {
      var before, op := ops[..|ops| - 1], ops[|ops| - 1];
      assert ops == before + [op];
      RestartedMore(before, op);
      LatchedDecay(n, before);
      var m := Run(n, before);
      if op.ControlTick? {
        LatchedOutputIsZero(n, before, op.measurement, op.t);
        TickDecays(m, op);
      } else {
        PidUntouched(m, op);
      }
    }
  }

  lemma TickDecays(n: Node, op: Op)
    requires op.ControlTick? && n.plant.disturbance == 0.0 && ControlStep(n, op.measurement, op.t).1 == 0.0
    ensures Apply(n, op).plant == Plant(0.9 * n.plant.y, 0.0)
  {
    hide Step, PidStep, Clamp, Truncate, PlantStep;
    PlantTenth(n.plant, 0.0);
  }

  // ---- Sustained divergence ----

  predicate OutOfBand(setpoint: real, measurement: real) {
    setpoint - measurement > 150.0 || measurement - setpoint > 150.0
  }

  /** How many control ticks in a row, up to the latest, were out of band. */
  function Streak(setpoint: real, ops: seq<Op>): nat
    decreases |ops|
  {
    if ops == [] then 0
    else
      var op, before := ops[|ops| - 1], Streak(setpoint, ops[..|ops| - 1]);
      if !op.ControlTick? then before
      else if OutOfBand(setpoint, op.measurement) then before + 1
      else 0
  }

  lemma AddMod(k: nat)
    ensures Add32((10 * k) % 0x1_0000_0000, 10) == (10 * (k + 1)) % 0x1_0000_0000
  {
  }

  /** The controller reports divergence exactly from the 20th consecutive out-of-band tick on, in every run. */
  lemma {:induction false} DivergesAtTwenty(setpoint: real, carried: set<Flag>, ops: seq<Op>)
    ensures var n, k := Run(Booted(setpoint, carried), ops), Streak(setpoint, ops);
            && n.setpoint == setpoint
            && n.pid.divAccumMs == (10 * k) % 0x1_0000_0000
            && (n.pid.diverging <==> k >= 20)
    decreases |ops|
  {
    hide Apply, OutOfBand;
    if ops != [] {
      var before, op := ops[..|ops| - 1], ops[|ops| - 1];
      DivergesAtTwenty(setpoint, carried, before);
      var m := Run(Booted(setpoint, carried), before);
      PidUntouched(m, op);
      AddMod(Streak(setpoint, before));
      if op.ControlTick? {
        StreakStep(m, op);
      }
    }
  }

  lemma StreakStep(n: Node, op: Op)
    requires op.ControlTick?
    ensures var p := Apply(n, op).pid;
            if OutOfBand(n.setpoint, op.measurement) then
              p.divAccumMs == Add32(n.pid.divAccumMs, 10) && (p.diverging <==> n.pid.diverging || p.divAccumMs >= 200)
            else p.divAccumMs == 0 && !p.diverging
  {
    hide Step, PlantStep, Clamp, Truncate, PTerm, DTerm, NextInteg, Clampf, Add32;
  }

  /**
   * That tick latches SAFE_STOP and already applies 0 itself. An earlier one stops the node only for a DEGRADED episode's
   * age, and leaves the divergence flag as it was, but that a recovery clears it.
   */
  lemma TwentiethTickStops(setpoint: real, carried: set<Flag>, ops: seq<Op>, op: Op)
    requires AllDriven(ops) && op.ControlTick?
    requires var n := Run(Booted(setpoint, carried), ops); n.sm.now <= op.t && ActuationAllowed(n.sm)
    ensures var n := Run(Booted(setpoint, carried), ops); var (m, applied) := ControlStep(n, op.measurement, op.t);
            if Streak(setpoint, ops + [op]) >= 20
            then m.sm.state == SafeStop && DivergeBit in m.sm.faults && applied == 0.0
            else && (m.sm.state == SafeStop <==> n.sm.state == Degraded && op.t >= n.sm.since + 5000)
                 && (DivergeBit in m.sm.faults <==>
                       DivergeBit in n.sm.faults && !(n.sm.state == Degraded && m.sm.state == Running))
  {
    hide Run, Step, Inv, PidStep, PlantStep, Truncate, Flagged, Timed;
    var n := Run(Booted(setpoint, carried), ops);
    BootInv(setpoint, carried);
    RunInv(Booted(setpoint, carried), ops);
    RunTimed(n);
    assert Flagged(n.sm) by { InvFlagged(n); }
    RunSnoc(Booted(setpoint, carried), ops, op);
    DivergesAtTwenty(setpoint, carried, ops + [op]);
    DivergePosted(n.sm, op.t);
    TickPosted(n.sm, op.t);
  }

  lemma RunSnoc(n: Node, ops: seq<Op>, op: Op)
    ensures Run(n, ops + [op]) == Apply(Run(n, ops), op)
  {
    hide Apply;
    assert (ops + [op])[..|ops|] == ops;
  }

  lemma InvFlagged(n: Node)
    requires Inv(n)
    ensures Flagged(n.sm)
  {
    hide Timed, Flagged, Coherent;
  }

  lemma DivergePosted(s: Sm, t: u32)
    requires Timed(s) && s.now <= t && ActuationAllowed(s)
    ensures Step(s, Diverge, t).state == SafeStop && DivergeBit in Step(s, Diverge, t).faults
  {
    hide Add32, Sub32;
  }

  lemma TickPosted(s: Sm, t: u32)
    requires Timed(s) && Flagged(s) && s.now <= t && ActuationAllowed(s)
    ensures var r := Step(s, Tick, t);
      && (r.state == SafeStop <==> s.state == Degraded && t >= s.since + DEGRADE_MAX_MS)
      && r.state != Init
      && (DivergeBit in r.faults <==> DivergeBit in s.faults && !(s.state == Degraded && r.state == Running))
  {
    hide Add32, Sub32;
    Elapsed(t, s.since);
    Elapsed(t, s.causeClear);
  }
}
