/** The node coordinator: it routes subsystem health to the safety machine and runs the control step through it. */
module Node {
  import opened Bytes
  import opened Safety
  import opened Control

  datatype Cause = SensorCause | LinkCause | TimingCause

  /** driver: the drivers' specific fault bits; causes: the recoverable causes the coordinator takes to be active. */
  datatype Node = Node(sm: Sm, pid: Pid, plant: Plant, setpoint: real, tickMs: u32, lastOutput: real, lastMeas: real,
                       driver: set<Flag>, causes: set<Cause>)

  const DRIVER_FLAGS: set<Flag> := {SensorDrop, SensorStuck, SensorRange, BusNak, BusErr}

  function Booted(setpoint: real, carried: set<Flag>): Node {
    Node(Initial(carried), PID_RESET, Plant(0.0, 0.0), setpoint, 0, 0.0, 0.0, {}, {})
  }

  function FaultEvent(c: Cause): Event {
    match c
    case SensorCause => SensorFault
    case LinkCause => LinkFault
    case TimingCause => DeadlineMiss
  }

  function CauseFlag(c: Cause): Flag {
    match c
    case SensorCause => SensorActive
    case LinkCause => LinkBit
    case TimingCause => TimingBit
  }

  // ---- Operations, on values ----

  /** A fresh bring-up starts with an empty shadow. */
  function Resync(n: Node): Node {
    if n.sm.state == Init then n.(causes := {}, driver := {}) else n
  }

  function Posted(n: Node, ev: Event, t: u32): Node {
    n.(sm := Step(n.sm, ev, t))
  }

  function NoteCause(n: Node, c: Cause, healthy: bool, t: u32): Node {
    Resync(
      if !healthy then
        var second := c !in n.causes && n.causes - {c} != {};
        Posted(n.(causes := n.causes + {c}), if second then SecondFault else FaultEvent(c), t)
      else if c in n.causes then
        var m := n.(causes := n.causes - {c});
        if m.causes == {} then Posted(m, CauseCleared, t) else m
      else n)
  }

  function NoteSensor(n: Node, flags: set<Flag>, healthy: bool, t: u32): Node {
    NoteCause(
      if !healthy then n.(driver := n.driver + flags)
      else if ActuationAllowed(n.sm) then n.(driver := n.driver - DRIVER_FLAGS)
      else n,
      SensorCause, healthy, t)
  }

  function PostEvent(n: Node, ev: Event, t: u32): Node {
    Resync(Posted(n, ev, t))
  }

  /** C conversion of a float to int32_t. */
  function Truncate(x: real): int {
    if x >= 0.0 then x.Floor else -(-x).Floor
  }

  /** One control period: PID, divergence report, safety clamp, plant. */
  function ControlStep(n: Node, measurement: real, t: u32): (Node, real) {
    var (pid, desired) := PidStep(n.pid, PID_CFG, n.setpoint, measurement, CTRL_PERIOD_MS);
    var m := n.(pid := pid, tickMs := t, lastMeas := measurement);
    var k := Resync(Posted(m, if pid.diverging then Diverge else Tick, t));
    var applied := Clamp(k.sm, Truncate(desired)) as real;
    (k.(plant := PlantStep(n.plant, PLANT_CFG, applied, CTRL_PERIOD_MS), lastOutput := applied), applied)
  }

  // ---- The node object ----

  class GovNode {
    const safety: SafetySm
    const pid: GovPid
    const plant: GovPlant
    const setpoint: real
    var tickMs: u32
    var lastOutput: real
    var lastMeasurement: real
    var driverFaults: set<Flag>
    var activeCauses: set<Cause>

    ghost predicate Valid() {
      pid.cfg == PID_CFG && plant.cfg == PLANT_CFG
    }

    ghost function View(): Node
      reads this, safety, pid, plant
    {
      Node(safety.View(), pid.View(), plant.View(), setpoint, tickMs, lastOutput, lastMeasurement, driverFaults,
           activeCauses)
    }

    constructor (sp: real, carried: set<Flag>)
      ensures Valid() && View() == Booted(sp, carried) && fresh(safety) && fresh(pid) && fresh(plant)
    {
      safety := new SafetySm(carried);
      pid := new GovPid(PID_CFG);
      plant := new GovPlant(PLANT_CFG);
      setpoint := sp;
      tickMs, lastOutput, lastMeasurement, driverFaults, activeCauses := 0, 0.0, 0.0, {}, {};
    }

    method ResyncShadow()
      modifies this
      ensures View() == Resync(old(View()))
    {
      if safety.state == Init {
        activeCauses, driverFaults := {}, {};
      }
    }

    method Note(c: Cause, healthy: bool, t: u32)
      requires Valid()
      modifies this, safety, pid, plant
      ensures Valid() && View() == NoteCause(old(View()), c, healthy, t)
    {
      hide Step;
      if !healthy {
        var rising := c !in activeCauses;
        var otherActive := activeCauses - {c} != {};
        activeCauses := activeCauses + {c};
        if rising && otherActive {
          var _ := safety.Handle(SecondFault, t);
        } else {
          var _ := safety.Handle(FaultEvent(c), t);
        }
      } else if c in activeCauses {
        activeCauses := activeCauses - {c};
        if activeCauses == {} {
          var _ := safety.Handle(CauseCleared, t);
        }
      }
      ResyncShadow();
    }

    method NoteSensorHealth(flags: set<Flag>, healthy: bool, t: u32)
      requires Valid()
      modifies this, safety, pid, plant
      ensures Valid() && View() == NoteSensor(old(View()), flags, healthy, t)
    {
      hide NoteCause;
      if !healthy {
        driverFaults := driverFaults + flags;
      } else if safety.state == Running || safety.state == Degraded {
        driverFaults := driverFaults - DRIVER_FLAGS;
      }
      Note(SensorCause, healthy, t);
    }

    method SelftestPassed(t: u32)
      requires Valid()
      modifies this, safety, pid, plant
      ensures Valid() && View() == Posted(old(View()), SelftestOk, t)
    {
      hide Step;
      var _ := safety.Handle(SelftestOk, t);
    }

    method Post(ev: Event, t: u32)
      requires Valid()
      modifies this, safety, pid, plant
      ensures Valid() && View() == PostEvent(old(View()), ev, t)
    {
      hide Step;
      var _ := safety.Handle(ev, t);
      ResyncShadow();
    }

    method Control(measurement: real, t: u32) returns (applied: real)
      requires Valid()
      modifies this, safety, pid, plant
      ensures Valid() && (View(), applied) == ControlStep(old(View()), measurement, t)
    {
      hide Step, PidStep, PlantStep, Clamp, Truncate;
      tickMs := t;
      lastMeasurement := measurement;
      var desired := pid.Step(setpoint, measurement, CTRL_PERIOD_MS);
      if pid.diverging {
        var _ := safety.Handle(Diverge, t);
      } else {
        var _ := safety.Handle(Tick, t);
      }
      ResyncShadow();
      var clamped := safety.ClampOutput(Truncate(desired));
      applied := clamped as real;
      var _ := plant.Step(applied, CTRL_PERIOD_MS);
      lastOutput := applied;
    }
  }
}
