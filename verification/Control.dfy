/** The PID controller and the simulated plant, over the reals. */
module Control {
  import opened Bytes

  const CTRL_PERIOD_MS: nat := 10
  const DIVERGE_LIMIT := 150.0
  const DIVERGE_MS: nat := 200

  datatype PidCfg = PidCfg(kp: real, ki: real, kd: real, outMin: real, outMax: real, integMin: real, integMax: real,
                           divergeLimit: real, divergeMs: nat)

  /** The node's gains and limits. */
  const PID_CFG := PidCfg(3.5, 18.0, 0.06, 0.0, 100.0, -100.0, 100.0, DIVERGE_LIMIT, DIVERGE_MS)

  datatype Pid = Pid(integ: real, prevMeas: real, hasPrev: bool, saturated: bool, divAccumMs: u32, diverging: bool)

  const PID_RESET := Pid(0.0, 0.0, false, false, 0, false)

  function Clampf(x: real, lo: real, hi: real): real {
    if x < lo then lo else if x > hi then hi else x
  }

  function Fabs(x: real): real {
    if x < 0.0 then -x else x
  }

  function Seconds(ms: nat): real {
    ms as real / 1000.0
  }

  function DTerm(p: Pid, c: PidCfg, measurement: real, dtMs: nat): real {
    if p.hasPrev && dtMs > 0 then -c.kd * ((measurement - p.prevMeas) / Seconds(dtMs)) else 0.0
  }

  function Candidate(integ: real, c: PidCfg, error: real, dtMs: nat): real {
    Clampf(integ + c.ki * error * Seconds(dtMs), c.integMin, c.integMax)
  }

  function PTerm(c: PidCfg, error: real): real {
    c.kp * error
  }

  /** The integrator after the step: it advances, within its limits, unless it would push a saturated output further. */
  function NextInteg(p: Pid, c: PidCfg, error: real, other: real, dtMs: nat): real {
    var candidate := Candidate(p.integ, c, error, dtMs);
    var unsat := other + candidate;
    if (unsat > c.outMax && error > 0.0) || (unsat < c.outMin && error < 0.0) then p.integ else candidate
  }

  function PidStep(p: Pid, c: PidCfg, setpoint: real, measurement: real, dtMs: nat): (Pid, real) {
    var error := setpoint - measurement;
    var other := PTerm(c, error) + DTerm(p, c, measurement, dtMs);
    var integ := NextInteg(p, c, error, other, dtMs);
    var unsat := other + integ;
    var out := Clampf(unsat, c.outMin, c.outMax);
    var outside := Fabs(error) > c.divergeLimit;
    var accum := if outside then Add32(p.divAccumMs, dtMs) else 0;
    (Pid(integ, measurement, true, out != unsat, accum, outside && (p.diverging || accum >= c.divergeMs)), out)
  }

  predicate Ordered(c: PidCfg) {
    c.outMin <= c.outMax && c.integMin <= c.integMax
  }

  predicate Bounded(p: Pid, c: PidCfg) {
    c.integMin <= p.integ <= c.integMax
  }

  /** The command stays within the actuator's limits, the integrator within its own; in band there is no divergence. */
  lemma PidBounds(p: Pid, c: PidCfg, setpoint: real, measurement: real, dtMs: nat)
    requires Ordered(c) && Bounded(p, c)
    ensures var (p', out) := PidStep(p, c, setpoint, measurement, dtMs);
            && Bounded(p', c) && c.outMin <= out <= c.outMax
            && (Fabs(setpoint - measurement) <= c.divergeLimit ==> !p'.diverging && p'.divAccumMs == 0)
  {
  }

  /** Anti-windup: while the command saturates against the error, the integrator is held. */
  lemma NoWindup(p: Pid, c: PidCfg, setpoint: real, measurement: real, dtMs: nat)
    requires c.outMin < c.outMax
    ensures var (p', out) := PidStep(p, c, setpoint, measurement, dtMs);
            p'.saturated && ((out == c.outMax && setpoint > measurement) || (out == c.outMin && setpoint < measurement)) ==>
              p'.integ == p.integ
  {
    hide DTerm, PTerm, Add32, NextInteg;
    var error := setpoint - measurement;
    var other := PTerm(c, error) + DTerm(p, c, measurement, dtMs);
    HeldWhenSaturated(p, c, error, other, dtMs);
  }

  lemma HeldWhenSaturated(p: Pid, c: PidCfg, error: real, other: real, dtMs: nat)
    requires c.outMin < c.outMax
    ensures var unsat := other + NextInteg(p, c, error, other, dtMs);
            (unsat > c.outMax && error > 0.0) || (unsat < c.outMin && error < 0.0) ==>
              NextInteg(p, c, error, other, dtMs) == p.integ
  {
    hide Candidate;
  }

  /** The derivative part: against the measurement's slope, once there is history. */
  function Damping(p: Pid, c: PidCfg, measurement: real, dtMs: nat): real {
    if p.hasPrev && dtMs > 0 then c.kd * (measurement - p.prevMeas) * 1000.0 / dtMs as real else 0.0
  }

  /**
   * The command is the gains' law kp * e + I - damping, cut off at the limits, with the integrator as it is afterwards;
   * "saturated" says whether it was cut off.
   */
  lemma PidLaw(p: Pid, c: PidCfg, setpoint: real, measurement: real, dtMs: nat)
    requires c.outMin <= c.outMax
    ensures var (p', out) := PidStep(p, c, setpoint, measurement, dtMs);
            var law := c.kp * (setpoint - measurement) + p'.integ - Damping(p, c, measurement, dtMs);
      && (law < c.outMin ==> out == c.outMin) && (law > c.outMax ==> out == c.outMax)
      && (c.outMin <= law <= c.outMax ==> out == law)
      && (p'.saturated <==> law < c.outMin || law > c.outMax)
      && p'.prevMeas == measurement && p'.hasPrev
  {
    hide NextInteg, Add32, Fabs, DTerm, Damping, PTerm;
    DampingIs(p, c, measurement, dtMs);
    PTermIs(c, setpoint - measurement);
  }

  lemma PTermIs(c: PidCfg, e: real)
    ensures PTerm(c, e) == c.kp * e
  {
  }

  lemma DampingIs(p: Pid, c: PidCfg, measurement: real, dtMs: nat)
    ensures DTerm(p, c, measurement, dtMs) == -Damping(p, c, measurement, dtMs)
  {
    if p.hasPrev && dtMs > 0 {
      Quotient(c.kd, measurement - p.prevMeas, dtMs as real);
    }
  }

  lemma Quotient(k: real, d: real, t: real)
    requires t > 0.0
    ensures -k * (d / (t / 1000.0)) == -(k * d * 1000.0 / t)
  {
    assert d / (t / 1000.0) == d * 1000.0 / t;
    assert k * (d * 1000.0 / t) == k * d * 1000.0 / t;
  }

  /** The integrator advances by ki * e * dt, as far as its limits allow, unless that pushes the command past a limit. */
  lemma IntegratorLaw(p: Pid, c: PidCfg, setpoint: real, measurement: real, dtMs: nat)
    requires Ordered(c) && Bounded(p, c)
    ensures var (p', out) := PidStep(p, c, setpoint, measurement, dtMs);
            var e := setpoint - measurement;
            var full := p.integ + c.ki * e * (dtMs as real / 1000.0);
            var next := if full < c.integMin then c.integMin else if full > c.integMax then c.integMax else full;
            var law := c.kp * e + next - Damping(p, c, measurement, dtMs);
            p'.integ == if (law > c.outMax && e > 0.0) || (law < c.outMin && e < 0.0) then p.integ else next
  {
    hide PidStep, NextInteg, DTerm, Damping, PTerm, Candidate, Ordered, Bounded;
    var e := setpoint - measurement;
    DampingIs(p, c, measurement, dtMs);
    PTermIs(c, e);
    CandidateIs(p.integ, c, e, dtMs);
    IntegOf(p, c, setpoint, measurement, dtMs);
    NextIntegIs(p, c, e, PTerm(c, e) + DTerm(p, c, measurement, dtMs), dtMs);
  }

  lemma IntegOf(p: Pid, c: PidCfg, setpoint: real, measurement: real, dtMs: nat)
    ensures var e := setpoint - measurement;
            PidStep(p, c, setpoint, measurement, dtMs).0.integ ==
              NextInteg(p, c, e, PTerm(c, e) + DTerm(p, c, measurement, dtMs), dtMs)
  {
    hide NextInteg, DTerm, PTerm, Add32, Fabs;
  }

  lemma NextIntegIs(p: Pid, c: PidCfg, e: real, other: real, dtMs: nat)
    ensures var next := Candidate(p.integ, c, e, dtMs);
            NextInteg(p, c, e, other, dtMs) ==
              if (other + next > c.outMax && e > 0.0) || (other + next < c.outMin && e < 0.0) then p.integ else next
  {
    hide Candidate;
  }

  lemma CandidateIs(integ: real, c: PidCfg, e: real, dtMs: nat)
    ensures var full := integ + c.ki * e * (dtMs as real / 1000.0);
            Candidate(integ, c, e, dtMs) == if full < c.integMin then c.integMin else if full > c.integMax then c.integMax else full
  {
  }

  /**
   * From rest the node's controller pushes exactly towards a higher setpoint, with 3.68 for each unit of error, or 3.5 where
   * that would saturate and the integrator is held; its actuator cannot pull.
   */
  lemma PushesTowards(setpoint: real, measurement: real)
    ensures var e, out := setpoint - measurement, PidStep(PID_RESET, PID_CFG, setpoint, measurement, 10).1;
      && (if setpoint > measurement then out > 0.0 else out == 0.0)
      && (e > 0.0 ==> out == if 3.68 * e <= 100.0 then 3.68 * e else if 3.5 * e <= 100.0 then 3.5 * e else 100.0)
  {
    hide PidStep, Damping;
    var e := setpoint - measurement;
    PidLaw(PID_RESET, PID_CFG, setpoint, measurement, CTRL_PERIOD_MS);
    IntegratorLaw(PID_RESET, PID_CFG, setpoint, measurement, CTRL_PERIOD_MS);
    NoDamping(PID_RESET, measurement);
  }

  lemma NoDamping(p: Pid, measurement: real)
    requires !p.hasPrev
    ensures Damping(p, PID_CFG, measurement, CTRL_PERIOD_MS) == 0.0
  {
  }

  class GovPid {
    const cfg: PidCfg
    var integ: real
    var prevMeas: real
    var hasPrev: bool
    var saturated: bool
    var divAccumMs: u32
    var diverging: bool

    ghost function View(): Pid
      reads this
    {
      Pid(integ, prevMeas, hasPrev, saturated, divAccumMs, diverging)
    }

    constructor (c: PidCfg)
      ensures View() == PID_RESET && cfg == c
    {
      cfg := c;
      integ, prevMeas, hasPrev, saturated, divAccumMs, diverging := 0.0, 0.0, false, false, 0, false;
    }

    method Step(setpoint: real, measurement: real, dtMs: nat) returns (out: real)
      modifies this
      ensures (View(), out) == PidStep(old(View()), cfg, setpoint, measurement, dtMs)
    {
      hide Add32, DTerm, PTerm, NextInteg, Clampf, Fabs;
      var error := setpoint - measurement;
      var pTerm := PTerm(cfg, error);
      var dTerm := DTerm(Pid(integ, prevMeas, hasPrev, saturated, divAccumMs, diverging), cfg, measurement, dtMs);
      var unsat := Integrate(error, pTerm, dTerm, dtMs);
      out := Clampf(unsat, cfg.outMin, cfg.outMax);
      saturated := out != unsat;
      if Fabs(error) > cfg.divergeLimit {
        divAccumMs := Add32(divAccumMs, dtMs);
        if divAccumMs >= cfg.divergeMs {
          diverging := true;
        }
      } else {
        divAccumMs := 0;
        diverging := false;
      }
      prevMeas := measurement;
      hasPrev := true;
    }

    /** Conditional integration; returns the unsaturated output with the integrator as committed or held. */
    method Integrate(error: real, pTerm: real, dTerm: real, dtMs: nat) returns (unsat: real)
      modifies this`integ
      ensures integ == NextInteg(old(View()), cfg, error, pTerm + dTerm, dtMs) && unsat == pTerm + dTerm + integ
    {
      hide Candidate;
      var candidate := Candidate(integ, cfg, error, dtMs);
      unsat := pTerm + candidate + dTerm;
      var commit := true;
      if unsat > cfg.outMax && error > 0.0 {
        commit := false;
      } else if unsat < cfg.outMin && error < 0.0 {
        commit := false;
      }
      if commit {
        integ := candidate;
      } else {
        unsat := pTerm + integ + dTerm;
      }
    }
  }

  // ---- Plant ----

  datatype PlantCfg = PlantCfg(tau: real, gain: real, y0: real)

  const PLANT_CFG := PlantCfg(0.1, 1.0, 0.0)

  datatype Plant = Plant(y: real, disturbance: real)

  function PlantStep(pl: Plant, c: PlantCfg, u: real, dtMs: nat): Plant {
    var y := if c.tau > 0.0 then pl.y + (Seconds(dtMs) / c.tau) * (c.gain * u - pl.y) else pl.y;
    pl.(y := y + pl.disturbance)
  }

  /** At the control period the undisturbed plant moves a tenth of the way to its input. */
  lemma PlantTenth(pl: Plant, u: real)
    requires pl.disturbance == 0.0
    ensures PlantStep(pl, PLANT_CFG, u, CTRL_PERIOD_MS) == Plant(0.9 * pl.y + 0.1 * u, 0.0)
  {
  }

  /** Without disturbance the plant moves from its output towards gain * u, by the share dt/tau of the way. */
  lemma PlantBlend(pl: Plant, c: PlantCfg, u: real, dtMs: nat)
    requires c.tau > 0.0
    ensures var share, target := (dtMs as real / 1000.0) / c.tau, c.gain * u;
            var moved := PlantStep(pl, c, u, dtMs).y - pl.disturbance;
      && moved - target == (1.0 - share) * (pl.y - target)
      && (share <= 1.0 && pl.y <= target ==> pl.y <= moved <= target)
      && (share <= 1.0 && pl.y >= target ==> pl.y >= moved >= target)
  {
    var share, gap := (dtMs as real / 1000.0) / c.tau, pl.y - c.gain * u;
    assert share >= 0.0;
    Shrinks(share, gap);
    assert PlantStep(pl, c, u, dtMs).y - pl.disturbance == pl.y + share * (-gap);
    assert share * (-gap) == -(share * gap);
  }

  lemma Shrinks(share: real, gap: real)
    requires share >= 0.0
    ensures (1.0 - share) * gap == gap - share * gap
    ensures share <= 1.0 && gap >= 0.0 ==> 0.0 <= share * gap <= gap
    ensures share <= 1.0 && gap <= 0.0 ==> gap <= share * gap <= 0.0
  {
    if share <= 1.0 {
      NotNegative(share, if gap >= 0.0 then gap else -gap);
      NotNegative(1.0 - share, if gap >= 0.0 then gap else -gap);
      assert share * (-gap) == -(share * gap) && (1.0 - share) * (-gap) == -((1.0 - share) * gap);
    }
  }

  lemma NotNegative(a: real, b: real)
    requires a >= 0.0 && b >= 0.0
    ensures a * b >= 0.0
  {
  }

  /** With a time constant that is no positive number the plant holds its output, but for the disturbance. */
  lemma PlantHolds(pl: Plant, c: PlantCfg, u: real, dtMs: nat)
    requires c.tau <= 0.0
    ensures PlantStep(pl, c, u, dtMs).y == pl.y + pl.disturbance
  {
  }

  class GovPlant {
    const cfg: PlantCfg
    var y: real
    var disturbance: real

    ghost function View(): Plant
      reads this
    {
      Plant(y, disturbance)
    }

    constructor (c: PlantCfg)
      ensures View() == Plant(c.y0, 0.0) && cfg == c
    {
      cfg := c;
      y, disturbance := c.y0, 0.0;
    }

    method Step(u: real, dtMs: nat) returns (out: real)
      modifies this
      ensures View() == PlantStep(old(View()), cfg, u, dtMs) && out == y
    {
      if cfg.tau > 0.0 {
        var drive := cfg.gain * u - y;
        y := y + (Seconds(dtMs) / cfg.tau) * drive;
      }
      y := y + disturbance;
      return y;
    }
  }
}
