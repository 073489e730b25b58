/** The safety state machine: the sole authority on actuation. */
module Safety {
  import opened Bytes

  datatype State = Init | Running | Degraded | SafeStop | FaultHalt

  datatype Event =
    | PowerOn | SelftestOk | SelftestFail | SensorFault | LinkFault | Diverge | CauseCleared | SecondFault
    | OperatorStop | OperatorClear | DeadlineMiss | Watchdog | InternalViolation | Tick

  /** The bits of the fault word. */
  datatype Flag =
    | SensorDrop | SensorStuck | SensorRange | BusNak | BusErr | LinkBit | DivergeBit | TimingBit | WatchdogBit
    | OperatorStopBit | InitBit | Escalated | Internal | SensorActive

  const INIT_TIMEOUT_MS: nat := 2000
  const RECOVER_MS: nat := 500
  const DEGRADE_MAX_MS: nat := 5000

  /** Fault words are sets of flags; all times are milliseconds. causeClear is 0 when no recovery dwell is running. */
  datatype Sm = Sm(state: State, faults: set<Flag>, sticky: set<Flag>, now: u32, since: u32, causeClear: u32,
                   initStart: u32, rejected: u32, transitions: u32)

  /** Only the watchdog flag survives a reset. */
  function Initial(sticky: set<Flag>): Sm {
    var kept := sticky * {WatchdogBit};
    Sm(Init, kept, kept, 0, 0, 0, 0, 0, 0)
  }

  // ---- One step, on values ----

  function Enter(s: Sm, next: State, at: u32): Sm {
    s.(state := next, since := at, transitions := Add32(s.transitions, 1),
       causeClear := if next == Degraded then s.causeClear else 0)
  }

  function Latch(s: Sm, flag: Flag, next: State, at: u32): Sm {
    Enter(s.(faults := s.faults + {flag}), next, at)
  }

  function Reject(s: Sm): Sm {
    s.(rejected := Add32(s.rejected, 1))
  }

  /** Time-driven transitions of the current state. */
  function Timers(s: Sm, now: u32): Sm {
    if s.state == Init && Sub32(now, s.initStart) >= INIT_TIMEOUT_MS then Latch(s, InitBit, SafeStop, now)
    else if s.state == Degraded && Sub32(now, s.since) >= DEGRADE_MAX_MS then Latch(s, Escalated, SafeStop, now)
    else if s.state == Degraded && s.causeClear != 0 && Sub32(now, s.causeClear) >= RECOVER_MS then
      Enter(s.(faults := s.faults * ({WatchdogBit} + s.sticky)), Running, now)
    else s
  }

  /** The reaction to an event at a time that is not in the past, before timers are looked at. */
  function React(s: Sm, ev: Event, now: u32): Sm {
    match (s.state, ev)
    case (_, InternalViolation) => Latch(s, Internal, FaultHalt, now)
    case (_, Watchdog) =>
      Enter(s.(sticky := s.sticky + {WatchdogBit}, faults := s.faults + {WatchdogBit}, initStart := now), Init, now)
    case (Init, OperatorStop) => Latch(s, OperatorStopBit, SafeStop, now)
    case (Running, OperatorStop) => Latch(s, OperatorStopBit, SafeStop, now)
    case (Degraded, OperatorStop) => Latch(s, OperatorStopBit, SafeStop, now)
    case (_, Tick) => s
    case (Init, PowerOn) => s.(initStart := now, since := now)
    case (Init, SelftestOk) => Enter(s, Running, now)
    case (Init, SelftestFail) => Latch(s, InitBit, SafeStop, now)
    case (Running, SensorFault) => Latch(s, SensorActive, Degraded, now)
    case (Running, LinkFault) => Latch(s, LinkBit, Degraded, now)
    case (Running, DeadlineMiss) => Latch(s, TimingBit, Degraded, now)
    case (Running, Diverge) => Latch(s, DivergeBit, SafeStop, now)
    case (Degraded, CauseCleared) => if s.causeClear == 0 then s.(causeClear := now) else s
    case (Degraded, SensorFault) => s.(causeClear := 0, faults := s.faults + {SensorActive})
    case (Degraded, LinkFault) => s.(causeClear := 0, faults := s.faults + {LinkBit})
    case (Degraded, DeadlineMiss) => s.(causeClear := 0, faults := s.faults + {TimingBit})
    case (Degraded, SecondFault) => Latch(s, Escalated, SafeStop, now)
    case (Degraded, Diverge) => Latch(s, DivergeBit, SafeStop, now)
    case (SafeStop, OperatorClear) => Enter(s.(faults := s.sticky, initStart := now), Init, now)
    case _ => Reject(s)
  }

  function Step(s: Sm, ev: Event, now: u32): Sm {
    if now < s.now then Latch(s, Internal, FaultHalt, s.now)
    else Timers(React(s.(now := now), ev, now), now)
  }

  predicate ActuationAllowed(s: Sm) {
    s.state == Running || s.state == Degraded
  }

  /** C division by two. */
  function HalfTowardZero(x: int): int {
    if x >= 0 then x / 2 else -((-x) / 2)
  }

  function Clamp(s: Sm, desired: int): int {
    match s.state
    case Running => desired
    case Degraded => HalfTowardZero(desired)
    case _ => 0
  }

  /** Full authority in RUN; in DEGRADED half the command, rounded towards zero; none elsewhere. */
  lemma ClampBounds(s: Sm, desired: int)
    ensures var out := Clamp(s, desired);
            && (s.state == Running ==> out == desired)
            && (s.state == Degraded ==> -1 <= desired - 2 * out <= 1)
            && (s.state == Degraded ==> 0 <= 2 * out <= desired || desired <= 2 * out <= 0)
            && (!ActuationAllowed(s) ==> out == 0)
  {
  }

  // ---- The state machine object ----

  class SafetySm {
    var state: State
    var faults: set<Flag>
    var sticky: set<Flag>
    var nowMs: u32
    var stateSinceMs: u32
    var causeClearMs: u32
    var initStartMs: u32
    var rejectedEvents: u32
    var transitions: u32

    ghost function View(): Sm
      reads this
    {
      Sm(state, faults, sticky, nowMs, stateSinceMs, causeClearMs, initStartMs, rejectedEvents, transitions)
    }

    constructor (carried: set<Flag>)
      ensures View() == Initial(carried)
    {
      state, faults, sticky := Init, carried * {WatchdogBit}, carried * {WatchdogBit};
      nowMs, stateSinceMs, causeClearMs, initStartMs, rejectedEvents, transitions := 0, 0, 0, 0, 0, 0;
    }

    method EnterState(next: State, at: u32)
      modifies this
      ensures View() == Enter(old(View()), next, at)
    {
      state := next;
      stateSinceMs := at;
      transitions := Add32(transitions, 1);
      if next != Degraded {
        causeClearMs := 0;
      }
    }

    method ToSafeStop(flag: Flag, at: u32)
      modifies this
      ensures View() == Latch(old(View()), flag, SafeStop, at)
    {
      faults := faults + {flag};
      EnterState(SafeStop, at);
    }

    method ToFaultHalt(at: u32)
      modifies this
      ensures View() == Latch(old(View()), Internal, FaultHalt, at)
    {
      faults := faults + {Internal};
      EnterState(FaultHalt, at);
    }

    method ServiceTimers(now: u32)
      modifies this
      ensures View() == Timers(old(View()), now)
    {
      match state {
        case Init =>
          if Sub32(now, initStartMs) >= INIT_TIMEOUT_MS {
            ToSafeStop(InitBit, now);
          }
        case Degraded =>
          if Sub32(now, stateSinceMs) >= DEGRADE_MAX_MS {
            ToSafeStop(Escalated, now);
            return;
          }
          if causeClearMs != 0 && Sub32(now, causeClearMs) >= RECOVER_MS {
            faults := faults * ({WatchdogBit} + sticky);
            EnterState(Running, now);
          }
        case _ =>
      }
    }

    /** One event at an injected time; time running backwards is itself a fault. */
    method Handle(ev: Event, now: u32) returns (st: State)
      modifies this
      ensures View() == Step(old(View()), ev, now) && st == state
    {
      hide Timers, React;
      if now < nowMs {
        ToFaultHalt(nowMs);
        return state;
      }
      nowMs := now;
      var early := Dispatch(ev, now);
      if !early {
        ServiceTimers(now);
      }
      return state;
    }

    /** Everything up to the timers; `early` when the timers are skipped, which is only where they would do nothing. */
    method Dispatch(ev: Event, now: u32) returns (early: bool)
      modifies this
      ensures View() == React(old(View()), ev, now)
      ensures early ==> Timers(View(), now) == View()
    {
      hide Enter;
      if ev == InternalViolation {
        EnteredIs(View().(faults := faults + {Internal}), FaultHalt, now);
        ToFaultHalt(now);
        return true;
      }
      if ev == Watchdog {
        sticky := sticky + {WatchdogBit};
        faults := faults + {WatchdogBit};
        initStartMs := now;
        EnteredIs(View(), Init, now);
        EnterState(Init, now);
        return true;
      }
      if ev == OperatorStop && (state == Running || state == Degraded || state == Init) {
        EnteredIs(View().(faults := faults + {OperatorStopBit}), SafeStop, now);
        ToSafeStop(OperatorStopBit, now);
        return true;
      }
      early := false;
      match state {
        case Init => InInit(ev, now);
        case Running => InRunning(ev, now);
        case Degraded => InDegraded(ev, now);
        case SafeStop => InSafeStop(ev, now);
        case FaultHalt =>
          if ev != Tick {
            rejectedEvents := Add32(rejectedEvents, 1);
          }
      }
    }

    method ClampOutput(desired: int) returns (out: int)
      ensures out == Clamp(View(), desired)
    {
      match state {
        case Running => return desired;
        case Degraded => return HalfTowardZero(desired);
        case _ => return 0;
      }
    }

    method InInit(ev: Event, now: u32)
      requires state == Init && ev != InternalViolation && ev != Watchdog && ev != OperatorStop
      modifies this
      ensures View() == React(old(View()), ev, now)
    {
      if ev == PowerOn {
        initStartMs := now;
        stateSinceMs := now;
      } else if ev == SelftestOk {
        EnterState(Running, now);
      } else if ev == SelftestFail {
        ToSafeStop(InitBit, now);
      } else if ev != Tick {
        rejectedEvents := Add32(rejectedEvents, 1);
      }
    }

    method InRunning(ev: Event, now: u32)
      requires state == Running && ev != InternalViolation && ev != Watchdog && ev != OperatorStop
      modifies this
      ensures View() == React(old(View()), ev, now)
    {
      if ev == SensorFault {
        faults := faults + {SensorActive};
        EnterState(Degraded, now);
      } else if ev == LinkFault {
        faults := faults + {LinkBit};
        EnterState(Degraded, now);
      } else if ev == DeadlineMiss {
        faults := faults + {TimingBit};
        EnterState(Degraded, now);
      } else if ev == Diverge {
        ToSafeStop(DivergeBit, now);
      } else if ev != Tick {
        rejectedEvents := Add32(rejectedEvents, 1);
      }
    }

    method InDegraded(ev: Event, now: u32)
      requires state == Degraded && ev != InternalViolation && ev != Watchdog && ev != OperatorStop
      modifies this
      ensures View() == React(old(View()), ev, now)
    {
      if ev == CauseCleared {
        if causeClearMs == 0 {
          causeClearMs := now;
        }
      } else if ev == SensorFault {
        causeClearMs := 0;
        faults := faults + {SensorActive};
      } else if ev == LinkFault {
        causeClearMs := 0;
        faults := faults + {LinkBit};
      } else if ev == DeadlineMiss {
        causeClearMs := 0;
        faults := faults + {TimingBit};
      } else if ev == SecondFault {
        ToSafeStop(Escalated, now);
      } else if ev == Diverge {
        ToSafeStop(DivergeBit, now);
      } else if ev != Tick {
        rejectedEvents := Add32(rejectedEvents, 1);
      }
    }

    method InSafeStop(ev: Event, now: u32)
      requires state == SafeStop && ev != InternalViolation && ev != Watchdog
      modifies this
      ensures View() == React(old(View()), ev, now)
    {
      if ev == OperatorClear {
        faults := sticky;
        initStartMs := now;
        EnterState(Init, now);
      } else if ev != Tick {
        rejectedEvents := Add32(rejectedEvents, 1);
      }
    }
  }

  lemma EnteredIs(s: Sm, next: State, at: u32)
    ensures var e := Enter(s, next, at);
            e.state == next && e.initStart == s.initStart && (next == Init && s.initStart == at ==> Timers(e, at) == e)
            && (next == SafeStop || next == FaultHalt ==> Timers(e, at) == e)
  {
  }
}
