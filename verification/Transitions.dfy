/** The safety state machine's promises, event by event: where each step leads, what it flags, stamps and counts. */
module Transitions {
  import opened Bytes
  import opened Safety
  import opened NodeRuns

  /** Reports of a recoverable fault. */
  predicate Recoverable(ev: Event) {
    ev == SensorFault || ev == LinkFault || ev == DeadlineMiss
  }

  predicate Operating(st: State) {
    st == Init || st == Running || st == Degraded
  }

  /** Events that leave normal operation from RUN for good, whatever the timers say. */
  predicate Stopping(ev: Event) {
    ev == Diverge || ev == OperatorStop || ev == InternalViolation || ev == Watchdog
  }

  /** DEGRADED ends in RUN: the dwell has run for 500 ms, the episode for less than 5000, and nothing is wrong. */
  predicate Recovers(s: Sm, ev: Event, now: u32) {
    && s.state == Degraded && s.causeClear != 0 && now - s.causeClear >= 500 && now - s.since < 5000
    && !Stopping(ev) && !Recoverable(ev) && ev != SecondFault
  }

  /** DEGRADED goes on. */
  predicate StaysDegraded(s: Sm, ev: Event, now: u32) {
    && s.state == Degraded && !Stopping(ev) && ev != SecondFault && now - s.since < 5000 && !Recovers(s, ev, now)
  }

  /** INIT goes on, or starts its time afresh. */
  predicate StaysInit(s: Sm, ev: Event, now: u32) {
    && s.state == Init && ev != SelftestOk && ev != SelftestFail && ev != OperatorStop && ev != InternalViolation
    && (ev == PowerOn || ev == Watchdog || now - s.initStart < 2000)
  }

  /** Exactly which events lead where. */
  lemma Destinations(s: Sm, ev: Event, now: u32)
    requires Timed(s) && s.now <= now
    ensures var r := Step(s, ev, now).state;
      && (r == FaultHalt <==> ev == InternalViolation || (s.state == FaultHalt && ev != Watchdog))
      && (r == Init <==> ev == Watchdog || (s.state == SafeStop && ev == OperatorClear) || StaysInit(s, ev, now))
      && (r == Running <==> || (s.state == Init && ev == SelftestOk)
                            || (s.state == Running && !Stopping(ev) && !Recoverable(ev))
                            || Recovers(s, ev, now))
      && (r == Degraded <==> (s.state == Running && Recoverable(ev)) || StaysDegraded(s, ev, now))
  {
    hide Step, Recovers, StaysDegraded, StaysInit;
    if s.state == Degraded {
      DestinationsDegraded(s, ev, now);
    } else if s.state == Init {
      DestinationsInit(s, ev, now);
    } else {
      DestinationsRest(s, ev, now);
    }
  }

  lemma DestinationsDegraded(s: Sm, ev: Event, now: u32)
    requires s.state == Degraded && Timed(s) && s.now <= now
    ensures var r := Step(s, ev, now).state;
      && (r == FaultHalt <==> ev == InternalViolation || (s.state == FaultHalt && ev != Watchdog))
      && (r == Init <==> ev == Watchdog || (s.state == SafeStop && ev == OperatorClear) || StaysInit(s, ev, now))
      && (r == Running <==> || (s.state == Init && ev == SelftestOk)
                            || (s.state == Running && !Stopping(ev) && !Recoverable(ev))
                            || Recovers(s, ev, now))
      && (r == Degraded <==> (s.state == Running && Recoverable(ev)) || StaysDegraded(s, ev, now))
  {
    hide Add32;
    Elapsed(now, now);
    Elapsed(now, s.initStart);
    Elapsed(now, s.since);
    Elapsed(now, s.causeClear);
  }

  lemma DestinationsInit(s: Sm, ev: Event, now: u32)
    requires s.state == Init && Timed(s) && s.now <= now
    ensures var r := Step(s, ev, now).state;
      && (r == FaultHalt <==> ev == InternalViolation || (s.state == FaultHalt && ev != Watchdog))
      && (r == Init <==> ev == Watchdog || (s.state == SafeStop && ev == OperatorClear) || StaysInit(s, ev, now))
      && (r == Running <==> || (s.state == Init && ev == SelftestOk)
                            || (s.state == Running && !Stopping(ev) && !Recoverable(ev))
                            || Recovers(s, ev, now))
      && (r == Degraded <==> (s.state == Running && Recoverable(ev)) || StaysDegraded(s, ev, now))
  {
    hide Add32;
    Elapsed(now, now);
    Elapsed(now, s.initStart);
    Elapsed(now, s.since);
    Elapsed(now, s.causeClear);
  }

  lemma DestinationsRest(s: Sm, ev: Event, now: u32)
    requires s.state != Degraded && s.state != Init && Timed(s) && s.now <= now
    ensures var r := Step(s, ev, now).state;
      && (r == FaultHalt <==> ev == InternalViolation || (s.state == FaultHalt && ev != Watchdog))
      && (r == Init <==> ev == Watchdog || (s.state == SafeStop && ev == OperatorClear) || StaysInit(s, ev, now))
      && (r == Running <==> || (s.state == Init && ev == SelftestOk)
                            || (s.state == Running && !Stopping(ev) && !Recoverable(ev))
                            || Recovers(s, ev, now))
      && (r == Degraded <==> (s.state == Running && Recoverable(ev)) || StaysDegraded(s, ev, now))
  {
    hide Add32;
    Elapsed(now, now);
    Elapsed(now, s.initStart);
    Elapsed(now, s.since);
    Elapsed(now, s.causeClear);
  }

  /** An operator's stop is never ignored, whatever the phase. */
  lemma OperatorStopLatches(s: Sm, now: u32)
    requires Timed(s) && s.now <= now && Operating(s.state)
    ensures var r := Step(s, OperatorStop, now); r.state == SafeStop && r.faults == s.faults + {OperatorStopBit}
  {
    hide Add32;
  }

  // ---- The fault word ----

  /** The flags a step does not clear: an operator's clear keeps the sticky ones, a recovery the watchdog's. */
  function Standing(s: Sm, ev: Event, now: u32): set<Flag> {
    if s.state == SafeStop && ev == OperatorClear then s.sticky
    else if Recovers(s, ev, now) then s.faults * {WatchdogBit}
    else s.faults
  }

  /** The bring-up fails its test or takes 2000 ms. */
  predicate FailsInit(s: Sm, ev: Event, now: u32) {
    && s.state == Init && ev != OperatorStop && ev != InternalViolation && ev != Watchdog && ev != SelftestOk && ev != PowerOn
    && (ev == SelftestFail || now - s.initStart >= 2000)
  }

  /** A second fault, or 5000 ms in DEGRADED. */
  predicate Escalates(s: Sm, ev: Event, now: u32) {
    s.state == Degraded && !Stopping(ev) && (ev == SecondFault || now - s.since >= 5000)
  }

  predicate Raises(s: Sm, ev: Event, now: u32, f: Flag) {
    match f
    case SensorActive => ev == SensorFault && ActuationAllowed(s)
    case LinkBit => ev == LinkFault && ActuationAllowed(s)
    case TimingBit => ev == DeadlineMiss && ActuationAllowed(s)
    case DivergeBit => ev == Diverge && ActuationAllowed(s)
    case OperatorStopBit => ev == OperatorStop && Operating(s.state)
    case InitBit => FailsInit(s, ev, now)
    case Escalated => Escalates(s, ev, now)
    case Internal => ev == InternalViolation
    case WatchdogBit => ev == Watchdog
    case _ => false
  }

  /** The flag an event itself raises in a state, if any. */
  function Own(st: State, ev: Event): set<Flag> {
    if ev == InternalViolation then {Internal}
    else if ev == Watchdog then {WatchdogBit}
    else if ev == OperatorStop && Operating(st) then {OperatorStopBit}
    else if st != Running && st != Degraded then {}
    else if ev == SensorFault then {SensorActive}
    else if ev == LinkFault then {LinkBit}
    else if ev == DeadlineMiss then {TimingBit}
    else if ev == Diverge then {DivergeBit}
    else {}
  }

  /** The flag that the passage of time, a failed test or a second fault raises, if any. */
  function Due(s: Sm, ev: Event, now: u32): set<Flag> {
    if FailsInit(s, ev, now) then {InitBit} else if Escalates(s, ev, now) then {Escalated} else {}
  }

  /** A flag shows after a step exactly if the step raised it or it stood before and was not cleared. */
  lemma FlagsRaised(s: Sm, ev: Event, now: u32, f: Flag)
    requires Timed(s) && Flagged(s) && s.now <= now
    ensures f in Step(s, ev, now).faults <==> f in Standing(s, ev, now) || Raises(s, ev, now, f)
  {
    hide Step, Standing, Timed, Flagged;
    FaultsAre(s, ev, now);
  }

  lemma FaultsAre(s: Sm, ev: Event, now: u32)
    requires Timed(s) && Flagged(s) && s.now <= now
    ensures Step(s, ev, now).faults == Standing(s, ev, now) + Own(s.state, ev) + Due(s, ev, now)
  {
    hide Step, Standing, Own, Due, Timed, Flagged;
    match s.state {
      case Init => FaultsInit(s, ev, now);
      case Degraded => FaultsDegraded(s, ev, now);
      case _ => FaultsOtherwise(s, ev, now);
    }
  }

  lemma NoMore(a: set<Flag>, b: set<Flag>, c: set<Flag>)
    ensures a + {} == a && (a + {}) + c == a + c && (b == {} ==> a + b + c == a + c) && (c == {} ==> a + b + c == a + b)
  {
  }

  lemma FaultsInit(s: Sm, ev: Event, now: u32)
    requires s.state == Init && Timed(s) && s.now <= now
    ensures Step(s, ev, now).faults == Standing(s, ev, now) + Own(s.state, ev) + Due(s, ev, now)
  {
    hide Add32, Enter;
    Elapsed(now, now);
    Elapsed(now, s.initStart);
    NoMore(s.faults, Own(s.state, ev), Due(s, ev, now));
    Entering();
  }

  lemma FaultsDegraded(s: Sm, ev: Event, now: u32)
    requires s.state == Degraded && Timed(s) && Flagged(s) && s.now <= now
    ensures Step(s, ev, now).faults == Standing(s, ev, now) + Own(s.state, ev) + Due(s, ev, now)
  {
    hide Add32, Enter;
    Elapsed(now, now);
    Elapsed(now, s.since);
    Elapsed(now, s.causeClear);
    NoMore(s.faults, Own(s.state, ev), Due(s, ev, now));
    NoMore(s.faults * {WatchdogBit}, {}, {});
    assert {WatchdogBit} + s.sticky == {WatchdogBit};
    Entering();
  }

  lemma FaultsOtherwise(s: Sm, ev: Event, now: u32)
    requires s.state != Init && s.state != Degraded && Timed(s) && s.now <= now
    ensures Step(s, ev, now).faults == Standing(s, ev, now) + Own(s.state, ev) + Due(s, ev, now)
  {
    hide Add32, Enter;
    NoMore(Standing(s, ev, now), Own(s.state, ev), {});
    Elapsed(now, now);
    Entering();
  }

  /** What entering a state leaves alone, and what it stamps. */
  lemma Entering()
    ensures forall s, next, at :: var e := Enter(s, next, at);
              e.faults == s.faults && e.sticky == s.sticky && e.initStart == s.initStart && e.state == next && e.since == at
              && (next != Degraded ==> e.causeClear == 0) && (next == Degraded ==> e.causeClear == s.causeClear)
  {
    hide Add32;
  }

  // ---- Stamps and counters ----

  /** The state is entered anew: it changes, or an event restarts or halts the machine once more. */
  predicate Entered(s: Sm, ev: Event, now: u32) {
    Step(s, ev, now).state != s.state || ev == Watchdog || ev == InternalViolation
  }

  predicate StampsHold(s: Sm, ev: Event, now: u32) {
    var r := Step(s, ev, now);
    && r.now == now
    && r.since == (if Entered(s, ev, now) || (s.state == Init && ev == PowerOn) then now else s.since)
    && r.initStart == (if r.state == Init && (Entered(s, ev, now) || ev == PowerOn) then now else s.initStart)
    && r.transitions == (if Entered(s, ev, now) then Add32(s.transitions, 1) else s.transitions)
    && r.sticky == s.sticky + if ev == Watchdog then {WatchdogBit} else {}
  }

  /** Every step stamps and counts the states it enters, and bring-up's time when that starts; nothing else moves a stamp. */
  lemma Stamps(s: Sm, ev: Event, now: u32)
    requires Timed(s) && s.now <= now
    ensures StampsHold(s, ev, now)
  {
    hide StampsHold;
    if s.state == Degraded {
      StampsDegraded(s, ev, now);
    } else if s.state == Init {
      StampsInit(s, ev, now);
    } else {
      StampsRest(s, ev, now);
    }
  }

  lemma StampsDegraded(s: Sm, ev: Event, now: u32)
    requires s.state == Degraded && Timed(s) && s.now <= now
    ensures StampsHold(s, ev, now)
  {
    hide StampsHold;
    StampsStopping(s, ev, now);
    if !Stopping(ev) && ev != SecondFault {
      StampsTimed(s, ev, now);
    }
  }

  /** An event that ends DEGRADED by itself. */
  lemma StampsStopping(s: Sm, ev: Event, now: u32)
    requires s.state == Degraded && Timed(s) && s.now <= now
    ensures Stopping(ev) || ev == SecondFault ==> StampsHold(s, ev, now)
  {
    hide Add32, Sub32;
    Elapsed(now, now);
  }

  /** Any other event leaves DEGRADED's end to the timers. */
  lemma StampsTimed(s: Sm, ev: Event, now: u32)
    requires s.state == Degraded && Timed(s) && s.now <= now && !Stopping(ev) && ev != SecondFault
    ensures StampsHold(s, ev, now)
  {
    hide Add32, Sub32;
  }

  lemma StampsInit(s: Sm, ev: Event, now: u32)
    requires s.state == Init && Timed(s) && s.now <= now
    ensures StampsHold(s, ev, now)
  {
    hide Add32;
    Elapsed(now, now);
    Elapsed(now, s.initStart);
    Elapsed(now, s.since);
    Elapsed(now, s.causeClear);
  }

  lemma StampsRest(s: Sm, ev: Event, now: u32)
    requires s.state != Degraded && s.state != Init && Timed(s) && s.now <= now
    ensures StampsHold(s, ev, now)
  {
    hide Add32;
    Elapsed(now, now);
    Elapsed(now, s.initStart);
    Elapsed(now, s.since);
    Elapsed(now, s.causeClear);
  }

  /** The recovery dwell starts with the report that the causes have cleared and is cancelled by a fault report. */
  lemma DwellStamp(s: Sm, ev: Event, now: u32)
    requires Timed(s) && s.now <= now
    ensures var r := Step(s, ev, now);
      && (r.state != Degraded || s.state != Degraded ==> r.causeClear == 0)
      && (r.state == Degraded && s.state == Degraded ==>
            r.causeClear == if Recoverable(ev) then 0 else if ev == CauseCleared && s.causeClear == 0 then now else s.causeClear)
  {
    hide Add32;
    Elapsed(now, now);
    Elapsed(now, s.since);
    Elapsed(now, s.causeClear);
  }

  /** The events a state has a use for; the timer's tick, the watchdog and an internal violation are always expected. */
  predicate Expected(st: State, ev: Event) {
    ev == Tick || ev == Watchdog || ev == InternalViolation ||
    match st
    case Init => ev == PowerOn || ev == SelftestOk || ev == SelftestFail || ev == OperatorStop
    case Running => Recoverable(ev) || ev == Diverge || ev == OperatorStop
    case Degraded => Recoverable(ev) || ev == Diverge || ev == OperatorStop || ev == SecondFault || ev == CauseCleared
    case SafeStop => ev == OperatorClear
    case FaultHalt => false
  }

  /** Any other event is counted, and does nothing that a tick would not have done. */
  lemma UnexpectedIsCounted(s: Sm, ev: Event, now: u32)
    requires s.now <= now
    ensures var r := Step(s, ev, now);
      && r.rejected == (if Expected(s.state, ev) then s.rejected else Add32(s.rejected, 1))
      && (!Expected(s.state, ev) ==> r == Step(s, Tick, now).(rejected := r.rejected))
  {
    hide Step, Expected;
    if s.state == Degraded {
      UnexpectedIsCountedDegraded(s, ev, now);
    } else if s.state == Init {
      UnexpectedIsCountedInit(s, ev, now);
    } else {
      UnexpectedIsCountedRest(s, ev, now);
    }
  }

  lemma UnexpectedIsCountedDegraded(s: Sm, ev: Event, now: u32)
    requires s.state == Degraded && s.now <= now
    ensures var r := Step(s, ev, now);
      && r.rejected == (if Expected(s.state, ev) then s.rejected else Add32(s.rejected, 1))
      && (!Expected(s.state, ev) ==> r == Step(s, Tick, now).(rejected := r.rejected))
  {
    hide Add32, Sub32;
  }

  lemma UnexpectedIsCountedInit(s: Sm, ev: Event, now: u32)
    requires s.state == Init && s.now <= now
    ensures var r := Step(s, ev, now);
      && r.rejected == (if Expected(s.state, ev) then s.rejected else Add32(s.rejected, 1))
      && (!Expected(s.state, ev) ==> r == Step(s, Tick, now).(rejected := r.rejected))
  {
    hide Add32, Sub32;
  }

  lemma UnexpectedIsCountedRest(s: Sm, ev: Event, now: u32)
    requires s.state != Degraded && s.state != Init && s.now <= now
    ensures var r := Step(s, ev, now);
      && r.rejected == (if Expected(s.state, ev) then s.rejected else Add32(s.rejected, 1))
      && (!Expected(s.state, ev) ==> r == Step(s, Tick, now).(rejected := r.rejected))
  {
    hide Add32, Sub32;
  }
}
