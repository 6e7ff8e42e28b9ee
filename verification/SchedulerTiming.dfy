// What the scheduler's timer and back-off times can be.
module SchedulerTiming {
  import opened Basics
  import opened SchedulerState
  import opened SchedulerInvariant
  import opened SchedulerSteps
  import opened SchedulerFairness

  // What the owner of the scheduler has set, and the reports counted against it.
  predicate KeepsSettings(s: State, r: State) {
    && r.policy == s.policy && r.stopped == s.stopped
    && r.budget.limit == s.budget.limit && r.budget.epochStart == s.budget.epochStart
    && r.budget.epochBytes == s.budget.epochBytes
  }

  // The timer is not moved to a later time, and lanes are backed off as before.
  predicate KeepsTime(s: State, r: State) {
    && KeepsSettings(s, r) && r.clock >= s.clock
    && (s.timer.Some? ==> r.timer.Some? && r.timer.value <= s.timer.value)
  }

  predicate DueAt(timer: Option<int>, t: int) {
    timer.Some? && timer.value <= t
  }

  // A wake-up asked for `delay` milliseconds ahead is due at every time at which one was due
  // before or at which that delay, clamped to what the timer can hold, is over; at no other.
  lemma WakeupIsEarliest(s: State, delay: int, now: int)
    ensures var r := ScheduleWakeup(s, delay, now);
      && r.timer.Some? && KeepsTime(s, r)
      && forall t :: DueAt(r.timer, t) <==> DueAt(s.timer, t) || Min(Max(delay, 1), MAX_INT32) <= t - now
  {
  }

  lemma PumpLoopKeepsTime(s: State, now: int, check: Check)
    ensures KeepsTime(s, PumpLoop(s, now, check))
  {
    hide IsFirstWake, IsPreferred, IsOldest, EligibleKeys;
    if EligibleKeys(s, now) != {} {
      PreferredIsMember(s, EligibleKeys(s, now));
      EligibleIsJob(s, now);
    }
  }

  lemma PumpKeepsTime(s: State, now: int)
    requires now == s.clock
    ensures KeepsTime(s, Pump(s, now))
  {
    hide PumpLoop, CreditAt, DebtDelay, Waiting;
    var s1 := Replenish(s, now);
    PumpLoopKeepsTime(s1, now, CheckOf(s1.budget, now));
  }

  lemma LoopKeepsTime(s: State, s1: State, now: int, check: Check)
    requires KeepsSettings(s, s1) && s1.timer == s.timer && s1.clock == now >= s.clock
    ensures KeepsTime(s, PumpLoop(s1, now, check))
  {
    hide PumpLoop;
    PumpLoopKeepsTime(s1, now, check);
  }

  lemma FetchingKeepsTime(s: State, handle: bool, now: int)
    requires s.stack != [] && s.stack[0].Fetching? && now >= s.clock
    ensures KeepsTime(s, ResumeFetching(s, handle, now))
  {
    hide PumpLoop;
    var f := s.stack[0];
    var s1 := Pop(s).(clock := now);
    LoopKeepsTime(s, s1, now, f.check);
    if f.key in s.jobs {
      LoopKeepsTime(s, WithJob(s1, f.key, s.jobs[f.key].(abort := handle)), now, f.check);
    }
  }

  lemma CancellingKeepsTime(s: State)
    requires s.stack != [] && s.stack[0].Cancelling?
    ensures KeepsTime(s, ResumeCancelling(s))
  {
  }

  lemma AbandoningKeepsTime(s: State)
    requires s.stack != [] && s.stack[0].Abandoning?
    ensures KeepsTime(s, ResumeAbandoning(s))
  {
  }

  lemma DeliveringKeepsTime(s: State)
    requires s.stack != [] && s.stack[0].Delivering?
    ensures KeepsTime(s, ResumeDelivering(s))
  {
  }

  lemma ResumeKeepsTime(s: State, handle: bool, now: int)
    requires s.stack != [] && now >= s.clock
    ensures KeepsTime(s, ResumeTop(s, handle, now))
  {
    hide PumpLoop, ResumeFetching, ResumeCancelling, ResumeAbandoning, ResumeDelivering, KeepsTime;
    match s.stack[0]
    case Cancelling(_) => CancellingKeepsTime(s);
    case Abandoning(_, _, _) => AbandoningKeepsTime(s);
    case Delivering(_, _) => DeliveringKeepsTime(s);
    case Fetching(_, _, _, _) => FetchingKeepsTime(s, handle, now);
    case Aborting(_) => LoopKeepsTime(s, Pop(s).(clock := now), now, s.stack[0].check);
  }

  lemma {:induction false} RetireAllKeepsTime(s: State, owner: nat, order: seq<Key>)
    requires s.stack != [] && s.stack[0].Delivering?
    ensures KeepsTime(s, RetireAll(s, owner, order))
    decreases |order|
  {
    hide Tickets, TicketSet;
    if order != [] {
      var key := order[0];
      RetireAllKeepsTime(if key in s.jobs && s.jobs[key].owner == owner then Drop(s, key) else s, owner, order[1..]);
    }
  }

  predicate SetsTimes(step: Step) {
    || step.Report? || step.Stop? || step.TimerFires? || step.BandwidthLimit?
    || step.Observe? || step.Release? || step.MaxActive? || step.LaneMaxActive?
  }

  lemma OtherStepKeepsTime(s: State, step: Step)
    requires Enabled(s, step) && !SetsTimes(step)
    ensures KeepsTime(s, Apply(s, step))
  {
    hide Pump, ResumeTop, Cancel, AbandonStopped, RetireStoppedOwner, WithPriority, Tickets, AddWaiter, Finish,
         Enumerates;
    if step.RunPump? {
      PumpKeepsTime(s.(scheduled := false, clock := step.now), step.now);
    } else if step.Resume? {
      ResumeKeepsTime(s, step.handle, step.now);
    } else if step.Retire? {
      RetireKeepsTime(s, step.owner, step.order);
    } else if step.CancelTicket? {
      CancelKeepsTime(s, step.ticket);
    } else if step.Abandon? {
      AbandonKeepsTime(s, step.ticket);
    } else {
      CallsKeepTime(s, step);
    }
  }

  lemma CallsKeepTime(s: State, step: Step)
    ensures step.Request? ==> KeepsTime(s, Apply(s, step))
    ensures step.Complete? ==> KeepsTime(s, Apply(s, step))
  {
    hide MakeKey, Tickets, TicketSet;
  }

  lemma CancelKeepsTime(s: State, ticket: nat)
    ensures KeepsTime(s, Cancel(s, ticket))
  {
    hide WithoutTicket, Tickets;
  }

  lemma AbandonKeepsTime(s: State, ticket: nat)
    ensures KeepsTime(s, AbandonStopped(s, ticket))
  {
    hide Cancel;
    if ticket in s.ticketKeys && s.ticketKeys[ticket] in s.jobs {
      var key := s.ticketKeys[ticket];
      CancelKeepsTime(Push(s, Abandoning(key, s.jobs[key].id, s.jobs[key].sequence)), ticket);
    }
  }

  lemma RetireKeepsTime(s: State, owner: nat, order: seq<Key>)
    ensures KeepsTime(s, RetireStoppedOwner(s, owner, order))
  {
    hide RetireAll;
    RetireAllKeepsTime(Push(s, Delivering([], TransportStopped)), owner, order);
  }

  // The timer fires, the bandwidth limit becomes another one, or the scheduler is shut down.
  predicate ClearsTimer(s: State, step: Step) {
    || step.TimerFires?
    || (step.BandwidthLimit? && Max(0, step.bytesPerSecond) != s.budget.limit)
    || (step.Stop? && !s.stopped)
  }

  // Such a step leaves no timer. No other step clears the timer or moves it to a later time, and
  // only reports and shutdown change how lanes are backed off.
  lemma StepKeepsTime(s: State, step: Step)
    requires Enabled(s, step)
    ensures var r := Apply(s, step);
      if ClearsTimer(s, step) then r.timer.None?
      else s.timer.Some? ==> r.timer.Some? && r.timer.value <= s.timer.value
    ensures step.Report? || step.Stop? || Apply(s, step).policy.congestion == s.policy.congestion
    ensures Apply(s, step).clock >= s.clock
  {
    hide Apply, Enabled;
    if SetsTimes(step) {
      SetTimes(s, step);
    } else {
      OtherStepKeepsTime(s, step);
    }
  }

  lemma SetTimes(s: State, step: Step)
    requires Enabled(s, step) && SetsTimes(step)
    ensures var r := Apply(s, step);
      && r.clock >= s.clock && r.timer == (if ClearsTimer(s, step) then None else s.timer)
      && (step.Report? || step.Stop? || r.policy.congestion == s.policy.congestion)
  {
    hide CreditAt, Charge, NextCongestion, NewLimit, JobSet, AllTickets, Enumerates, ReportTransfer, Shutdown, SetBandwidthLimit;
    if step.Report? {
      ReportTimes(s, step);
    } else if step.Stop? {
      StopTimes(s, step.order);
    } else if step.BandwidthLimit? {
      LimitTimes(s, step.bytesPerSecond, step.now);
    }
  }

  lemma ReportTimes(s: State, step: Step)
    requires step.Report? && step.now >= s.clock
    ensures var r := ReportTransfer(s, step.lane, step.networkBytes, step.congested, step.now);
      r.clock >= s.clock && r.timer == s.timer
  {
    hide CreditAt, Charge, NextCongestion;
  }

  lemma StopTimes(s: State, order: seq<Key>)
    ensures Shutdown(s, order).clock == s.clock && Shutdown(s, order).timer == if s.stopped then s.timer else None
  {
    hide JobSet, AllTickets;
  }

  lemma LimitTimes(s: State, bytesPerSecond: int, now: int)
    requires now >= s.clock
    ensures var r := SetBandwidthLimit(s, bytesPerSecond, now);
      && r.clock >= s.clock && r.policy.congestion == s.policy.congestion
      && r.timer == if Max(0, bytesPerSecond) != s.budget.limit then None else s.timer
  {
    hide CreditAt, NewLimit;
  }

  // A report that counts against the bandwidth limit.
  predicate Counts(s: State, step: Step) {
    step.Report? && !s.stopped && step.networkBytes > 0 && s.budget.limit > 0
  }

  // Limits are at least one slot; the transfers observed elsewhere are those not released yet, none
  // after shutdown.
  ghost predicate PolicyFollows(s: State, step: Step, r: State) {
    && r.policy.maxActive == (if !step.MaxActive? then s.policy.maxActive else if step.count > 1 then step.count else 1)
    && r.policy.laneLimits == (if step.LaneMaxActive? && step.lane != ""
                               then s.policy.laneLimits[step.lane := if step.count > 1 then step.count else 1]
                               else s.policy.laneLimits)
    && (forall x :: x in r.policy.external
          <==> if step.Stop? then x in s.policy.external && s.stopped
               else (x in s.policy.external && !(step.Release? && step.transport == x))
                    || (step.Observe? && step.transport == x && x != 0 && !s.stopped))
    && (r.stopped <==> s.stopped || step.Stop?)
  }

  // The bandwidth is not negative, and the bytes counted are those reported since it became another.
  predicate BudgetFollows(s: State, step: Step, r: State) {
    && r.budget.limit == (if !step.BandwidthLimit? then s.budget.limit else if step.bytesPerSecond > 0 then step.bytesPerSecond else 0)
    && (if r.budget.limit != s.budget.limit then r.budget.epochStart == r.clock && r.budget.epochBytes == 0
        else r.budget.epochStart == s.budget.epochStart
             && r.budget.epochBytes == s.budget.epochBytes + (if Counts(s, step) then step.networkBytes else 0))
  }

  // Settings are what they were last set to; no other step touches them.
  lemma StepSettings(s: State, step: Step)
    requires Enabled(s, step)
    ensures PolicyFollows(s, step, Apply(s, step)) && BudgetFollows(s, step, Apply(s, step))
  {
    hide Apply, Enabled;
    if SetsTimes(step) {
      SetPolicy(s, step);
      SetBudget(s, step);
    } else {
      OtherStepKeepsTime(s, step);
    }
  }

  // The credit: bandwidth that becomes limited starts with one second's worth; another limit leaves what
  // has come in so far, but no more than its own second's worth; the same limit changes nothing else. A
  // report that counts takes its bytes off.
  lemma PacingSetsCredit(s: State, step: Step)
    ensures step.BandwidthLimit? ==>
      var next := if step.bytesPerSecond > 0 then step.bytesPerSecond else 0;
      var credit, now := SetBandwidthLimit(s, step.bytesPerSecond, step.now).budget.credit, CreditAt(s.budget, step.now);
      credit == if next == s.budget.limit || (s.budget.limit != 0 && now <= next as real) then now else next as real
    ensures step.Report? ==>
      ReportTransfer(s, step.lane, step.networkBytes, step.congested, step.now).budget.credit
      == if s.stopped then s.budget.credit
         else CreditAt(s.budget, step.now) - (if Counts(s, step) then step.networkBytes as real else 0.0)
  {
    hide CreditAt, NextCongestion;
  }

  // The slots last asked for, of the first n steps; three to begin with.
  function SlotsAskedFor(steps: seq<Step>, n: nat): int
    requires n <= |steps|
  {
    if n == 0 then 3 else if steps[n - 1].MaxActive? then Max(1, steps[n - 1].count) else SlotsAskedFor(steps, n - 1)
  }

  // Over every run.
  lemma {:induction false} SlotsAreAsAskedFor(states: seq<State>, steps: seq<Step>, n: nat)
    requires IsRun(states, steps) && states[0] == INITIAL && n < |states|
    ensures states[n].policy.maxActive == SlotsAskedFor(steps, n) >= 1
  {
    hide Apply, Enabled;
    if n > 0 {
      SlotsAreAsAskedFor(states, steps, n - 1);
      assert states[n - 1 + 1] == Apply(states[n - 1], steps[n - 1]);
      StepSettings(states[n - 1], steps[n - 1]);
    }
  }

  lemma SetPolicy(s: State, step: Step)
    requires Enabled(s, step) && SetsTimes(step)
    ensures PolicyFollows(s, step, Apply(s, step))
  {
    hide CreditAt, Charge, NextCongestion, NewLimit, JobSet, AllTickets, Enumerates, SetBandwidthLimit, ReportTransfer, Shutdown;
    if step.BandwidthLimit? || step.Report? {
      PacingKeepsPolicy(s, step);
    } else if step.Stop? {
      StopClears(s, step.order);
    }
  }

  lemma StopClears(s: State, order: seq<Key>)
    ensures var r := Shutdown(s, order);
      && r.stopped && r.policy.maxActive == s.policy.maxActive && r.policy.laneLimits == s.policy.laneLimits
      && r.policy.external == if s.stopped then s.policy.external else {}
  {
    hide JobSet, AllTickets;
  }

  lemma PacingKeepsPolicy(s: State, step: Step)
    ensures step.BandwidthLimit? ==>
      var r := SetBandwidthLimit(s, step.bytesPerSecond, step.now);
      r.policy == s.policy && r.stopped == s.stopped
    ensures step.Report? ==>
      var r := ReportTransfer(s, step.lane, step.networkBytes, step.congested, step.now);
      r.policy == s.policy.(congestion := r.policy.congestion) && r.stopped == s.stopped
  {
    hide CreditAt, Charge, NextCongestion, NewLimit;
  }

  lemma SetBudget(s: State, step: Step)
    requires Enabled(s, step) && SetsTimes(step)
    ensures BudgetFollows(s, step, Apply(s, step))
  {
    hide CreditAt, NextCongestion, JobSet, AllTickets, Enumerates;
  }

  const LONGEST_BACK_OFF := 8000

  // Levels go from 1 to 6, and no lane is backed off for more than eight seconds from now.
  predicate BackedOff(congestion: map<Lane, Congestion>, clock: int) {
    forall lane :: lane in congestion ==>
      1 <= congestion[lane].level <= 6 && congestion[lane].retryAfter <= clock + LONGEST_BACK_OFF
  }

  lemma NextBacksOff(congestion: map<Lane, Congestion>, lane: Lane, congested: bool, clock: int, now: int)
    requires BackedOff(congestion, clock) && clock <= now
    ensures BackedOff(NextCongestion(congestion, lane, congested, now), now)
  {
  }

  lemma ReportBacksOff(s: State, step: Step)
    requires Enabled(s, step) && SetsTimes(step) && BackedOff(s.policy.congestion, s.clock)
    ensures var r := Apply(s, step); BackedOff(r.policy.congestion, r.clock)
  {
    hide CreditAt, Charge, NewLimit, NextCongestion, BackedOff, JobSet, AllTickets, Enumerates;
    SetTimes(s, step);
    NothingBacksOff(s.clock);
    LaterBacksOff(s.policy.congestion, s.clock, Apply(s, step).clock);
    if step.Report? {
      NextBacksOff(s.policy.congestion, step.lane, step.congested, s.clock, step.now);
    }
  }

  lemma NothingBacksOff(clock: int)
    ensures BackedOff(map[], clock)
  {
  }

  lemma LaterBacksOff(congestion: map<Lane, Congestion>, clock: int, now: int)
    requires BackedOff(congestion, clock) && clock <= now
    ensures BackedOff(congestion, now)
  {
  }

  // Over every run.
  lemma {:induction false} BackOffIsBounded(states: seq<State>, steps: seq<Step>, n: nat)
    requires IsRun(states, steps) && states[0] == INITIAL && n < |states|
    ensures BackedOff(states[n].policy.congestion, states[n].clock)
  {
    hide Apply, Enabled;
    if n > 0 {
      BackOffIsBounded(states, steps, n - 1);
      if SetsTimes(steps[n - 1]) {
        ReportBacksOff(states[n - 1], steps[n - 1]);
      } else {
        OtherStepKeepsTime(states[n - 1], steps[n - 1]);
      }
    }
  }

  // While transfers of a lane keep succeeding its level goes down by one each time, so at most
  // six successes after the last congested one it is no longer remembered.
  function AfterSuccesses(congestion: map<Lane, Congestion>, lane: Lane, now: int, n: nat): map<Lane, Congestion> {
    if n == 0 then congestion else NextCongestion(AfterSuccesses(congestion, lane, now, n - 1), lane, false, now)
  }

  lemma {:induction false} LevelGoesDown(congestion: map<Lane, Congestion>, lane: Lane, now: int, n: nat)
    requires lane != "" && lane in congestion && congestion[lane].level >= 1
    ensures var r := AfterSuccesses(congestion, lane, now, n);
      if n < congestion[lane].level then lane in r && r[lane] == Congestion(congestion[lane].level - n, congestion[lane].retryAfter)
      else r == congestion - {lane}
  {
    if n > 0 {
      LevelGoesDown(congestion, lane, now, n - 1);
      var before := AfterSuccesses(congestion, lane, now, n - 1);
      if n == congestion[lane].level {
        OthersKeep(congestion, lane, now, n - 1);
        assert before - {lane} == congestion - {lane};
      }
    }
  }

  lemma {:induction false} OthersKeep(congestion: map<Lane, Congestion>, lane: Lane, now: int, n: nat)
    ensures AfterSuccesses(congestion, lane, now, n) - {lane} == congestion - {lane}
  {
    if n > 0 {
      OthersKeep(congestion, lane, now, n - 1);
      var m := AfterSuccesses(congestion, lane, now, n - 1);
      assert NextCongestion(m, lane, false, now) - {lane} == m - {lane};
    }
  }

  // Each congested report in a row doubles the time its lane is backed off, from half a second up to
  // eight seconds.
  function Doubled(n: nat): int {
    if n <= 1 then 500 else 2 * Doubled(n - 1)
  }

  function AfterCongestion(congestion: map<Lane, Congestion>, lane: Lane, now: int, n: nat): map<Lane, Congestion> {
    if n == 0 then congestion else NextCongestion(AfterCongestion(congestion, lane, now, n - 1), lane, true, now)
  }

  lemma {:induction false} CongestionDoubles(congestion: map<Lane, Congestion>, lane: Lane, now: int, n: nat)
    requires lane != "" && lane !in congestion && n > 0
    ensures var r := AfterCongestion(congestion, lane, now, n);
      && r.Keys == congestion.Keys + {lane} && (forall l :: l in congestion ==> r[l] == congestion[l])
      && r[lane].level == (if n < 6 then n else 6)
      && r[lane].retryAfter == now + (if n < 5 then Doubled(n) else LONGEST_BACK_OFF)
  {
    if n > 1 {
      CongestionDoubles(congestion, lane, now, n - 1);
      assert Doubled(1) == 500 && Doubled(2) == 1000 && Doubled(3) == 2000 && Doubled(4) == 4000;
    } else {
      assert AfterCongestion(congestion, lane, now, 0) == congestion;
    }
  }
}
