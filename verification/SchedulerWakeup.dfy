// No lost wake-up: whenever the scheduler could admit a job, something is due to
// make it look: a posted pump, a timer that has run out, or a pump in progress.
module SchedulerWakeup {
  import opened Basics
  import opened SchedulerState
  import opened SchedulerInvariant
  import opened SchedulerSteps
  import opened SchedulerFairness

  predicate PumpFrame(f: Frame) {
    f.Fetching? || f.Aborting?
  }

  ghost predicate PumpSuspended(stack: seq<Frame>) {
    exists i :: 0 <= i < |stack| && PumpFrame(stack[i])
  }

  // A pump at time t, in the state s left alone until then, would admit a job.
  ghost predicate AdmissibleAt(s: State, t: int) {
    && !s.stopped
    && s.active + |s.policy.external| < s.policy.maxActive
    && (s.budget.limit > 0 ==> CreditAt(s.budget, t) >= 0.0)
    && exists k :: Eligible(s, k, t)
  }

  ghost predicate WakeupDue(s: State, t: int) {
    s.scheduled || (s.timer.Some? && s.timer.value <= t) || PumpSuspended(s.stack)
  }

  ghost predicate Awake(s: State) {
    forall t :: t >= s.clock && AdmissibleAt(s, t) ==> WakeupDue(s, t)
  }

  lemma ScheduledIsAwake(s: State)
    ensures Awake(Schedule(s))
  {
    hide Eligible, CreditAt;
  }

  // ---- Steps that do not make more admissible ----

  ghost predicate NoMore(s: State, r: State) {
    && r.clock >= s.clock
    && (forall t :: t >= r.clock && AdmissibleAt(r, t) ==> AdmissibleAt(s, t))
    && r.scheduled == s.scheduled && r.timer == s.timer
    && (PumpSuspended(s.stack) ==> PumpSuspended(r.stack))
  }

  lemma NoMoreAwake(s: State, r: State)
    requires Awake(s) && NoMore(s, r)
    ensures Awake(r)
  {
    hide AdmissibleAt, PumpSuspended;
  }

  lemma StackPushed(s: State, r: State, f: Frame)
    requires r.stack == [f] + s.stack
    ensures PumpSuspended(s.stack) || PumpFrame(f) ==> PumpSuspended(r.stack)
  {
    if PumpFrame(f) {
      assert PumpFrame(r.stack[0]);
    } else if PumpSuspended(s.stack) {
      var i :| 0 <= i < |s.stack| && PumpFrame(s.stack[i]);
      assert r.stack[i + 1] == s.stack[i];
    }
  }

  lemma StackPopped(s: State)
    requires s.stack != [] && !PumpFrame(s.stack[0])
    ensures PumpSuspended(s.stack) ==> PumpSuspended(s.stack[1..])
  {
    if PumpSuspended(s.stack) {
      var i :| 0 <= i < |s.stack| && PumpFrame(s.stack[i]);
      assert s.stack[1..][i - 1] == s.stack[i];
    }
  }

  // `r` has the same slots, policy and budget, and at most the waiting jobs of `s`.
  lemma FewerWaiting(s: State, r: State)
    requires r.stopped == s.stopped && r.active == s.active && r.laneActive == s.laneActive
    requires r.policy == s.policy && r.budget == s.budget
    requires forall k :: Waiting(r, k) ==> Waiting(s, k) && r.jobs[k].lane == s.jobs[k].lane
    ensures forall t :: AdmissibleAt(r, t) ==> AdmissibleAt(s, t)
  {
    hide CreditAt;
    forall t | AdmissibleAt(r, t) ensures AdmissibleAt(s, t) {
      var k :| Eligible(r, k, t);
      assert Eligible(s, k, t);
    }
  }

  lemma CancelAwake(s: State, ticket: nat)
    requires Inv(s) && Awake(s)
    ensures Awake(Cancel(s, ticket))
  {
    hide Core, Cancel, AdmissibleAt, Awake, WithoutTicket, Tickets;
    if ticket in s.ticketKeys {
      CoreTicket(s, ticket);
      CancelCases(s, ticket);
      var key := s.ticketKeys[ticket];
      var s2 := Unlinked(s, ticket, s.jobs[key].aborting);
      ScheduledIsAwake(Deliver(s2, Some(ticket), Cancelled));
      ScheduledIsAwake(Detach(Deliver(s2, Some(ticket), Cancelled), key));
      if s2.jobs[key].waiters == [] && s.jobs[key].active {
        AbortAwake(s, ticket);
      }
    } else {
      CancelUnknown(s, ticket);
    }
  }

  lemma AbortAwake(s: State, ticket: nat)
    requires Awake(s) && ticket in s.ticketKeys && s.ticketKeys[ticket] in s.jobs
    requires s.jobs[s.ticketKeys[ticket]].active
    ensures Awake(Push(Unlinked(s, ticket, true), Cancelling(Some(ticket))))
  {
    hide AdmissibleAt, Awake, WithoutTicket, PumpSuspended;
    var r := Push(Unlinked(s, ticket, true), Cancelling(Some(ticket)));
    StackPushed(s, r, Cancelling(Some(ticket)));
    FewerWaiting(s, r);
    NoMoreAwake(s, r);
  }

  lemma PushedAwake(s: State, f: Frame)
    requires Awake(s)
    ensures Awake(Push(s, f))
  {
    hide AdmissibleAt, Awake, PumpSuspended;
    StackPushed(s, Push(s, f), f);
    FewerWaiting(s, Push(s, f));
    NoMoreAwake(s, Push(s, f));
  }

  lemma AbandonAwake(s: State, ticket: nat)
    requires Inv(s) && Awake(s)
    ensures Awake(AbandonStopped(s, ticket))
  {
    hide Core, Cancel, Awake;
    if ticket in s.ticketKeys && s.ticketKeys[ticket] in s.jobs {
      var key := s.ticketKeys[ticket];
      var f := Abandoning(key, s.jobs[key].id, s.jobs[key].sequence);
      PushedAwake(s, f);
      PushKeeps(s, f);
      CancelAwake(Push(s, f), ticket);
    }
  }

  // ---- The budget over time ----

  lemma CreditComposes(b: Budget, now: int, t: int)
    requires b.lastUpdate <= now <= t && b.limit >= 0 && (b.limit > 0 ==> b.credit <= b.limit as real)
    ensures CreditAt(b.(credit := CreditAt(b, now), lastUpdate := now), t) == CreditAt(b, t)
  {
    if b.limit > 0 {
      var x, y := (now - b.lastUpdate) as real * b.limit as real, (t - now) as real * b.limit as real;
      assert (t - b.lastUpdate) as real == (now - b.lastUpdate) as real + (t - now) as real;
      assert (t - b.lastUpdate) as real * b.limit as real == x + y;
      assert x >= 0.0 && y >= 0.0;
    }
  }

  // The computed delay is long enough for the debt to be paid off: before it is over
  // (and unless it was clamped) the credit is still negative.
  lemma DebtLasts(b: Budget, now: int, t: int)
    requires b.limit > 0 && b.credit < 0.0 && b.lastUpdate == now <= t
    requires CreditAt(b, t) >= 0.0
    ensures t - now >= DebtDelay(b) && DebtDelay(b) >= 1
  {
    var x := -b.credit * 1000.0 / b.limit as real;
    assert x > 0.0 by {
      assert -b.credit * 1000.0 > 0.0;
    }
    assert Ceil(x) as real >= x && Ceil(x) as real < x + 1.0;
    var e := (t - now) as real;
    assert e * b.limit as real / 1000.0 >= -b.credit;
    assert e * b.limit as real >= x * b.limit as real;
    assert e >= x;
  }

  // ... and once it is over, unclamped, the credit is no longer negative.
  lemma DebtPaid(b: Budget, now: int)
    requires b.limit > 0 && b.credit < 0.0 && b.lastUpdate == now
    requires Ceil(-b.credit * 1000.0 / b.limit as real) <= MAX_INT32
    ensures CreditAt(b, now + DebtDelay(b)) >= 0.0
  {
    var x := -b.credit * 1000.0 / b.limit as real;
    var d := DebtDelay(b);
    assert x > 0.0 by { assert -b.credit * 1000.0 > 0.0; }
    assert d as real >= x;
    assert d as real * b.limit as real >= x * b.limit as real;
    assert x * b.limit as real == -b.credit * 1000.0;
  }

  lemma ReplenishedAwake(s: State, now: int)
    requires Inv(s) && Awake(s) && now >= s.clock
    ensures Awake(Replenish(s, now))
  {
    hide Awake, PumpSuspended, CreditAt, Core;
    BudgetFacts(s);
    var r := Replenish(s, now);
    forall t | t >= now && AdmissibleAt(r, t) ensures AdmissibleAt(s, t) {
      CreditComposes(s.budget, now, t);
      var k :| Eligible(r, k, t);
      assert Eligible(s, k, t);
    }
    NoMoreAwake(s, r);
  }

  lemma BudgetFacts(s: State)
    requires Core(s)
    ensures s.budget.lastUpdate <= s.clock && s.budget.limit >= 0
    ensures s.budget.limit > 0 ==> s.budget.credit <= s.budget.limit as real
  {
    hide Conserved, FramesRightful, DeliveriesRightful, FramesSound, AdmissionsSound, Slots, Sequenced,
         JoinedKnown, AbortsKnown, Linked, Allowance;
  }

  // ---- pump ----

  lemma WakeupBy(s: State, delay: int, now: int, t: int)
    requires delay >= 1 && t >= now + delay
    ensures WakeupDue(ScheduleWakeup(s, delay, now), t)
  {
  }

  lemma PumpLoopAwake(s: State, now: int, check: Check)
    requires s.clock == now
    ensures Awake(PumpLoop(s, now, check))
  {
    hide IsOldest, IsPreferred, EligibleKeys, CreditAt;
    EligibleIsJob(s, now);
    if s.active + |s.policy.external| >= s.policy.maxActive {
    } else if EligibleKeys(s, now) != {} {
      var r := PumpLoop(s, now, check);
      PreferredIsMember(s, EligibleKeys(s, now));
      assert PumpFrame(r.stack[0]);
    } else {
      var r := PumpLoop(s, now, check);
      forall t | t >= now && AdmissibleAt(r, t) ensures WakeupDue(r, t) {
        var k :| Eligible(r, k, t);
        NotEligibleIsBlocked(s, k, now, t);
        WakeupBy(s, FirstWake(s, now).value, now, t);
      }
    }
  }

  lemma NotEligibleIsBlocked(s: State, key: Key, now: int, t: int)
    requires Eligible(s, key, t) && t >= now && EligibleKeys(s, now) == {}
    ensures FirstWake(s, now).Some? && 1 <= FirstWake(s, now).value <= t - now
  {
    assert key !in EligibleKeys(s, now);
    assert key in BlockedKeys(s, now);
  }

  lemma DebtAwake(s: State, now: int)
    requires s.clock == now == s.budget.lastUpdate && s.budget.limit > 0 && s.budget.credit < 0.0
    ensures Awake(ScheduleWakeup(s, DebtDelay(s.budget), now))
    ensures !(exists k :: Waiting(s, k)) ==> Awake(s)
  {
    hide CreditAt, DebtDelay;
    var r := ScheduleWakeup(s, DebtDelay(s.budget), now);
    forall t | t >= now && AdmissibleAt(r, t) ensures WakeupDue(r, t) {
      DebtLasts(s.budget, now, t);
      WakeupBy(s, DebtDelay(s.budget), now, t);
    }
    assert forall k, t :: Eligible(s, k, t) ==> Waiting(s, k);
  }

  lemma PumpAwake(s: State, now: int)
    requires s.clock == now
    ensures Awake(Pump(s, now))
  {
    hide Awake, PumpLoop, DebtDelay, CreditAt;
    if s.stopped {
      StoppedAwake(s);
    } else {
      var s1 := Replenish(s, now);
      if s1.budget.limit > 0 && s1.budget.credit < 0.0 {
        DebtAwake(s1, now);
      } else {
        PumpLoopAwake(s1, now, CheckOf(s1.budget, now));
      }
    }
  }

  lemma StoppedAwake(s: State)
    requires s.stopped
    ensures Awake(s)
  {
  }

  // ---- Everything else ----

  lemma FetchingAwake(s: State, handle: bool, now: int)
    requires s.stack != [] && s.stack[0].Fetching?
    ensures Awake(ResumeFetching(s, handle, now))
  {
    hide Awake, PumpLoop;
    var f := s.stack[0];
    var s1 := Pop(s).(clock := now);
    AbortingFrameAwake(s1, f.check);
    PumpLoopAwake(s1, now, f.check);
    if f.key in s.jobs {
      AbortingFrameAwake(WithJob(s1, f.key, s.jobs[f.key].(abort := handle, aborting := true)), f.check);
      PumpLoopAwake(WithJob(s1, f.key, s.jobs[f.key].(abort := handle)), now, f.check);
    }
  }

  lemma AbortingFrameAwake(s: State, check: Check)
    ensures Awake(Push(s, Aborting(check)))
  {
    hide AdmissibleAt;
    StackPushed(s, Push(s, Aborting(check)), Aborting(check));
  }

  lemma PoppedAwake(s: State, r: State)
    requires Awake(s) && s.stack != [] && !PumpFrame(s.stack[0])
    requires r == s.(stack := r.stack, log := r.log) && (r.stack == s.stack[1..] || (r.stack != [] && r.stack[1..] == s.stack[1..]))
    ensures Awake(r)
  {
    hide Awake, AdmissibleAt, PumpSuspended;
    StackPopped(s);
    if r.stack != s.stack[1..] {
      assert r.stack == [r.stack[0]] + r.stack[1..];
      StackPushed(s.(stack := s.stack[1..]), r, r.stack[0]);
    }
    FewerWaiting(s, r);
    NoMoreAwake(s, r);
  }

  lemma ResumeAwake(s: State, handle: bool, now: int)
    requires Awake(s) && s.stack != []
    ensures Awake(ResumeTop(s, handle, now))
  {
    hide Awake, PumpLoop, ResumeFetching;
    match s.stack[0]
    case Cancelling(_) =>
      DeliverSchedule(Pop(s), s.stack[0].done, Cancelled);
      ScheduledIsAwake(Deliver(Pop(s), s.stack[0].done, Cancelled));
    case Abandoning(key, _, _) =>
      PoppedAwake(s, Pop(s));
      if key in s.jobs {
        ScheduledIsAwake(ReleaseSlot(Detach(Pop(s), key), s.jobs[key].lane));
      }
    case Delivering(_, _) => PoppedAwake(s, ResumeDelivering(s));
    case Fetching(_, _, _, _) => FetchingAwake(s, handle, now);
    case Aborting(_) => PumpLoopAwake(Pop(s).(clock := now), now, s.stack[0].check);
  }

  lemma ObserveAwake(s: State, transport: nat)
    requires Awake(s)
    ensures Awake(ObserveExternal(s, transport))
  {
    hide Awake, PumpSuspended, CreditAt;
    var r := ObserveExternal(s, transport);
    SubsetCardinality(s.policy.external, s.policy.external + {transport});
    forall t | AdmissibleAt(r, t) ensures AdmissibleAt(s, t) {
      var k :| Eligible(r, k, t);
      assert Eligible(s, k, t);
    }
    NoMoreAwake(s, r);
  }

  lemma AddWaiterAwake(s: State, source: string, index: nat, lane: Lane, priority: Priority,
                       fetch: Option<FetchKind>, hasDone: bool, owner: nat)
    requires Awake(s)
    ensures Awake(AddWaiter(s, source, index, lane, priority, fetch, hasDone, owner).0)
  {
    hide Awake, MakeKey, Schedule;
    var key := MakeKey(source, index);
    if !(s.stopped || source == "" || lane == "" || fetch.None? || !hasDone || (key in s.jobs && s.jobs[key].lane != lane)) {
      ScheduledIsAwake(Join(if key in s.jobs then s else NewJob(s, key, lane, fetch.value, owner), key, priority));
    }
  }

  lemma CallAwake(s: State, step: Step)
    requires Inv(s) && Awake(s) && Enabled(s, step) && !step.RunPump? && !step.Resume? && !step.Request?
    ensures Awake(Apply(s, step))
  {
    hide Inv, Awake, Schedule, Cancel, AbandonStopped, Enumerates, RetireAll, CreditAt, NextCongestion, Charge,
         Settle, Restart, Tickets, WithPriority, AddWaiter, NewLimit, JobSet, AllTickets;
    match step
    case CancelTicket(ticket) => CancelAwake(s, ticket);
    case Abandon(ticket) => AbandonAwake(s, ticket);
    case Retire(owner, order) => ScheduledIsAwake(RetireAll(Push(s, Delivering([], TransportStopped)), owner, order));
    case SetPriority(ticket, priority) =>
      if ticket in s.ticketKeys && s.ticketKeys[ticket] in s.jobs {
        var job := s.jobs[s.ticketKeys[ticket]];
        ScheduledIsAwake(WithJob(s, s.ticketKeys[ticket], job.(waiters := WithPriority(job.waiters, ticket, priority))));
      }
    case Observe(x) => ObserveAwake(s, x);
    case Release(x) => ScheduledIsAwake(s.(policy := s.policy.(external := s.policy.external - {x})));
    case MaxActive(n) => ScheduledIsAwake(s.(policy := s.policy.(maxActive := Max(1, n))));
    case LaneMaxActive(l, n) =>
      ScheduledIsAwake(s.(policy := s.policy.(laneLimits := s.policy.laneLimits[l := Max(1, n)])));
    case BandwidthLimit(bytes, now) =>
      ReplenishedAwake(s, now);
      var s1 := Replenish(s, now);
      ScheduledIsAwake(s1.(budget := NewLimit(s1.budget, Max(0, bytes), now), timer := None));
    case Report(lane, bytes, congested, now) =>
      var s1 := Replenish(s, now);
      ScheduledIsAwake(s1.(budget := Charge(s1.budget, bytes),
        policy := s1.policy.(congestion := NextCongestion(s1.policy.congestion, lane, congested, now))));
    case Complete(key, sequence, bytes, error) =>
      if key in s.jobs {
        var s1 := ReleaseSlot(s, s.jobs[key].lane);
        ScheduledIsAwake(Restart(s1, key));
        ScheduledIsAwake(Settle(s1, key, Finished(sequence, bytes, error)));
      }
    case Stop(order) => if !s.stopped { StoppedAwake(Shutdown(s, order)); }
    case TimerFires(now) => ScheduledIsAwake(s.(timer := None, clock := now));
  }

  lemma StepAwake(s: State, step: Step)
    requires Inv(s) && Awake(s) && Enabled(s, step)
    ensures Awake(Apply(s, step))
  {
    hide Inv, Awake, AddWaiter, Pump, ResumeTop, Cancel, AbandonStopped, RetireStoppedOwner, Reprioritize, Finish,
         Shutdown, SetBandwidthLimit, ReportTransfer, Enumerates;
    if step.RunPump? {
      PumpAwake(s.(scheduled := false, clock := step.now), step.now);
    } else if step.Resume? {
      ResumeAwake(s, step.handle, step.now);
    } else if step.Request? {
      AddWaiterAwake(s, step.source, step.index, step.lane, step.priority, step.fetch, step.hasDone, step.owner);
    } else {
      CallAwake(s, step);
    }
  }

  // Over every run: nothing that could be admitted, now or later, is forgotten.
  lemma {:induction false} NoLostWakeup(states: seq<State>, steps: seq<Step>, i: nat)
    requires IsRun(states, steps) && states[0] == INITIAL && i < |states|
    ensures Awake(states[i])
  {
    hide Inv, Apply, Enabled, Awake;
    if i == 0 {
      ScheduledIsAwake(INITIAL);
      InitiallyAwake();
    } else {
      RunKeeps(states, steps, i - 1);
      NoLostWakeup(states, steps, i - 1);
      StepAwake(states[i - 1], steps[i - 1]);
    }
  }

  lemma InitiallyAwake()
    ensures Awake(INITIAL)
  {
  }
}
