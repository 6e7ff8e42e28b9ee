// The scheduler's promises, for every run and every way callbacks may re-enter it.
module SchedulerTheorems {
  import opened Basics
  import opened SchedulerState
  import opened SchedulerInvariant
  import opened SchedulerSteps
  import opened SchedulerFairness

  // ---- Exactly-once delivery ----

  lemma {:induction false} PaidTwice(d: seq<Delivery>, i: nat, j: nat)
    requires i < j < |d| && d[i].ticket == d[j].ticket
    ensures Paid(d)[d[i].ticket] >= 2
  {
    var init := d[..|d| - 1];
    if j < |d| - 1 {
      PaidTwice(init, i, j);
    } else {
      PaidContains(init, i);
    }
  }

  ghost predicate WasDelivered(d: seq<Delivery>, t: nat) {
    exists i :: 0 <= i < |d| && d[i].ticket == t
  }

  lemma {:induction false} PaidSome(d: seq<Delivery>, t: nat)
    requires t in Paid(d)
    ensures WasDelivered(d, t)
  {
    var init := d[..|d| - 1];
    if d[|d| - 1].ticket != t {
      PaidSome(init, t);
      var i :| 0 <= i < |init| && init[i].ticket == t;
      assert d[i].ticket == t;
    }
  }

  lemma TicketBalance(s: State, t: nat)
    requires Inv(s)
    ensures (if t in s.ticketKeys then 1 else 0) + Owed(s.stack)[t] + Paid(s.log.delivered)[t]
            == if 1 <= t <= s.nextTicket then 1 else 0
  {
    hide FramesRightful, DeliveriesRightful, FramesSound, AdmissionsSound, CreditSound, Slots, Sequenced,
         JoinedKnown, AbortsKnown, Linked;
    assert Issued(s.nextTicket)[t] == (multiset(s.ticketKeys.Keys) + Owed(s.stack) + Paid(s.log.delivered))[t];
  }

  // No completion is called twice, none that was called is still registered, and once the
  // scheduler has stopped and the last call has returned, every ticket ever issued was called.
  lemma ExactlyOnce(states: seq<State>, steps: seq<Step>, n: nat)
    requires IsRun(states, steps) && states[0] == INITIAL && n < |states|
    ensures var s := states[n]; var d := s.log.delivered;
      && (forall i, j :: 0 <= i < j < |d| ==> d[i].ticket != d[j].ticket)
      && (forall i :: 0 <= i < |d| ==> 1 <= d[i].ticket <= s.nextTicket && d[i].ticket !in s.ticketKeys)
      && (s.stopped && s.stack == [] ==>
            forall t :: 1 <= t <= s.nextTicket ==> WasDelivered(d, t))
  {
    hide Inv, Enabled, Apply;
    RunKeeps(states, steps, n);
    var s := states[n];
    var d := s.log.delivered;
    forall i, j | 0 <= i < j < |d| ensures d[i].ticket != d[j].ticket {
      TicketBalance(s, d[i].ticket);
      if d[i].ticket == d[j].ticket { PaidTwice(d, i, j); }
    }
    forall i | 0 <= i < |d| ensures 1 <= d[i].ticket <= s.nextTicket && d[i].ticket !in s.ticketKeys {
      TicketBalance(s, d[i].ticket);
      PaidContains(d, i);
    }
    if s.stopped && s.stack == [] {
      StoppedHasNoTickets(s);
      forall t: nat | 1 <= t <= s.nextTicket ensures WasDelivered(d, t) {
        TicketBalance(s, t);
        PaidSome(d, t);
      }
    }
  }

  // A cancelled ticket is forgotten at once, its consumer is called once, now or when abort()
  // returns, and nobody else is affected.
  lemma CancelledIsAnswered(s: State, ticket: nat)
    requires Inv(s) && ticket in s.ticketKeys
    ensures var r := Cancel(s, ticket);
      && r.ticketKeys == s.ticketKeys - {ticket} && Owed(r.stack)[ticket] + Paid(r.log.delivered)[ticket] == 1
      && forall t: nat :: t != ticket ==>
           Owed(r.stack)[t] + Paid(r.log.delivered)[t] == Owed(s.stack)[t] + Paid(s.log.delivered)[t]
  {
    hide Inv, Owed, Paid, Cancel;
    CancelKeeps(s, ticket);
    CancelForgets(s, ticket);
    CancelIssuesNothing(s, ticket);
    var r := Cancel(s, ticket);
    TicketBalance(r, ticket);
    TicketBalance(s, ticket);
    forall t: nat | t != ticket
      ensures Owed(r.stack)[t] + Paid(r.log.delivered)[t] == Owed(s.stack)[t] + Paid(s.log.delivered)[t]
    {
      TicketBalance(r, t);
      TicketBalance(s, t);
    }
  }

  lemma StoppedHasNoTickets(s: State)
    requires Inv(s) && s.stopped
    ensures s.ticketKeys == map[]
  {
    hide FramesRightful, DeliveriesRightful, FramesSound, AdmissionsSound, CreditSound, Slots, Sequenced,
         JoinedKnown, AbortsKnown, Conserved, Linked;
    LinkedTickets(s.jobs, s.ticketKeys);
  }

  lemma LinkedTickets(jobs: map<Key, Job>, keys: map<nat, Key>)
    requires Linked(jobs, keys)
    ensures forall t :: t in keys ==> keys[t] in jobs
  {
  }

  // ---- Slots ----

  // The counters mean what they say in every reachable state.
  lemma SlotsAreExact(states: seq<State>, steps: seq<Step>, n: nat)
    requires IsRun(states, steps) && states[0] == INITIAL && n < |states|
    ensures var s := states[n];
      && s.active == |ActiveKeys(s.jobs)|
      && (forall lane :: GetOr(s.laneActive, lane, 0) == |LaneKeys(s.jobs, lane)|)
      && (forall lane :: lane in s.laneActive ==> s.laneActive[lane] > 0)
      && (forall k :: k in s.jobs && !s.jobs[k].active ==> s.jobs[k].waiters != [])
  {
    hide Enabled, Apply, FramesRightful, DeliveriesRightful, FramesSound, AdmissionsSound, CreditSound, Sequenced,
         JoinedKnown, AbortsKnown, Conserved, Linked;
    RunKeeps(states, steps, n);
  }

  lemma LaneCount(jobs: map<Key, Job>, active: int, laneActive: map<Lane, int>, lane: Lane)
    requires Slots(jobs, active, laneActive)
    ensures GetOr(laneActive, lane, 0) == |LaneKeys(jobs, lane)|
  {
  }

  // A round of the admission loop that admits a job keeps the global and the lane limit.
  lemma AdmissionRespectsLimits(s: State, now: int, check: Check) returns (key: Key)
    requires Inv(s) && PumpLoop(s, now, check).log.admitted != s.log.admitted
    ensures var r := PumpLoop(s, now, check);
      && key in r.jobs && r.log.admitted == s.log.admitted + [Admission(key, r.jobs[key].sequence, check)]
      && r.active + |r.policy.external| <= r.policy.maxActive
      && |LaneKeys(r.jobs, r.jobs[key].lane)| <= GetOr(r.policy.laneLimits, r.jobs[key].lane, 1)
  {
    hide FramesRightful, DeliveriesRightful, FramesSound, AdmissionsSound, CreditSound, Sequenced, IsOldest, PumpLoop,
         JoinedKnown, AbortsKnown, Conserved, Linked, EligibleKeys, LaneKeys, ActiveKeys, Slots;
    var timer, bypasses;
    timer, key, bypasses := PumpLoopCases(s, now, check);
    var r := PumpLoop(s, now, check);
    EligibleIsJob(s, now);
    SlotsTaken(s.jobs, s.active, s.laneActive, key);
    LaneCount(r.jobs, r.active, r.laneActive, r.jobs[key].lane);
    FreeBudget(s, now, check);
  }

  // It admits nothing only if the budget is used up or no job is eligible.
  lemma NothingAdmitted(s: State, now: int, check: Check)
    requires PumpLoop(s, now, check).log.admitted == s.log.admitted
    ensures s.active + |s.policy.external| >= s.policy.maxActive || forall k :: !Eligible(s, k, now)
  {
    hide IsOldest, IsPreferred, IsFirstWake;
    var keys := EligibleKeys(s, now);
    if s.active + |s.policy.external| < s.policy.maxActive && keys != {} {
      PreferredIsMember(s, keys);
    }
    assert forall k :: Eligible(s, k, now) ==> k in keys;
  }

  lemma FreeBudget(s: State, now: int, check: Check)
    requires PumpLoop(s, now, check).log.admitted != s.log.admitted
    ensures s.active + |s.policy.external| < s.policy.maxActive
  {
  }

  // ---- Single flight ----

  // No attempt is ever fetched twice.
  lemma AdmittedOnce(states: seq<State>, steps: seq<Step>, n: nat)
    requires IsRun(states, steps) && states[0] == INITIAL && n < |states|
    ensures var log := states[n].log.admitted;
      forall i, j :: 0 <= i < j < |log| ==> log[i].sequence != log[j].sequence
  {
    hide Enabled, Apply, FramesRightful, DeliveriesRightful, FramesSound, AdmissionsSound, CreditSound, Slots,
         JoinedKnown, AbortsKnown, Conserved, Linked;
    RunKeeps(states, steps, n);
  }

  ghost predicate Current(s: State, sequence: nat) {
    exists k :: k in s.jobs && s.jobs[k].sequence == sequence
  }

  // Once an attempt is over (settled, restarted, retired or abandoned) it stays over, and
  // a completion carrying its number changes nothing, however late it arrives.
  lemma {:induction false} LateCompletionIsHarmless(states: seq<State>, steps: seq<Step>, i: nat, j: nat,
                                                    key: Key, sequence: nat, bytes: Bytes, error: string)
    requires IsRun(states, steps) && states[0] == INITIAL && i <= j < |states|
    requires sequence <= states[i].nextSequence && !Current(states[i], sequence)
    ensures !Current(states[j], sequence) && sequence <= states[j].nextSequence
    ensures Finish(states[j], key, sequence, bytes, error) == states[j]
  {
    hide Inv, Apply, Enabled;
    if i < j {
      LateCompletionIsHarmless(states, steps, i, j - 1, key, sequence, bytes, error);
      RunKeeps(states, steps, j - 1);
      StepEvolves(states[j - 1], steps[j - 1]);
    }
  }

  // What a consumer receives was fetched for it: the data comes from an admitted attempt, and a
  // consumer that joined an attempt while it was being aborted never sees that attempt fail.
  lemma OutcomesAreRightful(states: seq<State>, steps: seq<Step>, n: nat, i: nat)
    requires IsRun(states, steps) && states[0] == INITIAL && n < |states| && i < |states[n].log.delivered|
    ensures var log := states[n].log;
      Rightful(log.delivered[i].ticket, log.delivered[i].outcome, log.joinedAborting, log.admitted)
  {
    hide Enabled, Apply, FramesRightful, FramesSound, AdmissionsSound, CreditSound, Slots, Sequenced, Rightful,
         JoinedKnown, AbortsKnown, Conserved, Linked;
    RunKeeps(states, steps, n);
  }

  // Instead, its job waits again under the largest sequence, with all its waiters.
  lemma AbortedAttemptIsRetried(s: State, key: Key, bytes: Bytes, error: string)
    requires Inv(s) && key in s.jobs && s.jobs[key].active && s.jobs[key].aborting && s.jobs[key].waiters != []
    requires error != "" || bytes == []
    ensures var r := Finish(s, key, s.jobs[key].sequence, bytes, error);
      && Waiting(r, key) && r.jobs[key].waiters == s.jobs[key].waiters && r.ticketKeys == s.ticketKeys
      && r.jobs[key].id == s.jobs[key].id && !r.jobs[key].aborting
      && (forall k :: k in r.jobs && k != key ==> r.jobs[k].sequence < r.jobs[key].sequence)
      && r.log == s.log && (s.stopped || r.scheduled)
  {
    hide FramesRightful, DeliveriesRightful, FramesSound, AdmissionsSound, CreditSound, Slots, Sequenced,
         JoinedKnown, AbortsKnown, Conserved, Linked;
    forall k | k in s.jobs ensures s.jobs[k].sequence <= s.nextSequence {
      SequenceBounded(s.jobs, s.nextSequence, s.log.admitted, k);
    }
  }

  // ---- Token bucket ----

  // The first admission of a pump happens only if the bytes reported since the limit was set
  // fit into one second's burst plus the rate times the elapsed time.
  lemma TokenBucketAtPumpEntry(s: State, now: int)
    requires Inv(s) && Enabled(s, RunPump(now)) && Apply(s, RunPump(now)).log.admitted != s.log.admitted
    requires s.budget.limit > 0
    ensures s.budget.epochBytes as real <= Allowance(s.budget.limit, now - s.budget.epochStart)
  {
    hide Core, PumpLoop, CreditAt, Allowance, DebtDelay;
    ClockKeeps(s, now, false);
    var s0 := s.(scheduled := false, clock := now);
    ReplenishKeeps(s0, now);
    CheckIsSound(Replenish(s0, now), now);
  }

  // Later admissions of the same pump rest on the check made at its entry: over every run, each
  // admission carries a check, taken at the entry of its pump, that satisfies the bound.
  lemma TokenBucketOverRuns(states: seq<State>, steps: seq<Step>, n: nat, i: nat)
    requires IsRun(states, steps) && states[0] == INITIAL && n < |states| && i < |states[n].log.admitted|
    ensures var c := states[n].log.admitted[i].check;
      c.limit > 0 ==> c.bytes as real <= Allowance(c.limit, c.elapsed)
  {
    hide Enabled, Apply, FramesRightful, DeliveriesRightful, FramesSound, CreditSound, Slots, Sequenced,
         JoinedKnown, AbortsKnown, Conserved, Linked, Allowance;
    RunKeeps(states, steps, n);
    assert CheckSound(states[n].log.admitted[i].check);
  }
}
