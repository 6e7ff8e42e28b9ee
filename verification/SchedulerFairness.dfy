// Priority with bounded starvation: an eligible job is passed over only a
// bounded number of times.
module SchedulerFairness {
  import opened Basics
  import opened SchedulerState
  import opened SchedulerInvariant
  import opened SchedulerSteps

  // Jobs waiting with a smaller sequence than `sequence`.
  ghost function Earlier(s: State, sequence: nat): set<Key> {
    set k | k in s.jobs && !s.jobs[k].active && s.jobs[k].sequence < sequence
  }

  // How many admissions can still go to other jobs, at most, plus one.
  ghost function Patience(s: State, sequence: nat): int {
    (MAX_PRIORITY_BYPASSES + 1) * (|Earlier(s, sequence)| + 1) - s.bypasses
  }

  // Attempts numbered up to n neither move, nor come back, nor return to waiting, and stay with
  // their job object.
  ghost predicate JobsEvolve(jobs: map<Key, Job>, n: nat, next: map<Key, Job>) {
    forall k :: k in next && next[k].sequence <= n ==>
      && k in jobs && jobs[k].sequence == next[k].sequence && jobs[k].id == next[k].id
      && (jobs[k].active ==> next[k].active)
  }

  ghost predicate Evolves(s: State, r: State) {
    s.nextSequence <= r.nextSequence && JobsEvolve(s.jobs, s.nextSequence, r.jobs)
  }

  // ... and nothing is admitted.
  ghost predicate Quiet(s: State, r: State) {
    Evolves(s, r) && r.log.admitted == s.log.admitted && r.bypasses == s.bypasses
  }

  lemma EvolveRemove(jobs: map<Key, Job>, n: nat, key: Key)
    ensures JobsEvolve(jobs, n, jobs - {key})
    ensures JobsEvolve(jobs, n, jobs) && JobsEvolve(jobs, n, map[])
  {
  }

  lemma EvolveUpdate(jobs: map<Key, Job>, n: nat, key: Key, job: Job)
    requires job.sequence > n
      || (key in jobs && job.sequence == jobs[key].sequence && job.id == jobs[key].id
          && (jobs[key].active ==> job.active))
    ensures JobsEvolve(jobs, n, jobs[key := job])
  {
  }

  lemma EvolveTrans(a: map<Key, Job>, n: nat, b: map<Key, Job>, c: map<Key, Job>)
    requires JobsEvolve(a, n, b) && JobsEvolve(b, n, c)
    ensures JobsEvolve(a, n, c)
  {
  }

  lemma EarlierShrinks(s: State, r: State, sequence: nat)
    requires Evolves(s, r) && sequence <= s.nextSequence
    ensures |Earlier(r, sequence)| <= |Earlier(s, sequence)|
  {
    assert Earlier(r, sequence) <= Earlier(s, sequence);
    SubsetCardinality(Earlier(r, sequence), Earlier(s, sequence));
  }

  // ---- Every step is quiet, up to at most one round of the admission loop ----

  lemma CancelQuiet(s: State, ticket: nat)
    requires Inv(s)
    ensures Quiet(s, Cancel(s, ticket))
  {
    hide Core, Cancel, WithoutTicket, Tickets, JobsEvolve;
    EvolveRemove(s.jobs, s.nextSequence, "");
    if ticket in s.ticketKeys {
      CoreTicket(s, ticket);
      CancelCases(s, ticket);
      UnlinkQuiet(s, ticket, s.jobs[s.ticketKeys[ticket]].aborting);
      UnlinkQuiet(s, ticket, true);
    } else {
      CancelUnknown(s, ticket);
    }
  }

  lemma UnlinkQuiet(s: State, ticket: nat, aborting: bool)
    requires ticket in s.ticketKeys && s.ticketKeys[ticket] in s.jobs
    ensures var key := s.ticketKeys[ticket];
      var r := Unlinked(s, ticket, aborting).jobs;
      JobsEvolve(s.jobs, s.nextSequence, r) && JobsEvolve(s.jobs, s.nextSequence, r - {key})
  {
    hide WithoutTicket, Tickets, JobsEvolve;
    var key := s.ticketKeys[ticket];
    var r := Unlinked(s, ticket, aborting).jobs;
    EvolveUpdate(s.jobs, s.nextSequence, key, r[key]);
    EvolveRemove(r, s.nextSequence, key);
    EvolveTrans(s.jobs, s.nextSequence, r, r - {key});
  }

  lemma AddWaiterQuiet(s: State, source: string, index: nat, lane: Lane, priority: Priority,
                       fetch: Option<FetchKind>, hasDone: bool, owner: nat)
    ensures Quiet(s, AddWaiter(s, source, index, lane, priority, fetch, hasDone, owner).0)
  {
    hide MakeKey, JobsEvolve;
    var key := MakeKey(source, index);
    EvolveRemove(s.jobs, s.nextSequence, key);
    if s.stopped || source == "" || lane == "" || fetch.None? || !hasDone {
    } else if key in s.jobs {
      EvolveUpdate(s.jobs, s.nextSequence, key, Join(s, key, priority).jobs[key]);
    } else {
      var s1 := NewJob(s, key, lane, fetch.value, owner);
      EvolveUpdate(s.jobs, s.nextSequence, key, Join(s1, key, priority).jobs[key]);
      assert Join(s1, key, priority).jobs == s.jobs[key := Join(s1, key, priority).jobs[key]];
    }
  }

  lemma {:induction false} RetireAllQuiet(s: State, owner: nat, order: seq<Key>)
    requires s.stack != [] && s.stack[0].Delivering?
    ensures Quiet(s, RetireAll(s, owner, order))
    decreases |order|
  {
    hide Tickets, TicketSet, JobsEvolve;
    EvolveRemove(s.jobs, s.nextSequence, "");
    if order != [] {
      var key := order[0];
      var s1 := if key in s.jobs && s.jobs[key].owner == owner then Drop(s, key) else s;
      EvolveRemove(s.jobs, s.nextSequence, key);
      RetireAllQuiet(s1, owner, order[1..]);
      EvolveTrans(s.jobs, s.nextSequence, s1.jobs, RetireAll(s, owner, order).jobs);
    }
  }

  lemma FinishQuiet(s: State, key: Key, sequence: nat, bytes: Bytes, error: string)
    ensures Quiet(s, Finish(s, key, sequence, bytes, error))
  {
    hide Tickets, TicketSet, JobsEvolve;
    EvolveRemove(s.jobs, s.nextSequence, key);
    if key in s.jobs {
      EvolveUpdate(s.jobs, s.nextSequence, key, s.jobs[key].(active := false, aborting := false, abort := false,
                                                               sequence := s.nextSequence + 1));
    }
  }

  lemma ReprioritizeQuiet(s: State, ticket: nat, priority: Priority)
    ensures Quiet(s, Reprioritize(s, ticket, priority))
  {
    hide JobsEvolve, WithPriority, Tickets;
    EvolveRemove(s.jobs, s.nextSequence, "");
    if ticket in s.ticketKeys && s.ticketKeys[ticket] in s.jobs {
      var key := s.ticketKeys[ticket];
      EvolveUpdate(s.jobs, s.nextSequence, key,
                   s.jobs[key].(waiters := WithPriority(s.jobs[key].waiters, ticket, priority)));
    }
  }

  lemma AbandonQuiet(s: State, ticket: nat)
    requires Inv(s)
    ensures Quiet(s, AbandonStopped(s, ticket))
  {
    hide Core, JobsEvolve, Cancel;
    EvolveRemove(s.jobs, s.nextSequence, "");
    if ticket in s.ticketKeys && s.ticketKeys[ticket] in s.jobs {
      var key := s.ticketKeys[ticket];
      PushKeeps(s, Abandoning(key, s.jobs[key].id, s.jobs[key].sequence));
      CancelQuiet(Push(s, Abandoning(key, s.jobs[key].id, s.jobs[key].sequence)), ticket);
    }
  }

  // Steps that leave the jobs alone.
  lemma StayQuiet(s: State, r: State)
    requires r.jobs == s.jobs && r.nextSequence == s.nextSequence && r.log.admitted == s.log.admitted && r.bypasses == s.bypasses
    ensures Quiet(s, r)
  {
  }

  lemma SettingsQuiet(s: State, step: Step)
    requires Enabled(s, step)
    requires step.Observe? || step.Release? || step.MaxActive? || step.LaneMaxActive? || step.BandwidthLimit?
      || step.Report? || step.TimerFires?
    ensures Quiet(s, Apply(s, step))
  {
    hide Quiet, CreditAt, NextCongestion, Max, Enumerates, AddWaiter, Cancel, AbandonStopped, RetireStoppedOwner,
         Reprioritize, Finish, Shutdown, Pump, ResumeTop;
    StayQuiet(s, Apply(s, step));
  }

  lemma RetireQuiet(s: State, owner: nat, order: seq<Key>)
    ensures Quiet(s, RetireStoppedOwner(s, owner, order))
  {
    hide RetireAll, JobsEvolve;
    EvolveRemove(s.jobs, s.nextSequence, "");
    RetireAllQuiet(Push(s, Delivering([], TransportStopped)), owner, order);
  }

  lemma ShutdownQuiet(s: State, order: seq<Key>)
    ensures Quiet(s, Shutdown(s, order))
  {
    hide AllTickets, JobSet, JobsEvolve;
    EvolveRemove(s.jobs, s.nextSequence, "");
  }

  lemma OtherStepsQuiet(s: State, step: Step)
    requires Inv(s) && Enabled(s, step) && !step.RunPump? && !step.Resume?
    ensures Quiet(s, Apply(s, step))
  {
    hide Inv, Enumerates, AddWaiter, Cancel, RetireStoppedOwner, Finish, Reprioritize, AbandonStopped, Shutdown, Quiet,
         SetBandwidthLimit, ReportTransfer, ObserveExternal, ReleaseExternal, SetMaxActive, SetLaneMaxActive, Schedule;
    match step
    case Request(source, index, lane, priority, fetch, hasDone, owner) =>
      AddWaiterQuiet(s, source, index, lane, priority, fetch, hasDone, owner);
    case CancelTicket(ticket) => CancelQuiet(s, ticket);
    case Abandon(ticket) => AbandonQuiet(s, ticket);
    case Retire(owner, order) => RetireQuiet(s, owner, order);
    case SetPriority(ticket, priority) => ReprioritizeQuiet(s, ticket, priority);
    case Complete(key, sequence, bytes, error) => FinishQuiet(s, key, sequence, bytes, error);
    case Stop(order) => ShutdownQuiet(s, order);
    case _ => SettingsQuiet(s, step);
  }

  // What the admission loop looks at.
  ghost predicate SameView(s: State, r: State) {
    && r.jobs.Keys == s.jobs.Keys
    && (forall k :: k in s.jobs ==> r.jobs[k] == s.jobs[k].(abort := r.jobs[k].abort, aborting := r.jobs[k].aborting))
    && r.laneActive == s.laneActive && r.active == s.active && r.policy == s.policy
    && r.bypasses == s.bypasses && r.nextSequence == s.nextSequence && r.log.admitted == s.log.admitted
  }

  function StepTime(step: Step): int {
    match step
    case RunPump(now) => now
    case Resume(_, now) => now
    case _ => 0
  }

  // A step is quiet or is one round of the admission loop on an equivalent state.
  lemma StepSplits(s: State, step: Step) returns (mid: State, check: Check)
    requires Inv(s) && Enabled(s, step)
    ensures Quiet(s, Apply(s, step))
      || (SameView(s, mid) && Inv(mid) && Apply(s, step) == PumpLoop(mid, StepTime(step), check))
  {
    hide Core, PumpLoop, Apply;
    mid, check := s, Check(0, 0, 0);
    if step.RunPump? {
      mid, check := PumpSplits(s, step.now);
      ApplyPump(s, step.now);
    } else if step.Resume? {
      mid, check := ResumeSplits(s, step.handle, step.now);
      ApplyResume(s, step.handle, step.now);
    } else {
      OtherStepsQuiet(s, step);
    }
  }

  lemma ApplyPump(s: State, now: int)
    requires Enabled(s, RunPump(now))
    ensures Apply(s, RunPump(now)) == Pump(s.(scheduled := false, clock := now), now)
  {
  }

  lemma ApplyResume(s: State, handle: bool, now: int)
    requires Enabled(s, Resume(handle, now))
    ensures Apply(s, Resume(handle, now)) == ResumeTop(s, handle, now)
  {
  }

  lemma PumpSplits(s: State, now: int) returns (mid: State, check: Check)
    requires Inv(s) && Enabled(s, RunPump(now))
    ensures var r := Pump(s.(scheduled := false, clock := now), now);
      Quiet(s, r) || (SameView(s, mid) && Inv(mid) && r == PumpLoop(mid, now, check))
  {
    hide Core, PumpLoop, CreditAt, DebtDelay;
    var s0 := s.(scheduled := false, clock := now);
    mid := Replenish(s0, now);
    check := CheckOf(mid.budget, now);
    ClockKeeps(s, now, false);
    ReplenishKeeps(s0, now);
  }

  lemma ResumeSplits(s: State, handle: bool, now: int) returns (mid: State, check: Check)
    requires Inv(s) && Enabled(s, Resume(handle, now))
    ensures var r := ResumeTop(s, handle, now);
      Quiet(s, r) || (SameView(s, mid) && Inv(mid) && r == PumpLoop(mid, now, check))
  {
    hide Inv, PumpLoop, JobsEvolve, ResumeFetching, ResumeAborting, ResumeCancelling, ResumeAbandoning, ResumeDelivering,
         SameView, Quiet;
    mid, check := s, Check(0, 0, 0);
    var f := s.stack[0];
    if f.Fetching? {
      mid := FetchingMid(s, handle, now);
      check := f.check;
    } else if f.Aborting? {
      mid := AbortingMid(s, now);
      check := f.check;
    } else {
      ResumeOthersQuiet(s);
    }
  }

  lemma ResumeOthersQuiet(s: State)
    requires s.stack != [] && !s.stack[0].Fetching? && !s.stack[0].Aborting?
    ensures Quiet(s, match s.stack[0]
                     case Cancelling(_) => ResumeCancelling(s)
                     case Delivering(_, _) => ResumeDelivering(s)
                     case _ => if s.stack[0].Abandoning? then ResumeAbandoning(s) else s)
  {
    hide JobsEvolve, Quiet, ResumeAbandoning;
    if s.stack[0].Abandoning? {
      AbandoningQuiet(s);
    } else if s.stack[0].Cancelling? {
      StayQuiet(s, ResumeCancelling(s));
    } else {
      StayQuiet(s, ResumeDelivering(s));
    }
  }

  lemma AbandoningQuiet(s: State)
    requires s.stack != [] && s.stack[0].Abandoning?
    ensures Quiet(s, ResumeAbandoning(s))
  {
    hide JobsEvolve;
    EvolveRemove(s.jobs, s.nextSequence, s.stack[0].key);
  }

  lemma AbortingMid(s: State, now: int) returns (mid: State)
    requires Inv(s) && s.stack != [] && s.stack[0].Aborting? && now >= s.clock
    ensures SameView(s, mid) && Inv(mid) && ResumeAborting(s, now) == PumpLoop(mid, now, s.stack[0].check)
  {
    hide Core, PumpLoop;
    mid := Pop(s).(clock := now);
    PopKeeps(s);
    ClockKeeps(Pop(s), now, s.scheduled);
    assert Pop(s).(clock := now, scheduled := s.scheduled) == mid;
  }

  lemma FetchingMid(s: State, handle: bool, now: int) returns (mid: State)
    requires Inv(s) && s.stack != [] && s.stack[0].Fetching? && now >= s.clock
    ensures var r := ResumeFetching(s, handle, now);
      Quiet(s, r) || (SameView(s, mid) && Inv(mid) && r == PumpLoop(mid, now, s.stack[0].check))
  {
    hide Core, PumpLoop, Quiet;
    var f := s.stack[0];
    PopKeeps(s);
    ClockKeeps(Pop(s), now, s.scheduled);
    mid := Pop(s).(clock := now);
    assert Pop(s).(clock := now, scheduled := s.scheduled) == mid;
    StayQuiet(s, Push(mid, Aborting(f.check)));
    if f.cancelable && f.key in s.jobs && s.jobs[f.key].id == f.id {
      mid := LiveMid(s, mid, handle, now);
    }
  }

  // The fetch that has returned belongs to a job that is still registered.
  lemma LiveMid(s: State, s1: State, handle: bool, now: int) returns (mid: State)
    requires s.stack != [] && s.stack[0].Fetching? && s1 == Pop(s).(clock := now) && Inv(s1)
    requires s.stack[0].cancelable && s.stack[0].key in s.jobs && s.jobs[s.stack[0].key].id == s.stack[0].id
    ensures var r := ResumeFetching(s, handle, now);
      Quiet(s, r) || (SameView(s, mid) && Inv(mid) && r == PumpLoop(mid, now, s.stack[0].check))
  {
    hide Inv, PumpLoop, Quiet;
    var f := s.stack[0];
    var job := s.jobs[f.key];
    var next := job.(abort := handle, aborting := true);
    AbortQuiet(s, Push(WithJob(s1, f.key, next), Aborting(f.check)), f.key, next);
    UpdateJobKeeps(s1, f.key, job.(abort := handle));
    mid := WithJob(s1, f.key, job.(abort := handle));
  }

  lemma AbortQuiet(s: State, r: State, key: Key, job: Job)
    requires key in s.jobs && r.jobs == s.jobs[key := job]
    requires job.active == s.jobs[key].active && job.sequence == s.jobs[key].sequence && job.id == s.jobs[key].id
    requires r.nextSequence == s.nextSequence && r.log.admitted == s.log.admitted && r.bypasses == s.bypasses
    ensures Quiet(s, r)
  {
    EvolveUpdate(s.jobs, s.nextSequence, key, job);
  }

  // ---- One admission ----

  // The admission loop either leaves everything but the timer alone, or admits one job.
  lemma PumpLoopCases(s: State, now: int, check: Check) returns (timer: Option<int>, chosen: Key, bypasses: int)
    ensures var r := PumpLoop(s, now, check);
      || r == s.(timer := timer)
      || (chosen in EligibleKeys(s, now) && chosen in s.jobs
          && r == Admit(s.(timer := timer, bypasses := bypasses), chosen, check)
          && ((bypasses == 0 && IsOldest(s, EligibleKeys(s, now), chosen))
              || (bypasses == s.bypasses + 1 && s.bypasses < MAX_PRIORITY_BYPASSES)))
  {
    hide IsFirstWake, IsPreferred, IsOldest, EligibleKeys, Admit;
    timer, chosen, bypasses := s.timer, "", 0;
    if s.active + |s.policy.external| < s.policy.maxActive {
      var s1 := match FirstWake(s, now) case Some(w) => ScheduleWakeup(s, w, now) case None => s;
      timer := s1.timer;
      var keys := EligibleKeys(s, now);
      if keys != {} {
        OldestIs(s, keys);
        PreferredIsMember(s, keys);
        EligibleIsJob(s, now);
        var oldest, preferred := Oldest(s, keys), Preferred(s, keys);
        chosen := if preferred != oldest && s.bypasses >= MAX_PRIORITY_BYPASSES then oldest else preferred;
        bypasses := if chosen == oldest then 0 else s.bypasses + 1;
        assert s1.(bypasses := bypasses) == s.(timer := timer, bypasses := bypasses);
      }
    }
  }

  lemma EligibleIsJob(s: State, now: int)
    ensures forall k :: k in EligibleKeys(s, now) ==> k in s.jobs && Eligible(s, k, now) && !s.jobs[k].active
  {
  }

  lemma OldestUnique(s: State, keys: set<Key>, a: Key, b: Key)
    requires Inv(s) && keys <= s.jobs.Keys && IsOldest(s, keys, a) && IsOldest(s, keys, b)
    ensures a == b
  {
    hide FramesRightful, DeliveriesRightful, FramesSound, AdmissionsSound, CreditSound, Slots,
         JoinedKnown, AbortsKnown, Conserved, Linked, Admitted;
  }

  lemma PreferredUnique(s: State, keys: set<Key>, a: Key, b: Key)
    requires Inv(s) && keys <= s.jobs.Keys && IsPreferred(s, keys, a) && IsPreferred(s, keys, b)
    ensures a == b
  {
    hide FramesRightful, DeliveriesRightful, FramesSound, AdmissionsSound, CreditSound, Slots,
         JoinedKnown, AbortsKnown, Conserved, Linked, Admitted;
  }

  lemma FirstWakeUnique(s: State, now: int, a: Option<int>, b: Option<int>)
    requires IsFirstWake(s, now, a) && IsFirstWake(s, now, b)
    ensures a == b
  {
    hide BlockedKeys, RetryAfter;
  }

  // The admission loop picks an eligible job: the oldest, or else the preferred one
  // while the bypass budget lasts.
  lemma AdmissionChoice(s: State, now: int, check: Check) returns (chosen: Key)
    requires PumpLoop(s, now, check).log.admitted != s.log.admitted
    ensures chosen in s.jobs && Eligible(s, chosen, now) && !s.jobs[chosen].active
    ensures var r := PumpLoop(s, now, check);
      && r.jobs == s.jobs[chosen := s.jobs[chosen].(active := true)]
      && r.log.admitted == s.log.admitted + [Admission(chosen, s.jobs[chosen].sequence, check)]
      && r.nextSequence == s.nextSequence
      && ((r.bypasses == 0 && IsOldest(s, EligibleKeys(s, now), chosen))
          || (r.bypasses == s.bypasses + 1 && s.bypasses < MAX_PRIORITY_BYPASSES))
  {
    hide PumpLoop, IsOldest, EligibleKeys, Eligible;
    var timer, bypasses;
    timer, chosen, bypasses := PumpLoopCases(s, now, check);
    EligibleIsJob(s, now);
  }

  lemma OldestIs(s: State, keys: set<Key>)
    requires keys != {}
    ensures IsOldest(s, keys, Oldest(s, keys))
  {
  }

  // Another job is admitted although `key` is eligible: the patience shrinks.
  lemma OvertakingCosts(s: State, now: int, check: Check, key: Key)
    requires Inv(s) && key in s.jobs && Eligible(s, key, now)
    requires var r := PumpLoop(s, now, check);
      r.log.admitted != s.log.admitted && r.log.admitted[|r.log.admitted| - 1].sequence != s.jobs[key].sequence
    ensures Patience(PumpLoop(s, now, check), s.jobs[key].sequence) < Patience(s, s.jobs[key].sequence)
  {
    hide Core, PumpLoop;
    BypassBounded(s);
    var q := s.jobs[key].sequence;
    var r := PumpLoop(s, now, check);
    var chosen := AdmissionChoice(s, now, check);
    assert r.log.admitted[|r.log.admitted| - 1].sequence == s.jobs[chosen].sequence;
    assert Earlier(r, q) == Earlier(s, q) - {chosen};
    if r.bypasses == s.bypasses + 1 {
      SubsetCardinality(Earlier(r, q), Earlier(s, q));
    } else {
      assert key in EligibleKeys(s, now);
      assert chosen in Earlier(s, q);
    }
  }

  // ---- Runs ----

  ghost predicate Admits(s: State, step: Step) {
    Enabled(s, step) && Apply(s, step).log.admitted != s.log.admitted
  }

  // The step admits some job other than the attempt `sequence` at `key`, which is eligible.
  ghost predicate Overtakes(s: State, step: Step, key: Key, sequence: nat) {
    && Enabled(s, step)
    && key in s.jobs && s.jobs[key].sequence == sequence && Eligible(s, key, StepTime(step))
    && var log := Apply(s, step).log.admitted; log != [] && log[|log| - 1].sequence != sequence
  }

  lemma StepPatience(s: State, step: Step, key: Key, sequence: nat)
    requires Inv(s) && Enabled(s, step) && sequence <= s.nextSequence
    requires Admits(s, step) ==> Overtakes(s, step, key, sequence)
    ensures var r := Apply(s, step);
      && sequence <= r.nextSequence
      && |s.log.admitted| <= |r.log.admitted| <= |s.log.admitted| + 1
      && Patience(r, sequence) + |r.log.admitted| <= Patience(s, sequence) + |s.log.admitted|
  {
    hide Core, Enabled, PumpLoop, Apply;
    var mid, check := StepSplits(s, step);
    var r := Apply(s, step);
    if Quiet(s, r) {
      EarlierShrinks(s, r, sequence);
    } else {
      var now := StepTime(step);
      SameViewSame(s, mid, key, sequence, now);
      if r.log.admitted != s.log.admitted {
        OvertakingCosts(mid, now, check, key);
        var chosen := AdmissionChoice(mid, now, check);
      } else {
        NoAdmissionQuiet(mid, now, check);
        EarlierShrinks(mid, r, sequence);
      }
    }
  }

  // Every step, admissions included, respects the numbering of attempts.
  lemma StepEvolves(s: State, step: Step)
    requires Inv(s) && Enabled(s, step)
    ensures Evolves(s, Apply(s, step))
  {
    hide Core, Enabled, PumpLoop, Apply, JobsEvolve;
    var mid, check := StepSplits(s, step);
    if !Quiet(s, Apply(s, step)) {
      SameViewEvolves(s, mid);
      PumpLoopEvolves(mid, StepTime(step), check);
      EvolveTrans(s.jobs, s.nextSequence, mid.jobs, Apply(s, step).jobs);
    }
  }

  lemma SameViewEvolves(s: State, mid: State)
    requires SameView(s, mid)
    ensures Evolves(s, mid)
  {
  }

  lemma PumpLoopEvolves(s: State, now: int, check: Check)
    ensures var r := PumpLoop(s, now, check); r.nextSequence == s.nextSequence && JobsEvolve(s.jobs, s.nextSequence, r.jobs)
  {
    hide PumpLoop, IsOldest, EligibleKeys, Eligible;
    var timer, chosen, bypasses := PumpLoopCases(s, now, check);
  }

  lemma SameViewSame(s: State, mid: State, key: Key, sequence: nat, now: int)
    requires SameView(s, mid)
    ensures Earlier(mid, sequence) == Earlier(s, sequence) && Patience(mid, sequence) == Patience(s, sequence)
    ensures key in s.jobs ==> key in mid.jobs && mid.jobs[key].sequence == s.jobs[key].sequence
    ensures Eligible(s, key, now) <==> Eligible(mid, key, now)
  {
    assert Earlier(mid, sequence) == Earlier(s, sequence);
  }

  lemma NoAdmissionQuiet(s: State, now: int, check: Check)
    requires PumpLoop(s, now, check).log.admitted == s.log.admitted
    ensures Quiet(s, PumpLoop(s, now, check))
  {
    hide PumpLoop, IsOldest, EligibleKeys, Eligible;
    var timer, chosen, bypasses := PumpLoopCases(s, now, check);
  }

  ghost predicate PassedOver(states: seq<State>, steps: seq<Step>, key: Key, sequence: nat)
    requires IsRun(states, steps)
  {
    forall i :: 0 <= i < |steps| && Admits(states[i], steps[i]) ==> Overtakes(states[i], steps[i], key, sequence)
  }

  // Bounded starvation: over any run, however callbacks interleave, an attempt that is
  // eligible at every admission and has k earlier waiting jobs in front of it is not
  // passed over 5*(k+1) times; so the 5*(k+1)-th such admission is its own.
  lemma {:induction false} BoundedStarvation(states: seq<State>, steps: seq<Step>, key: Key, sequence: nat)
    requires IsRun(states, steps) && Inv(states[0]) && sequence <= states[0].nextSequence
    requires PassedOver(states, steps, key, sequence)
    ensures |states[|steps|].log.admitted| - |states[0].log.admitted| < 5 * (|Earlier(states[0], sequence)| + 1)
  {
    hide Inv, Patience;
    PatienceOverRun(states, steps, key, sequence);
    PatiencePositive(states[|steps|], states[0], sequence);
  }

  lemma PatiencePositive(s: State, first: State, sequence: nat)
    requires Inv(s) && Inv(first)
    ensures Patience(s, sequence) >= 1 && Patience(first, sequence) <= 5 * (|Earlier(first, sequence)| + 1)
  {
    hide Core;
    BypassBounded(s);
    BypassBounded(first);
  }

  lemma {:induction false} PatienceOverRun(states: seq<State>, steps: seq<Step>, key: Key, sequence: nat)
    requires IsRun(states, steps) && Inv(states[0]) && sequence <= states[0].nextSequence
    requires PassedOver(states, steps, key, sequence)
    ensures var last := states[|steps|];
      && Inv(last) && sequence <= last.nextSequence
      && Patience(last, sequence) + |last.log.admitted| <= Patience(states[0], sequence) + |states[0].log.admitted|
    decreases |steps|
  {
    hide Inv, Apply, Enabled, Patience, Admits, Overtakes;
    if steps != [] {
      var n := |steps| - 1;
      PatienceOverRun(states[..n + 1], steps[..n], key, sequence);
      StepPatience(states[n], steps[n], key, sequence);
      StepKeeps(states[n], steps[n]);
    }
  }
}
