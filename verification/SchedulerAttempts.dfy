// Which job object and which attempt is found under a key, step by step and over whole runs.
module SchedulerAttempts {
  import opened Basics
  import opened SchedulerState
  import opened SchedulerInvariant
  import opened SchedulerSteps
  import opened SchedulerFairness

  // The step is the failure of an aborted attempt that consumers have joined meanwhile.
  predicate Restarts(s: State, step: Step, key: Key) {
    && step.Complete? && step.key == key && key in s.jobs
    && var job := s.jobs[key];
       && job.sequence == step.sequence && job.active && job.aborting && job.waiters != []
       && (step.error != "" || step.bytes == [])
  }

  // The object under `key` was there before the step, with the same attempt unless restarted.
  ghost predicate OldObject(s: State, step: Step, r: State, key: Key) {
    && key in s.jobs && key in r.jobs && r.jobs[key].id == s.jobs[key].id
    && r.jobs[key].sequence == if Restarts(s, step, key) then s.nextSequence + 1 else s.jobs[key].sequence
  }

  ghost predicate NewObject(s: State, r: State, key: Key) {
    key in r.jobs && r.jobs[key].id == s.nextId < r.nextId
  }

  lemma PumpLoopNumbers(s: State, now: int, check: Check)
    ensures var r := PumpLoop(s, now, check); r.nextSequence == s.nextSequence && r.nextId == s.nextId
  {
    hide PumpLoop, IsOldest, EligibleKeys, Eligible;
    var timer, chosen, bypasses := PumpLoopCases(s, now, check);
  }

  lemma FetchingNumbers(s: State, handle: bool, now: int)
    requires s.stack != [] && s.stack[0].Fetching?
    ensures var r := ResumeFetching(s, handle, now); r.nextSequence == s.nextSequence && r.nextId == s.nextId
  {
    hide PumpLoop;
    var f := s.stack[0];
    var s1 := Pop(s).(clock := now);
    PumpLoopNumbers(s1, now, f.check);
    if f.key in s.jobs {
      PumpLoopNumbers(WithJob(s1, f.key, s.jobs[f.key].(abort := handle)), now, f.check);
    }
  }

  lemma OtherFramesNumbers(s: State)
    requires s.stack != []
    ensures s.stack[0].Cancelling? ==> ResumeCancelling(s).nextSequence == s.nextSequence && ResumeCancelling(s).nextId == s.nextId
    ensures s.stack[0].Abandoning? ==> ResumeAbandoning(s).nextSequence == s.nextSequence && ResumeAbandoning(s).nextId == s.nextId
    ensures s.stack[0].Delivering? ==> ResumeDelivering(s).nextSequence == s.nextSequence && ResumeDelivering(s).nextId == s.nextId
  {
  }

  lemma ResumeNumbers(s: State, handle: bool, now: int)
    requires s.stack != []
    ensures var r := ResumeTop(s, handle, now); r.nextSequence == s.nextSequence && r.nextId == s.nextId
  {
    hide PumpLoop, ResumeFetching, ResumeCancelling, ResumeAbandoning, ResumeDelivering;
    OtherFramesNumbers(s);
    if s.stack[0].Fetching? {
      FetchingNumbers(s, handle, now);
    } else if s.stack[0].Aborting? {
      PumpLoopNumbers(Pop(s).(clock := now), now, s.stack[0].check);
    }
  }

  lemma PumpNumbers(s: State, now: int)
    ensures var r := Pump(s, now); r.nextSequence == s.nextSequence && r.nextId == s.nextId
  {
    hide PumpLoop, CreditAt, DebtDelay;
    var s1 := Replenish(s, now);
    PumpLoopNumbers(s1, now, CheckOf(s1.budget, now));
  }

  lemma CancelNumbers(s: State, ticket: nat)
    ensures var r := Cancel(s, ticket); r.nextSequence == s.nextSequence && r.nextId == s.nextId
  {
    hide WithoutTicket, Tickets;
  }

  lemma AbandonNumbers(s: State, ticket: nat)
    ensures var r := AbandonStopped(s, ticket); r.nextSequence == s.nextSequence && r.nextId == s.nextId
  {
    hide Cancel;
    if ticket in s.ticketKeys && s.ticketKeys[ticket] in s.jobs {
      var key := s.ticketKeys[ticket];
      CancelNumbers(Push(s, Abandoning(key, s.jobs[key].id, s.jobs[key].sequence)), ticket);
    }
  }

  lemma RetireNumbers(s: State, owner: nat, order: seq<Key>)
    ensures var r := RetireStoppedOwner(s, owner, order); r.nextSequence == s.nextSequence && r.nextId == s.nextId
  {
    hide RetireAll;
  }

  // Only a request and a restart hand out numbers.
  lemma NumbersStay(s: State, step: Step)
    requires Enabled(s, step) && !step.Request? && !step.Complete?
    ensures var r := Apply(s, step); r.nextSequence == s.nextSequence && r.nextId == s.nextId
  {
    hide Pump, ResumeTop, Cancel, AbandonStopped, RetireStoppedOwner, WithPriority, Tickets, CreditAt, NextCongestion,
         Charge, NewLimit, AddWaiter, Finish, JobSet, AllTickets, Enumerates;
    if step.RunPump? {
      PumpNumbers(s.(scheduled := false, clock := step.now), step.now);
    } else if step.Resume? {
      ResumeNumbers(s, step.handle, step.now);
    } else if step.CancelTicket? {
      CancelNumbers(s, step.ticket);
    } else if step.Abandon? {
      AbandonNumbers(s, step.ticket);
    } else if step.Retire? {
      RetireNumbers(s, step.owner, step.order);
    }
  }

  lemma RequestObject(s: State, step: Step, key: Key)
    requires step.Request? && key in Apply(s, step).jobs
    ensures OldObject(s, step, Apply(s, step), key) || NewObject(s, Apply(s, step), key)
    ensures Apply(s, step).nextId >= s.nextId
  {
    hide MakeKey;
  }

  lemma CompleteObject(s: State, step: Step, key: Key)
    requires step.Complete? && key in Apply(s, step).jobs
    ensures OldObject(s, step, Apply(s, step), key)
    ensures Apply(s, step).nextId == s.nextId
  {
    hide Tickets, TicketSet;
  }

  lemma SequenceIn(s: State, key: Key)
    requires Inv(s) && key in s.jobs
    ensures s.jobs[key].sequence <= s.nextSequence
  {
    hide FramesRightful, DeliveriesRightful, FramesSound, AdmissionsSound, CreditSound, Slots,
         JoinedKnown, AbortsKnown, Conserved, Linked, Admitted;
  }

  lemma StepObject(s: State, step: Step, key: Key)
    requires Inv(s) && Enabled(s, step) && key in Apply(s, step).jobs
    ensures OldObject(s, step, Apply(s, step), key) || NewObject(s, Apply(s, step), key)
  {
    hide Inv, Apply, Enabled, NewObject;
    if step.Request? {
      RequestObject(s, step, key);
    } else if step.Complete? {
      CompleteObject(s, step, key);
    } else {
      NumbersStay(s, step);
      StepKeeps(s, step);
      StepEvolves(s, step);
      SequenceIn(Apply(s, step), key);
    }
  }

  lemma NumbersGrow(s: State, step: Step)
    requires Inv(s) && Enabled(s, step)
    ensures var r := Apply(s, step); s.nextSequence <= r.nextSequence && s.nextId <= r.nextId
  {
    hide Inv, Enabled, JobsEvolve, MakeKey, Tickets, TicketSet, AbandonStopped, Cancel, Pump, ResumeTop, Shutdown,
         RetireStoppedOwner, Reprioritize, SetBandwidthLimit, ReportTransfer;
    StepEvolves(s, step);
    if !step.Request? && !step.Complete? {
      NumbersStay(s, step);
    }
  }

  // ---- Runs ----

  lemma {:induction false} NumbersOverRun(states: seq<State>, steps: seq<Step>, i: nat, j: nat)
    requires IsRun(states, steps) && states[0] == INITIAL && i <= j < |states|
    ensures states[i].nextSequence <= states[j].nextSequence && states[i].nextId <= states[j].nextId
  {
    hide Inv, Apply, Enabled;
    if i < j {
      NumbersOverRun(states, steps, i, j - 1);
      RunKeeps(states, steps, j - 1);
      NumbersGrow(states[j - 1], steps[j - 1]);
    }
  }

  // A job object is numbered before it is registered.
  lemma {:induction false} ObjectIsNumbered(states: seq<State>, steps: seq<Step>, n: nat, key: Key)
    requires IsRun(states, steps) && states[0] == INITIAL && n < |states| && key in states[n].jobs
    ensures states[n].jobs[key].id < states[n].nextId
  {
    hide Inv, Apply, Enabled;
    if n > 0 {
      RunKeeps(states, steps, n - 1);
      StepObject(states[n - 1], steps[n - 1], key);
      NumbersGrow(states[n - 1], steps[n - 1]);
      if OldObject(states[n - 1], steps[n - 1], states[n], key) {
        ObjectIsNumbered(states, steps, n - 1, key);
      }
    }
  }

  ghost predicate RestartedBetween(states: seq<State>, steps: seq<Step>, i: nat, j: nat, key: Key)
    requires IsRun(states, steps) && j < |states|
  {
    exists m :: i <= m < j && Restarts(states[m], steps[m], key)
  }

  // An object that was registered at i and still is at j was so all the time; its attempt is the
  // same one, or has been replaced by one numbered after i.
  lemma {:induction false} ObjectOverRun(states: seq<State>, steps: seq<Step>, i: nat, j: nat, key: Key)
    requires IsRun(states, steps) && states[0] == INITIAL && i <= j < |states|
    requires key in states[j].jobs && states[j].jobs[key].id < states[i].nextId
    ensures key in states[i].jobs && states[i].jobs[key].id == states[j].jobs[key].id
    ensures if RestartedBetween(states, steps, i, j, key)
            then states[j].jobs[key].sequence > states[i].nextSequence
            else states[j].jobs[key].sequence == states[i].jobs[key].sequence
    decreases j - i
  {
    hide Inv, Apply, Enabled, Restarts;
    if i < j {
      var s, step := states[j - 1], steps[j - 1];
      RunKeeps(states, steps, j - 1);
      NumbersOverRun(states, steps, i, j - 1);
      StepObject(s, step, key);
      ObjectOverRun(states, steps, i, j - 1, key);
    }
  }
}
