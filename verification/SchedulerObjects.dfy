// What becomes of a job object while its fetch is being called: the call can end the job, and the
// handle it then returns must still find the object.
module SchedulerObjects {
  import opened Basics
  import opened SchedulerState
  import opened SchedulerInvariant
  import opened SchedulerSteps
  import opened SchedulerFairness

  ghost predicate IsDetached(s: State, id: nat) {
    exists job :: job in s.detached && job.id == id
  }

  // The object is registered under the key, or was put aside.
  ghost predicate Known(s: State, key: Key, id: nat) {
    (key in s.jobs && s.jobs[key].id == id) || IsDetached(s, id)
  }

  // No object is forgotten, and a fetch is only called for one that is known.
  ghost predicate Remembers(s: State, r: State) {
    && (forall job :: job in s.detached ==> job in r.detached)
    && (forall k :: k in s.jobs ==> Known(r, k, s.jobs[k].id))
    && forall f :: f in r.stack && f.Fetching? ==> f in s.stack || Known(r, f.key, f.id)
  }

  ghost predicate NoNewFetch(s: State, r: State) {
    forall f :: f in r.stack && f.Fetching? ==> f in s.stack
  }

  lemma StaysKnown(s: State, r: State, key: Key, id: nat)
    requires Remembers(s, r) && Known(s, key, id)
    ensures Known(r, key, id)
  {
    if IsDetached(s, id) {
      var job :| job in s.detached && job.id == id;
      assert job in r.detached;
    }
  }

  lemma RemembersTrans(a: State, b: State, c: State)
    requires Remembers(a, b) && Remembers(b, c)
    ensures Remembers(a, c)
  {
    hide Known;
    forall k | k in a.jobs ensures Known(c, k, a.jobs[k].id) {
      StaysKnown(b, c, k, a.jobs[k].id);
    }
    forall f | f in c.stack && f.Fetching? && f !in a.stack ensures Known(c, f.key, f.id) {
      if f in b.stack {
        StaysKnown(b, c, f.key, f.id);
      }
    }
  }

  lemma SameObjects(s: State, r: State)
    requires forall job :: job in s.detached ==> job in r.detached
    requires forall k :: k in s.jobs ==> k in r.jobs && r.jobs[k].id == s.jobs[k].id
    requires NoNewFetch(s, r)
    ensures Remembers(s, r)
  {
  }

  // The object under one key is changed or put aside.
  lemma OneObject(s: State, r: State, key: Key)
    requires key in s.jobs && (forall job :: job in s.detached ==> job in r.detached)
    requires forall k :: k in s.jobs && k != key ==> k in r.jobs && r.jobs[k] == s.jobs[k]
    requires (key in r.jobs && r.jobs[key].id == s.jobs[key].id) || exists job :: job in r.detached && job.id == s.jobs[key].id
    requires NoNewFetch(s, r)
    ensures Remembers(s, r)
  {
  }

  lemma PumpLoopRemembers(s: State, now: int, check: Check)
    ensures Remembers(s, PumpLoop(s, now, check))
  {
    hide PumpLoop, IsOldest, EligibleKeys, Eligible;
    var timer, chosen, bypasses := PumpLoopCases(s, now, check);
  }

  lemma LoopRemembers(s: State, s1: State, now: int, check: Check)
    requires Remembers(s, s1)
    ensures Remembers(s, PumpLoop(s1, now, check))
  {
    hide PumpLoop, Remembers;
    PumpLoopRemembers(s1, now, check);
    RemembersTrans(s, s1, PumpLoop(s1, now, check));
  }

  lemma FetchingRemembers(s: State, handle: bool, now: int)
    requires s.stack != [] && s.stack[0].Fetching?
    ensures Remembers(s, ResumeFetching(s, handle, now))
  {
    hide PumpLoop, Remembers;
    var f := s.stack[0];
    var s1 := Pop(s).(clock := now);
    SameObjects(s, s1);
    SameObjects(s, Push(s1, Aborting(f.check)));
    LoopRemembers(s, s1, now, f.check);
    if f.key in s.jobs {
      var kept := WithJob(s1, f.key, s.jobs[f.key].(abort := handle));
      SameObjects(s, kept);
      LoopRemembers(s, kept, now, f.check);
      SameObjects(s, Push(WithJob(s1, f.key, s.jobs[f.key].(abort := handle, aborting := true)), Aborting(f.check)));
    }
  }

  lemma AnsweringRemembers(s: State)
    requires s.stack != [] && (s.stack[0].Cancelling? || s.stack[0].Delivering?)
    ensures Remembers(s, if s.stack[0].Cancelling? then ResumeCancelling(s) else ResumeDelivering(s))
  {
    hide Remembers;
    SameObjects(s, if s.stack[0].Cancelling? then ResumeCancelling(s) else ResumeDelivering(s));
  }

  lemma AbortingRemembers(s: State, now: int)
    requires s.stack != [] && s.stack[0].Aborting?
    ensures Remembers(s, ResumeAborting(s, now))
  {
    hide Remembers, PumpLoop;
    SameObjects(s, Pop(s).(clock := now));
    LoopRemembers(s, Pop(s).(clock := now), now, s.stack[0].check);
  }

  lemma AbandoningRemembers(s: State)
    requires s.stack != [] && s.stack[0].Abandoning?
    ensures Remembers(s, ResumeAbandoning(s))
  {
    hide Remembers;
    var key := s.stack[0].key;
    if key in s.jobs {
      AbandonedIsKept(s);
      OneObject(s, ResumeAbandoning(s), key);
    } else {
      SameObjects(s, ResumeAbandoning(s));
    }
  }

  lemma ResumeRemembers(s: State, handle: bool, now: int)
    requires s.stack != []
    ensures Remembers(s, ResumeTop(s, handle, now))
  {
    hide Remembers, ResumeFetching, ResumeAborting, ResumeAbandoning, ResumeCancelling, ResumeDelivering;
    match s.stack[0]
    case Fetching(_, _, _, _) => FetchingRemembers(s, handle, now);
    case Aborting(_) => AbortingRemembers(s, now);
    case Abandoning(_, _, _) => AbandoningRemembers(s);
    case _ => AnsweringRemembers(s);
  }

  // An abandoned job is put aside as it is, without consumers.
  lemma AbandonedIsKept(s: State)
    requires s.stack != [] && s.stack[0].Abandoning? && s.stack[0].key in s.jobs
    ensures var key, r := s.stack[0].key, ResumeAbandoning(s);
      && (forall job :: job in s.detached ==> job in r.detached)
      && (forall k :: k in s.jobs && k != key ==> k in r.jobs && r.jobs[k] == s.jobs[k])
      && (if key in r.jobs then r.jobs[key] == s.jobs[key] else s.jobs[key] in r.detached && s.jobs[key].waiters == [])
  {
  }

  lemma CancelRemembers(s: State, ticket: nat)
    ensures Remembers(s, Cancel(s, ticket))
  {
    hide WithoutTicket, Tickets, Remembers;
    var r := Cancel(s, ticket);
    if ticket in s.ticketKeys && s.ticketKeys[ticket] in s.jobs {
      CancelKeepsObject(s, ticket);
      OneObject(s, r, s.ticketKeys[ticket]);
    } else {
      SameObjects(s, r);
    }
  }

  lemma CancelKeepsObject(s: State, ticket: nat)
    requires ticket in s.ticketKeys && s.ticketKeys[ticket] in s.jobs
    ensures var key, r := s.ticketKeys[ticket], Cancel(s, ticket);
      && (forall job :: job in s.detached ==> job in r.detached)
      && (forall k :: k in s.jobs && k != key ==> k in r.jobs && r.jobs[k] == s.jobs[k])
      && ((key in r.jobs && r.jobs[key].id == s.jobs[key].id)
          || s.jobs[key].(waiters := WithoutTicket(s.jobs[key].waiters, ticket)) in r.detached)
  {
    hide WithoutTicket, Tickets, Deliver, Schedule;
    var key := s.ticketKeys[ticket];
    var rest := WithJob(s.(ticketKeys := s.ticketKeys - {ticket}), key,
                        s.jobs[key].(waiters := WithoutTicket(s.jobs[key].waiters, ticket)));
    var done := if ticket in Tickets(s.jobs[key].waiters) then Some(ticket) else None;
    AnsweredState(rest, done);
    AnsweredState(Detach(rest, key), done);
  }

  lemma AnsweredState(s: State, done: Option<nat>)
    ensures var r := Deliver(Schedule(s), done, Cancelled);
      r.jobs == s.jobs && r.detached == s.detached && r.stack == s.stack
  {
  }

  lemma AbandonRemembers(s: State, ticket: nat)
    ensures Remembers(s, AbandonStopped(s, ticket))
  {
    hide Cancel, Remembers;
    SameObjects(s, s);
    if ticket in s.ticketKeys && s.ticketKeys[ticket] in s.jobs {
      var key := s.ticketKeys[ticket];
      var s1 := Push(s, Abandoning(key, s.jobs[key].id, s.jobs[key].sequence));
      SameObjects(s, s1);
      CancelRemembers(s1, ticket);
      RemembersTrans(s, s1, Cancel(s1, ticket));
    }
  }

  lemma {:induction false} RetireAllRemembers(s: State, owner: nat, order: seq<Key>)
    requires s.stack != [] && s.stack[0].Delivering?
    ensures Remembers(s, RetireAll(s, owner, order))
    decreases |order|
  {
    hide Tickets, TicketSet, Remembers;
    SameObjects(s, s);
    if order != [] {
      var key := order[0];
      if key in s.jobs && s.jobs[key].owner == owner {
        var s1 := Drop(s, key);
        assert s.jobs[key] in s1.detached;
        OneObject(s, s1, key);
        RetireAllRemembers(s1, owner, order[1..]);
        RemembersTrans(s, s1, RetireAll(s1, owner, order[1..]));
      } else {
        RetireAllRemembers(s, owner, order[1..]);
      }
    }
  }

  lemma RetireRemembers(s: State, owner: nat, order: seq<Key>)
    ensures Remembers(s, RetireStoppedOwner(s, owner, order))
  {
    hide RetireAll, Remembers;
    var s1 := Push(s, Delivering([], TransportStopped));
    SameObjects(s, s);
    SameObjects(s, s1);
    RetireAllRemembers(s1, owner, order);
    var r := RetireAll(s1, owner, order);
    RemembersTrans(s, s1, r);
    SameObjects(r, Schedule(r));
    RemembersTrans(s, r, Schedule(r));
  }

  lemma ShutdownRemembers(s: State, order: seq<Key>)
    ensures Remembers(s, Shutdown(s, order))
  {
    hide AllTickets;
    forall k | !s.stopped && k in s.jobs ensures IsDetached(Shutdown(s, order), s.jobs[k].id) {
      assert s.jobs[k] in s.jobs.Values;
      assert s.jobs[k] in Shutdown(s, order).detached;
    }
  }

  // A job that is settled is put aside without its consumers.
  lemma FinishRemembers(s: State, key: Key, sequence: nat, bytes: Bytes, error: string)
    ensures var r := Finish(s, key, sequence, bytes, error);
      Remembers(s, r) && (key in s.jobs && key !in r.jobs ==> s.jobs[key].(waiters := []) in r.detached)
  {
    hide Tickets, TicketSet, Remembers;
    var r := Finish(s, key, sequence, bytes, error);
    if key in s.jobs {
      if key !in r.jobs {
        assert s.jobs[key].(waiters := []) in r.detached;
      }
      OneObject(s, r, key);
    } else {
      SameObjects(s, r);
    }
  }

  lemma CallsRemember(s: State, step: Step)
    requires step.Request? || step.SetPriority?
    ensures Remembers(s, Apply(s, step))
  {
    hide Remembers, AddWaiter, Reprioritize;
    if step.Request? {
      RequestRemembers(s, step);
    } else {
      ReprioritizeRemembers(s, step.ticket, step.priority);
    }
  }

  lemma RequestRemembers(s: State, step: Step)
    requires step.Request?
    ensures Remembers(s, AddWaiter(s, step.source, step.index, step.lane, step.priority, step.fetch, step.hasDone, step.owner).0)
  {
    hide Remembers, MakeKey;
    SameObjects(s, AddWaiter(s, step.source, step.index, step.lane, step.priority, step.fetch, step.hasDone, step.owner).0);
  }

  lemma ReprioritizeRemembers(s: State, ticket: nat, priority: Priority)
    ensures Remembers(s, Reprioritize(s, ticket, priority))
  {
    hide Remembers, WithPriority, Tickets;
    SameObjects(s, Reprioritize(s, ticket, priority));
  }

  lemma SettingsRemember(s: State, step: Step)
    requires Enabled(s, step)
    requires step.Observe? || step.Release? || step.MaxActive? || step.LaneMaxActive? || step.BandwidthLimit? || step.Report?
             || step.TimerFires?
    ensures Remembers(s, Apply(s, step))
  {
    hide Remembers, CreditAt, NextCongestion, Enumerates, SetBandwidthLimit, ReportTransfer;
    if step.BandwidthLimit? || step.Report? {
      PacingRemembers(s, step);
    } else {
      SameObjects(s, Apply(s, step));
    }
  }

  lemma PacingRemembers(s: State, step: Step)
    ensures step.BandwidthLimit? ==> Remembers(s, SetBandwidthLimit(s, step.bytesPerSecond, step.now))
    ensures step.Report? ==> Remembers(s, ReportTransfer(s, step.lane, step.networkBytes, step.congested, step.now))
  {
    hide Remembers, CreditAt, NextCongestion, NewLimit, Charge;
    if step.BandwidthLimit? {
      SameObjects(s, SetBandwidthLimit(s, step.bytesPerSecond, step.now));
    } else if step.Report? {
      SameObjects(s, ReportTransfer(s, step.lane, step.networkBytes, step.congested, step.now));
    }
  }

  lemma StepRemembers(s: State, step: Step)
    requires Enabled(s, step)
    ensures Remembers(s, Apply(s, step))
  {
    hide Remembers, Enumerates, Cancel, AbandonStopped, RetireStoppedOwner, Shutdown, Finish, ResumeTop, AddWaiter, Reprioritize,
         PumpLoop, CreditAt, DebtDelay, Waiting;
    match step
    case CancelTicket(ticket) => CancelRemembers(s, ticket);
    case Abandon(ticket) => AbandonRemembers(s, ticket);
    case Retire(owner, order) => RetireRemembers(s, owner, order);
    case Stop(order) => ShutdownRemembers(s, order);
    case Complete(key, sequence, bytes, error) => FinishRemembers(s, key, sequence, bytes, error);
    case Resume(handle, now) => ResumeRemembers(s, handle, now);
    case RunPump(now) => PumpRemembers(s, s.(scheduled := false, clock := now), now);
    case _ => if step.Request? || step.SetPriority? { CallsRemember(s, step); } else { SettingsRemember(s, step); }
  }

  lemma PumpRemembers(s: State, s0: State, now: int)
    requires s0.jobs == s.jobs && s0.detached == s.detached && s0.stack == s.stack
    ensures Remembers(s, Pump(s0, now))
  {
    hide PumpLoop, CreditAt, DebtDelay, Waiting, Remembers;
    var s1 := Replenish(s0, now);
    SameObjects(s, s0);
    SameObjects(s, s1);
    if s1.budget.limit > 0 {
      SameObjects(s, ScheduleWakeup(s1, DebtDelay(s1.budget), now));
    }
    LoopRemembers(s, s1, now, CheckOf(s1.budget, now));
  }

  // ---- Runs ----

  // Over every run: while its fetch is being called, a job is registered under its key or was put aside.
  lemma {:induction false} FetchedObjectIsKnown(states: seq<State>, steps: seq<Step>, n: nat, f: Frame)
    requires IsRun(states, steps) && states[0] == INITIAL && n < |states| && f in states[n].stack && f.Fetching?
    ensures Known(states[n], f.key, f.id)
  {
    hide Apply, Enabled, Known;
    if n > 0 {
      assert states[n - 1 + 1] == Apply(states[n - 1], steps[n - 1]);
      StepRemembers(states[n - 1], steps[n - 1]);
      if f in states[n - 1].stack {
        FetchedObjectIsKnown(states, steps, n - 1, f);
        StaysKnown(states[n - 1], states[n], f.key, f.id);
      }
    }
  }

  lemma {:induction false} DetachedStays(states: seq<State>, steps: seq<Step>, a: nat, n: nat, job: Job)
    requires IsRun(states, steps) && a <= n < |states| && job in states[a].detached
    ensures job in states[n].detached
  {
    hide Apply, Enabled;
    if a < n {
      DetachedStays(states, steps, a, n - 1, job);
      assert states[n - 1 + 1] == Apply(states[n - 1], steps[n - 1]);
      StepRemembers(states[n - 1], steps[n - 1]);
    }
  }

  // A fetch that returns an abort handle when nobody wants the job any more has it called at once:
  // whether the job is still registered without a consumer, or was put aside without one earlier in the
  // call, settled or abandoned, and not aborted before.
  lemma UnwantedFetchIsAborted(states: seq<State>, steps: seq<Step>, n: nat, now: int, a: nat, job: Job)
    requires IsRun(states, steps) && a <= n < |steps| && steps[n] == Resume(true, now)
    requires states[n].stack != [] && states[n].stack[0].Fetching? && states[n].stack[0].cancelable
    requires var s, f := states[n], states[n].stack[0];
      if f.key in s.jobs && s.jobs[f.key].id == f.id then s.jobs[f.key].waiters == [] && !s.jobs[f.key].aborting
      else job in states[a].detached && job.id == f.id && job.waiters == [] && !job.aborting
    ensures var s, f := states[n], states[n].stack[0];
      && states[n + 1].stack == [Aborting(f.check)] + s.stack[1..]
      && (f.key in s.jobs && s.jobs[f.key].id == f.id ==>
            f.key in states[n + 1].jobs && states[n + 1].jobs[f.key].aborting && states[n + 1].jobs[f.key].abort)
  {
    hide PumpLoop;
    var s, f := states[n], states[n].stack[0];
    assert states[n + 1] == Apply(s, Resume(true, now));
    if !(f.key in s.jobs && s.jobs[f.key].id == f.id) {
      DetachedStays(states, steps, a, n, job);
    }
  }

  // In every other case its handle is kept for later, or there is nothing to abort; the loop goes on.
  lemma WantedFetchGoesOn(s: State, handle: bool, now: int)
    requires Enabled(s, Resume(handle, now)) && s.stack[0].Fetching?
    requires var f := s.stack[0];
      var registered := f.key in s.jobs && s.jobs[f.key].id == f.id;
      || !f.cancelable || !handle
      || (registered && (s.jobs[f.key].waiters != [] || s.jobs[f.key].aborting))
      || (!registered && forall job :: job in s.detached && job.id == f.id ==> job.waiters != [] || job.aborting)
    ensures var r, f := Apply(s, Resume(handle, now)), s.stack[0];
      && (r.stack == s.stack[1..] || (r.stack != [] && r.stack[0].Fetching? && r.stack[1..] == s.stack[1..]))
      && (f.cancelable && f.key in s.jobs && s.jobs[f.key].id == f.id ==>
            f.key in r.jobs && r.jobs[f.key].abort == handle && r.jobs[f.key].aborting == s.jobs[f.key].aborting)
  {
    hide PumpLoop;
    var f := s.stack[0];
    LoopFrames(Pop(s).(clock := now), now, f.check);
    if f.key in s.jobs {
      LoopFrames(WithJob(Pop(s).(clock := now), f.key, s.jobs[f.key].(abort := handle)), now, f.check);
    }
  }

  lemma LoopFrames(s: State, now: int, check: Check)
    ensures var r := PumpLoop(s, now, check);
      && (r.stack == s.stack || (r.stack != [] && r.stack[0].Fetching? && r.stack[1..] == s.stack))
      && (forall k :: k in s.jobs ==> k in r.jobs && r.jobs[k] == s.jobs[k].(active := r.jobs[k].active))
  {
    hide PumpLoop, IsOldest, EligibleKeys, Eligible;
    var timer, chosen, bypasses := PumpLoopCases(s, now, check);
  }
}
