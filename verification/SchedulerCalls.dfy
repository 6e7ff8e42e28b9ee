// Who is answered, when, and with what; and what the scheduler knows of each consumer: over every
// run, exactly what the calls have said.
module SchedulerCalls {
  import opened Basics
  import opened SchedulerState
  import opened SchedulerInvariant
  import opened SchedulerSteps
  import opened SchedulerFairness

  // ---- What a state owes ----

  // Frames that still have a completion to call.
  predicate IsAnswering(f: Frame) {
    f.Delivering? || f.Cancelling?
  }

  predicate Owes(f: Frame, t: nat, o: Outcome) {
    match f
    case Delivering(tickets, outcome) => o == outcome && t in tickets
    case Cancelling(done) => o == Cancelled && done == Some(t)
    case _ => false
  }

  // The ticket's completion was called with this outcome, or a suspended call is going to.
  ghost predicate Answered(s: State, t: nat, o: Outcome) {
    Delivery(t, o) in s.log.delivered || exists f :: f in s.stack && Owes(f, t, o)
  }

  // ---- Steps that answer nobody ----

  ghost predicate SameAnswers(s: State, r: State) {
    && r.log.delivered == s.log.delivered
    && (forall f :: f in r.stack && IsAnswering(f) ==> f in s.stack)
    && (forall f :: f in s.stack && IsAnswering(f) ==> f in r.stack)
  }

  // No job is new, jobs keep what they were made with, and no waiter is new.
  ghost predicate SameConsumers(jobs: map<Key, Job>, next: map<Key, Job>) {
    forall k :: k in next ==>
      && k in jobs && next[k].lane == jobs[k].lane && next[k].kind == jobs[k].kind && next[k].owner == jobs[k].owner
      && forall w :: w in next[k].waiters ==> w in jobs[k].waiters
  }

  ghost predicate Calm(s: State, r: State) {
    SameAnswers(s, r) && SameConsumers(s.jobs, r.jobs) && r.ticketKeys == s.ticketKeys
  }

  lemma SameAnswersMean(s: State, r: State, t: nat, o: Outcome)
    requires SameAnswers(s, r)
    ensures Answered(r, t, o) <==> Answered(s, t, o)
  {
    if exists f :: f in r.stack && Owes(f, t, o) {
      var f :| f in r.stack && Owes(f, t, o);
      assert f in s.stack;
    }
    if exists f :: f in s.stack && Owes(f, t, o) {
      var f :| f in s.stack && Owes(f, t, o);
      assert f in r.stack;
    }
  }

  lemma CalmTrans(a: State, b: State, c: State)
    requires Calm(a, b) && Calm(b, c)
    ensures Calm(a, c)
  {
  }

  lemma ConsumersTrans(a: map<Key, Job>, b: map<Key, Job>, c: map<Key, Job>)
    requires SameConsumers(a, b) && SameConsumers(b, c)
    ensures SameConsumers(a, c)
  {
  }

  // Nothing a consumer notices has changed: the stack, the log and the tickets are the same up to a
  // frame that answers nobody, and the jobs up to how far they are.
  lemma CalmParts(s: State, r: State, frame: Option<Frame>)
    requires frame.Some? ==> !IsAnswering(frame.value)
    requires r.stack == (if frame.Some? then [frame.value] else []) + s.stack || r.stack == s.stack
    requires r.log.delivered == s.log.delivered && r.ticketKeys == s.ticketKeys && SameConsumers(s.jobs, r.jobs)
    ensures Calm(s, r)
  {
    hide SameConsumers;
  }

  lemma SameJobs(jobs: map<Key, Job>)
    ensures SameConsumers(jobs, jobs)
  {
  }

  lemma OneJob(jobs: map<Key, Job>, key: Key, job: Job)
    requires key in jobs && job.lane == jobs[key].lane && job.kind == jobs[key].kind && job.owner == jobs[key].owner
    requires forall w :: w in job.waiters ==> w in jobs[key].waiters
    ensures SameConsumers(jobs, jobs[key := job]) && SameConsumers(jobs, jobs[key := job] - {key})
    ensures SameConsumers(jobs, jobs - {key})
  {
  }

  lemma PumpLoopCalm(s: State, now: int, check: Check)
    ensures Calm(s, PumpLoop(s, now, check))
  {
    hide PumpLoop, IsOldest, EligibleKeys, Eligible, Calm, SameConsumers;
    var timer, chosen, bypasses := PumpLoopCases(s, now, check);
    var r := PumpLoop(s, now, check);
    SameJobs(s.jobs);
    if r == s.(timer := timer) {
      CalmParts(s, r, None);
    } else {
      OneJob(s.jobs, chosen, s.jobs[chosen].(active := true));
      CalmParts(s, r, Some(r.stack[0]));
    }
  }

  // A popped frame that answered nobody is not missed.
  lemma PopCalm(s: State, r: State)
    requires s.stack != [] && !IsAnswering(s.stack[0]) && r.stack == s.stack[1..] && r.log == s.log
    requires r.ticketKeys == s.ticketKeys && SameConsumers(s.jobs, r.jobs)
    ensures Calm(s, r)
  {
    hide SameConsumers;
    assert forall f :: f in s.stack ==> f == s.stack[0] || f in s.stack[1..];
  }

  lemma LoopCalm(s: State, s1: State, now: int, check: Check)
    requires Calm(s, s1)
    ensures Calm(s, PumpLoop(s1, now, check))
  {
    hide PumpLoop, Calm;
    PumpLoopCalm(s1, now, check);
    CalmTrans(s, s1, PumpLoop(s1, now, check));
  }

  lemma PushCalm(s: State, s1: State, check: Check)
    requires Calm(s, s1)
    ensures Calm(s, Push(s1, Aborting(check)))
  {
    hide Calm, SameConsumers;
    SameJobs(s1.jobs);
    CalmParts(s1, Push(s1, Aborting(check)), Some(Aborting(check)));
    CalmTrans(s, s1, Push(s1, Aborting(check)));
  }

  lemma FetchingCalm(s: State, handle: bool, now: int)
    requires s.stack != [] && s.stack[0].Fetching?
    ensures Calm(s, ResumeFetching(s, handle, now))
  {
    hide PumpLoop, Calm, SameConsumers;
    var f := s.stack[0];
    var s1 := Pop(s).(clock := now);
    SameJobs(s.jobs);
    PopCalm(s, s1);
    LoopCalm(s, s1, now, f.check);
    PushCalm(s, s1, f.check);
    if f.key in s.jobs {
      var kept, aborting := s.jobs[f.key].(abort := handle), s.jobs[f.key].(abort := handle, aborting := true);
      OneJob(s.jobs, f.key, kept);
      OneJob(s.jobs, f.key, aborting);
      PopCalm(s, WithJob(s1, f.key, kept));
      PopCalm(s, WithJob(s1, f.key, aborting));
      LoopCalm(s, WithJob(s1, f.key, kept), now, f.check);
      PushCalm(s, WithJob(s1, f.key, aborting), f.check);
    }
  }

  lemma AbandoningCalm(s: State)
    requires s.stack != [] && s.stack[0].Abandoning?
    ensures Calm(s, ResumeAbandoning(s))
  {
    hide Calm, SameConsumers;
    SameJobs(s.jobs);
    var key := s.stack[0].key;
    if key in s.jobs {
      OneJob(s.jobs, key, s.jobs[key]);
    }
    PopCalm(s, ResumeAbandoning(s));
  }

  lemma AbortingCalm(s: State, now: int)
    requires s.stack != [] && s.stack[0].Aborting?
    ensures Calm(s, ResumeAborting(s, now))
  {
    hide Calm, SameConsumers, PumpLoop;
    SameJobs(s.jobs);
    PopCalm(s, Pop(s).(clock := now));
    LoopCalm(s, Pop(s).(clock := now), now, s.stack[0].check);
  }

  lemma PumpCalm(s: State, now: int)
    ensures Calm(s, Pump(s, now))
  {
    hide PumpLoop, CreditAt, DebtDelay, Waiting, Calm, SameConsumers;
    var s1 := Replenish(s, now);
    SameJobs(s.jobs);
    CalmParts(s, s, None);
    CalmParts(s, s1, None);
    if s1.budget.limit > 0 {
      CalmParts(s, ScheduleWakeup(s1, DebtDelay(s1.budget), now), None);
    }
    LoopCalm(s, s1, now, CheckOf(s1.budget, now));
  }

  // Steps that are about settings, transfers and time.
  predicate IsSetting(step: Step) {
    step.Observe? || step.Release? || step.MaxActive? || step.LaneMaxActive? || step.BandwidthLimit?
    || step.Report? || step.TimerFires?
  }

  lemma SettingCalm(s: State, step: Step)
    requires Enabled(s, step) && IsSetting(step)
    ensures Calm(s, Apply(s, step))
  {
    hide Calm, SameConsumers, CreditAt, NextCongestion, Enumerates, SetBandwidthLimit, ReportTransfer;
    SameJobs(s.jobs);
    if step.BandwidthLimit? || step.Report? {
      PacingCalm(s, step);
    } else {
      CalmParts(s, Apply(s, step), None);
    }
  }

  lemma PacingCalm(s: State, step: Step)
    ensures step.BandwidthLimit? ==> Calm(s, SetBandwidthLimit(s, step.bytesPerSecond, step.now))
    ensures step.Report? ==> Calm(s, ReportTransfer(s, step.lane, step.networkBytes, step.congested, step.now))
  {
    hide Calm, SameConsumers, CreditAt, NextCongestion, NewLimit, Charge;
    SameJobs(s.jobs);
    if step.BandwidthLimit? {
      CalmParts(s, SetBandwidthLimit(s, step.bytesPerSecond, step.now), None);
    } else if step.Report? {
      CalmParts(s, ReportTransfer(s, step.lane, step.networkBytes, step.congested, step.now), None);
    }
  }

  lemma RunPumpCalm(s: State, now: int)
    requires Enabled(s, RunPump(now))
    ensures Calm(s, Apply(s, RunPump(now)))
  {
    hide Calm, SameConsumers, Pump;
    var s0 := s.(scheduled := false, clock := now);
    SameJobs(s.jobs);
    CalmParts(s, s0, None);
    PumpCalm(s0, now);
    CalmTrans(s, s0, Pump(s0, now));
  }

  // Continuing a call that has nobody to answer.
  lemma ResumeCalm(s: State, handle: bool, now: int)
    requires Enabled(s, Resume(handle, now)) && !IsAnswering(s.stack[0])
    ensures Calm(s, Apply(s, Resume(handle, now)))
  {
    hide Calm, ResumeFetching, ResumeAbandoning, ResumeAborting;
    match s.stack[0]
    case Fetching(_, _, _, _) => FetchingCalm(s, handle, now);
    case Abandoning(_, _, _) => AbandoningCalm(s);
    case Aborting(_) => AbortingCalm(s, now);
  }

  // ---- Cancelling ----

  lemma WaiterListShrinks(ws: seq<Waiter>, ticket: nat)
    ensures forall w :: w in WithoutTicket(ws, ticket) ==> w in ws
  {
  }

  lemma CancelConsumers(s: State, ticket: nat)
    requires ticket in s.ticketKeys && s.ticketKeys[ticket] in s.jobs
    ensures SameConsumers(s.jobs, Cancel(s, ticket).jobs)
  {
    hide WithoutTicket, Tickets, SameConsumers;
    var key := s.ticketKeys[ticket];
    var job := s.jobs[key];
    WaiterListShrinks(job.waiters, ticket);
    SameJobs(s.jobs);
    OneJob(s.jobs, key, job.(waiters := WithoutTicket(job.waiters, ticket)));
    OneJob(s.jobs, key, job.(waiters := WithoutTicket(job.waiters, ticket), aborting := true));
  }

  // The consumer is called at once, or is owed the call while abort() runs.
  lemma CancelShape(s: State, ticket: nat)
    requires ticket in s.ticketKeys && s.ticketKeys[ticket] in s.jobs
    requires ticket in Tickets(s.jobs[s.ticketKeys[ticket]].waiters)
    ensures var r := Cancel(s, ticket);
      || (r.stack == s.stack && r.log.delivered == s.log.delivered + [Delivery(ticket, Cancelled)])
      || (r.stack == [Cancelling(Some(ticket))] + s.stack && r.log.delivered == s.log.delivered)
  {
    hide WithoutTicket, Tickets;
  }

  lemma MoreAnswers(s: State, r: State, f: Option<Frame>, d: Option<Delivery>, t: nat, o: Outcome)
    requires r.stack == (if f.Some? then [f.value] else []) + s.stack
    requires r.log.delivered == s.log.delivered + (if d.Some? then [d.value] else [])
    ensures Answered(r, t, o)
      <==> Answered(s, t, o) || (f.Some? && Owes(f.value, t, o)) || (d.Some? && d.value == Delivery(t, o))
  {
    hide Owes;
    assert forall g :: g in r.stack <==> g in s.stack || (f.Some? && g == f.value);
  }

  lemma CancelAnswers(s: State, ticket: nat, t: nat, o: Outcome)
    requires Inv(s) && ticket in s.ticketKeys
    ensures Answered(Cancel(s, ticket), t, o) <==> Answered(s, t, o) || (t == ticket && o == Cancelled)
  {
    hide Core, Cancel, Answered;
    CoreTicket(s, ticket);
    CancelShape(s, ticket);
    var r := Cancel(s, ticket);
    if r.log.delivered == s.log.delivered {
      MoreAnswers(s, r, Some(Cancelling(Some(ticket))), None, t, o);
    } else {
      MoreAnswers(s, r, None, Some(Delivery(ticket, Cancelled)), t, o);
    }
  }

  lemma AbandonAnswers(s: State, ticket: nat, t: nat, o: Outcome)
    requires Inv(s) && ticket in s.ticketKeys
    ensures Answered(AbandonStopped(s, ticket), t, o) <==> Answered(s, t, o) || (t == ticket && o == Cancelled)
    ensures AbandonStopped(s, ticket).ticketKeys == s.ticketKeys - {ticket}
    ensures SameConsumers(s.jobs, AbandonStopped(s, ticket).jobs)
  {
    hide Core, Cancel, Answered, SameConsumers;
    CoreTicket(s, ticket);
    var key := s.ticketKeys[ticket];
    var f := Abandoning(key, s.jobs[key].id, s.jobs[key].sequence);
    PushKeeps(s, f);
    MoreAnswers(s, Push(s, f), Some(f), None, t, o);
    CancelAnswers(Push(s, f), ticket, t, o);
    CancelForgets(Push(s, f), ticket);
    CancelConsumers(Push(s, f), ticket);
  }

  // ---- Retiring an owner, shutting down ----

  predicate Waits(s: State, t: nat, k: Key) {
    k in s.jobs && t in Tickets(s.jobs[k].waiters)
  }

  // A ticket waits in the job it is registered for, and in no other.
  lemma WaitsWhereRegistered(s: State, t: nat, k: Key)
    requires Inv(s)
    ensures Waits(s, t, k) <==> t in s.ticketKeys && s.ticketKeys[t] == k
  {
    hide FramesRightful, DeliveriesRightful, FramesSound, AdmissionsSound, CreditSound, Slots, Sequenced,
         JoinedKnown, AbortsKnown, Conserved, Tickets;
    if t in s.ticketKeys {
      CoreTicket(s, t);
    }
    if Waits(s, t, k) {
      TicketsMembership(s.jobs[k].waiters, t);
    }
  }

  // One of the jobs in `order` is the owner's, and the ticket waits in it.
  ghost predicate WaitsForOwner(s: State, owner: nat, order: seq<Key>, t: nat) {
    exists k :: k in order && Waits(s, t, k) && s.jobs[k].owner == owner
  }

  // Exactly the jobs of the owner go, and their tickets with them.
  lemma {:induction false} RetireAllExactly(s: State, owner: nat, order: seq<Key>)
    requires s.stack != [] && s.stack[0].Delivering?
    ensures var r := RetireAll(s, owner, order);
      && (forall k :: k in r.jobs <==> k in s.jobs && !(k in order && s.jobs[k].owner == owner))
      && (forall k :: k in r.jobs ==> r.jobs[k] == s.jobs[k])
      && r.log == s.log && r.nextTicket == s.nextTicket
    decreases |order|
  {
    hide Tickets, TicketSet;
    if order != [] {
      var key := order[0];
      assert forall k :: k in order <==> k == key || k in order[1..];
      if key in s.jobs && s.jobs[key].owner == owner {
        RetireAllExactly(Drop(s, key), owner, order[1..]);
      } else {
        RetireAllExactly(s, owner, order[1..]);
      }
    }
  }

  lemma {:induction false} RetireAllTickets(s: State, owner: nat, order: seq<Key>, t: nat)
    requires s.stack != [] && s.stack[0].Delivering?
    ensures var r := RetireAll(s, owner, order);
      && (t in r.stack[0].tickets <==> t in s.stack[0].tickets || WaitsForOwner(s, owner, order, t))
      && (t in r.ticketKeys <==> t in s.ticketKeys && !WaitsForOwner(s, owner, order, t))
      && (t in r.ticketKeys ==> r.ticketKeys[t] == s.ticketKeys[t])
    decreases |order|
  {
    hide Tickets;
    if order != [] {
      var key := order[0];
      if key in s.jobs && s.jobs[key].owner == owner {
        var s1 := Drop(s, key);
        RetireAllTickets(s1, owner, order[1..], t);
        DroppedWaiters(s, owner, order, t);
      } else {
        RetireAllTickets(s, owner, order[1..], t);
        assert WaitsForOwner(s, owner, order, t) <==> WaitsForOwner(s, owner, order[1..], t) by {
          assert forall k :: k in order <==> k == key || k in order[1..];
        }
      }
    }
  }

  lemma DroppedWaiters(s: State, owner: nat, order: seq<Key>, t: nat)
    requires s.stack != [] && s.stack[0].Delivering? && order != []
    requires order[0] in s.jobs && s.jobs[order[0]].owner == owner
    ensures var s1 := Drop(s, order[0]);
      && (WaitsForOwner(s, owner, order, t) <==> t in Tickets(s.jobs[order[0]].waiters) || WaitsForOwner(s1, owner, order[1..], t))
      && (t in s1.stack[0].tickets <==> t in s.stack[0].tickets || t in Tickets(s.jobs[order[0]].waiters))
      && (t in s1.ticketKeys <==> t in s.ticketKeys && t !in Tickets(s.jobs[order[0]].waiters))
      && (t in s1.ticketKeys ==> s1.ticketKeys[t] == s.ticketKeys[t])
  {
    hide Tickets;
    var key, s1 := order[0], Drop(s, order[0]);
    assert forall k :: k in order <==> k == key || k in order[1..];
    if WaitsForOwner(s, owner, order, t) {
      var k :| k in order && Waits(s, t, k) && s.jobs[k].owner == owner;
      assert k != key ==> Waits(s1, t, k) && s1.jobs[k].owner == owner;
    }
    if t in Tickets(s.jobs[key].waiters) {
      assert Waits(s, t, key) && key in order;
    }
    if WaitsForOwner(s1, owner, order[1..], t) {
      var k :| k in order[1..] && Waits(s1, t, k) && s1.jobs[k].owner == owner;
      assert Waits(s, t, k) && k in order;
    }
  }

  // The ticket waits for a transfer of the owner.
  predicate ForOwner(s: State, t: nat, owner: nat) {
    t in s.ticketKeys && s.ticketKeys[t] in s.jobs && s.jobs[s.ticketKeys[t]].owner == owner
  }

  lemma WaitsForOwnerMeans(s: State, owner: nat, order: seq<Key>, t: nat)
    requires Inv(s) && Enumerates(order, s.jobs.Keys)
    ensures WaitsForOwner(s, owner, order, t) <==> ForOwner(s, t, owner)
  {
    hide Inv, Waits;
    forall k ensures Waits(s, t, k) <==> t in s.ticketKeys && s.ticketKeys[t] == k {
      WaitsWhereRegistered(s, t, k);
    }
    if ForOwner(s, t, owner) {
      assert Waits(s, t, s.ticketKeys[t]) && s.ticketKeys[t] in order;
    }
    if WaitsForOwner(s, owner, order, t) {
      var k :| k in order && Waits(s, t, k) && s.jobs[k].owner == owner;
    }
  }

  // retireStoppedOwner: the owner's jobs are gone and all others are as they were; the tickets that
  // waited for one of them are answered with "transport stopped", and all others stay registered.
  lemma RetiredExactly(s: State, owner: nat, order: seq<Key>, t: nat, o: Outcome)
    requires Inv(s) && owner != 0 && Enumerates(order, s.jobs.Keys)
    ensures var r := RetireStoppedOwner(s, owner, order);
      && (forall k :: k in r.jobs <==> k in s.jobs && s.jobs[k].owner != owner)
      && (forall k :: k in r.jobs ==> r.jobs[k] == s.jobs[k])
      && (t in r.ticketKeys <==> t in s.ticketKeys && !ForOwner(s, t, owner))
      && (t in r.ticketKeys ==> r.ticketKeys[t] == s.ticketKeys[t])
      && (Answered(r, t, o) <==> Answered(s, t, o) || (ForOwner(s, t, owner) && o == TransportStopped))
  {
    hide Core, RetireAll, WaitsForOwner, Answered, ForOwner;
    var s1 := Push(s, Delivering([], TransportStopped));
    var r := RetireStoppedOwner(s, owner, order);
    RetireAllExactly(s1, owner, order);
    RetireAllTickets(s1, owner, order, t);
    PushKeeps(s, Delivering([], TransportStopped));
    WaitsForOwnerMeans(s1, owner, order, t);
    assert ForOwner(s1, t, owner) == ForOwner(s, t, owner) by { SameOwners(s, s1, t, owner); }
    MoreAnswers(s, r, Some(r.stack[0]), None, t, o);
  }

  lemma SameOwners(s: State, r: State, t: nat, owner: nat)
    requires r.jobs == s.jobs && r.ticketKeys == s.ticketKeys
    ensures ForOwner(r, t, owner) == ForOwner(s, t, owner)
  {
  }

  // shutdown: every registered ticket is answered.
  lemma StoppedExactly(s: State, order: seq<Key>, t: nat, o: Outcome)
    requires Inv(s) && !s.stopped && Enumerates(order, s.jobs.Keys)
    ensures var r := Shutdown(s, order);
      && r.stopped && r.jobs == map[] && r.ticketKeys == map[] && r.active == 0 && r.laneActive == map[] && r.timer == None
      && r.policy.external == {} && r.policy.congestion == map[]
      && r.policy.maxActive == s.policy.maxActive && r.policy.laneLimits == s.policy.laneLimits
      && (Answered(r, t, o) <==> Answered(s, t, o) || (t in s.ticketKeys && o == SchedulerStopped))
  {
    hide Sequenced, Slots, Conserved, FramesRightful, DeliveriesRightful, FramesSound, AdmissionsSound, CreditSound,
         JoinedKnown, AbortsKnown, Linked, AllTickets, JobSet, Answered;
    var r := Shutdown(s, order);
    AllTicketsBag(s, order);
    assert t in AllTickets(s, order) <==> t in multiset(AllTickets(s, order));
    MoreAnswers(s, r, Some(Delivering(AllTickets(s, order), SchedulerStopped)), None, t, o);
  }

  // ---- A completion ----

  // The completion is that of the current attempt of an active job, and not one that is to be retried.
  predicate SettlesJob(s: State, key: Key, sequence: nat, bytes: Bytes, error: string) {
    && key in s.jobs && s.jobs[key].sequence == sequence && s.jobs[key].active
    && !(s.jobs[key].aborting && s.jobs[key].waiters != [] && (error != "" || bytes == []))
  }

  // What a completion leaves behind, for job `key` and ticket t.
  ghost predicate Settled(s: State, r: State, key: Key, t: nat, o: Outcome, outcome: Outcome) {
    && r.jobs == s.jobs - {key} && (t in r.ticketKeys <==> t in s.ticketKeys && s.ticketKeys[t] != key)
    && (t in r.ticketKeys ==> r.ticketKeys[t] == s.ticketKeys[t])
    && (Answered(r, t, o) <==> Answered(s, t, o) || (t in s.ticketKeys && s.ticketKeys[t] == key && o == outcome))
  }

  lemma SettleAnswers(s: State, s1: State, key: Key, outcome: Outcome, t: nat, o: Outcome)
    requires Inv(s) && key in s.jobs
    requires s1.jobs == s.jobs && s1.ticketKeys == s.ticketKeys && s1.stack == s.stack && s1.log == s.log
    ensures Settled(s, Schedule(Settle(s1, key, outcome)), key, t, o, outcome)
  {
    hide Inv, Answered, Tickets;
    var r := Schedule(Settle(s1, key, outcome));
    WaitsWhereRegistered(s, t, key);
    MoreAnswers(s, r, Some(Delivering(Tickets(s.jobs[key].waiters), outcome)), None, t, o);
  }

  // The job waits again, with the same consumers.
  lemma RestartCalm(s: State, s1: State, key: Key)
    requires key in s.jobs
    requires s1.jobs == s.jobs && s1.ticketKeys == s.ticketKeys && s1.stack == s.stack && s1.log == s.log
    ensures var r := Schedule(Restart(s1, key));
      && Calm(s, r) && r.jobs.Keys == s.jobs.Keys && forall k :: k in s.jobs && k != key ==> r.jobs[k] == s.jobs[k]
  {
    hide Calm, SameConsumers;
    OneJob(s.jobs, key, s.jobs[key].(active := false, aborting := false, abort := false, sequence := s1.nextSequence + 1));
    CalmParts(s, Schedule(Restart(s1, key)), None);
  }

  // finish: if it settles its job, the job is gone and exactly its consumers are answered with the
  // data or the error. Otherwise nobody notices; at most the job waits again.
  lemma FinishedExactly(s: State, key: Key, sequence: nat, bytes: Bytes, error: string, t: nat, o: Outcome)
    requires Inv(s)
    ensures var r := Finish(s, key, sequence, bytes, error);
      if SettlesJob(s, key, sequence, bytes, error) then Settled(s, r, key, t, o, Finished(sequence, bytes, error))
      else Calm(s, r) && r.jobs.Keys == s.jobs.Keys && forall k :: k in s.jobs && k != key ==> r.jobs[k] == s.jobs[k]
  {
    hide Inv, Calm, SameConsumers, Settle, Restart, Settled;
    SameJobs(s.jobs);
    CalmParts(s, s, None);
    if key in s.jobs {
      SettleAnswers(s, ReleaseSlot(s, s.jobs[key].lane), key, Finished(sequence, bytes, error), t, o);
      RestartCalm(s, ReleaseSlot(s, s.jobs[key].lane), key);
    }
  }

  // ---- Going on with the answers ----

  lemma CancellingGoesOn(s: State, t: nat, o: Outcome)
    requires s.stack != [] && s.stack[0].Cancelling?
    ensures var r := ResumeCancelling(s);
      (Answered(r, t, o) <==> Answered(s, t, o)) && r.jobs == s.jobs && r.ticketKeys == s.ticketKeys
  {
    hide Answered;
    var f := s.stack[0];
    var rest := s.(stack := s.stack[1..]);
    assert s.stack == [f] + rest.stack;
    MoreAnswers(rest, s, Some(f), None, t, o);
    MoreAnswers(rest, ResumeCancelling(s), None, if f.done.Some? then Some(Delivery(f.done.value, Cancelled)) else None, t, o);
  }

  // The next completion is called with the outcome of the call, and the others are still owed it.
  lemma DeliveringGoesOn(s: State, t: nat, o: Outcome)
    requires s.stack != [] && s.stack[0].Delivering?
    ensures var r := ResumeDelivering(s);
      (Answered(r, t, o) <==> Answered(s, t, o)) && r.jobs == s.jobs && r.ticketKeys == s.ticketKeys
  {
    hide Answered;
    var f := s.stack[0];
    var rest := s.(stack := s.stack[1..]);
    assert s.stack == [f] + rest.stack;
    MoreAnswers(rest, s, Some(f), None, t, o);
    if f.tickets == [] {
      MoreAnswers(rest, ResumeDelivering(s), None, None, t, o);
    } else {
      assert f.tickets == [f.tickets[0]] + f.tickets[1..];
      MoreAnswers(rest, ResumeDelivering(s), Some(Delivering(f.tickets[1..], f.outcome)),
                  Some(Delivery(f.tickets[0], f.outcome)), t, o);
    }
  }

  // ---- Requesting ----

  // The call is granted: everything it needs is there, and nobody asks for the chunk in another lane.
  predicate Grants(s: State, step: Step) {
    && step.Request? && !s.stopped && step.source != "" && step.lane != "" && step.fetch.Some? && step.hasDone
    && (MakeKey(step.source, step.index) in s.jobs ==> s.jobs[MakeKey(step.source, step.index)].lane == step.lane)
  }

  // request: a granted call gets the next ticket, and its consumer is the last one of the chunk's job;
  // a new job is made as the call says, one that is there stays as it is. Who joins an attempt that is
  // being aborted is on record as having done so. A refused call changes nothing.
  lemma RequestedExactly(s: State, step: Step)
    requires step.Request?
    ensures var answer := AddWaiter(s, step.source, step.index, step.lane, step.priority, step.fetch, step.hasDone, step.owner);
      var key, t, r := MakeKey(step.source, step.index), s.nextTicket + 1, answer.0;
      if !Grants(s, step) then r == s && !answer.1.Ticket?
      else
        && answer.1 == Ticket(t) && r.nextTicket == t && r.ticketKeys == s.ticketKeys[t := key] && SameAnswers(s, r)
        && r.jobs.Keys == s.jobs.Keys + {key} && (forall k :: k in s.jobs && k != key ==> r.jobs[k] == s.jobs[k])
        && (key in s.jobs ==>
              r.jobs[key] == s.jobs[key].(waiters := s.jobs[key].waiters + [Waiter(t, step.priority)]))
        && (key !in s.jobs ==>
              && r.jobs[key].lane == step.lane && r.jobs[key].kind == step.fetch.value && r.jobs[key].owner == step.owner
              && r.jobs[key].waiters == [Waiter(t, step.priority)] && r.jobs[key].sequence == s.nextSequence + 1
              && !r.jobs[key].active && !r.jobs[key].abort && !r.jobs[key].aborting)
        && r.scheduled
        && r.log == s.log.(joinedAborting := if key in s.jobs && s.jobs[key].aborting
                                             then s.log.joinedAborting[t := s.jobs[key].sequence] else s.log.joinedAborting)
  {
    hide MakeKey;
  }

  // ---- Priorities ----

  lemma {:induction false} PriorityReplaced(ws: seq<Waiter>, ticket: nat, priority: Priority)
    requires forall i, j :: 0 <= i < j < |ws| ==> ws[i].ticket != ws[j].ticket
    requires exists i :: 0 <= i < |ws| && ws[i].ticket == ticket
    ensures forall w :: w in WithPriority(ws, ticket, priority) <==> (w in ws && w.ticket != ticket) || w == Waiter(ticket, priority)
  {
    assert ws == [ws[0]] + ws[1..];
    assert forall w :: w in ws[1..] ==> w.ticket != ws[0].ticket;
    if ws[0].ticket != ticket {
      var i :| 0 <= i < |ws| && ws[i].ticket == ticket;
      assert ws[1..][i - 1] == ws[i];
      PriorityReplaced(ws[1..], ticket, priority);
    }
  }

  lemma DistinctWaiters(s: State, k: Key)
    requires Inv(s) && k in s.jobs
    ensures forall i, j :: 0 <= i < j < |s.jobs[k].waiters| ==> s.jobs[k].waiters[i].ticket != s.jobs[k].waiters[j].ticket
  {
    hide Sequenced, Slots, Conserved, FramesRightful, DeliveriesRightful, FramesSound, AdmissionsSound, CreditSound,
         JoinedKnown, AbortsKnown, Tickets;
  }

  // reprioritize: the waiter of a registered ticket has the new priority, and that is all.
  lemma ReprioritizedExactly(s: State, ticket: nat, priority: Priority)
    requires Inv(s)
    ensures var r := Reprioritize(s, ticket, priority);
      && SameAnswers(s, r) && r.ticketKeys == s.ticketKeys && r.jobs.Keys == s.jobs.Keys
      && (forall k :: k in s.jobs ==> r.jobs[k] == s.jobs[k].(waiters := r.jobs[k].waiters))
      && (forall k, w :: k in s.jobs ==>
            (w in r.jobs[k].waiters <==>
               if ticket in s.ticketKeys && s.ticketKeys[ticket] == k
               then (w in s.jobs[k].waiters && w.ticket != ticket) || w == Waiter(ticket, priority)
               else w in s.jobs[k].waiters))
  {
    hide Core, WithPriority, Tickets;
    if ticket in s.ticketKeys {
      CoreTicket(s, ticket);
      var ws := s.jobs[s.ticketKeys[ticket]].waiters;
      DistinctWaiters(s, s.ticketKeys[ticket]);
      TicketsMembership(ws, ticket);
      PriorityReplaced(ws, ticket, priority);
    }
  }

  // The priority of a job is the largest one its consumers have asked for.
  lemma {:induction false} TopPriorityIsLargest(ws: seq<Waiter>)
    ensures forall i :: 0 <= i < |ws| ==> ws[i].priority <= TopPriority(ws)
    ensures ws != [] ==> exists i :: 0 <= i < |ws| && ws[i].priority == TopPriority(ws)
  {
    if ws != [] {
      var init, last := ws[..|ws| - 1], ws[|ws| - 1];
      TopPriorityIsLargest(init);
      forall i | 0 <= i < |ws| ensures ws[i].priority <= TopPriority(ws) {
        assert i < |init| ==> init[i] == ws[i];
      }
      if init == [] || TopPriority(ws) == last.priority {
        assert TopPriority(ws) == Max(TopPriority(init), last.priority);
        assert ws[|ws| - 1].priority == TopPriority(ws);
      } else {
        var i :| 0 <= i < |init| && init[i].priority == TopPriority(init);
        assert ws[i].priority == TopPriority(ws);
      }
    }
  }

  // A job can be admitted if somebody waits for it, its attempt has not begun, its lane runs fewer
  // transfers than it may (one, if no limit was set) and is not backed off beyond now.
  lemma EligibleMeans(s: State, k: Key, now: int)
    requires Inv(s)
    ensures Eligible(s, k, now)
      <==> k in s.jobs && s.jobs[k].waiters != [] && !s.jobs[k].active
           && |LaneKeys(s.jobs, s.jobs[k].lane)|
              < (if s.jobs[k].lane in s.policy.laneLimits then s.policy.laneLimits[s.jobs[k].lane] else 1)
           && (s.jobs[k].lane in s.policy.congestion ==> s.policy.congestion[s.jobs[k].lane].retryAfter <= now)
  {
    hide Sequenced, Conserved, FramesRightful, DeliveriesRightful, FramesSound, AdmissionsSound, CreditSound, JoinedKnown,
         AbortsKnown, Linked, LaneKeys, ActiveKeys;
  }

  // Somebody waits for the first job with at least the priority of each who waits for the second; and
  // if that holds the other way round as well, the first job is not the later one.
  ghost predicate Outranks(a: Job, b: Job) {
    && Matches(a.waiters, b.waiters)
    && (Matches(b.waiters, a.waiters) ==> a.sequence <= b.sequence)
  }

  ghost predicate Matches(a: seq<Waiter>, b: seq<Waiter>) {
    forall i :: 0 <= i < |b| ==> exists j :: 0 <= j < |a| && b[i].priority <= a[j].priority
  }

  lemma MatchesByTop(a: seq<Waiter>, b: seq<Waiter>)
    requires a != [] && b != []
    ensures Matches(a, b) <==> TopPriority(b) <= TopPriority(a)
  {
    hide TopPriority;
    TopPriorityIsLargest(a);
    TopPriorityIsLargest(b);
    var top :| 0 <= top < |a| && a[top].priority == TopPriority(a);
    if TopPriority(b) <= TopPriority(a) {
      forall i | 0 <= i < |b| ensures exists j :: 0 <= j < |a| && b[i].priority <= a[j].priority {
        assert b[i].priority <= a[top].priority;
      }
    }
  }

  lemma PreferredOutranks(s: State, now: int, key: Key, k: Key)
    requires IsPreferred(s, EligibleKeys(s, now), key) && Eligible(s, k, now)
    ensures key in s.jobs && k in s.jobs && Outranks(s.jobs[key], s.jobs[k])
  {
    hide TopPriority, Matches;
    assert k in EligibleKeys(s, now) && key in EligibleKeys(s, now);
    MatchesByTop(s.jobs[key].waiters, s.jobs[k].waiters);
    MatchesByTop(s.jobs[k].waiters, s.jobs[key].waiters);
  }

  // The loop admits the eligible job of the highest priority, of several the earliest; after four
  // admissions that went past the earliest eligible job, it admits that one.
  lemma AdmitsByPriority(s: State, now: int, check: Check) returns (chosen: Key)
    requires PumpLoop(s, now, check).log.admitted != s.log.admitted
    ensures chosen in s.jobs && Eligible(s, chosen, now)
    ensures PumpLoop(s, now, check).log.admitted == s.log.admitted + [Admission(chosen, s.jobs[chosen].sequence, check)]
    ensures if s.bypasses < 4 then forall k :: Eligible(s, k, now) ==> Outranks(s.jobs[chosen], s.jobs[k])
            else forall k :: Eligible(s, k, now) ==> s.jobs[chosen].sequence <= s.jobs[k].sequence
  {
    hide IsFirstWake, IsPreferred, IsOldest, EligibleKeys, Eligible, Outranks;
    var keys := EligibleKeys(s, now);
    OldestIs(s, keys);
    PreferredIsMember(s, keys);
    EligibleIsJob(s, now);
    var oldest, preferred := Oldest(s, keys), Preferred(s, keys);
    chosen := if preferred != oldest && s.bypasses >= MAX_PRIORITY_BYPASSES then oldest else preferred;
    if s.bypasses < 4 {
      forall k | Eligible(s, k, now) ensures k in s.jobs && Outranks(s.jobs[chosen], s.jobs[k]) {
        PreferredOutranks(s, now, chosen, k);
      }
    } else {
      OldestIsFirst(s, now, chosen);
    }
  }

  lemma OldestIsFirst(s: State, now: int, key: Key)
    requires IsOldest(s, EligibleKeys(s, now), key)
    ensures key in s.jobs && forall k :: Eligible(s, k, now) ==> k in s.jobs && s.jobs[key].sequence <= s.jobs[k].sequence
  {
    assert forall k :: Eligible(s, k, now) ==> k in EligibleKeys(s, now);
  }

  // ---- One step ----

  // The step decides ticket t, with outcome o.
  predicate Answers(s: State, step: Step, t: nat, o: Outcome) {
    && t in s.ticketKeys
    && match step
       case CancelTicket(ticket) => t == ticket && o == Cancelled
       case Abandon(ticket) => t == ticket && o == Cancelled
       case Retire(owner, _) => owner != 0 && ForOwner(s, t, owner) && o == TransportStopped
       case Stop(_) => !s.stopped && o == SchedulerStopped
       case Complete(key, sequence, bytes, error) =>
         s.ticketKeys[t] == key && SettlesJob(s, key, sequence, bytes, error) && o == Finished(sequence, bytes, error)
       case _ => false
  }

  ghost predicate Decides(s: State, step: Step, t: nat) {
    exists o :: Answers(s, step, t, o)
  }

  predicate IssuesTicket(s: State, step: Step, t: nat) {
    Grants(s, step) && t == s.nextTicket + 1
  }

  // What a step does to consumer t. Answers are given exactly if the step decides them; a ticket is
  // registered from the request that issues it to the step that decides it, for one and the same chunk.
  ghost predicate ServesConsumer(s: State, step: Step, r: State, t: nat, o: Outcome) {
    && (Answered(r, t, o) <==> Answered(s, t, o) || Answers(s, step, t, o))
    && (t in r.ticketKeys <==> (t in s.ticketKeys && !Decides(s, step, t)) || IssuesTicket(s, step, t))
    && (t in r.ticketKeys && t in s.ticketKeys ==> r.ticketKeys[t] == s.ticketKeys[t])
    && (IssuesTicket(s, step, t) ==> t !in s.ticketKeys && r.ticketKeys[t] == MakeKey(step.source, step.index))
  }

  lemma CalmServes(s: State, step: Step, r: State, t: nat, o: Outcome)
    requires SameAnswers(s, r) && r.ticketKeys == s.ticketKeys && !step.Request?
    requires forall u, p :: !Answers(s, step, u, p)
    ensures ServesConsumer(s, step, r, t, o)
  {
    hide SameAnswers, Answered, Answers;
    SameAnswersMean(s, r, t, o);
  }

  lemma Unregistered(s: State, t: nat)
    requires Inv(s)
    ensures t > s.nextTicket ==> t !in s.ticketKeys
  {
    hide Sequenced, Slots, Linked, FramesRightful, DeliveriesRightful, FramesSound, AdmissionsSound, CreditSound,
         JoinedKnown, AbortsKnown;
    if t > s.nextTicket {
      UnissuedTicket(s.ticketKeys.Keys, s.stack, s.log.delivered, s.nextTicket, t);
    }
  }

  lemma RequestServes(s: State, step: Step, t: nat, o: Outcome)
    requires Inv(s) && step.Request?
    ensures ServesConsumer(s, step, Apply(s, step), t, o)
  {
    hide Inv, Answered, AddWaiter, MakeKey;
    RequestedExactly(s, step);
    Unregistered(s, s.nextTicket + 1);
    SameAnswersMean(s, s, t, o);
    if Grants(s, step) {
      SameAnswersMean(s, Apply(s, step), t, o);
    }
  }

  lemma CancelServes(s: State, step: Step, t: nat, o: Outcome)
    requires Inv(s) && (step.CancelTicket? || step.Abandon?)
    ensures ServesConsumer(s, step, Apply(s, step), t, o)
  {
    hide Core, Occupied, Answered, Cancel;
    if step.ticket in s.ticketKeys {
      CancelAnswers(s, step.ticket, t, o);
      CancelForgets(s, step.ticket);
      AbandonAnswers(s, step.ticket, t, o);
      assert t == step.ticket ==> Answers(s, step, t, Cancelled);
    } else {
      CancelUnknown(s, step.ticket);
      assert !Decides(s, step, t);
    }
  }

  lemma RetireServes(s: State, owner: nat, order: seq<Key>, t: nat, o: Outcome)
    requires Inv(s) && Enabled(s, Retire(owner, order))
    ensures ServesConsumer(s, Retire(owner, order), Apply(s, Retire(owner, order)), t, o)
  {
    hide Inv, Answered, RetireAll;
    if owner != 0 {
      RetiredExactly(s, owner, order, t, o);
      assert t in s.ticketKeys && ForOwner(s, t, owner) ==> Answers(s, Retire(owner, order), t, TransportStopped);
    } else {
      assert !Decides(s, Retire(owner, order), t);
    }
  }

  lemma StopServes(s: State, order: seq<Key>, t: nat, o: Outcome)
    requires Inv(s) && Enabled(s, Stop(order))
    ensures ServesConsumer(s, Stop(order), Apply(s, Stop(order)), t, o)
  {
    hide Inv, Answered, Shutdown;
    if !s.stopped {
      StoppedExactly(s, order, t, o);
      assert t in s.ticketKeys ==> Answers(s, Stop(order), t, SchedulerStopped);
    } else {
      StoppedStays(s, order);
      assert !Decides(s, Stop(order), t);
    }
  }

  lemma StoppedStays(s: State, order: seq<Key>)
    requires s.stopped
    ensures Shutdown(s, order) == s
  {
  }

  lemma CompleteServes(s: State, step: Step, t: nat, o: Outcome)
    requires Inv(s) && step.Complete?
    ensures ServesConsumer(s, step, Apply(s, step), t, o)
  {
    hide Inv, Answered, Finish, SettlesJob, SameConsumers, SameAnswers;
    var outcome := Finished(step.sequence, step.bytes, step.error);
    FinishedExactly(s, step.key, step.sequence, step.bytes, step.error, t, o);
    if SettlesJob(s, step.key, step.sequence, step.bytes, step.error) {
      assert t in s.ticketKeys && s.ticketKeys[t] == step.key ==> Answers(s, step, t, outcome);
    } else {
      CalmServes(s, step, Apply(s, step), t, o);
    }
  }

  lemma ResumeServes(s: State, handle: bool, now: int, t: nat, o: Outcome)
    requires Enabled(s, Resume(handle, now))
    ensures ServesConsumer(s, Resume(handle, now), Apply(s, Resume(handle, now)), t, o)
  {
    hide Answered, SameAnswers, SameConsumers, ResumeFetching, ResumeAborting, ResumeAbandoning, ResumeDelivering,
         ResumeCancelling;
    assert !Decides(s, Resume(handle, now), t);
    if s.stack[0].Delivering? {
      DeliveringGoesOn(s, t, o);
    } else if s.stack[0].Cancelling? {
      CancellingGoesOn(s, t, o);
    } else {
      ResumeCalm(s, handle, now);
      CalmServes(s, Resume(handle, now), Apply(s, Resume(handle, now)), t, o);
    }
  }

  lemma StepServes(s: State, step: Step, t: nat, o: Outcome)
    requires Inv(s) && Enabled(s, step)
    ensures ServesConsumer(s, step, Apply(s, step), t, o)
  {
    hide Inv, ServesConsumer, Apply, Enabled, SameAnswers, SameConsumers;
    if step.Request? {
      RequestServes(s, step, t, o);
    } else if step.CancelTicket? || step.Abandon? {
      CancelServes(s, step, t, o);
    } else if step.Retire? {
      RetireServes(s, step.owner, step.order, t, o);
    } else if step.Stop? {
      StopServes(s, step.order, t, o);
    } else if step.Complete? {
      CompleteServes(s, step, t, o);
    } else if step.Resume? {
      ResumeServes(s, step.handle, step.now, t, o);
    } else {
      OtherServes(s, step, t, o);
    }
  }

  lemma OtherServes(s: State, step: Step, t: nat, o: Outcome)
    requires Inv(s) && Enabled(s, step) && (step.SetPriority? || step.RunPump? || IsSetting(step))
    ensures ServesConsumer(s, step, Apply(s, step), t, o)
  {
    hide Inv, ServesConsumer, Enabled, SameAnswers, SameConsumers, Reprioritize, Pump;
    if step.SetPriority? {
      ReprioritizedExactly(s, step.ticket, step.priority);
    } else if step.RunPump? {
      RunPumpCalm(s, step.now);
    } else {
      SettingCalm(s, step);
    }
    CalmServes(s, step, Apply(s, step), t, o);
  }

  // ---- Runs ----

  // Over every run: a consumer is answered, or owed the answer by a call that has not returned, if and
  // only if some step decided it, with the outcome of that step.
  lemma {:induction false} AnsweredForAReason(states: seq<State>, steps: seq<Step>, n: nat, t: nat, o: Outcome)
    requires IsRun(states, steps) && states[0] == INITIAL && n < |states|
    ensures Answered(states[n], t, o) <==> exists a :: 0 <= a < n && Answers(states[a], steps[a], t, o)
  {
    hide Apply, Enabled, Inv, Answers, IsAnswering;
    if n > 0 {
      AnsweredForAReason(states, steps, n - 1, t, o);
      RunKeeps(states, steps, n - 1);
      StepServes(states[n - 1], steps[n - 1], t, o);
    }
  }

  // So when no call is suspended, the completions called are exactly those that were decided.
  lemma DeliveredForAReason(states: seq<State>, steps: seq<Step>, n: nat, t: nat, o: Outcome)
    requires IsRun(states, steps) && states[0] == INITIAL && n < |states| && states[n].stack == []
    ensures Delivery(t, o) in states[n].log.delivered <==> exists a :: 0 <= a < n && Answers(states[a], steps[a], t, o)
  {
    hide Apply, Enabled, Answers;
    AnsweredForAReason(states, steps, n, t, o);
  }

  // A registered ticket was issued by a request, for the chunk it is registered for.
  lemma {:induction false} TicketsAreIssued(states: seq<State>, steps: seq<Step>, n: nat, t: nat) returns (a: nat)
    requires IsRun(states, steps) && states[0] == INITIAL && n < |states| && t in states[n].ticketKeys
    ensures a < n && IssuesTicket(states[a], steps[a], t) && states[n].ticketKeys[t] == MakeKey(steps[a].source, steps[a].index)
  {
    hide Apply, Enabled, Inv, Answers, Answered, Grants, MakeKey;
    RunKeeps(states, steps, n - 1);
    StepServes(states[n - 1], steps[n - 1], t, Cancelled);
    if IssuesTicket(states[n - 1], steps[n - 1], t) {
      a := n - 1;
    } else {
      a := TicketsAreIssued(states, steps, n - 1, t);
    }
  }

  // ---- What is known of a consumer ----

  lemma StepConsumers(s: State, step: Step)
    requires Inv(s) && Enabled(s, step) && !step.Request? && !step.SetPriority?
    ensures SameConsumers(s.jobs, Apply(s, step).jobs)
  {
    hide Inv, SameConsumers, SameAnswers, Answered, Enumerates, Cancel, AbandonStopped, RetireStoppedOwner, Shutdown, Finish, Pump,
         ResumeFetching, ResumeAborting, ResumeAbandoning, ResumeDelivering, ResumeCancelling, Settled, SettlesJob;
    SameJobs(s.jobs);
    if step.CancelTicket? {
      CancelledConsumers(s, step.ticket);
    } else if step.Abandon? {
      AbandonedConsumers(s, step.ticket);
    } else if step.Retire? {
      RetiredConsumers(s, step.owner, step.order);
    } else if step.Stop? {
      StoppedConsumers(s, step.order);
    } else if step.Complete? {
      FinishedConsumers(s, step.key, step.sequence, step.bytes, step.error);
    } else if step.RunPump? {
      RunPumpCalm(s, step.now);
    } else if step.Resume? {
      ResumedConsumers(s, step.handle, step.now);
    } else {
      SettingCalm(s, step);
    }
  }

  lemma CancelledConsumers(s: State, ticket: nat)
    requires Inv(s)
    ensures SameConsumers(s.jobs, Cancel(s, ticket).jobs)
  {
    hide Core, SameConsumers, Cancel;
    SameJobs(s.jobs);
    if ticket in s.ticketKeys {
      CoreTicket(s, ticket);
      CancelConsumers(s, ticket);
    } else {
      CancelUnknown(s, ticket);
    }
  }

  lemma AbandonedConsumers(s: State, ticket: nat)
    requires Inv(s)
    ensures SameConsumers(s.jobs, AbandonStopped(s, ticket).jobs)
  {
    hide Inv, SameConsumers, Cancel;
    SameJobs(s.jobs);
    if ticket in s.ticketKeys {
      AbandonAnswers(s, ticket, ticket, Cancelled);
    }
  }

  lemma RetiredConsumers(s: State, owner: nat, order: seq<Key>)
    requires Inv(s) && Enumerates(order, s.jobs.Keys)
    ensures SameConsumers(s.jobs, RetireStoppedOwner(s, owner, order).jobs)
  {
    hide Inv, RetireAll, Answered;
    if owner != 0 {
      RetiredExactly(s, owner, order, 0, Cancelled);
    }
  }

  lemma StoppedConsumers(s: State, order: seq<Key>)
    ensures SameConsumers(s.jobs, Shutdown(s, order).jobs)
  {
    hide JobSet, AllTickets;
  }

  lemma FinishedConsumers(s: State, key: Key, sequence: nat, bytes: Bytes, error: string)
    requires Inv(s)
    ensures SameConsumers(s.jobs, Finish(s, key, sequence, bytes, error).jobs)
  {
    hide Inv, SameConsumers, Answered, Finish, SettlesJob;
    FinishedExactly(s, key, sequence, bytes, error, 0, Cancelled);
    if SettlesJob(s, key, sequence, bytes, error) {
      SettlesExisting(s, key, sequence, bytes, error);
      OneJob(s.jobs, key, s.jobs[key]);
    }
  }

  lemma SettlesExisting(s: State, key: Key, sequence: nat, bytes: Bytes, error: string)
    requires SettlesJob(s, key, sequence, bytes, error)
    ensures key in s.jobs
  {
  }

  lemma ResumedConsumers(s: State, handle: bool, now: int)
    requires Enabled(s, Resume(handle, now))
    ensures SameConsumers(s.jobs, Apply(s, Resume(handle, now)).jobs)
  {
    hide SameConsumers, SameAnswers, Answered, ResumeFetching, ResumeAborting, ResumeAbandoning, ResumeDelivering, ResumeCancelling;
    SameJobs(s.jobs);
    if s.stack[0].Delivering? {
      DeliveringGoesOn(s, 0, Cancelled);
    } else if s.stack[0].Cancelling? {
      CancellingGoesOn(s, 0, Cancelled);
    } else {
      ResumeCalm(s, handle, now);
    }
  }

  // The consumer's entry in its job.
  predicate HasPriority(s: State, t: nat, p: Priority) {
    t in s.ticketKeys && s.ticketKeys[t] in s.jobs && Waiter(t, p) in s.jobs[s.ticketKeys[t]].waiters
  }

  lemma PriorityIsUnique(s: State, t: nat) returns (p: Priority)
    requires Inv(s) && t in s.ticketKeys
    ensures HasPriority(s, t, p) && forall q :: HasPriority(s, t, q) ==> q == p
  {
    hide Sequenced, Slots, Conserved, FramesRightful, DeliveriesRightful, FramesSound, AdmissionsSound, CreditSound,
         JoinedKnown, AbortsKnown, Tickets, Linked;
    CoreTicket(s, t);
    var ws := s.jobs[s.ticketKeys[t]].waiters;
    TicketsMembership(ws, t);
    DistinctWaiters(s, s.ticketKeys[t]);
    var i :| 0 <= i < |ws| && ws[i].ticket == t;
    p := ws[i].priority;
    assert ws[i] == Waiter(t, p);
  }

  // Which steps say what priority a consumer has.
  predicate SaysPriority(s: State, step: Step, t: nat) {
    IssuesTicket(s, step, t) || (step.SetPriority? && step.ticket == t)
  }

  lemma StepPriority(s: State, step: Step, t: nat, p: Priority)
    requires Inv(s) && Enabled(s, step) && t in Apply(s, step).ticketKeys
    ensures SaysPriority(s, step, t) ==> HasPriority(Apply(s, step), t, step.priority)
    ensures !SaysPriority(s, step, t) ==> t in s.ticketKeys && (HasPriority(s, t, p) ==> HasPriority(Apply(s, step), t, p))
  {
    hide Inv, Answered, Decides, SameConsumers, SameAnswers, MakeKey, Enabled, Apply;
    var r := Apply(s, step);
    StepKeeps(s, step);
    StepServes(s, step, t, Cancelled);
    var q := PriorityIsUnique(r, t);
    if step.Request? {
      RequestPriority(s, step, t, q);
    } else if step.SetPriority? {
      SetPriorityPriority(s, step, t, q);
    } else {
      StepConsumers(s, step);
      WaiterWasThere(s, r, t, q);
    }
    if t in s.ticketKeys {
      var was := PriorityIsUnique(s, t);
    }
  }

  lemma WaiterWasThere(s: State, r: State, t: nat, q: Priority)
    requires SameConsumers(s.jobs, r.jobs) && HasPriority(r, t, q) && t in s.ticketKeys && s.ticketKeys[t] == r.ticketKeys[t]
    ensures HasPriority(s, t, q)
  {
  }

  // A job that has one more waiter, or is new and has only that one.
  lemma OneMoreWaiter(s: State, r: State, key: Key, n: nat, p: Priority, t: nat, q: Priority)
    requires r.ticketKeys == s.ticketKeys[n := key] && n !in s.ticketKeys && key in r.jobs
    requires r.jobs.Keys == s.jobs.Keys + {key} && (forall k :: k in s.jobs && k != key ==> r.jobs[k] == s.jobs[k])
    requires r.jobs[key].waiters == (if key in s.jobs then s.jobs[key].waiters else []) + [Waiter(n, p)]
    requires HasPriority(r, t, q)
    ensures if t == n then HasPriority(r, t, p) else HasPriority(s, t, q)
  {
  }

  lemma RequestPriority(s: State, step: Step, t: nat, q: Priority)
    requires Inv(s) && step.Request? && HasPriority(Apply(s, step), t, q)
    ensures if IssuesTicket(s, step, t) then HasPriority(Apply(s, step), t, step.priority) else HasPriority(s, t, q)
  {
    hide Inv, AddWaiter, MakeKey, SameAnswers, HasPriority, Grants;
    RequestedExactly(s, step);
    Unregistered(s, s.nextTicket + 1);
    if Grants(s, step) {
      OneMoreWaiter(s, Apply(s, step), MakeKey(step.source, step.index), s.nextTicket + 1, step.priority, t, q);
    }
  }

  lemma SetPriorityPriority(s: State, step: Step, t: nat, q: Priority)
    requires Inv(s) && step.SetPriority? && HasPriority(Apply(s, step), t, q)
    ensures if step.ticket == t then HasPriority(Apply(s, step), t, step.priority) else HasPriority(s, t, q)
  {
    hide Inv, Reprioritize, SameAnswers;
    ReprioritizedExactly(s, step.ticket, step.priority);
  }

  // Over every run: a consumer's priority is the one last asked for, by the request that issued its
  // ticket or by a call since; and that of a job is the largest of its consumers'.
  lemma {:induction false} PriorityIsLastAskedFor(states: seq<State>, steps: seq<Step>, n: nat, t: nat) returns (a: nat)
    requires IsRun(states, steps) && states[0] == INITIAL && n < |states| && t in states[n].ticketKeys
    ensures a < n && SaysPriority(states[a], steps[a], t) && HasPriority(states[n], t, steps[a].priority)
    ensures forall m :: a < m < n ==> !SaysPriority(states[m], steps[m], t)
  {
    hide Apply, Enabled, Inv, HasPriority, MakeKey;
    RunKeeps(states, steps, n - 1);
    assert states[n - 1 + 1] == Apply(states[n - 1], steps[n - 1]);
    if SaysPriority(states[n - 1], steps[n - 1], t) {
      a := n - 1;
      StepPriority(states[n - 1], steps[n - 1], t, 0);
    } else {
      StepPriority(states[n - 1], steps[n - 1], t, 0);
      a := PriorityIsLastAskedFor(states, steps, n - 1, t);
      StepPriority(states[n - 1], steps[n - 1], t, steps[a].priority);
    }
  }

  // Over every run: a job is in the lane, of the kind and of the owner named by the request that made it.
  lemma {:induction false} JobIsAsRequested(states: seq<State>, steps: seq<Step>, n: nat, k: Key) returns (a: nat)
    requires IsRun(states, steps) && states[0] == INITIAL && n < |states| && k in states[n].jobs
    ensures a < n && Grants(states[a], steps[a]) && k == MakeKey(steps[a].source, steps[a].index) && k !in states[a].jobs
    ensures var job := states[n].jobs[k];
      job.lane == steps[a].lane && job.kind == steps[a].fetch.value && job.owner == steps[a].owner
  {
    hide Apply, Enabled, Inv, MakeKey, SameAnswers;
    var s, step := states[n - 1], steps[n - 1];
    assert states[n - 1 + 1] == Apply(s, step);
    RunKeeps(states, steps, n - 1);
    StepJob(s, step, k);
    if k in s.jobs {
      a := JobIsAsRequested(states, steps, n - 1, k);
    } else {
      a := n - 1;
    }
  }

  lemma StepJob(s: State, step: Step, k: Key)
    requires Inv(s) && Enabled(s, step) && k in Apply(s, step).jobs
    ensures var job := Apply(s, step).jobs[k];
      if k in s.jobs then job.lane == s.jobs[k].lane && job.kind == s.jobs[k].kind && job.owner == s.jobs[k].owner
      else Grants(s, step) && k == MakeKey(step.source, step.index)
           && job.lane == step.lane && job.kind == step.fetch.value && job.owner == step.owner
  {
    hide Inv, MakeKey, SameAnswers, Enabled, AddWaiter, Grants, Reprioritize, Cancel, AbandonStopped, RetireStoppedOwner, Shutdown,
         Finish, Pump, ResumeTop;
    if step.Request? {
      RequestedExactly(s, step);
    } else if step.SetPriority? {
      ReprioritizedExactly(s, step.ticket, step.priority);
    } else {
      StepConsumers(s, step);
    }
  }
}
