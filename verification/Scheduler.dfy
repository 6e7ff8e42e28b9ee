// MediaChunkScheduler itself: fields updated in place, each method proved equal to
// the step it performs in SchedulerState.
module Scheduler {
  import opened Basics
  import opened SchedulerState
  import S = SchedulerState
  import opened SchedulerInvariant
  import opened SchedulerSteps
  import opened SchedulerFairness
  import opened SchedulerWakeup

  // Every step keeps the invariant and forgets no wake-up.
  lemma Kept(s: State, step: Step)
    requires Inv(s) && Awake(s) && Enabled(s, step)
    ensures Inv(Apply(s, step)) && Awake(Apply(s, step))
  {
    hide Inv, Awake, Apply, Enabled;
    StepKeeps(s, step);
    StepAwake(s, step);
  }

  lemma {:induction false} WithoutTicketAt(ws: seq<Waiter>, ticket: nat, i: nat)
    requires i <= |ws| && (i < |ws| ==> ws[i].ticket == ticket) && forall j :: 0 <= j < i ==> ws[j].ticket != ticket
    ensures WithoutTicket(ws, ticket) == if i < |ws| then ws[..i] + ws[i + 1..] else ws
  {
    if i == 0 {
      if ws != [] { assert ws[..0] + ws[1..] == ws[1..]; }
    } else {
      var tail := ws[1..];
      assert forall j :: 0 <= j < i - 1 ==> tail[j] == ws[j + 1];
      WithoutTicketAt(tail, ticket, i - 1);
      CutShifts(ws, i);
    }
  }

  lemma CutShifts(ws: seq<Waiter>, i: nat)
    requires 0 < i <= |ws|
    ensures i < |ws| ==> [ws[0]] + (ws[1..][..i - 1] + ws[1..][i..]) == ws[..i] + ws[i + 1..]
    ensures [ws[0]] + ws[1..] == ws
  {
  }

  lemma TicketSetMembers(ws: seq<Waiter>)
    ensures TicketSet(ws) == set j | 0 <= j < |ws| :: ws[j].ticket
  {
    forall t ensures t in TicketSet(ws) <==> t in (set j | 0 <= j < |ws| :: ws[j].ticket) {
      TicketsMembership(ws, t);
    }
  }

  lemma PendingMeansWaiting(s: State)
    ensures |set k | k in s.jobs && Waiting(s, k)| > 0 <==> exists k :: Waiting(s, k)
  {
    var pending := set k | k in s.jobs && Waiting(s, k);
    if exists k :: Waiting(s, k) {
      var k :| Waiting(s, k);
      assert k in pending;
    }
  }

  // How the conditions of the admission loop read off a job.
  lemma Classify(s: State, k: Key, now: int)
    requires k in s.jobs
    ensures var job := s.jobs[k];
      var open := !job.active && job.waiters != []
        && GetOr(s.laneActive, job.lane, 0) < GetOr(s.policy.laneLimits, job.lane, 1);
      var cooling := job.lane in s.policy.congestion && s.policy.congestion[job.lane].retryAfter > now;
      && (Eligible(s, k, now) <==> open && !cooling) && (Blocked(s, k, now) <==> open && cooling)
      && SequenceOf(s, k) == job.sequence && PriorityOf(s, k) == TopPriority(job.waiters)
      && (cooling ==> RetryAfter(s, k) == s.policy.congestion[job.lane].retryAfter)
  {
    hide TopPriority;
  }

  lemma WakeupOnlyTimer(s: State, delay: int, now: int)
    ensures var r := S.ScheduleWakeup(s, delay, now); r == s.(timer := r.timer)
  {
  }

  lemma PoppedInv(s: State, now: int)
    requires Inv(s) && s.stack != [] && (s.stack[0].Fetching? || s.stack[0].Aborting?) && now >= s.clock
    ensures Inv(Pop(s).(clock := now))
  {
    hide Core;
    PopKeeps(s);
    ClockKeeps(Pop(s), now, s.scheduled);
    assert Pop(s).(clock := now, scheduled := s.scheduled) == Pop(s).(clock := now);
  }

  lemma KeptStop(s: State, order: seq<Key>)
    requires Inv(s) && Awake(s) && Enumerates(order, s.jobs.Keys)
    ensures Inv(S.Shutdown(s, order)) && Awake(S.Shutdown(s, order))
  {
    hide Inv, Awake, S.Shutdown, Enumerates;
    Kept(s, Step.Stop(order));
  }

  lemma KeptCancel(s: State, ticket: nat)
    requires Inv(s) && Awake(s)
    ensures Inv(S.Cancel(s, ticket)) && Awake(S.Cancel(s, ticket))
  {
    hide Inv, Awake, S.Cancel;
    Kept(s, Step.CancelTicket(ticket));
  }

  lemma KeptLimit(s: State, bytesPerSecond: int, now: int)
    requires Inv(s) && Awake(s) && now >= s.clock
    ensures Inv(S.SetBandwidthLimit(s, bytesPerSecond, now)) && Awake(S.SetBandwidthLimit(s, bytesPerSecond, now))
  {
    hide Inv, Awake, S.SetBandwidthLimit;
    Kept(s, Step.BandwidthLimit(bytesPerSecond, now));
  }

  lemma KeptReport(s: State, lane: Lane, bytes: int, congested: bool, now: int)
    requires Inv(s) && Awake(s) && now >= s.clock
    ensures var r := S.ReportTransfer(s, lane, bytes, congested, now); Inv(r) && Awake(r)
  {
    hide Inv, Awake, S.ReportTransfer;
    Kept(s, Step.Report(lane, bytes, congested, now));
  }

  lemma KeptFinish(s: State, key: Key, sequence: nat, bytes: Bytes, error: string)
    requires Inv(s) && Awake(s)
    ensures var r := S.Finish(s, key, sequence, bytes, error); Inv(r) && Awake(r)
  {
    hide Inv, Awake, S.Finish;
    Kept(s, Step.Complete(key, sequence, bytes, error));
  }

  // The three ways on after a provider's fetch has returned, `s1` being the state with its frame gone.

  // Nobody wants the registered job any more: the abort handle just received is called.
  lemma FetchedUnwanted(s: State, s1: State, now: int)
    requires s.stack != [] && s.stack[0].Fetching? && s.stack[0].cancelable && s1 == Pop(s).(clock := now)
    requires s.stack[0].key in s.jobs && s.jobs[s.stack[0].key].id == s.stack[0].id
    requires var job := s.jobs[s.stack[0].key]; job.waiters == [] && !job.aborting
    ensures var f := s.stack[0];
      ResumeFetching(s, true, now)
      == Push(WithJob(s1, f.key, s.jobs[f.key].(abort := true, aborting := true)), Aborting(f.check))
  {
    hide PumpLoop;
  }

  // The handle is kept, and the loop goes on.
  lemma FetchedLive(s: State, s1: State, handle: bool, now: int)
    requires s.stack != [] && s.stack[0].Fetching? && s.stack[0].cancelable && s1 == Pop(s).(clock := now)
    requires s.stack[0].key in s.jobs && s.jobs[s.stack[0].key].id == s.stack[0].id
    requires var job := s.jobs[s.stack[0].key]; job.waiters != [] || !handle || job.aborting
    ensures var f := s.stack[0];
      ResumeFetching(s, handle, now) == PumpLoop(WithJob(s1, f.key, s.jobs[f.key].(abort := handle)), now, f.check)
  {
    hide PumpLoop;
  }

  // The job object is not registered any more.
  lemma FetchedDetached(s: State, s1: State, handle: bool, now: int)
    requires s.stack != [] && s.stack[0].Fetching? && s1 == Pop(s).(clock := now)
    requires var f := s.stack[0]; !f.cancelable || f.key !in s.jobs || s.jobs[f.key].id != f.id
    ensures var f := s.stack[0];
      ResumeFetching(s, handle, now)
      == if f.cancelable && handle && exists job :: job in s.detached && job.id == f.id && job.waiters == [] && !job.aborting
         then Push(s1, Aborting(f.check)) else PumpLoop(s1, now, f.check)
  {
    hide PumpLoop;
  }

  lemma AllTicketsFrom(s: State, order: seq<Key>, i: nat, before: seq<nat>)
    requires i < |order|
    ensures var here := if order[i] in s.jobs then Tickets(s.jobs[order[i]].waiters) else [];
      before + AllTickets(s, order[i..]) == (before + here) + AllTickets(s, order[i + 1..])
  {
    hide Tickets;
    assert order[i..][0] == order[i] && order[i..][1..] == order[i + 1..];
  }

  lemma AllTicketsEnd(s: State, order: seq<Key>)
    ensures order[0..] == order && AllTickets(s, order[|order|..]) == []
  {
  }

  lemma ShutdownTwice(s: State, order: seq<Key>)
    requires s.stopped
    ensures S.Shutdown(s, order) == s
  {
  }

  lemma ShutdownFields(s: State, order: seq<Key>)
    requires !s.stopped
    ensures S.Shutdown(s, order) == State(
      map[], map[], 0, map[], s.bypasses, s.nextTicket, s.nextSequence, s.nextId,
      s.policy.(congestion := map[], external := {}), s.budget, None, s.scheduled, true, s.clock,
      [Delivering(AllTickets(s, order), SchedulerStopped)] + s.stack, s.detached + JobSet(s.jobs), s.log)
  {
    hide AllTickets, JobSet;
  }

  lemma DetachDeliver(s: State, key: Key, ticket: nat)
    requires key in s.jobs
    ensures Deliver(Detach(s, key), Some(ticket), Cancelled) == Detach(Deliver(s, Some(ticket), Cancelled), key)
  {
  }

  lemma {:induction false} PriorityAt(ws: seq<Waiter>, ticket: nat, priority: Priority, i: nat)
    requires i < |ws| && ws[i].ticket == ticket && forall j :: 0 <= j < i ==> ws[j].ticket != ticket
    ensures WithPriority(ws, ticket, priority) == ws[i := Waiter(ticket, priority)]
  {
    if i > 0 {
      PriorityAt(ws[1..], ticket, priority, i - 1);
      assert ws[i := Waiter(ticket, priority)] == [ws[0]] + ws[1..][i - 1 := Waiter(ticket, priority)];
    }
  }

  class MediaChunkScheduler {
    var jobs: map<Key, Job>
    var ticketKeys: map<nat, Key>
    var laneActive: map<Lane, int>
    var policy: Policy        // maxActive_, laneLimits_, externalTransfers_, congestion_
    var nextTicket: nat
    var nextSequence: nat
    var nextId: nat
    var active: int
    var priorityBypasses: int
    var admissionTimer: Option<int>
    var budget: Budget        // the bandwidth limit, its credit and when it was last updated
    var scheduled: bool
    var stopped: bool
    var stack: seq<Frame>
    var detached: set<Job>
    var clock: int
    var log: Log

    ghost function View(): State
      reads this
    {
      State(jobs, ticketKeys, active, laneActive, priorityBypasses, nextTicket, nextSequence, nextId,
            policy, budget, admissionTimer, scheduled, stopped, clock, stack, detached, log)
    }

    ghost predicate Valid()
      reads this
    {
      Inv(View()) && Awake(View())
    }

    constructor ()
      ensures View() == INITIAL && Valid()
    {
      jobs, ticketKeys, laneActive, policy := map[], map[], map[], Policy(3, map[], {}, map[]);
      nextTicket, nextSequence, nextId, active, priorityBypasses := 0, 0, 0, 0, 0;
      admissionTimer, budget := None, Budget(0, 0, 0.0, 0, 0);
      scheduled, stopped, stack, detached, clock, log := false, false, [], {}, 0, Log([], [], map[]);
      new;
      Initially();
      InitiallyAwake();
    }

    method Schedule()
      modifies this`scheduled
      ensures View() == S.Schedule(old(View()))
    {
      if stopped || scheduled {
        return;
      }
      scheduled := true;
    }

    method ScheduleWakeup(delay: int, now: int)
      modifies this`admissionTimer
      ensures View() == S.ScheduleWakeup(old(View()), delay, now)
    {
      var wait := Min(Max(delay, 1), MAX_INT32);
      if admissionTimer.None? || admissionTimer.value - now > wait {
        admissionTimer := Some(now + wait);
      }
    }

    method ReplenishBandwidth(now: int)
      modifies this`budget, this`clock
      ensures View() == S.Replenish(old(View()), now)
    {
      var elapsed := now - budget.lastUpdate;
      if elapsed > 0 && budget.limit > 0 {
        budget := budget.(credit := MinReal(budget.limit as real,
                                            budget.credit + elapsed as real * budget.limit as real / 1000.0));
      }
      budget, clock := budget.(lastUpdate := now), now;
    }

    method ReleaseSlot(lane: Lane)
      modifies this`active, this`laneActive
      ensures View() == S.ReleaseSlot(old(View()), lane)
    {
      active := active - 1;
      laneActive := laneActive[lane := GetOr(laneActive, lane, 0) - 1];
      if laneActive[lane] == 0 {
        laneActive := laneActive - {lane};
      }
      assert laneActive == S.ReleaseSlot(old(View()), lane).laneActive;
    }

    // request() and requestCancelable().
    method Request(source: string, index: nat, lane: Lane, priority: Priority,
                   fetch: Option<FetchKind>, hasDone: bool, owner: nat) returns (reply: Reply)
      requires Valid()
      modifies this
      ensures (View(), reply) == S.AddWaiter(old(View()), source, index, lane, priority, fetch, hasDone, owner)
      ensures Valid()
    {
      hide Inv, Awake, MakeKey, NewJob, Join, S.Schedule;
      Kept(View(), Step.Request(source, index, lane, priority, fetch, hasDone, owner));
      if stopped || source == "" || lane == "" || fetch.None? || !hasDone {
        return Unavailable;
      }
      var key := MakeKey(source, index);
      if key in jobs && jobs[key].lane != lane {
        return ConflictingLane;
      }
      if key !in jobs {
        CreateJob(key, lane, fetch.value, owner);
      }
      var ticket := JoinJob(key, priority);
      Schedule();
      reply := Ticket(ticket);
    }

    method CreateJob(key: Key, lane: Lane, kind: FetchKind, owner: nat)
      modifies this
      ensures View() == NewJob(old(View()), key, lane, kind, owner)
      ensures key in jobs && nextTicket == old(nextTicket)
    {
      nextSequence := nextSequence + 1;
      jobs := jobs[key := Job(nextId, lane, nextSequence, kind, owner, false, false, [], false)];
      nextId := nextId + 1;
    }

    method JoinJob(key: Key, priority: Priority) returns (ticket: nat)
      requires key in jobs
      modifies this
      ensures View() == Join(old(View()), key, priority)
      ensures ticket == old(nextTicket) + 1
    {
      nextTicket := nextTicket + 1;
      ticket := nextTicket;
      var job := jobs[key];
      jobs := jobs[key := job.(waiters := job.waiters + [Waiter(ticket, priority)])];
      ticketKeys := ticketKeys[ticket := key];
      if job.aborting {
        log := log.(joinedAborting := log.joinedAborting[ticket := job.sequence]);
      }
    }

    // The position of the first waiter with the given ticket, or the length.
    method WaiterIndex(ws: seq<Waiter>, ticket: nat) returns (i: nat)
      ensures i <= |ws| && (i < |ws| ==> ws[i].ticket == ticket)
      ensures forall j :: 0 <= j < i ==> ws[j].ticket != ticket
      ensures i < |ws| <==> ticket in Tickets(ws)
    {
      i := 0;
      while i < |ws| && ws[i].ticket != ticket
        invariant i <= |ws|
        invariant forall j :: 0 <= j < i ==> ws[j].ticket != ticket
      {
        i := i + 1;
      }
      if i < |ws| {
        assert Tickets(ws)[i] == ticket;
      }
    }

    method Cancel(ticket: nat) returns (found: bool)
      requires Valid()
      modifies this
      ensures View() == S.Cancel(old(View()), ticket)
      ensures Valid()
      ensures found <==> ticket in old(ticketKeys)
    {
      hide Core, Awake, Tickets, WithoutTicket, S.Cancel, S.Schedule, Detach, Deliver;
      KeptCancel(View(), ticket);
      if ticket !in ticketKeys {
        CancelUnknown(View(), ticket);
        return false;
      }
      CoreTicket(View(), ticket);
      CancelCases(View(), ticket);
      var key := ticketKeys[ticket];
      var done := RemoveWaiter(key, ticket);
      ghost var unlinked := View();
      var job := jobs[key];
      if job.waiters == [] && !job.active {
        DetachJob(key);
        DetachDeliver(unlinked, key, ticket);
      } else if job.waiters == [] && job.abort && !job.aborting {
        jobs := jobs[key := job.(aborting := true)];
        stack := [Cancelling(done)] + stack;  // abort() is called; the rest follows in Resume
        assert View() == Push(Unlinked(old(View()), ticket, true), Cancelling(Some(ticket)));
        return true;
      }
      DeliverSchedule(View(), done, Cancelled);
      Schedule();
      CallCompletion(ticket, Cancelled);
      return true;
    }

    method DetachJob(key: Key)
      requires key in jobs
      modifies this`jobs, this`detached
      ensures View() == Detach(old(View()), key)
    {
      jobs, detached := jobs - {key}, detached + {jobs[key]};
    }

    method CallCompletion(ticket: nat, outcome: Outcome)
      modifies this`log
      ensures View() == Deliver(old(View()), Some(ticket), outcome)
    {
      log := log.(delivered := log.delivered + [Delivery(ticket, outcome)]);
    }

    method RemoveWaiter(key: Key, ticket: nat) returns (done: Option<nat>)
      requires ticket in ticketKeys && ticketKeys[ticket] == key && key in jobs && ticket in Tickets(jobs[key].waiters)
      modifies this`jobs, this`ticketKeys
      ensures View() == Unlinked(old(View()), ticket, old(jobs[key].aborting))
      ensures done == Some(ticket)
    {
      hide Tickets;
      ticketKeys := ticketKeys - {ticket};
      var job := jobs[key];
      var i := WaiterIndex(job.waiters, ticket);
      WithoutTicketAt(job.waiters, ticket, i);
      done := Some(ticket);
      jobs := jobs[key := job.(waiters := job.waiters[..i] + job.waiters[i + 1..])];
    }

    method AbandonStopped(ticket: nat) returns (removed: bool)
      requires Valid()
      modifies this
      ensures View() == S.AbandonStopped(old(View()), ticket)
      ensures Valid()
    {
      hide Core, Awake, S.Cancel;
      if ticket !in ticketKeys || ticketKeys[ticket] !in jobs {
        return false;
      }
      var key := ticketKeys[ticket];
      var frame := Abandoning(key, jobs[key].id, jobs[key].sequence);
      PushKeeps(View(), frame);
      PushedAwake(View(), frame);
      stack := [frame] + stack;
      removed := Cancel(ticket);
    }

    // The order in which a hash happens to be walked.
    method Enumerate(keys: set<Key>) returns (order: seq<Key>)
      ensures Enumerates(order, keys)
    {
      order := [];
      var rest := keys;
      while rest != {}
        invariant rest <= keys
        invariant Enumerates(order, keys - rest)
        decreases rest
      {
        var k :| k in rest;
        order := order + [k];
        rest := rest - {k};
      }
      assert keys - rest == keys;
    }

    method RetireStoppedOwner(owner: nat) returns (order: seq<Key>)
      requires Valid()
      modifies this
      ensures Enumerates(order, old(jobs.Keys))
      ensures View() == S.RetireStoppedOwner(old(View()), owner, order)
      ensures Valid()
    {
      hide Inv, Awake, Drop, Enumerates;
      order := Enumerate(jobs.Keys);
      Kept(View(), Step.Retire(owner, order));
      if owner == 0 {
        return;
      }
      stack := [Delivering([], TransportStopped)] + stack;
      ghost var start := View();
      var i := 0;
      while i < |order|
        invariant i <= |order| && stack != [] && stack[0].Delivering?
        invariant RetireAll(start, owner, order) == RetireAll(View(), owner, order[i..])
      {
        assert order[i..][0] == order[i] && order[i..][1..] == order[i + 1..];
        if order[i] in jobs && jobs[order[i]].owner == owner {
          RetireJob(order[i]);
        }
        i := i + 1;
      }
      Schedule();
    }

    method RetireJob(key: Key)
      requires key in jobs && stack != [] && stack[0].Delivering?
      modifies this
      ensures View() == Drop(old(View()), key)
      ensures stack != [] && stack[0].Delivering?
    {
      hide Tickets, TicketSet, S.ReleaseSlot;
      var job := jobs[key];
      if job.active {
        ReleaseSlot(job.lane);
      }
      ghost var s1 := View();
      assert s1.jobs == old(jobs) && s1.stack == old(stack) && s1.ticketKeys == old(ticketKeys);
      DetachJob(key);
      ForgetTickets(job.waiters);
      stack := [stack[0].(tickets := stack[0].tickets + Tickets(job.waiters))] + stack[1..];
    }

    method Reprioritize(ticket: nat, priority: Priority) returns (found: bool)
      requires Valid()
      modifies this
      ensures View() == S.Reprioritize(old(View()), ticket, priority)
      ensures Valid()
      ensures found <==> ticket in old(ticketKeys)
    {
      hide Core, Awake, Tickets;
      Kept(View(), Step.SetPriority(ticket, priority));
      if ticket !in ticketKeys {
        return false;
      }
      CoreTicket(View(), ticket);
      var key := ticketKeys[ticket];
      var ws := jobs[key].waiters;
      var i := WaiterIndex(ws, ticket);
      if i < |ws| {
        PriorityAt(ws, ticket, priority, i);
        jobs := jobs[key := jobs[key].(waiters := ws[i := Waiter(ticket, priority)])];
        Schedule();
        return true;
      }
      return false;
    }

    method ObserveExternalTransfer(transport: nat)
      requires Valid()
      modifies this
      ensures View() == S.ObserveExternal(old(View()), transport) && Valid()
    {
      hide Inv, Awake;
      Kept(View(), Step.Observe(transport));
      if transport == 0 || stopped || transport in policy.external {
        assert transport in policy.external ==> policy.external + {transport} == policy.external;
        return;
      }
      policy := policy.(external := policy.external + {transport});
    }

    method ReleaseExternalTransfer(transport: nat)
      requires Valid()
      modifies this
      ensures View() == S.ReleaseExternal(old(View()), transport) && Valid()
    {
      hide Inv, Awake;
      Kept(View(), Step.Release(transport));
      if transport in policy.external {
        policy := policy.(external := policy.external - {transport});
        Schedule();
      }
    }

    method SetMaxActive(count: int)
      requires Valid()
      modifies this
      ensures View() == S.SetMaxActive(old(View()), count) && Valid()
    {
      hide Inv, Awake;
      Kept(View(), Step.MaxActive(count));
      policy := policy.(maxActive := Max(1, count));
      Schedule();
    }

    method SetLaneMaxActive(lane: Lane, count: int)
      requires Valid()
      modifies this
      ensures View() == S.SetLaneMaxActive(old(View()), lane, count) && Valid()
    {
      hide Inv, Awake;
      Kept(View(), Step.LaneMaxActive(lane, count));
      if lane != "" {
        policy := policy.(laneLimits := policy.laneLimits[lane := Max(1, count)]);
        Schedule();
      }
    }

    method SetBandwidthLimit(bytesPerSecond: int, now: int)
      requires Valid() && now >= clock
      modifies this
      ensures View() == S.SetBandwidthLimit(old(View()), bytesPerSecond, now) && Valid()
    {
      hide Inv, Awake, CreditAt;
      KeptLimit(View(), bytesPerSecond, now);
      ReplenishBandwidth(now);
      var next := Max(0, bytesPerSecond);
      if next == budget.limit {
        return;
      }
      var credit := if budget.limit == 0 then next as real else MinReal(budget.credit, next as real);
      budget := Budget(next, now, credit, now, 0);
      admissionTimer := None;
      Schedule();
    }

    method ReportTransferResult(lane: Lane, networkBytes: int, congested: bool, now: int)
      requires Valid() && now >= clock
      modifies this
      ensures View() == S.ReportTransfer(old(View()), lane, networkBytes, congested, now) && Valid()
    {
      hide Inv, Awake, NextCongestion, CreditAt, Charge;
      KeptReport(View(), lane, networkBytes, congested, now);
      if stopped {
        return;
      }
      ReplenishBandwidth(now);
      ChargeBudget(networkBytes);
      NoteCongestion(lane, congested, now);
      Schedule();
    }

    method ChargeBudget(networkBytes: int)
      modifies this`budget
      ensures budget == Charge(old(budget), networkBytes)
    {
      if networkBytes > 0 && budget.limit > 0 {
        budget := budget.(credit := budget.credit - networkBytes as real, epochBytes := budget.epochBytes + networkBytes);
      }
    }

    method NoteCongestion(lane: Lane, congested: bool, now: int)
      modifies this`policy
      ensures policy == old(policy).(congestion := NextCongestion(old(policy.congestion), lane, congested, now))
    {
      var congestion := policy.congestion;
      if lane != "" {
        if congested {
          var level := Min(6, GetOr(congestion, lane, Congestion(0, 0)).level + 1);
          congestion := congestion[lane := Congestion(level, now + CongestionDelay(level))];
        } else if lane in congestion {
          var state := congestion[lane];
          state := state.(level := state.level - 1);
          congestion := if state.level <= 0 then congestion - {lane} else congestion[lane := state];
        }
      }
      policy := policy.(congestion := congestion);
    }

    // How many jobs wait for a slot.
    method PendingCount() returns (count: nat)
      ensures count == |set k | k in jobs && Waiting(View(), k)|
    {
      count := 0;
      var rest := jobs.Keys;
      ghost var counted: set<Key> := {};
      while rest != {}
        invariant rest <= jobs.Keys
        invariant counted == set k | k in jobs.Keys - rest && Waiting(View(), k)
        invariant count == |counted|
        decreases rest
      {
        var k :| k in rest;
        rest := rest - {k};
        if !jobs[k].active && jobs[k].waiters != [] {
          count := count + 1;
          counted := counted + {k};
        }
      }
      assert counted == set k | k in jobs && Waiting(View(), k);
    }

    method HighestPriority(ws: seq<Waiter>) returns (priority: Priority)
      ensures priority == TopPriority(ws)
    {
      priority := -0x8000_0000;
      for i := 0 to |ws|
        invariant priority == TopPriority(ws[..i])
      {
        assert ws[..i + 1][..i] == ws[..i];
        priority := Max(priority, ws[i].priority);
      }
      assert ws[..|ws|] == ws;
    }

    method ForgetTickets(ws: seq<Waiter>)
      modifies this`ticketKeys
      ensures ticketKeys == old(ticketKeys) - TicketSet(ws)
    {
      for i := 0 to |ws|
        invariant ticketKeys == old(ticketKeys) - (set j | 0 <= j < i :: ws[j].ticket)
      {
        ticketKeys := ticketKeys - {ws[i].ticket};
      }
      TicketSetMembers(ws);
    }

    method Finish(key: Key, sequence: nat, bytes: Bytes, error: string)
      requires Valid()
      modifies this
      ensures View() == S.Finish(old(View()), key, sequence, bytes, error)
      ensures Valid()
    {
      hide Inv, Awake, S.ReleaseSlot, S.Schedule, Settle, Restart;
      KeptFinish(View(), key, sequence, bytes, error);
      if key !in jobs || jobs[key].sequence != sequence || !jobs[key].active {
        return;
      }
      var job := jobs[key];
      ReleaseSlot(job.lane);
      if job.aborting && job.waiters != [] && (error != "" || bytes == []) {
        RestartJob(key);
      } else {
        SettleJob(key, Finished(sequence, bytes, error));
      }
      Schedule();
    }

    method RestartJob(key: Key)
      requires key in jobs
      modifies this
      ensures View() == Restart(old(View()), key)
    {
      nextSequence := nextSequence + 1;
      jobs := jobs[key := jobs[key].(active := false, aborting := false, abort := false, sequence := nextSequence)];
    }

    // Removes a finished job; its waiters are served afterwards, one by one, in Resume.
    method SettleJob(key: Key, outcome: Outcome)
      requires key in jobs
      modifies this
      ensures View() == Settle(old(View()), key, outcome)
    {
      hide Tickets, TicketSet;
      var job := jobs[key];
      jobs, detached := jobs - {key}, detached + {job.(waiters := [])};
      ForgetTickets(job.waiters);
      stack := [Delivering(Tickets(job.waiters), outcome)] + stack;
    }

    method Shutdown() returns (order: seq<Key>)
      requires Valid()
      modifies this
      ensures Enumerates(order, old(jobs.Keys))
      ensures View() == S.Shutdown(old(View()), order)
      ensures Valid()
    {
      hide Inv, Awake, Enumerates, JobSet, Tickets, AllTickets, S.Shutdown, Apply, Enabled;
      order := Enumerate(jobs.Keys);
      KeptStop(View(), order);
      if stopped {
        ShutdownTwice(View(), order);
        return;
      }
      StopNow(order);
    }

    method StopNow(order: seq<Key>)
      requires !stopped
      modifies this
      ensures View() == S.Shutdown(old(View()), order)
    {
      hide JobSet, AllTickets, S.Shutdown;
      var tickets := CollectTickets(order);
      ShutdownFields(View(), order);
      stopped, admissionTimer, policy := true, None, policy.(congestion := map[], external := {});
      ClearJobs();
      stack := [Delivering(tickets, SchedulerStopped)] + stack;
    }

    method ClearJobs()
      modifies this`jobs, this`detached, this`ticketKeys, this`laneActive, this`active
      ensures jobs == map[] && ticketKeys == map[] && laneActive == map[] && active == 0
      ensures detached == old(detached) + JobSet(old(jobs))
    {
      hide JobSet;
      detached := detached + JobSet(jobs);
      jobs, ticketKeys, laneActive, active := map[], map[], map[], 0;
    }

    method CollectTickets(order: seq<Key>) returns (tickets: seq<nat>)
      ensures tickets == AllTickets(View(), order)
    {
      hide Tickets, AllTickets;
      AllTicketsEnd(View(), order);
      tickets := [];
      var i := 0;
      while i < |order|
        invariant i <= |order|
        invariant AllTickets(View(), order) == tickets + AllTickets(View(), order[i..])
      {
        AllTicketsFrom(View(), order, i, tickets);
        tickets := tickets + if order[i] in jobs then Tickets(jobs[order[i]].waiters) else [];
        i := i + 1;
      }
    }

    // The event posted by schedule().
    method Pump(now: int)
      requires Valid() && scheduled && now >= clock
      modifies this
      ensures View() == S.Pump(old(View()).(scheduled := false, clock := now), now)
      ensures Valid()
    {
      hide Inv, Awake, PumpLoop, CreditAt, DebtDelay;
      Kept(View(), Step.RunPump(now));
      ClockKeeps(View(), now, false);
      scheduled, clock := false, now;
      if stopped {
        return;
      }
      ReplenishKeeps(View(), now);
      ReplenishBandwidth(now);
      if budget.limit > 0 && budget.credit < 0.0 {
        var pending := PendingCount();
        PendingMeansWaiting(View());
        if pending > 0 {
          ScheduleWakeup(DebtDelay(budget), now);
        }
        return;
      }
      PumpRound(now, CheckOf(budget, now));
    }

    // What one walk over the jobs has found among `keys`: the eligible job to prefer and the
    // oldest one, and the earliest end of a cool-down.
    ghost predicate Scanned(now: int, keys: set<Key>, candidate: Option<Key>, oldest: Option<Key>, wake: Option<int>)
      reads this
    {
      var s := View();
      var eligible := EligibleKeys(s, now) * keys;
      var blocked := BlockedKeys(s, now) * keys;
      && (candidate.None? <==> eligible == {}) && (oldest.None? <==> eligible == {})
      && (candidate.Some? ==> IsPreferred(s, eligible, candidate.value))
      && (oldest.Some? ==> IsOldest(s, eligible, oldest.value))
      && (wake.None? <==> blocked == {})
      && (wake.Some? ==> (forall k :: k in blocked ==> wake.value <= RetryAfter(s, k) - now)
                         && exists k :: k in blocked && wake.value == RetryAfter(s, k) - now)
    }

    // The search of one round of the admission loop.
    method Scan(now: int) returns (candidate: Option<Key>, oldest: Option<Key>, wake: Option<int>)
      ensures Scanned(now, jobs.Keys, candidate, oldest, wake)
    {
      hide Scanned, Eligible, Blocked, TopPriority;
      candidate, oldest, wake := None, None, None;
      var bestPriority: Priority := -0x8000_0000;
      var rest := jobs.Keys;
      ScanStart(now);
      assert jobs.Keys - rest == {};
      while rest != {}
        invariant rest <= jobs.Keys
        invariant Scanned(now, jobs.Keys - rest, candidate, oldest, wake)
        invariant candidate.Some? ==> bestPriority == PriorityOf(View(), candidate.value)
        decreases rest
      {
        var k :| k in rest;
        var seen := jobs.Keys - rest;
        rest := rest - {k};
        assert jobs.Keys - rest == seen + {k};
        var job := jobs[k];
        Classify(View(), k, now);
        if job.active || job.waiters == []
          || GetOr(laneActive, job.lane, 0) >= GetOr(policy.laneLimits, job.lane, 1) {
          ScanClosed(now, seen, candidate, oldest, wake, k);
          continue;
        }
        if job.lane in policy.congestion && policy.congestion[job.lane].retryAfter > now {
          var delay := policy.congestion[job.lane].retryAfter - now;
          ScanBlocked(now, seen, candidate, oldest, wake, k, delay);
          wake := if wake.None? then Some(delay) else Some(Min(wake.value, delay));
          continue;
        }
        var priority := HighestPriority(job.waiters);
        ScanEligible(now, seen, candidate, oldest, wake, k, bestPriority, priority);
        if oldest.None? || job.sequence < jobs[oldest.value].sequence {
          oldest := Some(k);
        }
        if candidate.None? || priority > bestPriority
          || (priority == bestPriority && job.sequence < jobs[candidate.value].sequence) {
          candidate, bestPriority := Some(k), priority;
        }
      }
      assert jobs.Keys - rest == jobs.Keys;
    }

    lemma ScanStart(now: int)
      ensures Scanned(now, {}, None, None, None)
    {
    }

    lemma ScanClosed(now: int, seen: set<Key>, candidate: Option<Key>, oldest: Option<Key>, wake: Option<int>, k: Key)
      requires Scanned(now, seen, candidate, oldest, wake) && !Eligible(View(), k, now) && !Blocked(View(), k, now)
      ensures Scanned(now, seen + {k}, candidate, oldest, wake)
    {
      hide Eligible, Blocked;
      assert EligibleKeys(View(), now) * (seen + {k}) == EligibleKeys(View(), now) * seen;
      assert BlockedKeys(View(), now) * (seen + {k}) == BlockedKeys(View(), now) * seen;
    }

    lemma ScanBlocked(now: int, seen: set<Key>, candidate: Option<Key>, oldest: Option<Key>, wake: Option<int>,
                      k: Key, delay: int)
      requires Scanned(now, seen, candidate, oldest, wake) && !Eligible(View(), k, now) && Blocked(View(), k, now)
      requires k in jobs && delay == RetryAfter(View(), k) - now
      ensures Scanned(now, seen + {k}, candidate, oldest,
                      if wake.None? then Some(delay) else Some(Min(wake.value, delay)))
    {
      hide Eligible, Blocked, IsOldest, IsPreferred, RetryAfter;
      var s := View();
      assert EligibleKeys(s, now) * (seen + {k}) == EligibleKeys(s, now) * seen;
      var blocked := BlockedKeys(s, now) * seen;
      assert BlockedKeys(s, now) * (seen + {k}) == blocked + {k};
      if wake.Some? {
        var j :| j in blocked && wake.value == RetryAfter(s, j) - now;
        assert j in blocked + {k};
      }
    }

    lemma ScanEligible(now: int, seen: set<Key>, candidate: Option<Key>, oldest: Option<Key>, wake: Option<int>,
                       k: Key, bestPriority: int, priority: int)
      requires Scanned(now, seen, candidate, oldest, wake) && Eligible(View(), k, now) && !Blocked(View(), k, now)
      requires k in jobs && priority == PriorityOf(View(), k)
      requires candidate.Some? ==> bestPriority == PriorityOf(View(), candidate.value)
      ensures candidate.Some? ==> candidate.value in jobs
      ensures oldest.Some? ==> oldest.value in jobs
      ensures var better := candidate.None? || priority > bestPriority
                || (priority == bestPriority && jobs[k].sequence < jobs[candidate.value].sequence);
        var older := oldest.None? || jobs[k].sequence < jobs[oldest.value].sequence;
        Scanned(now, seen + {k}, if better then Some(k) else candidate, if older then Some(k) else oldest, wake)
    {
      hide Eligible, Blocked, PriorityOf;
      var s := View();
      assert BlockedKeys(s, now) * (seen + {k}) == BlockedKeys(s, now) * seen;
      assert EligibleKeys(s, now) * (seen + {k}) == EligibleKeys(s, now) * seen + {k};
    }

    // One round of the admission loop, up to the call of the provider's fetch.
    method PumpRound(now: int, check: Check)
      requires Inv(View())
      modifies this
      ensures View() == PumpLoop(old(View()), now, check)
    {
      hide Inv, IsPreferred, IsOldest, IsFirstWake, EligibleKeys, BlockedKeys, S.ScheduleWakeup, S.Admit;
      if active + |policy.external| >= policy.maxActive {
        return;
      }
      var candidate, oldest, wake := Scan(now);
      ScanResult(now, candidate, oldest, wake);
      if wake.Some? {
        WakeupOnlyTimer(View(), wake.value, now);
        ScheduleWakeup(wake.value, now);
      }
      if candidate.None? {
        return;
      }
      var chosen := candidate.value;
      if candidate != oldest && priorityBypasses >= MAX_PRIORITY_BYPASSES {
        chosen := oldest.value;
      }
      priorityBypasses := if Some(chosen) == oldest then 0 else priorityBypasses + 1;
      Admit(chosen, check);
    }

    method Admit(key: Key, check: Check)
      requires key in jobs
      modifies this
      ensures View() == S.Admit(old(View()), key, check)
    {
      var job := jobs[key];
      jobs := jobs[key := job.(active := true)];
      active := active + 1;
      laneActive := laneActive[job.lane := GetOr(laneActive, job.lane, 0) + 1];
      log := log.(admitted := log.admitted + [Admission(key, job.sequence, check)]);
      stack := [Fetching(key, job.id, job.kind.Cancelable?, check)] + stack;
    }

    lemma ScanResult(now: int, candidate: Option<Key>, oldest: Option<Key>, wake: Option<int>)
      requires Inv(View()) && Scanned(now, jobs.Keys, candidate, oldest, wake)
      ensures wake == FirstWake(View(), now)
      ensures candidate.None? <==> EligibleKeys(View(), now) == {}
      ensures candidate.Some? ==> oldest.Some? && candidate.value in jobs && oldest.value in jobs
      ensures candidate.Some? ==> candidate.value == Preferred(View(), EligibleKeys(View(), now))
      ensures candidate.Some? ==> oldest.value == Oldest(View(), EligibleKeys(View(), now))
    {
      hide Inv, Eligible, Blocked, SequenceOf, PriorityOf, RetryAfter;
      var s := View();
      var keys := EligibleKeys(s, now);
      assert keys * jobs.Keys == keys && BlockedKeys(s, now) * jobs.Keys == BlockedKeys(s, now);
      assert IsFirstWake(s, now, wake);
      FirstWakeUnique(s, now, wake, FirstWake(s, now));
      if candidate.Some? {
        PreferredUnique(s, keys, candidate.value, Preferred(s, keys));
        OldestUnique(s, keys, oldest.value, Oldest(s, keys));
      }
    }

    // A call that was made from `stack[0]` has returned. `handle` tells whether the provider's
    // fetch, if that was the call, returned an abort handle.
    method Resume(handle: bool, now: int)
      requires Valid() && stack != [] && now >= clock
      modifies this
      ensures View() == ResumeTop(old(View()), handle, now)
      ensures Valid()
    {
      hide Inv, Awake, ResumeCancelling, ResumeAbandoning, ResumeDelivering, ResumeFetching, ResumeAborting;
      Kept(View(), Step.Resume(handle, now));
      match stack[0]
      case Cancelling(_) => ContinueCancel();
      case Abandoning(_, _, _) => ContinueAbandon();
      case Delivering(_, _) => ContinueDelivery();
      case Fetching(_, _, _, _) => ContinuePump(handle, now);
      case Aborting(_) => ContinueAfterAbort(now);
    }

    method ContinueCancel()
      requires stack != [] && stack[0].Cancelling?
      modifies this
      ensures View() == ResumeCancelling(old(View()))
    {
      var done := stack[0].done;
      stack := stack[1..];
      Schedule();
      if done.Some? {
        CallCompletion(done.value, Cancelled);
      }
    }

    method ContinueAbandon()
      requires stack != [] && stack[0].Abandoning?
      modifies this
      ensures View() == ResumeAbandoning(old(View()))
    {
      hide S.ReleaseSlot, S.Schedule;
      var frame := stack[0];
      stack := stack[1..];
      if frame.key !in jobs || jobs[frame.key].id != frame.id
        || jobs[frame.key].waiters != [] || !jobs[frame.key].active {
        return;
      }
      var lane := jobs[frame.key].lane;
      DetachJob(frame.key);
      ReleaseSlot(lane);
      Schedule();
    }

    method ContinueDelivery()
      requires stack != [] && stack[0].Delivering?
      modifies this
      ensures View() == ResumeDelivering(old(View()))
    {
      var frame := stack[0];
      if frame.tickets == [] {
        stack := stack[1..];
        return;
      }
      stack := [frame.(tickets := frame.tickets[1..])] + stack[1..];
      CallCompletion(frame.tickets[0], frame.outcome);
    }

    method ContinueAfterAbort(now: int)
      requires Inv(View()) && stack != [] && stack[0].Aborting? && now >= clock
      modifies this
      ensures View() == ResumeAborting(old(View()), now)
    {
      hide Inv, PumpLoop;
      var check := stack[0].check;
      PoppedInv(View(), now);
      stack, clock := stack[1..], now;
      PumpRound(now, check);
    }

    method ContinuePump(handle: bool, now: int)
      requires Inv(View()) && stack != [] && stack[0].Fetching? && now >= clock
      modifies this
      ensures View() == ResumeFetching(old(View()), handle, now)
    {
      hide Inv, PumpLoop, ResumeFetching;
      var frame := stack[0];
      var aborts := KeepHandle(frame, handle, now);
      if !aborts {
        PumpRound(now, frame.check);
      }
    }

    // The fetch of `frame` has returned: keeps the abort handle, or calls it if nobody waits any more.
    method KeepHandle(frame: Frame, handle: bool, now: int) returns (aborts: bool)
      requires Inv(View()) && stack != [] && stack[0] == frame && frame.Fetching? && now >= clock
      modifies `jobs, `stack, `clock
      ensures aborts ==> View() == ResumeFetching(old(View()), handle, now)
      ensures !aborts ==> Inv(View()) && PumpLoop(View(), now, frame.check) == ResumeFetching(old(View()), handle, now)
    {
      hide Inv, PumpLoop, ResumeFetching, Push, WithJob;
      ghost var before := View();
      PoppedInv(before, now);
      PopFrame(now);
      ghost var s1 := View();
      if frame.cancelable && frame.key in jobs && jobs[frame.key].id == frame.id {
        var job := jobs[frame.key];
        if job.waiters == [] && handle && !job.aborting {
          FetchedUnwanted(before, s1, now);
          UpdateJob(frame.key, job.(abort := handle, aborting := true));
          CallAbort(frame.check);
          return true;
        }
        FetchedLive(before, s1, handle, now);
        UpdateJobKeeps(s1, frame.key, job.(abort := handle));
        UpdateJob(frame.key, job.(abort := handle));
        return false;
      }
      FetchedDetached(before, s1, handle, now);
      aborts := frame.cancelable && handle
        && exists job :: job in detached && job.id == frame.id && job.waiters == [] && !job.aborting;
      if aborts {
        CallAbort(frame.check);
      }
    }

    method PopFrame(now: int)
      requires stack != []
      modifies `stack, `clock
      ensures View() == Pop(old(View())).(clock := now)
    {
      stack, clock := stack[1..], now;
    }

    method UpdateJob(key: Key, job: Job)
      modifies `jobs
      ensures View() == WithJob(old(View()), key, job)
    {
      jobs := jobs[key := job];
    }

    // Leaves the frame of pump() behind and calls the abort handle.
    method CallAbort(check: Check)
      modifies `stack
      ensures View() == Push(old(View()), Aborting(check))
    {
      stack := [Aborting(check)] + stack;
    }

    method TimerFired(now: int)
      requires Valid() && admissionTimer.Some? && now >= admissionTimer.value && now >= clock
      modifies this
      ensures View() == Apply(old(View()), Step.TimerFires(now))
      ensures Valid()
    {
      hide Inv, Awake;
      Kept(View(), Step.TimerFires(now));
      admissionTimer, clock := None, now;
      Schedule();
    }
  }
}
