// Each step of the scheduler preserves the invariant.
module SchedulerSteps {
  import opened Basics
  import opened SchedulerState
  import opened SchedulerInvariant

  // ---- The stack of suspended calls ----

  lemma PushFrame(stack: seq<Frame>, f: Frame, joined: map<nat, nat>, log: seq<Admission>)
    requires FramesSound(stack) && FrameSound(f)
    requires FramesRightful(stack, joined, log) && FrameRightful(f, joined, log)
    ensures FramesSound([f] + stack) && FramesRightful([f] + stack, joined, log)
    ensures Owed([f] + stack) == FrameTickets(f) + Owed(stack)
  {
    OwedPush(f, stack);
    var r := [f] + stack;
    forall i | 0 <= i < |r| ensures FrameSound(r[i]) && FrameRightful(r[i], joined, log) {
      if i > 0 { assert r[i] == stack[i - 1]; }
    }
  }

  lemma PopFrame(stack: seq<Frame>, joined: map<nat, nat>, log: seq<Admission>)
    requires stack != [] && FramesSound(stack) && FramesRightful(stack, joined, log)
    ensures FramesSound(stack[1..]) && FramesRightful(stack[1..], joined, log)
    ensures Owed(stack) == FrameTickets(stack[0]) + Owed(stack[1..])
  {
    forall i | 0 <= i < |stack[1..]| ensures FrameSound(stack[1..][i]) && FrameRightful(stack[1..][i], joined, log) {
      assert stack[1..][i] == stack[i + 1];
    }
  }

  lemma PushKeeps(s: State, f: Frame)
    requires Core(s) && FrameTickets(f) == multiset{} && FrameSound(f)
    requires f.Delivering? ==> f.tickets == []
    ensures Core(Push(s, f))
  {
    hide Linked, Slots, Sequenced, DeliveriesRightful, JoinedKnown, AbortsKnown, AdmissionsSound, CreditSound;
    PushFrame(s.stack, f, s.log.joinedAborting, s.log.admitted);
  }

  lemma PopKeeps(s: State)
    requires Core(s) && s.stack != [] && FrameTickets(s.stack[0]) == multiset{}
    ensures Core(Pop(s))
  {
    hide Linked, Slots, Sequenced, DeliveriesRightful, JoinedKnown, AbortsKnown, AdmissionsSound, CreditSound;
    PopFrame(s.stack, s.log.joinedAborting, s.log.admitted);
  }

  // ---- Joining ----

  lemma {:induction false} OwedContains(stack: seq<Frame>, i: nat, t: nat)
    requires i < |stack| && t in FrameTickets(stack[i])
    ensures t in Owed(stack)
  {
    if i > 0 {
      OwedContains(stack[1..], i - 1, t);
    }
  }

  lemma {:induction false} PaidContains(d: seq<Delivery>, i: nat)
    requires i < |d|
    ensures d[i].ticket in Paid(d)
  {
    if i < |d| - 1 {
      PaidContains(d[..|d| - 1], i);
    }
  }

  // A ticket that was never issued occurs nowhere.
  lemma UnissuedTicket(live: set<nat>, stack: seq<Frame>, d: seq<Delivery>, issued: nat, t: nat)
    requires Conserved(live, stack, d, issued) && t > issued
    ensures t !in live
    ensures forall i :: 0 <= i < |stack| ==> t !in FrameTickets(stack[i])
    ensures forall i :: 0 <= i < |d| ==> d[i].ticket != t
  {
    assert Issued(issued)[t] == 0;
    assert (multiset(live) + Owed(stack) + Paid(d))[t] == 0;
    forall i | 0 <= i < |stack| ensures t !in FrameTickets(stack[i]) {
      if t in FrameTickets(stack[i]) { OwedContains(stack, i, t); }
    }
    forall i | 0 <= i < |d| ensures d[i].ticket != t {
      if d[i].ticket == t { PaidContains(d, i); }
    }
  }

  lemma NewJobKeeps(s: State, key: Key, lane: Lane, kind: FetchKind, owner: nat)
    requires Core(s) && !s.stopped && key !in s.jobs
    ensures Core(NewJob(s, key, lane, kind, owner))
  {
    hide Conserved, FramesRightful, DeliveriesRightful, FramesSound, AdmissionsSound, CreditSound, Slots, Sequenced;
    var r := NewJob(s, key, lane, kind, owner);
    SlotsUntouched(s.jobs, r.jobs, s.active, s.laneActive);
    NewAttempt(s.jobs, r.jobs, s.nextSequence, s.log.admitted, key);
    LinkedWithEmpty(s.jobs, s.ticketKeys, key, r.jobs[key]);
  }

  lemma LinkedWithEmpty(jobs: map<Key, Job>, keys: map<nat, Key>, key: Key, job: Job)
    requires Linked(jobs, keys) && key !in jobs && job.waiters == []
    ensures Linked(jobs[key := job], keys)
  {
    var next := jobs[key := job];
    forall t | t in keys ensures keys[t] in next && t in Tickets(next[keys[t]].waiters) {
      assert keys[t] != key;
    }
  }

  // A job starts a fresh, not yet admitted attempt.
  lemma NewAttempt(jobs: map<Key, Job>, next: map<Key, Job>, nextSequence: nat, log: seq<Admission>, key: Key)
    requires Sequenced(jobs, nextSequence, log)
    requires next.Keys == jobs.Keys + {key}
    requires next[key].sequence == nextSequence + 1 && !next[key].active
    requires forall k :: k in next && k != key ==>
      next[k].sequence == jobs[k].sequence && next[k].active == jobs[k].active
    ensures Sequenced(next, nextSequence + 1, log)
  {
    assert !Admitted(log, nextSequence + 1);
    assert forall k :: k in next && k != key ==> k in jobs;
  }

  lemma JoinLinked(s: State, key: Key, priority: Priority)
    requires Linked(s.jobs, s.ticketKeys) && key in s.jobs && s.nextTicket + 1 !in s.ticketKeys
    ensures var r := Join(s, key, priority); Linked(r.jobs, r.ticketKeys)
  {
    var r := Join(s, key, priority);
    JoinWaiters(s.jobs, s.ticketKeys, key, s.nextTicket + 1, r.jobs[key]);
    JoinTickets(s.jobs, s.ticketKeys, key, s.nextTicket + 1, r.jobs[key]);
  }

  // Every waiter of the jobs afterwards is known under its key, and no two of one job share a ticket.
  lemma JoinWaiters(jobs: map<Key, Job>, keys: map<nat, Key>, key: Key, t: nat, job: Job)
    requires Linked(jobs, keys) && key in jobs && t !in keys
    requires |job.waiters| == |jobs[key].waiters| + 1 && job.waiters[..|jobs[key].waiters|] == jobs[key].waiters
    requires job.waiters[|jobs[key].waiters|].ticket == t
    ensures var next := jobs[key := job];
      forall k, i :: k in next && 0 <= i < |next[k].waiters| ==>
        next[k].waiters[i].ticket in keys[t := key] && keys[t := key][next[k].waiters[i].ticket] == k
    ensures var next := jobs[key := job];
      forall k, i, j :: k in next && 0 <= i < j < |next[k].waiters| ==> next[k].waiters[i].ticket != next[k].waiters[j].ticket
  {
    hide Tickets;
    var ws := jobs[key].waiters;
    forall i | 0 <= i < |ws| ensures job.waiters[i] == ws[i] {
      assert job.waiters[..|ws|][i] == job.waiters[i];
    }
  }

  // Every ticket afterwards is found in its job.
  lemma JoinTickets(jobs: map<Key, Job>, keys: map<nat, Key>, key: Key, t: nat, job: Job)
    requires Linked(jobs, keys) && key in jobs && t !in keys
    requires |job.waiters| == |jobs[key].waiters| + 1 && job.waiters[..|jobs[key].waiters|] == jobs[key].waiters
    requires job.waiters[|jobs[key].waiters|].ticket == t
    ensures var next, more := jobs[key := job], keys[t := key];
      forall u :: u in more ==> more[u] in next && u in Tickets(next[more[u]].waiters)
  {
    var ws := jobs[key].waiters;
    assert Tickets(job.waiters)[|ws|] == t;
    forall u | u in Tickets(ws) ensures u in Tickets(job.waiters) {
      var i :| 0 <= i < |ws| && Tickets(ws)[i] == u;
      assert job.waiters[..|ws|][i] == job.waiters[i];
      assert Tickets(job.waiters)[i] == u;
    }
  }

  lemma JoinRightful(s: State, key: Key, priority: Priority)
    requires FramesRightful(s.stack, s.log.joinedAborting, s.log.admitted)
    requires DeliveriesRightful(s.log.delivered, s.log.joinedAborting, s.log.admitted)
    requires forall i :: 0 <= i < |s.stack| ==> s.nextTicket + 1 !in FrameTickets(s.stack[i])
    requires forall i :: 0 <= i < |s.log.delivered| ==> s.log.delivered[i].ticket != s.nextTicket + 1
    requires key in s.jobs
    ensures var r := Join(s, key, priority);
      && FramesRightful(s.stack, r.log.joinedAborting, s.log.admitted)
      && DeliveriesRightful(s.log.delivered, r.log.joinedAborting, s.log.admitted)
  {
    hide Admitted, Good;
    var r := Join(s, key, priority);
    forall i | 0 <= i < |s.stack| ensures FrameRightful(s.stack[i], r.log.joinedAborting, s.log.admitted) {
      assert FrameRightful(s.stack[i], s.log.joinedAborting, s.log.admitted);
      assert s.nextTicket + 1 !in FrameTickets(s.stack[i]);
    }
    forall i | 0 <= i < |s.log.delivered|
      ensures Rightful(s.log.delivered[i].ticket, s.log.delivered[i].outcome, r.log.joinedAborting, s.log.admitted)
    {
      assert Rightful(s.log.delivered[i].ticket, s.log.delivered[i].outcome, s.log.joinedAborting, s.log.admitted);
    }
  }

  lemma JoinAborts(s: State, key: Key, priority: Priority)
    requires AbortsKnown(s.jobs, s.log.joinedAborting) && JoinedKnown(s.log.joinedAborting, s.nextTicket, s.nextSequence)
    requires Linked(s.jobs, s.ticketKeys) && s.nextTicket + 1 !in s.ticketKeys
    requires key in s.jobs && s.jobs[key].sequence <= s.nextSequence
    ensures var r := Join(s, key, priority);
      AbortsKnown(r.jobs, r.log.joinedAborting) && JoinedKnown(r.log.joinedAborting, r.nextTicket, r.nextSequence)
  {
    var r := Join(s, key, priority);
    forall k, i | k in r.jobs && 0 <= i < |r.jobs[k].waiters|
      ensures StillAborting(r.jobs[k], r.jobs[k].waiters[i].ticket, r.log.joinedAborting)
    {
      if k != key || i < |s.jobs[k].waiters| {
        assert r.jobs[k].waiters[i] == s.jobs[k].waiters[i];
        assert s.jobs[k].waiters[i].ticket in s.ticketKeys;
        assert StillAborting(s.jobs[k], s.jobs[k].waiters[i].ticket, s.log.joinedAborting);
      }
    }
  }

  lemma JoinSequenced(jobs: map<Key, Job>, next: map<Key, Job>, nextSequence: nat, log: seq<Admission>)
    requires Sequenced(jobs, nextSequence, log)
    requires forall k :: k in next ==> k in jobs && next[k].sequence == jobs[k].sequence && next[k].active == jobs[k].active
    ensures Sequenced(next, nextSequence, log)
  {
    hide Admitted;
  }

  lemma SequenceBounded(jobs: map<Key, Job>, nextSequence: nat, log: seq<Admission>, key: Key)
    requires Sequenced(jobs, nextSequence, log) && key in jobs
    ensures jobs[key].sequence <= nextSequence
  {
  }

  lemma JoinConserved(live: set<nat>, stack: seq<Frame>, d: seq<Delivery>, issued: nat)
    requires Conserved(live, stack, d, issued) && issued + 1 !in live
    ensures Conserved(live + {issued + 1}, stack, d, issued + 1)
  {
    hide Owed, Paid;
    var t: nat := issued + 1;
    assert multiset(live + {t}) == multiset(live) + multiset{t};
    assert Issued(t) == Issued(issued) + multiset{t};
  }

  lemma JoinKeeps(s: State, key: Key, priority: Priority)
    requires Core(s) && !s.stopped && key in s.jobs
    ensures Core(Join(s, key, priority))
  {
    hide Conserved, FramesRightful, DeliveriesRightful, FramesSound, AdmissionsSound, CreditSound, Slots, Sequenced,
         Linked, AbortsKnown, JoinedKnown;
    var r := Join(s, key, priority);
    SequenceBounded(s.jobs, s.nextSequence, s.log.admitted, key);
    UnissuedTicket(s.ticketKeys.Keys, s.stack, s.log.delivered, s.nextTicket, s.nextTicket + 1);
    JoinLinked(s, key, priority);
    JoinRightful(s, key, priority);
    JoinAborts(s, key, priority);
    JoinConserved(s.ticketKeys.Keys, s.stack, s.log.delivered, s.nextTicket);
    assert r.ticketKeys.Keys == s.ticketKeys.Keys + {s.nextTicket + 1};
    JoinSequenced(s.jobs, r.jobs, s.nextSequence, s.log.admitted);
    SlotsUntouched(s.jobs, r.jobs, s.active, s.laneActive);
  }

  lemma AddWaiterKeeps(s: State, source: string, index: nat, lane: Lane, priority: Priority,
                       fetch: Option<FetchKind>, hasDone: bool, owner: nat)
    requires Inv(s)
    ensures Inv(AddWaiter(s, source, index, lane, priority, fetch, hasDone, owner).0)
  {
    hide Core, MakeKey;
    var key := MakeKey(source, index);
    if s.stopped || source == "" || lane == "" || fetch.None? || !hasDone {
    } else if key in s.jobs && s.jobs[key].lane != lane {
    } else {
      if key in s.jobs {
        JoinKeeps(s, key, priority);
        ScheduleKeeps(Join(s, key, priority));
      } else {
        var s1 := NewJob(s, key, lane, fetch.value, owner);
        NewJobKeeps(s, key, lane, fetch.value, owner);
        JoinKeeps(s1, key, priority);
        ScheduleKeeps(Join(s1, key, priority));
      }
    }
  }

  lemma ScheduleKeeps(s: State)
    requires Core(s)
    ensures Core(Schedule(s))
  {
    hide Conserved, FramesRightful, DeliveriesRightful, FramesSound, AdmissionsSound, CreditSound, Slots, Sequenced,
         Linked, AbortsKnown, JoinedKnown;
  }

  // ---- Delivering ----

  lemma AppendDelivery(d: seq<Delivery>, t: nat, outcome: Outcome, joined: map<nat, nat>, log: seq<Admission>)
    requires DeliveriesRightful(d, joined, log) && Rightful(t, outcome, joined, log)
    ensures DeliveriesRightful(d + [Delivery(t, outcome)], joined, log)
    ensures Paid(d + [Delivery(t, outcome)]) == Paid(d) + multiset{t}
  {
    PaidOne(d, t, outcome);
  }

  lemma ResumeDeliveringKeeps(s: State)
    requires Inv(s) && s.stack != [] && s.stack[0].Delivering?
    ensures Inv(ResumeDelivering(s))
  {
    hide Linked, Slots, Sequenced, JoinedKnown, AbortsKnown, AdmissionsSound, CreditSound,
         FramesSound, FramesRightful, DeliveriesRightful, Conserved;
    if s.stack[0].tickets == [] {
      PopKeeps(s);
    } else {
      DeliverNext(s.ticketKeys.Keys, s.stack, s.log.delivered, s.nextTicket, s.log.joinedAborting, s.log.admitted);
    }
  }

  lemma DeliverNext(live: set<nat>, stack: seq<Frame>, d: seq<Delivery>, issued: nat,
                    joined: map<nat, nat>, log: seq<Admission>)
    requires stack != [] && stack[0].Delivering? && stack[0].tickets != []
    requires Conserved(live, stack, d, issued) && FramesSound(stack)
    requires FramesRightful(stack, joined, log) && DeliveriesRightful(d, joined, log)
    ensures var f := stack[0];
      var stack' := [Delivering(f.tickets[1..], f.outcome)] + stack[1..];
      var d' := d + [Delivery(f.tickets[0], f.outcome)];
      Conserved(live, stack', d', issued) && FramesSound(stack')
      && FramesRightful(stack', joined, log) && DeliveriesRightful(d', joined, log)
  {
    hide Rightful, FramesRightful, FramesSound, DeliveriesRightful, Conserved, Owed;
    var f := stack[0];
    FirstFrameRightful(stack, joined, log);
    NextRightful(f, joined, log);
    PopFrame(stack, joined, log);
    PushFrame(stack[1..], Delivering(f.tickets[1..], f.outcome), joined, log);
    AppendDelivery(d, f.tickets[0], f.outcome, joined, log);
    DeliverNextConserved(live, stack, d, issued);
  }

  lemma FirstFrameRightful(stack: seq<Frame>, joined: map<nat, nat>, log: seq<Admission>)
    requires stack != [] && FramesRightful(stack, joined, log)
    ensures FrameRightful(stack[0], joined, log)
  {
    hide FrameRightful;
  }

  lemma NextRightful(f: Frame, joined: map<nat, nat>, log: seq<Admission>)
    requires f.Delivering? && f.tickets != [] && FrameRightful(f, joined, log)
    ensures Rightful(f.tickets[0], f.outcome, joined, log)
    ensures FrameRightful(Delivering(f.tickets[1..], f.outcome), joined, log)
  {
    hide Rightful;
  }

  // The ticket delivered is owed no longer.
  lemma DeliverNextConserved(live: set<nat>, stack: seq<Frame>, d: seq<Delivery>, issued: nat)
    requires stack != [] && stack[0].Delivering? && stack[0].tickets != [] && Conserved(live, stack, d, issued)
    ensures var f := stack[0];
      Conserved(live, [Delivering(f.tickets[1..], f.outcome)] + stack[1..], d + [Delivery(f.tickets[0], f.outcome)], issued)
  {
    hide Issued, Owed, Paid;
    var f := stack[0];
    var t, rest := f.tickets[0], f.tickets[1..];
    OwedFirst(stack);
    OwedPush(Delivering(rest, f.outcome), stack[1..]);
    PaidOne(d, t, f.outcome);
    assert f.tickets == [t] + rest;
    assert multiset(f.tickets) == multiset{t} + multiset(rest);
    MoveOne(multiset(live), t, multiset(rest), Owed(stack[1..]), Paid(d));
  }

  lemma OwedFirst(stack: seq<Frame>)
    requires stack != []
    ensures Owed(stack) == FrameTickets(stack[0]) + Owed(stack[1..])
  {
  }

  lemma MoveOne(live: multiset<nat>, t: nat, rest: multiset<nat>, owed: multiset<nat>, paid: multiset<nat>)
    ensures live + ((multiset{t} + rest) + owed) + paid == live + (rest + owed) + (paid + multiset{t})
  {
  }

  lemma DeliverSchedule(s: State, ticket: Option<nat>, outcome: Outcome)
    ensures Deliver(Schedule(s), ticket, outcome) == Schedule(Deliver(s, ticket, outcome))
  {
  }

  lemma ResumeCancellingKeeps(s: State)
    requires Inv(s) && s.stack != [] && s.stack[0].Cancelling?
    ensures Inv(ResumeCancelling(s))
  {
    hide Core;
    SettleCancelled(s);
    ScheduleKeeps(Deliver(Pop(s), s.stack[0].done, Cancelled));
    DeliverSchedule(Pop(s), s.stack[0].done, Cancelled);
  }

  lemma SettleCancelled(s: State)
    requires Core(s) && s.stack != [] && s.stack[0].Cancelling?
    ensures Core(Deliver(Pop(s), s.stack[0].done, Cancelled))
  {
    hide Conserved, FramesRightful, DeliveriesRightful, FramesSound, AdmissionsSound, CreditSound, Slots, Sequenced,
         JoinedKnown, AbortsKnown, Linked;
    PopFrame(s.stack, s.log.joinedAborting, s.log.admitted);
    CancelNext(s.ticketKeys.Keys, s.stack, s.log.delivered, s.nextTicket);
    if s.stack[0].done.Some? {
      AppendDelivery(s.log.delivered, s.stack[0].done.value, Cancelled, s.log.joinedAborting, s.log.admitted);
    }
  }

  lemma CancelNext(live: set<nat>, stack: seq<Frame>, d: seq<Delivery>, issued: nat)
    requires stack != [] && stack[0].Cancelling? && Conserved(live, stack, d, issued)
    ensures stack[0].done.None? ==> Conserved(live, stack[1..], d, issued)
    ensures stack[0].done.Some? ==> Conserved(live, stack[1..], d + [Delivery(stack[0].done.value, Cancelled)], issued)
  {
    if stack[0].done.Some? {
      PaidOne(d, stack[0].done.value, Cancelled);
    }
  }

  // ---- Cancelling ----

  // Taking one ticket out of its job leaves the other tickets linked.
  lemma UnlinkKeeps(jobs: map<Key, Job>, keys: map<nat, Key>, ticket: nat, job: Job)
    requires Linked(jobs, keys) && ticket in keys
    requires job.waiters == WithoutTicket(jobs[keys[ticket]].waiters, ticket)
    ensures Linked(jobs[keys[ticket] := job], keys - {ticket})
    ensures multiset(keys.Keys) == multiset((keys - {ticket}).Keys) + multiset{ticket}
  {
    hide Tickets, WithoutTicket;
    UnlinkWaiters(jobs, keys, ticket, job);
    UnlinkTickets(jobs, keys, ticket, job);
    assert (keys - {ticket}).Keys == keys.Keys - {ticket};
  }

  lemma UnlinkWaiters(jobs: map<Key, Job>, keys: map<nat, Key>, ticket: nat, job: Job)
    requires Linked(jobs, keys) && ticket in keys
    requires job.waiters == WithoutTicket(jobs[keys[ticket]].waiters, ticket)
    ensures var next, left := jobs[keys[ticket] := job], keys - {ticket};
      forall k, i :: k in next && 0 <= i < |next[k].waiters| ==>
        next[k].waiters[i].ticket in left && left[next[k].waiters[i].ticket] == k
    ensures var next := jobs[keys[ticket] := job];
      forall k, i, j :: k in next && 0 <= i < j < |next[k].waiters| ==> next[k].waiters[i].ticket != next[k].waiters[j].ticket
  {
    hide Tickets, WithoutTicket;
    var key := keys[ticket];
    var ws, rest := jobs[key].waiters, job.waiters;
    WithoutTicketContents(ws, ticket);
    forall i | 0 <= i < |rest| ensures rest[i].ticket in keys - {ticket} && keys[rest[i].ticket] == key {
      assert rest[i] in ws;
    }
  }

  lemma UnlinkTickets(jobs: map<Key, Job>, keys: map<nat, Key>, ticket: nat, job: Job)
    requires Linked(jobs, keys) && ticket in keys
    requires job.waiters == WithoutTicket(jobs[keys[ticket]].waiters, ticket)
    ensures var next, left := jobs[keys[ticket] := job], keys - {ticket};
      forall t :: t in left ==> left[t] in next && t in Tickets(next[left[t]].waiters)
  {
    hide Tickets, WithoutTicket;
    var key := keys[ticket];
    var ws, rest := jobs[key].waiters, job.waiters;
    WithoutTicketContents(ws, ticket);
    forall t | t in keys && t != ticket && keys[t] == key ensures t in Tickets(rest) {
      TicketsMembership(ws, t);
      var i :| 0 <= i < |ws| && ws[i].ticket == t;
      assert ws[i] in rest;
      TicketsMembership(rest, t);
    }
  }

  lemma UnlinkAborts(jobs: map<Key, Job>, joined: map<nat, nat>, key: Key, ticket: nat, job: Job)
    requires AbortsKnown(jobs, joined) && key in jobs
    requires forall i, j :: 0 <= i < j < |jobs[key].waiters| ==> jobs[key].waiters[i].ticket != jobs[key].waiters[j].ticket
    requires job.waiters == WithoutTicket(jobs[key].waiters, ticket)
    requires job.sequence == jobs[key].sequence && (jobs[key].aborting ==> job.aborting)
    ensures AbortsKnown(jobs[key := job], joined)
  {
    var ws := jobs[key].waiters;
    WithoutTicketContents(ws, ticket);
    forall i | 0 <= i < |job.waiters| ensures StillAborting(job, job.waiters[i].ticket, joined) {
      var j :| 0 <= j < |ws| && ws[j] == job.waiters[i];
      assert StillAborting(jobs[key], ws[j].ticket, joined);
    }
  }

  // Removing a job without waiters that holds no slot.
  lemma DetachKeeps(s: State, key: Key)
    requires Core(s) && key in s.jobs && s.jobs[key].waiters == [] && !s.jobs[key].active
    ensures Core(Detach(s, key))
  {
    hide Conserved, FramesRightful, DeliveriesRightful, FramesSound, AdmissionsSound, CreditSound, Slots, Sequenced,
         JoinedKnown;
    var r := Detach(s, key);
    SlotsUntouched(s.jobs, r.jobs, s.active, s.laneActive);
    JoinSequenced(s.jobs, r.jobs, s.nextSequence, s.log.admitted);
    assert forall t :: t in s.ticketKeys ==> s.ticketKeys[t] != key;
  }

  lemma LinkedTicket(jobs: map<Key, Job>, keys: map<nat, Key>, ticket: nat)
    requires Linked(jobs, keys) && ticket in keys
    ensures keys[ticket] in jobs && ticket in Tickets(jobs[keys[ticket]].waiters)
    ensures var ws := jobs[keys[ticket]].waiters;
      forall i, j :: 0 <= i < j < |ws| ==> ws[i].ticket != ws[j].ticket
  {
  }

  // cancel() up to the point where the completion is called, or abort is.
  function Unlinked(s: State, ticket: nat, aborting: bool): State
    requires ticket in s.ticketKeys && s.ticketKeys[ticket] in s.jobs
  {
    var key := s.ticketKeys[ticket];
    WithJob(s.(ticketKeys := s.ticketKeys - {ticket}), key,
            s.jobs[key].(waiters := WithoutTicket(s.jobs[key].waiters, ticket), aborting := aborting))
  }

  lemma UnlinkJobs(s: State, ticket: nat, aborting: bool)
    requires Core(s) && ticket in s.ticketKeys && s.ticketKeys[ticket] in s.jobs
    requires s.jobs[s.ticketKeys[ticket]].aborting ==> aborting
    ensures var r := Unlinked(s, ticket, aborting);
      && Linked(r.jobs, r.ticketKeys) && Slots(r.jobs, s.active, s.laneActive)
      && Sequenced(r.jobs, s.nextSequence, s.log.admitted) && AbortsKnown(r.jobs, s.log.joinedAborting)
      && Conserved(r.ticketKeys.Keys, s.stack, s.log.delivered + [Delivery(ticket, Cancelled)], s.nextTicket)
      && Conserved(r.ticketKeys.Keys, [Cancelling(Some(ticket))] + s.stack, s.log.delivered, s.nextTicket)
  {
    hide Conserved, FramesRightful, DeliveriesRightful, FramesSound, AdmissionsSound, CreditSound, Slots, Sequenced,
         JoinedKnown, AbortsKnown, Linked, WithoutTicket;
    var key := s.ticketKeys[ticket];
    var r := Unlinked(s, ticket, aborting);
    LinkedTicket(s.jobs, s.ticketKeys, ticket);
    UnlinkKeeps(s.jobs, s.ticketKeys, ticket, r.jobs[key]);
    UnlinkAborts(s.jobs, s.log.joinedAborting, key, ticket, r.jobs[key]);
    SlotsUntouched(s.jobs, r.jobs, s.active, s.laneActive);
    JoinSequenced(s.jobs, r.jobs, s.nextSequence, s.log.admitted);
    UnlinkConserved(s.ticketKeys, ticket, s.stack, s.log.delivered, s.nextTicket);
  }

  lemma UnlinkDelivers(s: State, ticket: nat)
    requires Core(s) && ticket in s.ticketKeys && s.ticketKeys[ticket] in s.jobs
    ensures Core(Deliver(Unlinked(s, ticket, s.jobs[s.ticketKeys[ticket]].aborting), Some(ticket), Cancelled))
  {
    hide Conserved, FramesRightful, DeliveriesRightful, FramesSound, AdmissionsSound, CreditSound, Slots, Sequenced,
         JoinedKnown, AbortsKnown, Linked, WithoutTicket;
    UnlinkJobs(s, ticket, s.jobs[s.ticketKeys[ticket]].aborting);
    AppendDelivery(s.log.delivered, ticket, Cancelled, s.log.joinedAborting, s.log.admitted);
  }

  lemma UnlinkAborting(s: State, ticket: nat)
    requires Core(s) && ticket in s.ticketKeys && s.ticketKeys[ticket] in s.jobs
    ensures Core(Push(Unlinked(s, ticket, true), Cancelling(Some(ticket))))
  {
    hide Conserved, FramesRightful, DeliveriesRightful, FramesSound, AdmissionsSound, CreditSound, Slots, Sequenced,
         JoinedKnown, AbortsKnown, Linked, WithoutTicket;
    UnlinkJobs(s, ticket, true);
    PushFrame(s.stack, Cancelling(Some(ticket)), s.log.joinedAborting, s.log.admitted);
  }

  lemma UnlinkConserved(keys: map<nat, Key>, ticket: nat, stack: seq<Frame>, d: seq<Delivery>, issued: nat)
    requires Conserved(keys.Keys, stack, d, issued)
    requires multiset(keys.Keys) == multiset((keys - {ticket}).Keys) + multiset{ticket}
    ensures Conserved((keys - {ticket}).Keys, stack, d + [Delivery(ticket, Cancelled)], issued)
    ensures Conserved((keys - {ticket}).Keys, [Cancelling(Some(ticket))] + stack, d, issued)
  {
    PaidOne(d, ticket, Cancelled);
    OwedPush(Cancelling(Some(ticket)), stack);
  }

  lemma CoreTicket(s: State, ticket: nat)
    requires Core(s) && ticket in s.ticketKeys
    ensures s.ticketKeys[ticket] in s.jobs && ticket in Tickets(s.jobs[s.ticketKeys[ticket]].waiters)
  {
    hide Conserved, FramesRightful, DeliveriesRightful, FramesSound, AdmissionsSound, CreditSound, Slots, Sequenced,
         JoinedKnown, AbortsKnown, Linked;
    LinkedTicket(s.jobs, s.ticketKeys, ticket);
  }

  // The three ways through cancel().
  lemma CancelCases(s: State, ticket: nat)
    requires ticket in s.ticketKeys && s.ticketKeys[ticket] in s.jobs
    requires ticket in Tickets(s.jobs[s.ticketKeys[ticket]].waiters)
    ensures var key := s.ticketKeys[ticket];
      var job := s.jobs[key];
      var s2 := Unlinked(s, ticket, job.aborting);
      Cancel(s, ticket) ==
        if s2.jobs[key].waiters == [] && !job.active then
          Schedule(Detach(Deliver(s2, Some(ticket), Cancelled), key))
        else if s2.jobs[key].waiters == [] && job.abort && !job.aborting then
          Push(Unlinked(s, ticket, true), Cancelling(Some(ticket)))
        else
          Schedule(Deliver(s2, Some(ticket), Cancelled))
  {
    hide WithoutTicket, Tickets;
    var key := s.ticketKeys[ticket];
    var s2 := Unlinked(s, ticket, s.jobs[key].aborting);
    assert WithJob(s.(ticketKeys := s.ticketKeys - {ticket}), key,
                   s.jobs[key].(waiters := WithoutTicket(s.jobs[key].waiters, ticket))) == s2;
    DeliverSchedule(Detach(s2, key), Some(ticket), Cancelled);
    DeliverSchedule(s2, Some(ticket), Cancelled);
  }

  lemma CancelKeeps(s: State, ticket: nat)
    requires Inv(s)
    ensures Inv(Cancel(s, ticket))
  {
    hide Core, WithoutTicket, Tickets, Cancel;
    if ticket in s.ticketKeys {
      CoreTicket(s, ticket);
      CancelCases(s, ticket);
      var key := s.ticketKeys[ticket];
      var job := s.jobs[key];
      var s3 := Deliver(Unlinked(s, ticket, job.aborting), Some(ticket), Cancelled);
      UnlinkDelivers(s, ticket);
      if s3.jobs[key].waiters == [] && !job.active {
        DetachKeeps(s3, key);
        ScheduleKeeps(Detach(s3, key));
      } else if s3.jobs[key].waiters == [] && job.abort && !job.aborting {
        UnlinkAborting(s, ticket);
      } else {
        ScheduleKeeps(s3);
      }
    } else {
      CancelUnknown(s, ticket);
    }
  }

  lemma CancelForgets(s: State, ticket: nat)
    ensures Cancel(s, ticket).ticketKeys == s.ticketKeys - {ticket}
  {
    hide WithoutTicket, Tickets;
  }

  lemma CancelIssuesNothing(s: State, ticket: nat)
    ensures Cancel(s, ticket).nextTicket == s.nextTicket
  {
    hide WithoutTicket, Tickets;
  }

  lemma CancelUnknown(s: State, ticket: nat)
    requires ticket !in s.ticketKeys
    ensures Cancel(s, ticket) == s
  {
  }

  // ---- Removing jobs that may be active ----

  // Detaching `key` removes its tickets, its slot and its attempt, and nothing else.
  lemma RemoveJob(s: State, key: Key)
    requires Core(s) && key in s.jobs
    ensures var r := if s.jobs[key].active then ReleaseSlot(s, s.jobs[key].lane) else s;
      Slots(s.jobs - {key}, r.active, r.laneActive)
    ensures Linked(s.jobs - {key}, s.ticketKeys - TicketSet(s.jobs[key].waiters))
    ensures multiset(s.ticketKeys.Keys)
            == multiset((s.ticketKeys - TicketSet(s.jobs[key].waiters)).Keys) + multiset(Tickets(s.jobs[key].waiters))
    ensures Sequenced(s.jobs - {key}, s.nextSequence, s.log.admitted) && AbortsKnown(s.jobs - {key}, s.log.joinedAborting)
  {
    hide Conserved, FramesRightful, DeliveriesRightful, FramesSound, AdmissionsSound, CreditSound, Slots, Sequenced,
         JoinedKnown, AbortsKnown, Linked, TicketSet, Tickets;
    if s.jobs[key].active {
      SlotsReleased(s, key, s.jobs - {key});
    } else {
      SlotsUntouched(s.jobs, s.jobs - {key}, s.active, s.laneActive);
    }
    RemoveTickets(s.jobs, s.ticketKeys, key);
    AbortsSubset(s.jobs, s.jobs - {key}, s.log.joinedAborting);
    JoinSequenced(s.jobs, s.jobs - {key}, s.nextSequence, s.log.admitted);
  }

  lemma RemoveTickets(jobs: map<Key, Job>, keys: map<nat, Key>, key: Key)
    requires Linked(jobs, keys) && key in jobs
    ensures var ts := Tickets(jobs[key].waiters);
      && Linked(jobs - {key}, keys - TicketSet(jobs[key].waiters))
      && multiset(keys.Keys) == multiset((keys - TicketSet(jobs[key].waiters)).Keys) + multiset(ts)
  {
    var ws := jobs[key].waiters;
    var ts := Tickets(ws);
    var next, left := jobs - {key}, keys - TicketSet(jobs[key].waiters);
    assert forall i :: 0 <= i < |ts| ==> ts[i] == ws[i].ticket;
    forall t | t in keys ensures t in ts <==> keys[t] == key {
      TicketsMembership(ws, t);
    }
    assert left.Keys == keys.Keys - TicketSet(jobs[key].waiters);
    TakeKeys(keys.Keys, ts);
    forall k, i | k in next && 0 <= i < |next[k].waiters|
      ensures next[k].waiters[i].ticket in left && left[next[k].waiters[i].ticket] == k
    {
      assert keys[jobs[k].waiters[i].ticket] == k;
    }
  }

  lemma AbortsSubset(jobs: map<Key, Job>, next: map<Key, Job>, joined: map<nat, nat>)
    requires AbortsKnown(jobs, joined)
    requires forall k :: k in next ==> k in jobs && next[k] == jobs[k]
    ensures AbortsKnown(next, joined)
  {
    forall k, i | k in next && 0 <= i < |next[k].waiters|
      ensures StillAborting(next[k], next[k].waiters[i].ticket, joined)
    {
      assert StillAborting(jobs[k], jobs[k].waiters[i].ticket, joined);
    }
  }

  lemma ResumeAbandoningKeeps(s: State)
    requires Inv(s) && s.stack != [] && s.stack[0].Abandoning?
    ensures Inv(ResumeAbandoning(s))
  {
    hide Conserved, FramesRightful, DeliveriesRightful, FramesSound, AdmissionsSound, CreditSound, Slots, Sequenced,
         JoinedKnown, AbortsKnown, Linked;
    PopKeeps(s);
    var key := s.stack[0].key;
    if key in s.jobs && s.jobs[key].id == s.stack[0].id && s.jobs[key].waiters == [] && s.jobs[key].active {
      var s1 := Pop(s);
      RemoveJob(s1, key);
      assert s1.ticketKeys - TicketSet(s1.jobs[key].waiters) == s1.ticketKeys;
    }
  }

  lemma AbandonKeeps(s: State, ticket: nat)
    requires Inv(s)
    ensures Inv(AbandonStopped(s, ticket))
  {
    hide Core;
    if ticket in s.ticketKeys && s.ticketKeys[ticket] in s.jobs {
      var key := s.ticketKeys[ticket];
      var f := Abandoning(key, s.jobs[key].id, s.jobs[key].sequence);
      PushKeeps(s, f);
      CancelKeeps(Push(s, f), ticket);
    }
  }

  lemma DropConserved(keys: set<nat>, left: set<nat>, ts: seq<nat>, stack: seq<Frame>, d: seq<Delivery>, issued: nat)
    requires Conserved(keys, stack, d, issued) && stack != [] && stack[0].Delivering?
    requires multiset(keys) == multiset(left) + multiset(ts)
    ensures Conserved(left, [stack[0].(tickets := stack[0].tickets + ts)] + stack[1..], d, issued)
  {
    var f := stack[0].(tickets := stack[0].tickets + ts);
    OwedPush(f, stack[1..]);
    assert multiset(f.tickets) == multiset(stack[0].tickets) + multiset(ts);
  }

  lemma DropKeeps(s: State, key: Key)
    requires Inv(s) && key in s.jobs && s.stack != [] && s.stack[0].Delivering? && !s.stack[0].outcome.Finished?
    ensures Inv(Drop(s, key))
  {
    hide Conserved, FramesRightful, DeliveriesRightful, FramesSound, AdmissionsSound, CreditSound, Slots, Sequenced,
         JoinedKnown, AbortsKnown, Linked, Tickets, TicketSet;
    var ts := Tickets(s.jobs[key].waiters);
    RemoveJob(s, key);
    DropFrame(s.stack, ts, s.log.joinedAborting, s.log.admitted);
    DropConserved(s.ticketKeys.Keys, (s.ticketKeys - TicketSet(s.jobs[key].waiters)).Keys, ts,
                  s.stack, s.log.delivered, s.nextTicket);
  }

  lemma DropFrame(stack: seq<Frame>, ts: seq<nat>, joined: map<nat, nat>, log: seq<Admission>)
    requires stack != [] && stack[0].Delivering? && !stack[0].outcome.Finished?
    requires FramesSound(stack) && FramesRightful(stack, joined, log)
    ensures var r := [stack[0].(tickets := stack[0].tickets + ts)] + stack[1..];
      FramesSound(r) && FramesRightful(r, joined, log)
  {
    PopFrame(stack, joined, log);
    PushFrame(stack[1..], stack[0].(tickets := stack[0].tickets + ts), joined, log);
  }

  lemma {:induction false} RetireAllKeeps(s: State, owner: nat, order: seq<Key>)
    requires Inv(s) && s.stack != [] && s.stack[0].Delivering? && !s.stack[0].outcome.Finished?
    ensures Inv(RetireAll(s, owner, order))
    decreases |order|
  {
    hide Inv;
    if order != [] {
      var key := order[0];
      if key in s.jobs && s.jobs[key].owner == owner {
        DropKeeps(s, key);
        RetireAllKeeps(Drop(s, key), owner, order[1..]);
      } else {
        RetireAllKeeps(s, owner, order[1..]);
      }
    }
  }

  lemma RetireKeeps(s: State, owner: nat, order: seq<Key>)
    requires Inv(s)
    ensures Inv(RetireStoppedOwner(s, owner, order))
  {
    hide Core;
    if owner != 0 {
      var f := Delivering([], TransportStopped);
      PushKeeps(s, f);
      RetireAllKeeps(Push(s, f), owner, order);
      ScheduleKeeps(RetireAll(Push(s, f), owner, order));
    }
  }

  // Walking over all jobs meets every live ticket exactly once.
  lemma {:induction false} AllTicketsAreLive(s: State, order: seq<Key>)
    requires Linked(s.jobs, s.ticketKeys)
    requires forall i, j :: 0 <= i < j < |order| ==> order[i] != order[j]
    ensures forall t :: multiset(AllTickets(s, order))[t]
                        == if t in s.ticketKeys && s.ticketKeys[t] in order then 1 else 0
  {
    hide Linked;
    if order != [] {
      var key, rest := order[0], order[1..];
      AllTicketsAreLive(s, rest);
      assert order == [key] + rest;
      var ts := if key in s.jobs then Tickets(s.jobs[key].waiters) else [];
      assert multiset(AllTickets(s, order)) == multiset(ts) + multiset(AllTickets(s, rest));
      assert key !in rest;
      forall t ensures multiset(ts)[t] == if t in s.ticketKeys && s.ticketKeys[t] == key then 1 else 0 {
        if key in s.jobs {
          JobTicketsOnce(s.jobs, s.ticketKeys, key, t);
        } else if t in s.ticketKeys {
          LinkedTicket(s.jobs, s.ticketKeys, t);
        }
      }
    }
  }

  lemma JobTicketsOnce(jobs: map<Key, Job>, keys: map<nat, Key>, key: Key, t: nat)
    requires Linked(jobs, keys) && key in jobs
    ensures multiset(Tickets(jobs[key].waiters))[t] == if t in keys && keys[t] == key then 1 else 0
  {
    var ws := jobs[key].waiters;
    var ts := Tickets(ws);
    TicketsMembership(ws, t);
    assert forall i :: 0 <= i < |ts| ==> ts[i] == ws[i].ticket;
    TakeKeys(keys.Keys, ts);
    assert multiset(keys.Keys)[t] <= 1;
  }

  lemma AllTicketsBag(s: State, order: seq<Key>)
    requires Linked(s.jobs, s.ticketKeys) && Enumerates(order, s.jobs.Keys)
    ensures multiset(AllTickets(s, order)) == multiset(s.ticketKeys.Keys)
  {
    hide Linked;
    AllTicketsAreLive(s, order);
    forall t ensures multiset(AllTickets(s, order))[t] == multiset(s.ticketKeys.Keys)[t] {
      if t in s.ticketKeys { LinkedTicket(s.jobs, s.ticketKeys, t); }
    }
  }

  lemma ShutdownKeeps(s: State, order: seq<Key>)
    requires Inv(s) && Enumerates(order, s.jobs.Keys)
    ensures Inv(Shutdown(s, order))
  {
    hide Conserved, FramesRightful, DeliveriesRightful, FramesSound, AdmissionsSound, CreditSound, Slots, Sequenced,
         JoinedKnown, AbortsKnown, Linked, Enumerates, AllTickets, JobSet;
    if !s.stopped {
      EmptyJobs(s.nextSequence, s.log.admitted, s.log.joinedAborting);
      JoinSequenced(s.jobs, map[], s.nextSequence, s.log.admitted);
      ShutdownTickets(s, order);
      assert Shutdown(s, order).ticketKeys.Keys == {};
    }
  }

  // Every registered ticket is owed a completion instead.
  lemma ShutdownTickets(s: State, order: seq<Key>)
    requires Core(s) && Enumerates(order, s.jobs.Keys)
    ensures var stack := [Delivering(AllTickets(s, order), SchedulerStopped)] + s.stack;
      && Conserved({}, stack, s.log.delivered, s.nextTicket)
      && FramesSound(stack) && FramesRightful(stack, s.log.joinedAborting, s.log.admitted)
  {
    hide Conserved, FramesRightful, DeliveriesRightful, FramesSound, AdmissionsSound, CreditSound, Slots, Sequenced,
         JoinedKnown, AbortsKnown, Linked, Enumerates, AllTickets;
    var ts := AllTickets(s, order);
    AllTicketsBag(s, order);
    PushFrame(s.stack, Delivering(ts, SchedulerStopped), s.log.joinedAborting, s.log.admitted);
    SettleConserved(s.ticketKeys.Keys, {}, ts, SchedulerStopped, s.stack, s.log.delivered, s.nextTicket);
  }

  lemma EmptyJobs(nextSequence: nat, log: seq<Admission>, joined: map<nat, nat>)
    ensures Linked(map[], map[]) && Slots(map[], 0, map[]) && AbortsKnown(map[], joined)
  {
    assert ActiveKeys(map[]) == {};
    assert forall lane :: LaneKeys(map[], lane) == {};
  }

  // ---- Completion ----

  lemma SameWaitersLinked(jobs: map<Key, Job>, keys: map<nat, Key>, key: Key, job: Job)
    requires Linked(jobs, keys) && key in jobs && Tickets(job.waiters) == Tickets(jobs[key].waiters)
    ensures Linked(jobs[key := job], keys)
  {
    var next := jobs[key := job];
    assert forall i :: 0 <= i < |job.waiters| ==>
      job.waiters[i].ticket == Tickets(job.waiters)[i] == jobs[key].waiters[i].ticket;
    forall k, i | k in next && 0 <= i < |next[k].waiters|
      ensures next[k].waiters[i].ticket in keys && keys[next[k].waiters[i].ticket] == k
    {
      assert next[k].waiters[i].ticket == jobs[k].waiters[i].ticket;
    }
  }

  lemma RestartKeeps(s: State, key: Key)
    requires Inv(s) && key in s.jobs && s.jobs[key].active && s.jobs[key].waiters != []
    ensures Inv(Restart(ReleaseSlot(s, s.jobs[key].lane), key))
  {
    hide Conserved, FramesRightful, DeliveriesRightful, FramesSound, AdmissionsSound, CreditSound, Slots, Sequenced,
         AbortsKnown, Linked;
    var r := Restart(ReleaseSlot(s, s.jobs[key].lane), key);
    SlotsReleased(s, key, r.jobs);
    NewAttempt(s.jobs, r.jobs, s.nextSequence, s.log.admitted, key);
    SameWaitersLinked(s.jobs, s.ticketKeys, key, r.jobs[key]);
    RestartAborts(s.jobs, key, s.log.joinedAborting, s.nextTicket, s.nextSequence, r.jobs[key]);
  }

  lemma RestartAborts(jobs: map<Key, Job>, key: Key, joined: map<nat, nat>, nextTicket: nat, nextSequence: nat, job: Job)
    requires AbortsKnown(jobs, joined) && JoinedKnown(joined, nextTicket, nextSequence)
    requires key in jobs && job.waiters == jobs[key].waiters && job.sequence == nextSequence + 1
    ensures AbortsKnown(jobs[key := job], joined)
  {
    var next := jobs[key := job];
    forall k, i | k in next && 0 <= i < |next[k].waiters|
      ensures StillAborting(next[k], next[k].waiters[i].ticket, joined)
    {
      assert StillAborting(jobs[k], jobs[k].waiters[i].ticket, joined);
    }
  }

  lemma SettleRightful(job: Job, outcome: Outcome, jobs: map<Key, Job>, key: Key, s: State)
    requires key in s.jobs && job == s.jobs[key] && job.active
    requires AbortsKnown(s.jobs, s.log.joinedAborting) && Sequenced(s.jobs, s.nextSequence, s.log.admitted)
    requires outcome.Finished? && outcome.sequence == job.sequence
    requires job.aborting && job.waiters != [] ==> Good(outcome)
    ensures FrameRightful(Delivering(Tickets(job.waiters), outcome), s.log.joinedAborting, s.log.admitted)
  {
    assert Admitted(s.log.admitted, job.sequence);
    hide Sequenced, Admitted;
    var ts := Tickets(job.waiters);
    forall t | t in ts ensures Rightful(t, outcome, s.log.joinedAborting, s.log.admitted) {
      TicketsMembership(job.waiters, t);
      var i :| 0 <= i < |job.waiters| && job.waiters[i].ticket == t;
      assert StillAborting(s.jobs[key], s.jobs[key].waiters[i].ticket, s.log.joinedAborting);
    }
  }

  lemma SettleKeeps(s: State, key: Key, outcome: Outcome)
    requires Inv(s) && key in s.jobs && s.jobs[key].active
    requires outcome.Finished? && outcome.sequence == s.jobs[key].sequence
    requires s.jobs[key].aborting && s.jobs[key].waiters != [] ==> Good(outcome)
    ensures Inv(Settle(ReleaseSlot(s, s.jobs[key].lane), key, outcome))
  {
    hide Conserved, FramesRightful, DeliveriesRightful, FramesSound, AdmissionsSound, CreditSound, Slots, Sequenced,
         JoinedKnown, AbortsKnown, Linked, FrameRightful, Tickets, TicketSet, Good;
    SettleParts(s, key, outcome);
    RemoveJob(s, key);
  }

  lemma SettleParts(s: State, key: Key, outcome: Outcome)
    requires Core(s) && key in s.jobs && s.jobs[key].active
    requires outcome.Finished? && outcome.sequence == s.jobs[key].sequence
    requires s.jobs[key].aborting && s.jobs[key].waiters != [] ==> Good(outcome)
    ensures var stack := [Delivering(Tickets(s.jobs[key].waiters), outcome)] + s.stack;
      && FramesSound(stack) && FramesRightful(stack, s.log.joinedAborting, s.log.admitted)
      && Conserved((s.ticketKeys - TicketSet(s.jobs[key].waiters)).Keys, stack, s.log.delivered, s.nextTicket)
  {
    hide Conserved, FramesRightful, DeliveriesRightful, FramesSound, AdmissionsSound, CreditSound, Slots, Sequenced,
         JoinedKnown, AbortsKnown, Linked, FrameRightful, Tickets, TicketSet, Good;
    var job := s.jobs[key];
    var ts := Tickets(job.waiters);
    RemoveJob(s, key);
    SettleRightful(job, outcome, s.jobs, key, s);
    PushFrame(s.stack, Delivering(ts, outcome), s.log.joinedAborting, s.log.admitted);
    SettleConserved(s.ticketKeys.Keys, (s.ticketKeys - TicketSet(job.waiters)).Keys, ts, outcome,
                    s.stack, s.log.delivered, s.nextTicket);
  }

  lemma SettleConserved(keys: set<nat>, left: set<nat>, ts: seq<nat>, outcome: Outcome,
                        stack: seq<Frame>, d: seq<Delivery>, issued: nat)
    requires Conserved(keys, stack, d, issued) && multiset(keys) == multiset(left) + multiset(ts)
    ensures Conserved(left, [Delivering(ts, outcome)] + stack, d, issued)
  {
    OwedPush(Delivering(ts, outcome), stack);
  }

  lemma FinishKeeps(s: State, key: Key, sequence: nat, bytes: Bytes, error: string)
    requires Inv(s)
    ensures Inv(Finish(s, key, sequence, bytes, error))
  {
    hide Core;
    if key in s.jobs && s.jobs[key].sequence == sequence && s.jobs[key].active {
      var job := s.jobs[key];
      var s1 := ReleaseSlot(s, job.lane);
      if job.aborting && job.waiters != [] && (error != "" || bytes == []) {
        RestartKeeps(s, key);
        ScheduleKeeps(Restart(s1, key));
      } else {
        SettleKeeps(s, key, Finished(sequence, bytes, error));
        ScheduleKeeps(Settle(s1, key, Finished(sequence, bytes, error)));
      }
    }
  }

  // ---- Jobs that keep their tickets, slot and attempt ----

  lemma UpdateJobKeeps(s: State, key: Key, job: Job)
    requires Inv(s) && key in s.jobs && Tickets(job.waiters) == Tickets(s.jobs[key].waiters)
    requires job.active == s.jobs[key].active && job.lane == s.jobs[key].lane && job.sequence == s.jobs[key].sequence
    requires s.jobs[key].aborting ==> job.aborting
    ensures Inv(WithJob(s, key, job))
  {
    hide Conserved, FramesRightful, DeliveriesRightful, FramesSound, AdmissionsSound, CreditSound, Slots, Sequenced,
         JoinedKnown, Linked, AbortsKnown;
    var r := WithJob(s, key, job);
    assert |job.waiters| == |Tickets(job.waiters)| == |s.jobs[key].waiters|;
    SlotsUntouched(s.jobs, r.jobs, s.active, s.laneActive);
    JoinSequenced(s.jobs, r.jobs, s.nextSequence, s.log.admitted);
    SameWaitersLinked(s.jobs, s.ticketKeys, key, job);
    UpdateAborts(s.jobs, key, job, s.log.joinedAborting);
  }

  lemma UpdateAborts(jobs: map<Key, Job>, key: Key, job: Job, joined: map<nat, nat>)
    requires AbortsKnown(jobs, joined) && key in jobs && Tickets(job.waiters) == Tickets(jobs[key].waiters)
    requires job.sequence == jobs[key].sequence && (jobs[key].aborting ==> job.aborting)
    ensures AbortsKnown(jobs[key := job], joined)
  {
    forall i | 0 <= i < |job.waiters| ensures StillAborting(job, job.waiters[i].ticket, joined) {
      assert Tickets(job.waiters)[i] == job.waiters[i].ticket && Tickets(jobs[key].waiters)[i] == jobs[key].waiters[i].ticket;
      assert StillAborting(jobs[key], jobs[key].waiters[i].ticket, joined);
    }
  }

  lemma ReprioritizeKeeps(s: State, ticket: nat, priority: Priority)
    requires Inv(s)
    ensures Inv(Reprioritize(s, ticket, priority))
  {
    hide Core;
    if ticket in s.ticketKeys && s.ticketKeys[ticket] in s.jobs {
      var key := s.ticketKeys[ticket];
      var job := s.jobs[key];
      var ws' := WithPriority(job.waiters, ticket, priority);
      WithPriorityTickets(job.waiters, ticket, priority);
      assert Tickets(ws') == Tickets(job.waiters);
      UpdateJobKeeps(s, key, job.(waiters := ws'));
      ScheduleKeeps(WithJob(s, key, job.(waiters := ws')));
    }
  }

  // ---- Budget ----

  lemma AllowanceSplits(a: int, b: int, limit: int)
    requires limit >= 0
    ensures Allowance(limit, a + b) == Allowance(limit, a) + b as real * limit as real / 1000.0
    ensures b >= 0 ==> b as real * limit as real / 1000.0 >= 0.0
  {
    assert (a + b) as real == a as real + b as real;
    assert (a as real + b as real) * limit as real == a as real * limit as real + b as real * limit as real;
  }

  lemma ReplenishSound(b: Budget, now: int)
    requires CreditSound(b) && now >= b.lastUpdate && b.limit >= 0
    ensures CreditSound(b.(credit := CreditAt(b, now), lastUpdate := now))
  {
    AllowanceSplits(b.lastUpdate - b.epochStart, now - b.lastUpdate, b.limit);
    assert now - b.epochStart == (b.lastUpdate - b.epochStart) + (now - b.lastUpdate);
  }

  lemma ReplenishKeeps(s: State, now: int)
    requires Inv(s) && now >= s.clock
    ensures Inv(Replenish(s, now))
  {
    hide Conserved, FramesRightful, DeliveriesRightful, FramesSound, AdmissionsSound, CreditSound, Slots, Sequenced,
         JoinedKnown, AbortsKnown, Linked;
    ReplenishSound(s.budget, now);
  }

  lemma BandwidthLimitKeeps(s: State, bytesPerSecond: int, now: int)
    requires Inv(s) && now >= s.clock
    ensures Inv(SetBandwidthLimit(s, bytesPerSecond, now))
  {
    hide Conserved, FramesRightful, DeliveriesRightful, FramesSound, AdmissionsSound, Slots, Sequenced,
         JoinedKnown, AbortsKnown, Linked;
    ReplenishKeeps(s, now);
    var next := Max(0, bytesPerSecond);
    assert Allowance(next, 0) == next as real;
  }

  lemma ReportKeeps(s: State, lane: Lane, bytes: int, congested: bool, now: int)
    requires Inv(s) && now >= s.clock
    ensures Inv(ReportTransfer(s, lane, bytes, congested, now))
  {
    hide Core, NextCongestion, CreditAt, Charge;
    if !s.stopped {
      ReplenishKeeps(s, now);
      var s1 := Replenish(s, now);
      ChargeKeeps(s1, bytes, s1.policy.(congestion := NextCongestion(s1.policy.congestion, lane, congested, now)));
    }
  }

  lemma ChargeKeeps(s: State, bytes: int, policy: Policy)
    requires Inv(s)
    ensures Inv(Schedule(s.(budget := Charge(s.budget, bytes), policy := policy)))
  {
    hide Conserved, FramesRightful, DeliveriesRightful, FramesSound, AdmissionsSound, Slots, Sequenced,
         JoinedKnown, AbortsKnown, Linked, Allowance;
  }

  // ---- Admission ----

  lemma AdmittedAppend(log: seq<Admission>, a: Admission, p: nat)
    ensures Admitted(log + [a], p) <==> Admitted(log, p) || p == a.sequence
  {
    var e := log + [a];
    if Admitted(log, p) {
      var i :| 0 <= i < |log| && log[i].sequence == p;
      assert e[i].sequence == p;
    }
    assert e[|log|].sequence == a.sequence;
  }

  lemma RightfulAppend(s: State, a: Admission)
    requires FramesRightful(s.stack, s.log.joinedAborting, s.log.admitted)
    requires DeliveriesRightful(s.log.delivered, s.log.joinedAborting, s.log.admitted)
    ensures FramesRightful(s.stack, s.log.joinedAborting, s.log.admitted + [a])
    ensures DeliveriesRightful(s.log.delivered, s.log.joinedAborting, s.log.admitted + [a])
  {
    var log := s.log.admitted + [a];
    forall q | Admitted(s.log.admitted, q) ensures Admitted(log, q) { AdmittedAppend(s.log.admitted, a, q); }
    hide Admitted;
    forall i | 0 <= i < |s.stack| ensures FrameRightful(s.stack[i], s.log.joinedAborting, log) {
      assert FrameRightful(s.stack[i], s.log.joinedAborting, s.log.admitted);
    }
    forall i | 0 <= i < |s.log.delivered|
      ensures Rightful(s.log.delivered[i].ticket, s.log.delivered[i].outcome, s.log.joinedAborting, log)
    {
      assert Rightful(s.log.delivered[i].ticket, s.log.delivered[i].outcome, s.log.joinedAborting, s.log.admitted);
    }
  }

  lemma SequencedAppend(jobs: map<Key, Job>, next: map<Key, Job>, nextSequence: nat, log: seq<Admission>, a: Admission)
    requires Sequenced(jobs, nextSequence, log) && a.key in jobs && !jobs[a.key].active
    requires a.sequence == jobs[a.key].sequence
    requires next == jobs[a.key := jobs[a.key].(active := true)]
    ensures Sequenced(next, nextSequence, log + [a])
  {
    var e := log + [a];
    assert !Admitted(log, a.sequence);
    forall k | k in next ensures next[k].active <==> Admitted(e, next[k].sequence) {
      AdmittedAppend(log, a, next[k].sequence);
    }
    forall i, j | 0 <= i < j < |e| ensures e[i].sequence != e[j].sequence {
      if j == |log| { assert log[i].sequence != a.sequence; }
    }
  }

  lemma AdmitKeeps(s: State, key: Key, check: Check)
    requires Inv(s) && key in s.jobs && !s.jobs[key].active && CheckSound(check)
    ensures Inv(Admit(s, key, check))
  {
    hide Conserved, FramesRightful, DeliveriesRightful, FramesSound, CreditSound, Slots, Sequenced,
         JoinedKnown, AbortsKnown, Linked;
    var r := Admit(s, key, check);
    var job := s.jobs[key];
    var a := Admission(key, job.sequence, check);
    var f := Fetching(key, job.id, job.kind.Cancelable?, check);
    SlotsTaken(s.jobs, s.active, s.laneActive, key);
    SequencedAppend(s.jobs, r.jobs, s.nextSequence, s.log.admitted, a);
    RightfulAppend(s, a);
    PushFrame(s.stack, f, s.log.joinedAborting, s.log.admitted + [a]);
    SameWaitersLinked(s.jobs, s.ticketKeys, key, r.jobs[key]);
    UpdateAborts(s.jobs, key, r.jobs[key], s.log.joinedAborting);
    EmptyFrameConserved(s.ticketKeys.Keys, f, s.stack, s.log.delivered, s.nextTicket);
  }

  lemma EmptyFrameConserved(live: set<nat>, f: Frame, stack: seq<Frame>, d: seq<Delivery>, issued: nat)
    requires Conserved(live, stack, d, issued) && FrameTickets(f) == multiset{}
    ensures Conserved(live, [f] + stack, d, issued)
  {
    OwedPush(f, stack);
  }

  lemma WakeupKeeps(s: State, delay: int, now: int)
    requires Inv(s) && !s.stopped
    ensures Inv(ScheduleWakeup(s, delay, now))
  {
    hide Conserved, FramesRightful, DeliveriesRightful, FramesSound, AdmissionsSound, CreditSound, Slots, Sequenced,
         JoinedKnown, AbortsKnown, Linked;
  }

  lemma StoppedIsEmpty(s: State, now: int)
    requires Core(s) && s.stopped
    ensures BlockedKeys(s, now) == {} && EligibleKeys(s, now) == {} && FirstWake(s, now).None?
  {
    hide Conserved, FramesRightful, DeliveriesRightful, FramesSound, AdmissionsSound, CreditSound, Slots, Sequenced,
         JoinedKnown, AbortsKnown, Linked;
  }

  lemma PumpLoopKeeps(s: State, now: int, check: Check)
    requires Inv(s) && CheckSound(check)
    ensures Inv(PumpLoop(s, now, check))
  {
    hide Core, IsFirstWake, IsPreferred, BlockedKeys;
    if s.active + |s.policy.external| < s.policy.maxActive {
      var wake := FirstWake(s, now);
      if s.stopped {
        StoppedIsEmpty(s, now);
      }
      var s1 := match wake case Some(w) => ScheduleWakeup(s, w, now) case None => s;
      if wake.Some? && !s.stopped { WakeupKeeps(s, wake.value, now); }
      var keys := EligibleKeys(s, now);
      if keys != {} {
        var oldest, preferred := Oldest(s, keys), Preferred(s, keys);
        var chosen := if preferred != oldest && s.bypasses >= MAX_PRIORITY_BYPASSES then oldest else preferred;
        var b := if chosen == oldest then 0 else s.bypasses + 1;
        PreferredIsMember(s, keys);
        BypassBounded(s);
        BypassKeeps(s1, b);
        AdmitKeeps(s1.(bypasses := b), chosen, check);
      }
    }
  }

  lemma PreferredIsMember(s: State, keys: set<Key>)
    requires keys != {}
    ensures Preferred(s, keys) in keys && Oldest(s, keys) in keys
  {
  }

  lemma BypassBounded(s: State)
    requires Core(s)
    ensures 0 <= s.bypasses <= MAX_PRIORITY_BYPASSES
  {
    hide Conserved, FramesRightful, DeliveriesRightful, FramesSound, AdmissionsSound, CreditSound, Slots, Sequenced,
         JoinedKnown, AbortsKnown, Linked;
  }

  lemma BypassKeeps(s: State, b: int)
    requires Inv(s) && 0 <= b <= MAX_PRIORITY_BYPASSES
    ensures Inv(s.(bypasses := b))
  {
    hide Conserved, FramesRightful, DeliveriesRightful, FramesSound, AdmissionsSound, CreditSound, Slots, Sequenced,
         JoinedKnown, AbortsKnown, Linked;
  }

  // What pump() checks before it admits anything bounds the bytes reported so far.
  lemma CheckIsSound(s: State, now: int)
    requires Core(s) && now == s.budget.lastUpdate
    ensures s.budget.limit >= 0
    ensures !(s.budget.limit > 0 && s.budget.credit < 0.0) ==> CheckSound(CheckOf(s.budget, now))
  {
    hide Conserved, FramesRightful, DeliveriesRightful, FramesSound, AdmissionsSound, Slots, Sequenced,
         JoinedKnown, AbortsKnown, Linked, Allowance;
  }

  lemma PumpKeeps(s: State, now: int)
    requires Inv(s) && now >= s.clock
    ensures Inv(Pump(s, now))
  {
    hide Core, CreditAt;
    if !s.stopped {
      var s1 := Replenish(s, now);
      ReplenishKeeps(s, now);
      CheckIsSound(s1, now);
      if s1.budget.limit > 0 && s1.budget.credit < 0.0 {
        WakeupKeeps(s1, DebtDelay(s1.budget), now);
      } else {
        PumpLoopKeeps(s1, now, CheckOf(s1.budget, now));
      }
    }
  }

  lemma ClockKeeps(s: State, now: int, scheduled: bool)
    requires Inv(s) && now >= s.clock
    ensures Inv(s.(clock := now, scheduled := scheduled)) && Inv(s.(clock := now, timer := None))
  {
    hide Conserved, FramesRightful, DeliveriesRightful, FramesSound, AdmissionsSound, CreditSound, Slots, Sequenced,
         JoinedKnown, AbortsKnown, Linked;
  }

  lemma FetchFrameSound(s: State)
    requires Core(s) && s.stack != []
    ensures FrameSound(s.stack[0])
  {
    hide Linked, Slots, Sequenced, JoinedKnown, AbortsKnown, AdmissionsSound, CreditSound, Conserved;
  }

  lemma ResumeFetchingKeeps(s: State, handle: bool, now: int)
    requires Inv(s) && s.stack != [] && s.stack[0].Fetching? && now >= s.clock
    ensures Inv(ResumeFetching(s, handle, now))
  {
    hide Core;
    var f := s.stack[0];
    PopKeeps(s);
    FetchFrameSound(s);
    ClockKeeps(Pop(s), now, s.scheduled);
    var s1 := Pop(s).(clock := now);
    assert Pop(s).(clock := now, scheduled := s.scheduled) == s1;
    if f.cancelable && f.key in s.jobs && s.jobs[f.key].id == f.id {
      var job := s.jobs[f.key];
      if job.waiters == [] && handle && !job.aborting {
        var next := job.(abort := handle, aborting := true);
        UpdateJobKeeps(s1, f.key, next);
        PushKeeps(WithJob(s1, f.key, next), Aborting(f.check));
      } else {
        var next := job.(abort := handle);
        UpdateJobKeeps(s1, f.key, next);
        PumpLoopKeeps(WithJob(s1, f.key, next), now, f.check);
      }
    } else {
      PushKeeps(s1, Aborting(f.check));
      PumpLoopKeeps(s1, now, f.check);
    }
  }

  lemma ResumeAbortingKeeps(s: State, now: int)
    requires Inv(s) && s.stack != [] && s.stack[0].Aborting? && now >= s.clock
    ensures Inv(ResumeAborting(s, now))
  {
    hide Core;
    PopKeeps(s);
    FetchFrameSound(s);
    ClockKeeps(Pop(s), now, s.scheduled);
    assert Pop(s).(clock := now, scheduled := s.scheduled) == Pop(s).(clock := now);
    PumpLoopKeeps(Pop(s).(clock := now), now, s.stack[0].check);
  }

  // ---- All steps, all runs ----

  lemma PolicyKeeps(s: State, policy: Policy)
    requires Inv(s)
    ensures Inv(s.(policy := policy)) && Inv(Schedule(s.(policy := policy)))
  {
    hide Conserved, FramesRightful, DeliveriesRightful, FramesSound, AdmissionsSound, Slots, Sequenced,
         JoinedKnown, AbortsKnown, Linked, CreditSound;
  }

  // The invariant survives every step, in particular every re-entrant one.
  lemma StepKeeps(s: State, step: Step)
    requires Inv(s) && Enabled(s, step)
    ensures Inv(Apply(s, step))
  {
    hide Core, Inv, Enumerates;
    match step
    case Request(source, index, lane, priority, fetch, hasDone, owner) =>
      AddWaiterKeeps(s, source, index, lane, priority, fetch, hasDone, owner);
    case CancelTicket(ticket) => CancelKeeps(s, ticket);
    case Abandon(ticket) => AbandonKeeps(s, ticket);
    case Retire(owner, order) => RetireKeeps(s, owner, order);
    case SetPriority(ticket, priority) => ReprioritizeKeeps(s, ticket, priority);
    case Observe(x) => PolicyKeeps(s, s.policy.(external := s.policy.external + {x}));
    case Release(x) => PolicyKeeps(s, s.policy.(external := s.policy.external - {x}));
    case MaxActive(n) => PolicyKeeps(s, s.policy.(maxActive := Max(1, n)));
    case LaneMaxActive(l, n) => PolicyKeeps(s, s.policy.(laneLimits := s.policy.laneLimits[l := Max(1, n)]));
    case BandwidthLimit(bytes, now) => BandwidthLimitKeeps(s, bytes, now);
    case Report(lane, bytes, congested, now) => ReportKeeps(s, lane, bytes, congested, now);
    case Complete(key, sequence, bytes, error) => FinishKeeps(s, key, sequence, bytes, error);
    case Stop(order) => ShutdownKeeps(s, order);
    case RunPump(now) => ClockKeeps(s, now, false); PumpKeeps(s.(scheduled := false, clock := now), now);
    case TimerFires(now) => ClockKeeps(s, now, false); TimerKeeps(s.(clock := now, timer := None));
    case Resume(handle, now) => ResumeKeeps(s, handle, now);
  }

  lemma TimerKeeps(s: State)
    requires Inv(s)
    ensures Inv(Schedule(s))
  {
    hide Core;
    ScheduleKeeps(s);
  }

  lemma ResumeKeeps(s: State, handle: bool, now: int)
    requires Inv(s) && s.stack != [] && now >= s.clock
    ensures Inv(ResumeTop(s, handle, now))
  {
    hide Core, ResumeCancelling, ResumeAbandoning, ResumeDelivering, ResumeFetching, ResumeAborting;
    match s.stack[0]
    case Cancelling(_) => ResumeCancellingKeeps(s);
    case Abandoning(_, _, _) => ResumeAbandoningKeeps(s);
    case Delivering(_, _) => ResumeDeliveringKeeps(s);
    case Fetching(_, _, _, _) => ResumeFetchingKeeps(s, handle, now);
    case Aborting(_) => ResumeAbortingKeeps(s, now);
  }

  lemma {:induction false} RunKeeps(states: seq<State>, steps: seq<Step>, i: nat)
    requires IsRun(states, steps) && states[0] == INITIAL && i < |states|
    ensures Inv(states[i])
  {
    hide Inv, Apply, Enabled;
    if i == 0 {
      Initially();
    } else {
      RunKeeps(states, steps, i - 1);
      StepKeeps(states[i - 1], steps[i - 1]);
    }
  }
}
