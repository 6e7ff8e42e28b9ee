// Two promises the scheduler does not keep when a callback re-enters it, each with the exact
// condition under which it does, and runs that show the failures are reachable.
module SchedulerLimits {
  import opened Basics
  import opened SchedulerState
  import opened SchedulerInvariant
  import opened SchedulerSteps
  import opened SchedulerFairness
  import opened SchedulerAttempts
  import opened SchedulerTheorems
  import opened SchedulerWakeup

  // ---- Small runs, step by step ----

  lemma SoleCandidate(s: State, now: int, check: Check, key: Key)
    requires s.active + |s.policy.external| < s.policy.maxActive
    requires Eligible(s, key, now) && (forall k :: k in s.jobs && Waiting(s, k) ==> k == key)
    ensures PumpLoop(s, now, check) == Admit(s.(bypasses := 0), key, check)
  {
    assert EligibleKeys(s, now) == {key};
    assert BlockedKeys(s, now) == {};
    OldestIs(s, {key});
    PreferredIsMember(s, {key});
  }

  lemma NoCandidate(s: State, now: int, check: Check)
    requires forall k :: !Waiting(s, k)
    ensures PumpLoop(s, now, check) == s
  {
    assert EligibleKeys(s, now) == {} && BlockedKeys(s, now) == {};
  }

  ghost predicate Reachable(s: State) {
    exists states, steps :: IsRun(states, steps) && states[0] == INITIAL && states[|steps|] == s
  }

  lemma ReachableStep(s: State, step: Step)
    requires Reachable(s) && Enabled(s, step)
    ensures Reachable(Apply(s, step))
  {
    hide Enabled, Apply;
    var states, steps :| IsRun(states, steps) && states[0] == INITIAL && states[|steps|] == s;
    var longer, more := states + [Apply(s, step)], steps + [step];
    assert IsRun(longer, more) && longer[0] == INITIAL && longer[|more|] == Apply(s, step);
  }

  lemma ReachableInitially()
    ensures Reachable(INITIAL)
  {
    assert IsRun([INITIAL], []);
  }

  // ---- abandonStopped ----

  // abandonStopped() releases a slot exactly when, at the end, the job it started from is
  // registered, active and without waiters. It does not look at the sequence.
  ghost predicate ReleasesSlot(s: State) {
    && s.stack != [] && s.stack[0].Abandoning?
    && s.stack[0].key in s.jobs
    && var job := s.jobs[s.stack[0].key];
       job.id == s.stack[0].id && job.waiters == [] && job.active
  }

  // In the run, abandonStopped(ticket) is called in state i, and in state j it is about to give
  // back a slot: that of the attempt under the ticket's key at that time.
  ghost predicate AbandonCall(states: seq<State>, steps: seq<Step>, i: nat, j: nat, ticket: nat) {
    && IsRun(states, steps) && states[0] == INITIAL && i < j < |states|
    && steps[i] == Abandon(ticket)
    && ticket in states[i].ticketKeys && states[i].ticketKeys[ticket] in states[i].jobs
    && var key := states[i].ticketKeys[ticket];
       && ReleasesSlot(states[j])
       && states[j].stack[0] == Abandoning(key, states[i].jobs[key].id, states[i].jobs[key].sequence)
  }

  ghost predicate InFlight(s: State, sequence: nat) {
    exists k :: k in s.jobs && s.jobs[k].active && s.jobs[k].sequence == sequence
  }

  // The attempt whose slot is given back was in flight when the call was made if and only if the
  // job was active then and has not been restarted while the callbacks ran.
  lemma AbandonReleasesItsAttempt(states: seq<State>, steps: seq<Step>, i: nat, j: nat, ticket: nat)
    requires AbandonCall(states, steps, i, j, ticket)
    ensures var key := states[i].ticketKeys[ticket];
      var released := states[j].jobs[key].sequence;
      var r := ResumeAbandoning(states[j]);
      && r.active == states[j].active - 1 && r.jobs == states[j].jobs - {key} && !Current(r, released)
      && (InFlight(states[i], released) <==>
            states[i].jobs[key].active && !RestartedBetween(states, steps, i, j, key))
  {
    hide Inv, Enabled, Apply, RestartedBetween;
    var key := states[i].ticketKeys[ticket];
    RunKeeps(states, steps, i);
    RunKeeps(states, steps, j);
    ObjectIsNumbered(states, steps, i, key);
    ObjectOverRun(states, steps, i, j, key);
    FlightIsUnderKey(states[i], key, states[j].jobs[key].sequence);
    ReleasedIsOver(states[j]);
  }

  lemma FlightIsUnderKey(s: State, key: Key, sequence: nat)
    requires Inv(s) && key in s.jobs
    ensures sequence == s.jobs[key].sequence ==> (InFlight(s, sequence) <==> s.jobs[key].active)
    ensures sequence > s.nextSequence ==> !InFlight(s, sequence)
  {
    hide FramesRightful, DeliveriesRightful, FramesSound, AdmissionsSound, CreditSound, Slots,
         JoinedKnown, AbortsKnown, Conserved, Linked, Admitted;
  }

  lemma ReleasedIsOver(s: State)
    requires Inv(s) && ReleasesSlot(s)
    ensures var key := s.stack[0].key;
      var r := ResumeAbandoning(s);
      r.active == s.active - 1 && r.jobs == s.jobs - {key} && !Current(r, s.jobs[key].sequence)
  {
    hide FramesRightful, DeliveriesRightful, FramesSound, AdmissionsSound, CreditSound, Slots,
         JoinedKnown, AbortsKnown, Conserved, Linked, Admitted;
  }

  // A state with one job, nothing but default settings, at time 0.
  function One(key: Key, job: Job, tickets: map<nat, Key>, issued: nat, attempts: nat, scheduled: bool,
               stack: seq<Frame>, log: Log): (s: State)
    ensures s.scheduled == scheduled && s.clock == 0 && s.stack == stack
  {
    State(map[key := job], tickets, if job.active then 1 else 0, if job.active then map[job.lane := 1] else map[], 0,
          issued, attempts, 1, INITIAL.policy, INITIAL.budget, None, scheduled, false, 0, stack, {}, log)
  }

  const START := Check(0, 0, 0)

  lemma PumpOne(key: Key, job: Job, tickets: map<nat, Key>, issued: nat, attempts: nat, stack: seq<Frame>, log: Log)
    requires !job.active && job.waiters != []
    ensures var s := One(key, job, tickets, issued, attempts, true, stack, log);
      Apply(s, RunPump(0)) == One(key, job.(active := true), tickets, issued, attempts, false,
                                  [Fetching(key, job.id, job.kind.Cancelable?, START)] + stack,
                                  log.(admitted := log.admitted + [Admission(key, job.sequence, START)]))
  {
    hide PumpLoop, Pump, Admit, Apply, Eligible, Waiting, Enabled, Replenish, CreditAt, CheckOf;
    var s := One(key, job, tickets, issued, attempts, false, stack, log);
    OneFacts(key, job, tickets, issued, attempts, stack, log);
    ApplyPump(One(key, job, tickets, issued, attempts, true, stack, log), 0);
    PumpWithCredit(s);
    OneIsEligible(key, job, tickets, issued, attempts, stack, log);
    SoleCandidate(s, 0, START, key);
    assert s.(bypasses := 0) == s;
    AdmitOne(key, job, tickets, issued, attempts, stack, log);
  }

  lemma OneFacts(key: Key, job: Job, tickets: map<nat, Key>, issued: nat, attempts: nat, stack: seq<Frame>, log: Log)
    ensures Enabled(One(key, job, tickets, issued, attempts, true, stack, log), RunPump(0))
    ensures CheckOf(One(key, job, tickets, issued, attempts, false, stack, log).budget, 0) == START
  {
    hide Enabled, CheckOf;
    PumpEnabled(One(key, job, tickets, issued, attempts, true, stack, log));
    CheckIs(One(key, job, tickets, issued, attempts, false, stack, log).budget, 0);
  }

  lemma OneIsEligible(key: Key, job: Job, tickets: map<nat, Key>, issued: nat, attempts: nat, stack: seq<Frame>, log: Log)
    requires !job.active && job.waiters != []
    ensures var s := One(key, job, tickets, issued, attempts, false, stack, log);
      Eligible(s, key, 0) && forall k :: k in s.jobs && Waiting(s, k) ==> k == key
  {
  }

  lemma AdmitOne(key: Key, job: Job, tickets: map<nat, Key>, issued: nat, attempts: nat, stack: seq<Frame>, log: Log)
    requires !job.active
    ensures Admit(One(key, job, tickets, issued, attempts, false, stack, log), key, START)
            == One(key, job.(active := true), tickets, issued, attempts, false,
                   [Fetching(key, job.id, job.kind.Cancelable?, START)] + stack,
                   log.(admitted := log.admitted + [Admission(key, job.sequence, START)]))
  {
    assert map[key := job][key := job.(active := true)] == map[key := job.(active := true)];
    assert map[][job.lane := 1] == map[job.lane := 1];
  }

  lemma FetchedOne(key: Key, job: Job, tickets: map<nat, Key>, issued: nat, attempts: nat, scheduled: bool,
                   stack: seq<Frame>, log: Log)
    requires job.active && job.waiters != [] && stack != [] && stack[0] == Fetching(key, job.id, true, START)
    ensures Apply(One(key, job, tickets, issued, attempts, scheduled, stack, log), Resume(true, 0))
            == One(key, job.(abort := true), tickets, issued, attempts, scheduled, stack[1..], log)
  {
    var r := One(key, job.(abort := true), tickets, issued, attempts, scheduled, stack[1..], log);
    NoCandidate(r, 0, START);
    assert map[key := job][key := job.(abort := true)] == r.jobs;
  }

  // The only waiter leaves a running, abortable fetch.
  lemma LeaveOne(key: Key, job: Job, t: nat, p: Priority, issued: nat, attempts: nat, scheduled: bool,
                 stack: seq<Frame>, log: Log)
    requires job.active && job.abort && !job.aborting && job.waiters == [Waiter(t, p)]
    ensures Apply(One(key, job, map[t := key], issued, attempts, scheduled, stack, log), CancelTicket(t))
            == One(key, job.(waiters := [], aborting := true), map[], issued, attempts, scheduled,
                   [Cancelling(Some(t))] + stack, log)
  {
    assert Tickets(job.waiters)[0] == t;
    assert map[t := key] - {t} == map[];
    assert map[key := job][key := job.(waiters := [], aborting := true)] == map[key := job.(waiters := [], aborting := true)];
  }

  lemma AbandonOne(key: Key, job: Job, t: nat, p: Priority, issued: nat, attempts: nat, scheduled: bool, log: Log)
    requires job.active && job.abort && !job.aborting && job.waiters == [Waiter(t, p)]
    ensures Apply(One(key, job, map[t := key], issued, attempts, scheduled, [], log), Abandon(t))
            == One(key, job.(waiters := [], aborting := true), map[], issued, attempts, scheduled,
                   [Cancelling(Some(t)), Abandoning(key, job.id, job.sequence)], log)
  {
    var f := Abandoning(key, job.id, job.sequence);
    LeaveOne(key, job, t, p, issued, attempts, scheduled, [f], log);
    assert Push(One(key, job, map[t := key], issued, attempts, scheduled, [], log), f)
           == One(key, job, map[t := key], issued, attempts, scheduled, [f], log);
  }

  lemma FirstRequest(kind: FetchKind)
    ensures var job := Job(0, "l", 1, kind, 1, false, false, [Waiter(1, 0)], false);
      var key := MakeKey("s", 0);
      Apply(INITIAL, Request("s", 0, "l", 0, Some(kind), true, 1))
      == One(key, job, map[1 := key], 1, 1, true, [], Log([], [], map[]))
  {
    hide MakeKey;
    var key := MakeKey("s", 0);
    var job := Job(0, "l", 1, kind, 1, false, false, [], false);
    var s := NewJob(INITIAL, key, "l", kind, 1);
    assert s.jobs == map[key := job];
    assert [] + [Waiter(1, 0)] == [Waiter(1, 0)];
    var r := Join(s, key, 0);
    assert r.jobs == map[key := job.(waiters := [Waiter(1, 0)])];
    assert r.ticketKeys == map[1 := key];
  }

  lemma SecondRequest(job: Job, scheduled: bool, stack: seq<Frame>, log: Log)
    requires job.lane == "l" && job.aborting && job.waiters == [] && job.sequence == 1
    ensures var key := MakeKey("s", 0);
      Apply(One(key, job, map[], 1, 1, scheduled, stack, log), Request("s", 0, "l", 0, Some(Cancelable), true, 1))
      == One(key, job.(waiters := [Waiter(2, 0)]), map[2 := key], 2, 1, true, stack,
             log.(joinedAborting := log.joinedAborting[2 := 1]))
  {
    hide MakeKey;
    var key := MakeKey("s", 0);
    var s := One(key, job, map[], 1, 1, scheduled, stack, log);
    assert [] + [Waiter(2, 0)] == [Waiter(2, 0)];
    assert Join(s, key, 0).jobs == map[key := job.(waiters := [Waiter(2, 0)])];
    assert Join(s, key, 0).ticketKeys == map[2 := key];
  }

  lemma FailOne(key: Key, job: Job, tickets: map<nat, Key>, issued: nat, stack: seq<Frame>, log: Log)
    requires job.active && job.aborting && job.waiters != [] && job.sequence == 1
    ensures Apply(One(key, job, tickets, issued, 1, true, stack, log), Complete(key, 1, [], "aborted"))
            == One(key, job.(active := false, aborting := false, abort := false, sequence := 2),
                   tickets, issued, 2, true, stack, log)
  {
    var next := job.(active := false, aborting := false, abort := false, sequence := 2);
    assert map[key := job][key := next] == map[key := next];
    assert map[job.lane := 1] - {job.lane} == map[];
  }

  lemma DeliverCancelled(key: Key, job: Job, t: nat, issued: nat, attempts: nat, scheduled: bool,
                         stack: seq<Frame>, log: Log)
    requires stack != [] && stack[0] == Cancelling(Some(t))
    ensures Apply(One(key, job, map[], issued, attempts, scheduled, stack, log), Resume(true, 0))
            == One(key, job, map[], issued, attempts, true, stack[1..],
                   log.(delivered := log.delivered + [Delivery(t, Cancelled)]))
  {
  }

  // Four more steps of a run in which nothing is in flight when abandonStopped() is called.
  lemma JoinPlain(job: Job, log: Log)
    requires job == Job(0, "l", 1, Plain, 1, false, false, [Waiter(1, 0)], false)
    ensures var key := MakeKey("s", 0);
      Apply(One(key, job, map[1 := key], 1, 1, true, [], log), Request("s", 0, "l", 0, Some(Plain), true, 1))
      == One(key, job.(waiters := [Waiter(1, 0), Waiter(2, 0)]), map[1 := key, 2 := key], 2, 1, true, [], log)
  {
    hide MakeKey;
    var key := MakeKey("s", 0);
    var s := One(key, job, map[1 := key], 1, 1, true, [], log);
    assert [Waiter(1, 0)] + [Waiter(2, 0)] == [Waiter(1, 0), Waiter(2, 0)];
    assert Join(s, key, 0).jobs == map[key := job.(waiters := [Waiter(1, 0), Waiter(2, 0)])];
    assert Join(s, key, 0).ticketKeys == map[1 := key, 2 := key];
  }

  lemma AbandonPlain(key: Key, job: Job, log: Log)
    requires !job.active && job.waiters == [Waiter(1, 0), Waiter(2, 0)]
    ensures Apply(One(key, job, map[1 := key, 2 := key], 2, 1, true, [], log), Abandon(1))
            == One(key, job.(waiters := [Waiter(2, 0)]), map[2 := key], 2, 1, true,
                   [Abandoning(key, job.id, job.sequence)], log.(delivered := log.delivered + [Delivery(1, Cancelled)]))
  {
    assert Tickets(job.waiters)[0] == 1;
    assert job.waiters[1..] == [Waiter(2, 0)];
    assert map[1 := key, 2 := key] - {1} == map[2 := key];
    assert map[key := job][key := job.(waiters := [Waiter(2, 0)])] == map[key := job.(waiters := [Waiter(2, 0)])];
  }

  lemma FetchedPlain(key: Key, job: Job, tickets: map<nat, Key>, issued: nat, attempts: nat, scheduled: bool,
                     stack: seq<Frame>, log: Log)
    requires job.active && stack != [] && stack[0] == Fetching(key, job.id, false, START)
    ensures Apply(One(key, job, tickets, issued, attempts, scheduled, stack, log), Resume(false, 0))
            == One(key, job, tickets, issued, attempts, scheduled, stack[1..], log)
  {
    NoCandidate(One(key, job, tickets, issued, attempts, scheduled, stack[1..], log), 0, START);
  }

  lemma LeavePlain(key: Key, job: Job, stack: seq<Frame>, log: Log)
    requires job.active && !job.abort && !job.aborting && job.waiters == [Waiter(2, 0)]
    ensures Apply(One(key, job, map[2 := key], 2, 1, false, stack, log), CancelTicket(2))
            == One(key, job.(waiters := []), map[], 2, 1, true, stack,
                   log.(delivered := log.delivered + [Delivery(2, Cancelled)]))
  {
    assert Tickets(job.waiters)[0] == 2;
    assert WithoutTicket(job.waiters, 2) == [];
    assert map[2 := key] - {2} == map[];
    assert map[key := job][key := job.(waiters := [])] == map[key := job.(waiters := [])];
  }

  // Every other step of that run is enabled in any state.
  lemma CallsEnabled(s: State)
    ensures Enabled(s, Request("s", 0, "l", 0, Some(Plain), true, 1)) && Enabled(s, Abandon(1)) && Enabled(s, CancelTicket(2))
    ensures s.clock == 0 && s.scheduled ==> Enabled(s, RunPump(0))
    ensures s.clock == 0 && s.stack != [] ==> Enabled(s, Resume(false, 0))
  {
  }

  ghost predicate Leads(s: State, step: Step, r: State) {
    Enabled(s, step) && r == Apply(s, step)
  }

  lemma SixSteps(states: seq<State>, steps: seq<Step>)
    requires |states| == 7 && |steps| == 6
    requires Leads(states[0], steps[0], states[1]) && Leads(states[1], steps[1], states[2])
    requires Leads(states[2], steps[2], states[3]) && Leads(states[3], steps[3], states[4])
    requires Leads(states[4], steps[4], states[5]) && Leads(states[5], steps[5], states[6])
    ensures IsRun(states, steps)
  {
    hide Enabled, Apply;
  }

  lemma OneCall(states: seq<State>, steps: seq<Step>, key: Key, before: Job, after: Job, log0: Log, log1: Log)
    requires IsRun(states, steps) && |steps| == 6 && states[0] == INITIAL && steps[2] == Abandon(1)
    requires forall m :: 0 <= m < 6 ==> !steps[m].Complete?
    requires states[2] == One(key, before, map[1 := key, 2 := key], 2, 1, true, [], log0)
    requires states[6] == One(key, after, map[], 2, 1, true, [Abandoning(key, 0, 1)], log1)
    requires before.id == after.id == 0 && before.sequence == after.sequence == 1
    requires !before.active && after.active && after.waiters == []
    ensures AbandonCall(states, steps, 2, 6, 1) && !RestartedBetween(states, steps, 2, 6, key)
    ensures states[2].ticketKeys[1] == key && !InFlight(states[2], states[6].jobs[key].sequence)
  {
    hide Apply, Enabled;
  }

  // Two consumers wait, nothing is in flight, and the first calls abandonStopped(). Inside its
  // completion the job is admitted and the second consumer leaves: the slot given back is that of
  // the transfer that has just been started, although the job was never restarted.
  lemma AbandonMayReleaseLaterAttempt()
    ensures exists states: seq<State>, steps, i: nat, j: nat, ticket: nat ::
              && AbandonCall(states, steps, i, j, ticket)
              && !RestartedBetween(states, steps, i, j, states[i].ticketKeys[ticket])
              && !InFlight(states[i], states[j].jobs[states[i].ticketKeys[ticket]].sequence)
  {
    hide MakeKey, AbandonCall, RestartedBetween, InFlight;
    var states, steps := LaterRun();
  }

  lemma LaterRun() returns (states: seq<State>, steps: seq<Step>)
    ensures var key := MakeKey("s", 0);
      && AbandonCall(states, steps, 2, 6, 1) && !RestartedBetween(states, steps, 2, 6, key)
      && states[2].ticketKeys[1] == key && !InFlight(states[2], states[6].jobs[key].sequence)
  {
    hide MakeKey, Apply, One, Enabled, IsRun, AbandonCall, RestartedBetween, InFlight;
    var key := MakeKey("s", 0);
    var request := Request("s", 0, "l", 0, Some(Plain), true, 1);
    var job1 := Job(0, "l", 1, Plain, 1, false, false, [Waiter(1, 0)], false);
    var job2 := job1.(waiters := [Waiter(1, 0), Waiter(2, 0)]);
    var job3 := job1.(waiters := [Waiter(2, 0)]);
    var job4 := job3.(active := true);
    var abandoning := Abandoning(key, 0, 1);
    var fetching := Fetching(key, 0, false, START);
    var log0 := Log([], [], map[]);
    var log1 := log0.(delivered := log0.delivered + [Delivery(1, Cancelled)]);
    var log2 := log1.(admitted := log1.admitted + [Admission(key, 1, START)]);
    var log3 := log2.(delivered := log2.delivered + [Delivery(2, Cancelled)]);
    states := [INITIAL,
      One(key, job1, map[1 := key], 1, 1, true, [], log0),
      One(key, job2, map[1 := key, 2 := key], 2, 1, true, [], log0),
      One(key, job3, map[2 := key], 2, 1, true, [abandoning], log1),
      One(key, job4, map[2 := key], 2, 1, false, [fetching] + [abandoning], log2),
      One(key, job4, map[2 := key], 2, 1, false, [abandoning], log2),
      One(key, job4.(waiters := []), map[], 2, 1, true, [abandoning], log3)];
    steps := [request, request, Abandon(1), RunPump(0), Resume(false, 0), CancelTicket(2)];
    FirstRequest(Plain);
    JoinPlain(job1, log0);
    AbandonPlain(key, job2, log0);
    PumpOne(key, job3, map[2 := key], 2, 1, [abandoning], log1);
    FetchedPlain(key, job4, map[2 := key], 2, 1, false, [fetching] + [abandoning], log2);
    assert ([fetching] + [abandoning])[1..] == [abandoning];
    LeavePlain(key, job4, [abandoning], log2);
    CallsEnabled(states[0]);
    CallsEnabled(states[1]);
    CallsEnabled(states[2]);
    CallsEnabled(states[3]);
    CallsEnabled(states[4]);
    CallsEnabled(states[5]);
    SixSteps(states, steps);
    OneCall(states, steps, key, job2, job4.(waiters := []), log0, log3);
  }

  // A restart in between is possible: inside abort() another consumer joins, the aborted attempt
  // completes and is re-admitted, and the new consumer leaves again. The slot released is then
  // that of the second attempt, whose transport is still running.
  lemma AbandonMayReleaseAnotherAttempt()
    ensures exists s :: Reachable(s) && ReleasesSlot(s) && s.jobs[s.stack[0].key].sequence != s.stack[0].sequence
  {
    hide MakeKey, Reachable, Apply, One;
    var key := MakeKey("s", 0);
    var job1 := Job(0, "l", 1, Cancelable, 1, false, false, [Waiter(1, 0)], false);
    var abandoning := Abandoning(key, 0, 1);
    var log0 := Log([], [], map[]);

    ReachableInitially();
    FirstRequest(Cancelable);
    ReachableStep(INITIAL, Request("s", 0, "l", 0, Some(Cancelable), true, 1));
    var s := Visit(One(key, job1, map[1 := key], 1, 1, true, [], log0), RunPump(0));
    PumpOne(key, job1, map[1 := key], 1, 1, [], log0);
    var log1 := log0.(admitted := [Admission(key, 1, START)]);
    assert log0.admitted + [Admission(key, 1, START)] == log1.admitted;

    var job2 := job1.(active := true);
    var fetching := Fetching(key, 0, true, START);
    assert [fetching] + [] == [fetching];
    FetchedOne(key, job2, map[1 := key], 1, 1, false, [fetching], log1);
    s := Visit(One(key, job2, map[1 := key], 1, 1, false, [fetching], log1), Resume(true, 0));

    var job3 := job2.(abort := true);
    AbandonOne(key, job3, 1, 0, 1, 1, false, log1);
    s := Visit(One(key, job3, map[1 := key], 1, 1, false, [], log1), Abandon(1));

    var job4 := job3.(waiters := [], aborting := true);
    var inAbort := [Cancelling(Some(1)), abandoning];
    SecondRequest(job4, false, inAbort, log1);
    s := Visit(One(key, job4, map[], 1, 1, false, inAbort, log1), Request("s", 0, "l", 0, Some(Cancelable), true, 1));

    var job5 := job4.(waiters := [Waiter(2, 0)]);
    var log2 := log1.(joinedAborting := log1.joinedAborting[2 := 1]);
    FailOne(key, job5, map[2 := key], 2, inAbort, log2);
    s := Visit(One(key, job5, map[2 := key], 2, 1, true, inAbort, log2), Complete(key, 1, [], "aborted"));

    var job6 := job5.(active := false, aborting := false, abort := false, sequence := 2);
    PumpOne(key, job6, map[2 := key], 2, 2, inAbort, log2);
    s := Visit(One(key, job6, map[2 := key], 2, 2, true, inAbort, log2), RunPump(0));

    var job7 := job6.(active := true);
    var log3 := log2.(admitted := log2.admitted + [Admission(key, 2, START)]);
    FetchedOne(key, job7, map[2 := key], 2, 2, false, [fetching] + inAbort, log3);
    s := Visit(One(key, job7, map[2 := key], 2, 2, false, [fetching] + inAbort, log3), Resume(true, 0));
    assert ([fetching] + inAbort)[1..] == inAbort;

    var job8 := job7.(abort := true);
    LeaveOne(key, job8, 2, 0, 2, 2, false, inAbort, log3);
    s := Visit(One(key, job8, map[2 := key], 2, 2, false, inAbort, log3), CancelTicket(2));

    var job9 := job8.(waiters := [], aborting := true);
    var inBoth := [Cancelling(Some(2))] + inAbort;
    DeliverCancelled(key, job9, 2, 2, 2, false, inBoth, log3);
    s := Visit(One(key, job9, map[], 2, 2, false, inBoth, log3), Resume(true, 0));
    assert inBoth[1..] == inAbort;

    var log4 := log3.(delivered := log3.delivered + [Delivery(2, Cancelled)]);
    DeliverCancelled(key, job9, 1, 2, 2, true, inAbort, log4);
    s := Visit(One(key, job9, map[], 2, 2, true, inAbort, log4), Resume(true, 0));
    assert inAbort[1..] == [abandoning];
    OneReleases(key, job9, log4.(delivered := log4.delivered + [Delivery(1, Cancelled)]));
  }

  lemma Visit(s: State, step: Step) returns (r: State)
    requires Reachable(s) && Enabled(s, step)
    ensures r == Apply(s, step) && Reachable(r)
  {
    ReachableStep(s, step);
    r := Apply(s, step);
  }

  lemma OneReleases(key: Key, job: Job, log: Log)
    requires job.active && job.waiters == [] && job.id == 0
    ensures var s := One(key, job, map[], 2, 2, true, [Abandoning(key, 0, 1)], log);
      ReleasesSlot(s) && s.jobs[s.stack[0].key].sequence == job.sequence && s.stack[0].sequence == 1
  {
  }

  // ---- The budget inside one pump ----

  // The bound of the token bucket, read at the moment of an admission.
  predicate WithinAllowance(b: Budget, now: int) {
    b.limit > 0 ==> b.epochBytes as real <= Allowance(b.limit, now - b.epochStart)
  }

  predicate InDebt(b: Budget, now: int) {
    b.limit > 0 && CreditAt(b, now) < 0.0
  }

  // In every state a credit that is not negative means that the bound is kept.
  lemma CreditMeansAllowance(s: State, now: int)
    requires Inv(s) && now >= s.clock
    ensures InDebt(s.budget, now) || WithinAllowance(s.budget, now)
  {
    hide Sequenced, Slots, AdmissionsSound, FramesSound, FramesRightful, DeliveriesRightful,
         JoinedKnown, AbortsKnown, Conserved, Linked, Occupied, CreditAt, Allowance;
    ReplenishSound(s.budget, now);
  }

  predicate SlotFree(s: State) {
    s.active + |s.policy.external| < s.policy.maxActive
  }

  // The provider's fetch has returned an abort handle for a job that nobody wants any more:
  // pump() calls it before it goes on.
  ghost predicate AbortsFirst(s: State, handle: bool)
    requires s.stack != []
  {
    var f := s.stack[0];
    && f.Fetching? && f.cancelable && handle
    && if f.key in s.jobs && s.jobs[f.key].id == f.id
       then s.jobs[f.key].waiters == [] && !s.jobs[f.key].aborting
       else exists job :: job in s.detached && job.id == f.id && job.waiters == [] && !job.aborting
  }

  // The state in which the admission loop goes on.
  function LoopState(s: State, handle: bool, now: int): State
    requires s.stack != []
  {
    var f := s.stack[0];
    var s1 := Pop(s).(clock := now);
    if f.Fetching? && f.cancelable && f.key in s.jobs && s.jobs[f.key].id == f.id
    then WithJob(s1, f.key, s.jobs[f.key].(abort := handle)) else s1
  }

  lemma LoopGoesOn(s: State, handle: bool, now: int)
    requires s.stack != [] && PumpFrame(s.stack[0])
    ensures var r := ResumeTop(s, handle, now);
      if AbortsFirst(s, handle) then r.log.admitted == s.log.admitted && r.budget == s.budget
      else r == PumpLoop(LoopState(s, handle, now), now, s.stack[0].check)
  {
    hide PumpLoop;
  }

  lemma LoopStateIsSame(s: State, handle: bool, now: int)
    requires Inv(s) && s.stack != [] && PumpFrame(s.stack[0]) && now >= s.clock
    ensures var mid := LoopState(s, handle, now);
      && SameView(s, mid) && Inv(mid) && mid.clock == now && mid.budget == s.budget && mid.stopped == s.stopped
  {
    hide Core, SameView;
    var f := s.stack[0];
    LoopStateLooksSame(s, handle, now);
    PopKeeps(s);
    ClockKeeps(Pop(s), now, s.scheduled);
    var s1 := Pop(s).(clock := now);
    assert Pop(s).(clock := now, scheduled := s.scheduled) == s1;
    if f.Fetching? && f.cancelable && f.key in s.jobs && s.jobs[f.key].id == f.id {
      UpdateJobKeeps(s1, f.key, s.jobs[f.key].(abort := handle));
    }
  }

  // The same attempts have been admitted, with the same effect on jobs, slots and bypasses.
  ghost predicate SameAdmissions(a: State, b: State) {
    && a.jobs == b.jobs && a.active == b.active && a.laneActive == b.laneActive && a.bypasses == b.bypasses
    && |a.log.admitted| == |b.log.admitted|
    && forall i :: 0 <= i < |a.log.admitted| ==>
         a.log.admitted[i].key == b.log.admitted[i].key && a.log.admitted[i].sequence == b.log.admitted[i].sequence
  }

  lemma LoopStateLooksSame(s: State, handle: bool, now: int)
    requires s.stack != []
    ensures SameView(s, LoopState(s, handle, now))
  {
    hide SameView;
    var mid := LoopState(s, handle, now);
    HandleLooksSame(s, mid, s.stack[0], handle);
  }

  lemma HandleLooksSame(s: State, r: State, f: Frame, handle: bool)
    requires r.jobs == s.jobs || (f.Fetching? && f.key in s.jobs && r.jobs == s.jobs[f.key := s.jobs[f.key].(abort := handle)])
    requires r.laneActive == s.laneActive && r.active == s.active && r.policy == s.policy && r.bypasses == s.bypasses
    requires r.nextSequence == s.nextSequence && r.log == s.log
    ensures SameView(s, r)
  {
  }

  ghost predicate SomeEligible(s: State, now: int) {
    exists k :: Eligible(s, k, now)
  }

  // A round admits a job exactly if a slot is free and a job is eligible. It does not look at
  // the budget.
  lemma LoopAdmits(s: State, now: int, check: Check)
    ensures var r := PumpLoop(s, now, check);
      && (r.log.admitted != s.log.admitted <==> SlotFree(s) && SomeEligible(s, now))
      && (|r.log.admitted| == |s.log.admitted| <==> r.log.admitted == s.log.admitted)
    ensures var r := PumpLoop(s, now, check);
      r.budget == s.budget && (r.log.admitted == s.log.admitted ==> SameAdmissions(r, s))
  {
    hide IsOldest, IsPreferred, IsFirstWake, Eligible;
    var keys := EligibleKeys(s, now);
    if keys != {} {
      PreferredIsMember(s, keys);
      assert Eligible(s, Preferred(s, keys), now);
    }
    forall k | Eligible(s, k, now) ensures k in keys {
      EligibleInJobs(s, k, now);
    }
  }

  lemma EligibleInJobs(s: State, key: Key, now: int)
    requires Eligible(s, key, now)
    ensures key in s.jobs
  {
  }

  lemma SameEligible(s: State, mid: State, now: int)
    requires SameView(s, mid)
    ensures SomeEligible(s, now) <==> SomeEligible(mid, now)
  {
    hide SameView, Eligible;
    forall k ensures Eligible(s, k, now) <==> Eligible(mid, k, now) {
      SameViewSame(s, mid, k, 0, now);
    }
  }

  // pump() checks the credit only when it starts: once a provider's fetch or abort has returned,
  // the loop admits a job, in debt or not, exactly if a slot is free and a job is eligible.
  lemma DebtDoesNotStopPump(s: State, handle: bool, now: int)
    requires Inv(s) && s.stack != [] && PumpFrame(s.stack[0]) && now >= s.clock
    ensures var r := Apply(s, Resume(handle, now));
      && (r.log.admitted != s.log.admitted <==> !AbortsFirst(s, handle) && SlotFree(s) && SomeEligible(s, now))
      && r.budget == s.budget
  {
    hide Inv, PumpLoop, LoopState, AbortsFirst, SomeEligible, ResumeTop;
    LoopGoesOn(s, handle, now);
    LoopStateIsSame(s, handle, now);
    var mid := LoopState(s, handle, now);
    LoopAdmits(mid, now, s.stack[0].check);
    SameEligible(s, mid, now);
  }

  lemma PumpLoopIgnoresBudget(s: State, b: Budget, now: int, c: Check, d: Check)
    requires Inv(s)
    ensures SameAdmissions(PumpLoop(s, now, c), PumpLoop(s.(budget := b), now, d))
    ensures PumpLoop(s, now, c).timer == PumpLoop(s.(budget := b), now, d).timer
  {
    hide Inv, IsOldest, IsPreferred, IsFirstWake, EligibleKeys, BlockedKeys, Admit, SameAdmissions,
         ScheduleWakeup;
    SameChoices(s, b, now);
    if FirstWake(s, now).Some? { SameTimer(s, b, FirstWake(s, now), now); }
    var keys := EligibleKeys(s, now);
    var timer := match FirstWake(s, now) case Some(w) => ScheduleWakeup(s, w, now).timer case None => s.timer;
    SameAdmit(s, b, "", c, d, 0, s.timer);
    SameAdmit(s, b, "", c, d, 0, timer);
    assert s.(timer := s.timer) == s && s.(timer := s.timer, budget := b) == s.(budget := b);
    if keys != {} {
      PreferredIsMember(s, keys);
      EligibleIsJob(s, now);
      var oldest, preferred := Oldest(s, keys), Preferred(s, keys);
      var chosen := if preferred != oldest && s.bypasses >= MAX_PRIORITY_BYPASSES then oldest else preferred;
      SameAdmit(s, b, chosen, c, d, if chosen == oldest then 0 else s.bypasses + 1, timer);
    }
  }

  lemma SameTimer(s: State, b: Budget, wake: Option<int>, now: int)
    requires wake.Some?
    ensures var r := ScheduleWakeup(s, wake.value, now);
      r == s.(timer := r.timer) && ScheduleWakeup(s.(budget := b), wake.value, now) == s.(timer := r.timer, budget := b)
  {
  }

  lemma SameAdmit(s: State, b: Budget, key: Key, c: Check, d: Check, bypasses: int, timer: Option<int>)
    ensures SameAdmissions(s.(timer := timer), s.(timer := timer, budget := b))
    ensures key in s.jobs ==>
      var x := Admit(s.(timer := timer, bypasses := bypasses), key, c);
      var y := Admit(s.(budget := b).(timer := timer, bypasses := bypasses), key, d);
      SameAdmissions(x, y) && x.timer == y.timer == timer
  {
  }

  lemma SameChoices(s: State, b: Budget, now: int)
    requires Inv(s)
    ensures var t := s.(budget := b);
      var keys := EligibleKeys(s, now);
      && EligibleKeys(t, now) == keys && FirstWake(t, now) == FirstWake(s, now)
      && (keys != {} ==> Oldest(t, keys) == Oldest(s, keys) && Preferred(t, keys) == Preferred(s, keys))
  {
    hide Inv, EligibleKeys, BlockedKeys;
    var t := s.(budget := b);
    var keys := EligibleKeys(s, now);
    SameKeys(s, b, now);
    assert IsFirstWake(s, now, FirstWake(t, now));
    FirstWakeUnique(s, now, FirstWake(t, now), FirstWake(s, now));
    if keys != {} {
      assert IsOldest(s, keys, Oldest(t, keys)) && IsPreferred(s, keys, Preferred(t, keys));
      OldestUnique(s, keys, Oldest(t, keys), Oldest(s, keys));
      PreferredUnique(s, keys, Preferred(t, keys), Preferred(s, keys));
    }
  }

  lemma SameKeys(s: State, b: Budget, now: int)
    ensures var t := s.(budget := b);
      EligibleKeys(t, now) == EligibleKeys(s, now) <= s.jobs.Keys && BlockedKeys(t, now) == BlockedKeys(s, now)
  {
    var t := s.(budget := b);
    assert forall k :: Eligible(t, k, now) <==> Eligible(s, k, now);
    assert forall k :: Blocked(t, k, now) <==> Blocked(s, k, now);
  }

  lemma PumpInDebt(s: State, now: int)
    requires InDebt(s.budget, now) && !s.stopped
    ensures var p := Pump(s, now); SameAdmissions(p, s) && p.log.admitted == s.log.admitted
  {
    hide CreditAt, DebtDelay, Waiting;
  }

  lemma PumpOutOfDebt(s: State, now: int)
    requires !InDebt(s.budget, now) && !s.stopped
    ensures var b := s.budget.(credit := CreditAt(s.budget, now), lastUpdate := now);
      Pump(s, now) == PumpLoop(s.(budget := b, clock := now), now, CheckOf(b, now))
  {
    hide CreditAt, PumpLoop;
  }

  lemma PumpStopped(s: State, now: int, check: Check)
    requires Inv(s) && s.stopped
    ensures PumpLoop(s, now, check) == s && Pump(s, now) == s && !SomeEligible(s, now)
  {
    hide Core;
    StoppedIsEmpty(s, now);
    assert forall k :: Eligible(s, k, now) ==> k in EligibleKeys(s, now);
  }

  // What the loop admits when it goes on is what a new pump would admit in its place, unless the
  // credit is negative, a slot is free and a job is eligible: then a new pump would admit nothing.
  lemma ResumedLoopIsPacedUnlessInDebt(s: State, handle: bool, now: int)
    requires Inv(s) && s.stack != [] && PumpFrame(s.stack[0]) && now >= s.clock && !AbortsFirst(s, handle)
    ensures var anew := Pump(LoopState(s, handle, now), now);
      var r := Apply(s, Resume(handle, now));
      && (SameAdmissions(r, anew) <==> !(InDebt(s.budget, now) && SlotFree(s) && SomeEligible(s, now)))
      && (InDebt(s.budget, now) ==> anew.log.admitted == s.log.admitted)
      && (!InDebt(s.budget, now) ==> r.timer == anew.timer && WithinAllowance(s.budget, now))
  {
    hide Inv, PumpLoop, Pump, LoopState, AbortsFirst, SomeEligible, ResumeTop, InDebt, WithinAllowance;
    LoopGoesOn(s, handle, now);
    LoopStateIsSame(s, handle, now);
    CreditMeansAllowance(s, now);
    var mid := LoopState(s, handle, now);
    var check := s.stack[0].check;
    SameEligible(s, mid, now);
    LoopAdmits(mid, now, check);
    if mid.stopped {
      PumpStopped(mid, now, check);
    } else if InDebt(s.budget, now) {
      PumpInDebt(mid, now);
    } else {
      PumpOutOfDebt(mid, now);
      var b := s.budget.(credit := CreditAt(s.budget, now), lastUpdate := now);
      assert mid.(budget := b, clock := now) == mid.(budget := b);
      PumpLoopIgnoresBudget(mid, b, now, check, CheckOf(b, now));
    }
  }

  // Whatever the step, an admission made out of debt keeps the bound, and one made in debt is the
  // work of a loop that went on after a callback.
  lemma AdmissionKeepsAllowanceUnlessInDebt(s: State, step: Step)
    requires Inv(s) && Admits(s, step)
    ensures var now := StepTime(step);
      if InDebt(s.budget, now) then step.Resume? && PumpFrame(s.stack[0]) else WithinAllowance(s.budget, now)
  {
    hide Inv, PumpLoop, Pump, InDebt, WithinAllowance, ResumeTop, AddWaiter, Cancel, AbandonStopped, RetireStoppedOwner,
         Reprioritize, Finish, Shutdown, SetBandwidthLimit, ReportTransfer, Enumerates, PumpFrame, Evolves;
    if step.RunPump? {
      var s0 := s.(scheduled := false, clock := step.now);
      if s.stopped {
        StoppedPump(s0, step.now);
      } else if InDebt(s.budget, step.now) {
        PumpInDebt(s0, step.now);
      }
      CreditMeansAllowance(s, step.now);
    } else if step.Resume? {
      CreditMeansAllowance(s, step.now);
      if !PumpFrame(s.stack[0]) {
        OtherFrames(s, step.handle, step.now);
      }
    } else {
      OtherStepsQuiet(s, step);
    }
  }

  lemma StoppedPump(s: State, now: int)
    requires s.stopped
    ensures Pump(s, now) == s
  {
  }

  lemma OtherFrames(s: State, handle: bool, now: int)
    requires s.stack != [] && !PumpFrame(s.stack[0])
    ensures ResumeTop(s, handle, now).log.admitted == s.log.admitted
  {
    hide ResumeFetching, ResumeAborting, ResumeCancelling, ResumeAbandoning, ResumeDelivering, Evolves;
    ResumeOthersQuiet(s);
  }

  // In particular the bound holds as long as nothing was reported and the limit was not set anew
  // since the pump was entered.
  lemma QuietFetchKeepsAllowance(s: State, now: int)
    requires Inv(s) && s.stack != [] && PumpFrame(s.stack[0])
    requires var c := s.stack[0].check;
      s.budget.limit == c.limit && s.budget.epochBytes == c.bytes && now - s.budget.epochStart >= c.elapsed
    ensures WithinAllowance(s.budget, now)
  {
    hide Sequenced, Slots, CreditSound, AdmissionsSound, Rightful, FramesRightful, DeliveriesRightful,
         JoinedKnown, AbortsKnown, Conserved, Linked;
    assert FrameSound(s.stack[0]);
    var c := s.stack[0].check;
    if c.limit > 0 {
      AllowanceSplits(c.elapsed, now - s.budget.epochStart - c.elapsed, c.limit);
    }
  }

  // A transfer reported from inside a fetch, and a second request: the pump admits the latter
  // although five times the allowance has been used.
  lemma AdmissionMayExceedAllowance()
    ensures exists s :: (Reachable(s) && Enabled(s, Resume(true, 0))
      && Apply(s, Resume(true, 0)).log.admitted != s.log.admitted && InDebt(s.budget, 0) && !WithinAllowance(s.budget, 0))
  {
    hide Reachable, MakeKey, PumpLoop;
    ReachableInitially();
    var s1 := Visit(INITIAL, BandwidthLimit(1000, 0));
    assert s1 == INITIAL.(budget := Budget(1000, 0, 1000.0, 0, 0), scheduled := true);
    var s5 := ReportInsideFetch(s1);
    ReachableInv(s5);
    SomeoneEligible(s5, 0, MakeKey("b", 0));
    DebtDoesNotStopPump(s5, true, 0);
  }

  lemma SomeoneEligible(s: State, now: int, key: Key)
    requires Eligible(s, key, now)
    ensures SomeEligible(s, now)
  {
  }

  lemma ReportInsideFetch(s1: State) returns (s: State)
    requires Reachable(s1) && s1 == INITIAL.(budget := Budget(1000, 0, 1000.0, 0, 0), scheduled := true)
    ensures Reachable(s) && s.clock == 0 && s.stack != [] && s.stack[0].Fetching? && !s.stack[0].cancelable
    ensures s.active + |s.policy.external| < s.policy.maxActive && Eligible(s, MakeKey("b", 0), 0)
    ensures s.budget == Budget(1000, 0, -4000.0, 0, 5000)
  {
    hide Reachable, MakeKey, Apply, Eligible;
    MakeKeysDiffer();
    var s2 := Visit(s1, Request("a", 0, "l", 0, Some(Plain), true, 0));
    FirstPlain(s1);
    var s3 := Visit(s2, RunPump(0));
    PumpPlain(s2, MakeKey("a", 0));
    var s4 := Visit(s3, Report("l", 5000, false, 0));
    ReportPlain(s3);
    s := Visit(s4, Request("b", 0, "m", 0, Some(Plain), true, 0));
    SecondPlain(s4);
  }

  lemma FirstPlain(s: State)
    requires s == INITIAL.(budget := Budget(1000, 0, 1000.0, 0, 0), scheduled := true)
    ensures var r := Apply(s, Request("a", 0, "l", 0, Some(Plain), true, 0));
      var key := MakeKey("a", 0);
      && r.jobs.Keys == {key} && r.jobs[key] == Job(0, "l", 1, Plain, 0, false, false, [Waiter(1, 0)], false)
      && r == s.(jobs := r.jobs, ticketKeys := r.ticketKeys, nextTicket := 1, nextSequence := 1, nextId := 1)
  {
    hide MakeKey;
    assert [] + [Waiter(1, 0)] == [Waiter(1, 0)];
  }

  lemma PumpPlain(s: State, key: Key)
    requires s.jobs.Keys == {key} && s.jobs[key] == Job(0, "l", 1, Plain, 0, false, false, [Waiter(1, 0)], false)
    requires s.budget == Budget(1000, 0, 1000.0, 0, 0) && s.scheduled && !s.stopped && s.clock == 0
    requires s.active == 0 && s.laneActive == map[] && s.policy == INITIAL.policy
    ensures var r := Apply(s, RunPump(0));
      r == Admit(s.(scheduled := false, bypasses := 0), key, Check(1000, 0, 0))
  {
    hide PumpLoop, Pump, Admit, Apply, Eligible, Waiting, Enabled, Replenish, CreditAt, CheckOf;
    var s0 := s.(scheduled := false);
    PlainFacts(s);
    ApplyPump(s, 0);
    assert s.(scheduled := false, clock := 0) == s0;
    PumpWithCredit(s0);
    PlainIsEligible(s0, key);
    SoleCandidate(s0, 0, Check(1000, 0, 0), key);
    assert s0.(bypasses := 0) == s.(scheduled := false, bypasses := 0);
  }

  lemma PlainFacts(s: State)
    requires s.budget == Budget(1000, 0, 1000.0, 0, 0) && s.scheduled && s.clock == 0 && s.policy == INITIAL.policy
    ensures Enabled(s, RunPump(0)) && CheckOf(s.budget, 0) == Check(1000, 0, 0)
    ensures |s.policy.external| < s.policy.maxActive
  {
    hide Enabled, CheckOf;
    PumpEnabled(s);
    CheckIs(s.budget, 1000);
  }

  lemma PumpEnabled(s: State)
    requires s.scheduled && s.clock == 0
    ensures Enabled(s, RunPump(0))
  {
    hide Enumerates;
  }

  lemma CheckIs(b: Budget, limit: int)
    requires b.limit == limit && b.epochBytes == 0 && b.epochStart == 0
    ensures CheckOf(b, 0) == Check(limit, 0, 0)
  {
  }

  lemma PumpWithCredit(s: State)
    requires s.clock == 0 == s.budget.lastUpdate && s.budget.credit >= 0.0 && !s.stopped
    ensures Pump(s, 0) == PumpLoop(s, 0, CheckOf(s.budget, 0))
  {
    hide PumpLoop;
    assert Replenish(s, 0) == s;
  }

  lemma PlainIsEligible(s: State, key: Key)
    requires s.jobs.Keys == {key} && s.jobs[key] == Job(0, "l", 1, Plain, 0, false, false, [Waiter(1, 0)], false)
    requires s.laneActive == map[] && s.policy == INITIAL.policy
    ensures Eligible(s, key, 0) && forall k :: k in s.jobs && Waiting(s, k) ==> k == key
  {
  }

  lemma ReportPlain(s: State)
    requires s.budget == Budget(1000, 0, 1000.0, 0, 0) && !s.stopped && s.clock == 0 && s.policy == INITIAL.policy
    ensures Apply(s, Report("l", 5000, false, 0)) == s.(budget := Budget(1000, 0, -4000.0, 0, 5000), scheduled := true)
  {
  }

  lemma SecondPlain(s: State)
    requires MakeKey("b", 0) !in s.jobs && !s.stopped && s.policy == INITIAL.policy && s.laneActive == map["l" := 1]
    ensures var r := Apply(s, Request("b", 0, "m", 0, Some(Plain), true, 0));
      && Eligible(r, MakeKey("b", 0), 0) && r.stack == s.stack && r.active == s.active && r.policy == s.policy
      && r.budget == s.budget && r.clock == s.clock
  {
    hide MakeKey;
  }

  lemma MakeKeysDiffer()
    ensures MakeKey("a", 0) != MakeKey("b", 0)
  {
    if MakeKey("a", 0) == MakeKey("b", 0) {
      MakeKeyInjective("a", 0, "b", 0);
    }
  }

  lemma ReachableInv(s: State)
    requires Reachable(s)
    ensures Inv(s)
  {
    hide Inv, Enabled, Apply;
    var states, steps :| IsRun(states, steps) && states[0] == INITIAL && states[|steps|] == s;
    RunKeeps(states, steps, |steps|);
  }
}
