// What every step of the scheduler keeps, whatever the callbacks do.
module SchedulerInvariant {
  import opened Basics
  import opened SchedulerState

  // ---- Waiters and tickets ----

  // Each live ticket sits in exactly one job, once, and ticketKeys_ says which.
  ghost predicate Linked(jobs: map<Key, Job>, ticketKeys: map<nat, Key>) {
    && (forall k, i :: k in jobs && 0 <= i < |jobs[k].waiters| ==>
          jobs[k].waiters[i].ticket in ticketKeys && ticketKeys[jobs[k].waiters[i].ticket] == k)
    && (forall k, i, j :: k in jobs && 0 <= i < j < |jobs[k].waiters| ==>
          jobs[k].waiters[i].ticket != jobs[k].waiters[j].ticket)
    && (forall t :: t in ticketKeys ==>
          ticketKeys[t] in jobs && t in Tickets(jobs[ticketKeys[t]].waiters))
  }

  // An inactive job always has a waiter.
  ghost predicate Occupied(jobs: map<Key, Job>) {
    forall k :: k in jobs ==> jobs[k].active || jobs[k].waiters != []
  }

  function FrameTickets(f: Frame): multiset<nat> {
    match f
    case Cancelling(done) => if done.Some? then multiset{done.value} else multiset{}
    case Delivering(tickets, _) => multiset(tickets)
    case _ => multiset{}
  }

  // Tickets taken out of ticketKeys_ whose completion is still to be called.
  function Owed(stack: seq<Frame>): multiset<nat> {
    if stack == [] then multiset{} else FrameTickets(stack[0]) + Owed(stack[1..])
  }

  function Paid(delivered: seq<Delivery>): multiset<nat> {
    if delivered == [] then multiset{}
    else Paid(delivered[..|delivered| - 1]) + multiset{delivered[|delivered| - 1].ticket}
  }

  function Issued(n: nat): (m: multiset<nat>)
    ensures forall t :: m[t] == if 1 <= t <= n then 1 else 0
  {
    if n == 0 then multiset{} else Issued(n - 1) + multiset{n}
  }

  // Every ticket ever handed out is live, owed or delivered: exactly one of these, exactly once.
  ghost predicate Conserved(live: set<nat>, stack: seq<Frame>, delivered: seq<Delivery>, issued: nat) {
    multiset(live) + Owed(stack) + Paid(delivered) == Issued(issued)
  }

  // ---- Slots ----

  ghost function ActiveKeys(jobs: map<Key, Job>): set<Key> {
    set k | k in jobs && jobs[k].active
  }

  ghost function LaneKeys(jobs: map<Key, Job>, lane: Lane): set<Key> {
    set k | k in jobs && jobs[k].active && jobs[k].lane == lane
  }

  ghost predicate Slots(jobs: map<Key, Job>, active: int, laneActive: map<Lane, int>) {
    && active == |ActiveKeys(jobs)|
    && (forall lane :: GetOr(laneActive, lane, 0) == |LaneKeys(jobs, lane)|)
    && (forall lane :: lane in laneActive ==> laneActive[lane] > 0)
  }

  // ---- Attempts ----

  ghost predicate Admitted(log: seq<Admission>, sequence: nat) {
    exists i :: 0 <= i < |log| && log[i].sequence == sequence
  }

  // Attempts are numbered once and for all; each is admitted at most once, and a
  // job is active exactly when its current attempt has been admitted.
  ghost predicate Sequenced(jobs: map<Key, Job>, nextSequence: nat, log: seq<Admission>) {
    && (forall k :: k in jobs ==> jobs[k].sequence <= nextSequence)
    && (forall k, l :: k in jobs && l in jobs && k != l ==> jobs[k].sequence != jobs[l].sequence)
    && (forall i :: 0 <= i < |log| ==> log[i].sequence <= nextSequence)
    && (forall i, j :: 0 <= i < j < |log| ==> log[i].sequence != log[j].sequence)
    && (forall k :: k in jobs ==> (jobs[k].active <==> Admitted(log, jobs[k].sequence)))
  }

  // ---- Outcomes ----

  predicate Good(outcome: Outcome) {
    outcome.Finished? ==> outcome.error == "" && outcome.bytes != []
  }

  // An outcome may be handed to a ticket: it comes from an admitted attempt, and if
  // the ticket joined that very attempt while it was being aborted, it is data.
  ghost predicate Rightful(ticket: nat, outcome: Outcome, joined: map<nat, nat>, log: seq<Admission>) {
    outcome.Finished? ==>
      && Admitted(log, outcome.sequence)
      && (ticket in joined && joined[ticket] == outcome.sequence ==> Good(outcome))
  }

  ghost predicate FrameRightful(f: Frame, joined: map<nat, nat>, log: seq<Admission>) {
    f.Delivering? ==> forall t :: t in f.tickets ==> Rightful(t, f.outcome, joined, log)
  }

  ghost predicate FramesRightful(stack: seq<Frame>, joined: map<nat, nat>, log: seq<Admission>) {
    forall i :: 0 <= i < |stack| ==> FrameRightful(stack[i], joined, log)
  }

  ghost predicate DeliveriesRightful(d: seq<Delivery>, joined: map<nat, nat>, log: seq<Admission>) {
    forall i :: 0 <= i < |d| ==> Rightful(d[i].ticket, d[i].outcome, joined, log)
  }

  ghost predicate JoinedKnown(joined: map<nat, nat>, nextTicket: nat, nextSequence: nat) {
    forall t :: t in joined ==> t <= nextTicket && joined[t] <= nextSequence
  }

  // As long as the attempt a ticket saw being aborted is current, it is still being aborted.
  predicate StillAborting(job: Job, ticket: nat, joined: map<nat, nat>) {
    ticket in joined && joined[ticket] == job.sequence ==> job.aborting
  }

  ghost predicate AbortsKnown(jobs: map<Key, Job>, joined: map<nat, nat>) {
    forall k, i :: k in jobs && 0 <= i < |jobs[k].waiters| ==>
      StillAborting(jobs[k], jobs[k].waiters[i].ticket, joined)
  }

  // ---- Budget ----

  // One second's worth of burst, and the rate times the elapsed milliseconds.
  function Allowance(limit: int, elapsed: int): real {
    limit as real + elapsed as real * limit as real / 1000.0
  }

  predicate CheckSound(c: Check) {
    c.limit > 0 ==> c.bytes as real <= Allowance(c.limit, c.elapsed)
  }

  predicate FrameSound(f: Frame) {
    match f
    case Fetching(_, _, _, check) => CheckSound(check)
    case Aborting(check) => CheckSound(check)
    case _ => true
  }

  ghost predicate FramesSound(stack: seq<Frame>) {
    forall i :: 0 <= i < |stack| ==> FrameSound(stack[i])
  }

  ghost predicate AdmissionsSound(log: seq<Admission>) {
    forall i :: 0 <= i < |log| ==> CheckSound(log[i].check)
  }

  // The credit never exceeds one second's worth, nor what the reports so far leave of the allowance.
  predicate CreditSound(b: Budget) {
    b.limit > 0 ==>
      b.credit <= b.limit as real && b.credit <= Allowance(b.limit, b.lastUpdate - b.epochStart) - b.epochBytes as real
  }

  ghost predicate Inv(s: State) {
    Occupied(s.jobs) && Core(s)
  }

  ghost predicate Core(s: State) {
    && Linked(s.jobs, s.ticketKeys)
    && Slots(s.jobs, s.active, s.laneActive)
    && Sequenced(s.jobs, s.nextSequence, s.log.admitted)
    && Conserved(s.ticketKeys.Keys, s.stack, s.log.delivered, s.nextTicket)
    && FramesRightful(s.stack, s.log.joinedAborting, s.log.admitted)
    && DeliveriesRightful(s.log.delivered, s.log.joinedAborting, s.log.admitted)
    && JoinedKnown(s.log.joinedAborting, s.nextTicket, s.nextSequence)
    && AbortsKnown(s.jobs, s.log.joinedAborting)
    && FramesSound(s.stack)
    && AdmissionsSound(s.log.admitted)
    && CreditSound(s.budget)
    && 0 <= s.bypasses <= MAX_PRIORITY_BYPASSES
    && 0 <= s.budget.limit
    && s.budget.epochStart <= s.budget.lastUpdate <= s.clock
    && (s.stopped ==> s.jobs == map[] && s.timer.None?)
  }

  lemma Initially()
    ensures Inv(INITIAL)
  {
    assert ActiveKeys(INITIAL.jobs) == {};
    assert forall lane :: LaneKeys(INITIAL.jobs, lane) == {};
  }

  // ---- Arithmetic of slots ----

  lemma SlotsUntouched(jobs: map<Key, Job>, next: map<Key, Job>, active: int, laneActive: map<Lane, int>)
    requires Slots(jobs, active, laneActive)
    requires forall k :: k in jobs && jobs[k].active ==> k in next && next[k].active && next[k].lane == jobs[k].lane
    requires forall k :: k in next && next[k].active ==> k in jobs && jobs[k].active
    ensures Slots(next, active, laneActive)
  {
    assert ActiveKeys(next) == ActiveKeys(jobs);
    forall lane ensures GetOr(laneActive, lane, 0) == |LaneKeys(next, lane)| {
      assert LaneKeys(next, lane) == LaneKeys(jobs, lane);
    }
  }

  // One job, `key`, stops being active.
  lemma SlotsReleased(s: State, key: Key, next: map<Key, Job>)
    requires Slots(s.jobs, s.active, s.laneActive)
    requires key in s.jobs && s.jobs[key].active
    requires key in next ==> !next[key].active
    requires forall k :: k != key ==> (k in next <==> k in s.jobs)
    requires forall k :: k != key && k in next ==> next[k].active == s.jobs[k].active && next[k].lane == s.jobs[k].lane
    ensures var r := ReleaseSlot(s, s.jobs[key].lane); Slots(next, r.active, r.laneActive)
  {
    hide ActiveKeys, LaneKeys;
    var mine := s.jobs[key].lane;
    ActiveShrinks(s.jobs, key, next);
    LanesShrink(s.jobs, key, next);
    assert |LaneKeys(next, mine)| >= 0;
  }

  lemma ActiveShrinks(jobs: map<Key, Job>, key: Key, next: map<Key, Job>)
    requires key in jobs && jobs[key].active && (key in next ==> !next[key].active)
    requires forall k :: k != key ==> (k in next <==> k in jobs)
    requires forall k :: k != key && k in next ==> next[k].active == jobs[k].active
    ensures |ActiveKeys(next)| == |ActiveKeys(jobs)| - 1
  {
    assert ActiveKeys(next) == ActiveKeys(jobs) - {key};
  }

  lemma LanesShrink(jobs: map<Key, Job>, key: Key, next: map<Key, Job>)
    requires key in jobs && jobs[key].active && (key in next ==> !next[key].active)
    requires forall k :: k != key ==> (k in next <==> k in jobs)
    requires forall k :: k != key && k in next ==> next[k].active == jobs[k].active && next[k].lane == jobs[k].lane
    ensures forall lane :: |LaneKeys(next, lane)| == |LaneKeys(jobs, lane)| - (if lane == jobs[key].lane then 1 else 0)
  {
    forall lane ensures |LaneKeys(next, lane)| == |LaneKeys(jobs, lane)| - (if lane == jobs[key].lane then 1 else 0) {
      if lane == jobs[key].lane {
        assert LaneKeys(next, lane) == LaneKeys(jobs, lane) - {key};
        assert key in LaneKeys(jobs, lane);
      } else {
        assert LaneKeys(next, lane) == LaneKeys(jobs, lane);
      }
    }
  }

  // It becomes active: the same, read backwards.
  lemma SlotsTaken(jobs: map<Key, Job>, active: int, laneActive: map<Lane, int>, key: Key)
    requires Slots(jobs, active, laneActive)
    requires key in jobs && !jobs[key].active
    ensures var lane := jobs[key].lane;
      Slots(jobs[key := jobs[key].(active := true)], active + 1,
            laneActive[lane := GetOr(laneActive, lane, 0) + 1])
  {
    hide ActiveKeys, LaneKeys;
    var next := jobs[key := jobs[key].(active := true)];
    ActiveShrinks(next, key, jobs);
    LanesShrink(next, key, jobs);
    assert |LaneKeys(jobs, jobs[key].lane)| >= 0;
  }

  // ---- Arithmetic of tickets ----

  lemma TicketsMembership(ws: seq<Waiter>, t: nat)
    ensures t in Tickets(ws) <==> exists i :: 0 <= i < |ws| && ws[i].ticket == t
  {
    if t in Tickets(ws) {
      var i :| 0 <= i < |ws| && Tickets(ws)[i] == t;
      assert ws[i].ticket == t;
    } else {
      forall i | 0 <= i < |ws| ensures ws[i].ticket != t { assert Tickets(ws)[i] == ws[i].ticket; }
    }
  }

  // Removing distinct members from a set moves them into a multiset of their own.
  lemma {:induction false} TakeKeys(keys: set<nat>, ts: seq<nat>)
    requires forall i :: 0 <= i < |ts| ==> ts[i] in keys
    requires forall i, j :: 0 <= i < j < |ts| ==> ts[i] != ts[j]
    ensures multiset(keys) == multiset(keys - (set t | t in ts)) + multiset(ts)
  {
    if ts == [] {
      assert (set t | t in ts) == {};
      assert keys - {} == keys;
    } else {
      var init, last := ts[..|ts| - 1], ts[|ts| - 1];
      TakeKeys(keys, init);
      assert ts == init + [last];
      assert (set t | t in ts) == (set t | t in init) + {last};
      var rest := keys - (set t | t in init);
      assert last in rest;
      assert keys - (set t | t in ts) == rest - {last};
      assert multiset(rest) == multiset(rest - {last}) + multiset{last};
    }
  }

  lemma PaidOne(d: seq<Delivery>, t: nat, outcome: Outcome)
    ensures Paid(d + [Delivery(t, outcome)]) == Paid(d) + multiset{t}
  {
    var e := d + [Delivery(t, outcome)];
    assert e[..|e| - 1] == d;
  }

  lemma OwedPush(f: Frame, stack: seq<Frame>)
    ensures Owed([f] + stack) == FrameTickets(f) + Owed(stack)
  {
    assert ([f] + stack)[1..] == stack;
  }

  lemma {:induction false} WithoutTicketContents(ws: seq<Waiter>, ticket: nat)
    requires forall i, j :: 0 <= i < j < |ws| ==> ws[i].ticket != ws[j].ticket
    ensures var r := WithoutTicket(ws, ticket);
      && (forall i :: 0 <= i < |r| ==> r[i] in ws && r[i].ticket != ticket)
      && (forall i :: 0 <= i < |ws| && ws[i].ticket != ticket ==> ws[i] in r)
      && (forall i, j :: 0 <= i < j < |r| ==> r[i].ticket != r[j].ticket)
  {
    if ws != [] {
      var tail := ws[1..];
      forall i | 0 < i < |ws| ensures ws[i] == tail[i - 1] {
      }
      if ws[0].ticket != ticket {
        WithoutTicketContents(tail, ticket);
        var rest := WithoutTicket(tail, ticket);
        forall i | 0 <= i < |rest| ensures rest[i] in ws && rest[i].ticket != ws[0].ticket {
          var j :| 0 <= j < |tail| && tail[j] == rest[i];
          assert ws[j + 1] == rest[i];
        }
      }
    }
  }

  lemma {:induction false} WithPriorityTickets(ws: seq<Waiter>, ticket: nat, priority: Priority)
    ensures var r := WithPriority(ws, ticket, priority);
      |r| == |ws| && forall i :: 0 <= i < |ws| ==> r[i].ticket == ws[i].ticket
  {
    if ws != [] && ws[0].ticket != ticket {
      WithPriorityTickets(ws[1..], ticket, priority);
    }
  }
}
