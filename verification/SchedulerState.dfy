// The state of MediaChunkScheduler and its atomic steps.
//
// The scheduler runs on one thread, but it calls out: to a waiter's completion,
// to a provider's fetch and to a provider's abort. Any of these may re-enter the
// scheduler. A step here is the code between two such calls. Code that must
// continue after a call leaves a Frame on `stack`; `Resume` continues the top
// frame, and every other step may run in between, any number of times.
module SchedulerState {
  import opened Basics

  const MAX_PRIORITY_BYPASSES := 4

  type Key = string
  type Lane = string
  type Priority = p: int | -0x8000_0000 <= p <= MAX_INT32

  datatype FetchKind = Plain | Cancelable

  datatype Waiter = Waiter(ticket: nat, priority: Priority)

  // `id` stands for the identity of the shared Job object, `sequence` for one
  // attempt at fetching it; a restart keeps the former and renews the latter.
  // `abort` tells whether an abort handle is stored. Owner 0 is the null pointer.
  datatype Job = Job(
    id: nat, lane: Lane, sequence: nat, kind: FetchKind, owner: nat,
    abort: bool, aborting: bool, waiters: seq<Waiter>, active: bool)

  datatype Congestion = Congestion(level: int, retryAfter: int)

  datatype Outcome =
    | Finished(sequence: nat, bytes: Bytes, error: string)
    | Cancelled
    | TransportStopped
    | SchedulerStopped

  datatype Delivery = Delivery(ticket: nat, outcome: Outcome)

  // What the budget looked like when pump() checked it (bookkeeping).
  datatype Check = Check(limit: int, bytes: int, elapsed: int)

  datatype Admission = Admission(key: Key, sequence: nat, check: Check)

  datatype Frame =
    | Cancelling(done: Option<nat>)                      // cancel(), inside abort
    | Abandoning(key: Key, id: nat, sequence: nat)       // abandonStopped(), inside cancel()
    | Delivering(tickets: seq<nat>, outcome: Outcome)    // settling a list of waiters
    | Fetching(key: Key, id: nat, cancelable: bool, check: Check)  // pump(), inside fetch
    | Aborting(check: Check)                             // pump(), inside abort

  // What gates admission besides the slots in use.
  datatype Policy = Policy(
    maxActive: int, laneLimits: map<Lane, int>, external: set<nat>, congestion: map<Lane, Congestion>)

  // The token bucket. The last two fields are bookkeeping: when the limit last
  // changed, and the bytes reported since then.
  datatype Budget = Budget(limit: int, lastUpdate: int, credit: real, epochStart: int, epochBytes: int)

  // What has happened so far (bookkeeping). `joinedAborting` maps a ticket to the
  // attempt that was being aborted when the ticket joined.
  datatype Log = Log(admitted: seq<Admission>, delivered: seq<Delivery>, joinedAborting: map<nat, nat>)

  datatype State = State(
    jobs: map<Key, Job>,
    ticketKeys: map<nat, Key>,
    active: int,
    laneActive: map<Lane, int>,
    bypasses: int,
    nextTicket: nat,
    nextSequence: nat,
    nextId: nat,
    policy: Policy,
    budget: Budget,
    timer: Option<int>,          // deadline of admissionTimer_
    scheduled: bool,
    stopped: bool,
    clock: int,                  // the latest reading of monotonicClock_
    stack: seq<Frame>,           // suspended calls, top first
    detached: set<Job>,          // removed from jobs_, perhaps still held by a frame
    log: Log)

  const INITIAL: State := State(
    map[], map[], 0, map[], 0, 0, 0, 0, Policy(3, map[], {}, map[]), Budget(0, 0, 0.0, 0, 0),
    None, false, false, 0, [], {}, Log([], [], map[]))

  // "<length of source>:<source>:<index>"
  function MakeKey(source: string, index: nat): Key {
    Decimal(|source|) + ":" + source + ":" + Decimal(index)
  }

  lemma MakeKeyInjective(a: string, i: nat, b: string, j: nat)
    requires MakeKey(a, i) == MakeKey(b, j)
    ensures a == b && i == j
  {
    hide Decimal;
    var x, y := ":" + a + ":" + Decimal(i), ":" + b + ":" + Decimal(j);
    assert MakeKey(a, i) == Decimal(|a|) + x && MakeKey(b, j) == Decimal(|b|) + y;
    DecimalPrefixUnique(|a|, |b|, x, y);
    KeyParts(a, Decimal(i), x);
    KeyParts(b, Decimal(j), y);
    DecimalInjective(i, j);
  }

  lemma KeyParts(source: string, index: string, x: string)
    requires x == ":" + source + ":" + index
    ensures |x| == |source| + 2 + |index| && source == x[1..1 + |source|] && index == x[|source| + 2..]
  {
  }

  // ---- Waiter lists ----

  function Tickets(ws: seq<Waiter>): (ts: seq<nat>)
    ensures |ts| == |ws| && forall i :: 0 <= i < |ws| ==> ts[i] == ws[i].ticket
  {
    seq(|ws|, i requires 0 <= i < |ws| => ws[i].ticket)
  }

  function TicketSet(ws: seq<Waiter>): set<nat> {
    set t | t in Tickets(ws)
  }

  function WithoutTicket(ws: seq<Waiter>, ticket: nat): seq<Waiter> {
    if ws == [] then []
    else if ws[0].ticket == ticket then ws[1..]
    else [ws[0]] + WithoutTicket(ws[1..], ticket)
  }

  function WithPriority(ws: seq<Waiter>, ticket: nat, priority: Priority): seq<Waiter> {
    if ws == [] then []
    else if ws[0].ticket == ticket then [Waiter(ticket, priority)] + ws[1..]
    else [ws[0]] + WithPriority(ws[1..], ticket, priority)
  }

  function TopPriority(ws: seq<Waiter>): Priority {
    if ws == [] then -0x8000_0000 else Max(TopPriority(ws[..|ws| - 1]), ws[|ws| - 1].priority)
  }

  // ---- Pieces shared by several steps ----

  function Schedule(s: State): State {
    if s.stopped || s.scheduled then s else s.(scheduled := true)
  }

  function ReleaseSlot(s: State, lane: Lane): State {
    var left := GetOr(s.laneActive, lane, 0) - 1;
    s.(active := s.active - 1,
       laneActive := if left == 0 then s.laneActive - {lane} else s.laneActive[lane := left])
  }

  function WithJob(s: State, key: Key, job: Job): State {
    s.(jobs := s.jobs[key := job])
  }

  function Detach(s: State, key: Key): State
    requires key in s.jobs
  {
    s.(jobs := s.jobs - {key}, detached := s.detached + {s.jobs[key]})
  }

  function Push(s: State, frame: Frame): State {
    s.(stack := [frame] + s.stack)
  }

  function Pop(s: State): State
    requires s.stack != []
  {
    s.(stack := s.stack[1..])
  }

  // Calls the completion of `ticket`, if there is one.
  function Deliver(s: State, ticket: Option<nat>, outcome: Outcome): State {
    match ticket
    case None => s
    case Some(t) => s.(log := s.log.(delivered := s.log.delivered + [Delivery(t, outcome)]))
  }

  // ---- request / requestCancelable ----

  datatype Reply = Ticket(ticket: nat) | Unavailable | ConflictingLane

  function AddWaiter(s: State, source: string, index: nat, lane: Lane, priority: Priority,
                     fetch: Option<FetchKind>, hasDone: bool, owner: nat): (State, Reply)
  {
    if s.stopped || source == "" || lane == "" || fetch.None? || !hasDone then (s, Unavailable)
    else
      var key := MakeKey(source, index);
      if key in s.jobs && s.jobs[key].lane != lane then (s, ConflictingLane)
      else
        var s1 := if key in s.jobs then s else NewJob(s, key, lane, fetch.value, owner);
        (Schedule(Join(s1, key, priority)), Ticket(s.nextTicket + 1))
  }

  function NewJob(s: State, key: Key, lane: Lane, kind: FetchKind, owner: nat): State {
    s.(nextSequence := s.nextSequence + 1,
       nextId := s.nextId + 1,
       jobs := s.jobs[key := Job(s.nextId, lane, s.nextSequence + 1, kind, owner, false, false, [], false)])
  }

  function Join(s: State, key: Key, priority: Priority): State
    requires key in s.jobs
  {
    var job := s.jobs[key];
    var ticket := s.nextTicket + 1;
    s.(nextTicket := ticket,
       jobs := s.jobs[key := job.(waiters := job.waiters + [Waiter(ticket, priority)])],
       ticketKeys := s.ticketKeys[ticket := key],
       log := if job.aborting then s.log.(joinedAborting := s.log.joinedAborting[ticket := job.sequence]) else s.log)
  }

  // ---- cancel ----

  function Cancel(s: State, ticket: nat): State {
    if ticket !in s.ticketKeys then s
    else
      var key := s.ticketKeys[ticket];
      var s1 := s.(ticketKeys := s.ticketKeys - {ticket});
      if key !in s1.jobs then s1
      else
        var job := s1.jobs[key];
        var done := if ticket in Tickets(job.waiters) then Some(ticket) else None;
        var rest := job.(waiters := WithoutTicket(job.waiters, ticket));
        if rest.waiters == [] && !job.active then
          Deliver(Schedule(Detach(WithJob(s1, key, rest), key)), done, Cancelled)
        else if rest.waiters == [] && job.abort && !job.aborting then
          Push(WithJob(s1, key, rest.(aborting := true)), Cancelling(done))
        else
          Deliver(Schedule(WithJob(s1, key, rest)), done, Cancelled)
  }

  function ResumeCancelling(s: State): State
    requires s.stack != [] && s.stack[0].Cancelling?
  {
    Deliver(Schedule(Pop(s)), s.stack[0].done, Cancelled)
  }

  // ---- abandonStopped ----

  function AbandonStopped(s: State, ticket: nat): State {
    if ticket !in s.ticketKeys || s.ticketKeys[ticket] !in s.jobs then s
    else
      var key := s.ticketKeys[ticket];
      Cancel(Push(s, Abandoning(key, s.jobs[key].id, s.jobs[key].sequence)), ticket)
  }

  function ResumeAbandoning(s: State): State
    requires s.stack != [] && s.stack[0].Abandoning?
  {
    var key := s.stack[0].key;
    if !(key in s.jobs && s.jobs[key].id == s.stack[0].id)   // another object, or none
      || s.jobs[key].waiters != [] || !s.jobs[key].active
    then Pop(s)
    else Schedule(ReleaseSlot(Detach(Pop(s), key), s.jobs[key].lane))
  }

  // ---- retireStoppedOwner, shutdown ----

  predicate Enumerates(order: seq<Key>, keys: set<Key>) {
    && (forall i :: 0 <= i < |order| ==> order[i] in keys)
    && (forall i, j :: 0 <= i < j < |order| ==> order[i] != order[j])
    && (forall k :: k in keys ==> k in order)
  }

  // Removes one job; its waiters join the list on top of the stack, to be settled later.
  function Drop(s: State, key: Key): State
    requires key in s.jobs && s.stack != [] && s.stack[0].Delivering?
  {
    var job := s.jobs[key];
    var tickets := Tickets(job.waiters);
    var s1 := Detach(if job.active then ReleaseSlot(s, job.lane) else s, key);
    s1.(ticketKeys := s.ticketKeys - TicketSet(job.waiters),
        stack := [s.stack[0].(tickets := s.stack[0].tickets + tickets)] + s.stack[1..])
  }

  function RetireAll(s: State, owner: nat, order: seq<Key>): (r: State)
    requires s.stack != [] && s.stack[0].Delivering?
    ensures r.stack != [] && r.stack[0].Delivering?
    ensures r.stack[1..] == s.stack[1..] && r.stack[0].outcome == s.stack[0].outcome
    ensures r.nextSequence == s.nextSequence && r.nextId == s.nextId
    decreases |order|
  {
    if order == [] then s
    else
      var key := order[0];
      RetireAll(if key in s.jobs && s.jobs[key].owner == owner then Drop(s, key) else s, owner, order[1..])
  }

  function RetireStoppedOwner(s: State, owner: nat, order: seq<Key>): State {
    if owner == 0 then s
    else Schedule(RetireAll(Push(s, Delivering([], TransportStopped)), owner, order))
  }

  function AllTickets(s: State, order: seq<Key>): seq<nat> {
    if order == [] then []
    else (if order[0] in s.jobs then Tickets(s.jobs[order[0]].waiters) else []) + AllTickets(s, order[1..])
  }

  function JobSet(jobs: map<Key, Job>): set<Job> {
    jobs.Values
  }

  function Shutdown(s: State, order: seq<Key>): State {
    if s.stopped then s
    else
      s.(stopped := true, timer := None, jobs := map[], ticketKeys := map[], laneActive := map[], active := 0,
         policy := s.policy.(congestion := map[], external := {}),
         detached := s.detached + JobSet(s.jobs),
         stack := [Delivering(AllTickets(s, order), SchedulerStopped)] + s.stack)
  }

  function ResumeDelivering(s: State): State
    requires s.stack != [] && s.stack[0].Delivering?
  {
    var f := s.stack[0];
    if f.tickets == [] then Pop(s)
    else s.(stack := [Delivering(f.tickets[1..], f.outcome)] + s.stack[1..],
            log := s.log.(delivered := s.log.delivered + [Delivery(f.tickets[0], f.outcome)]))
  }

  // ---- reprioritize and the settings ----

  function Reprioritize(s: State, ticket: nat, priority: Priority): State {
    if ticket !in s.ticketKeys || s.ticketKeys[ticket] !in s.jobs then s
    else
      var key := s.ticketKeys[ticket];
      var job := s.jobs[key];
      if ticket in Tickets(job.waiters)
      then Schedule(WithJob(s, key, job.(waiters := WithPriority(job.waiters, ticket, priority))))
      else s
  }

  // Transport 0 is the null pointer.
  function ObserveExternal(s: State, transport: nat): State {
    if transport == 0 || s.stopped then s else s.(policy := s.policy.(external := s.policy.external + {transport}))
  }

  function ReleaseExternal(s: State, transport: nat): State {
    if transport in s.policy.external
    then Schedule(s.(policy := s.policy.(external := s.policy.external - {transport}))) else s
  }

  function SetMaxActive(s: State, count: int): State {
    Schedule(s.(policy := s.policy.(maxActive := Max(1, count))))
  }

  function SetLaneMaxActive(s: State, lane: Lane, count: int): State {
    if lane == "" then s else Schedule(s.(policy := s.policy.(laneLimits := s.policy.laneLimits[lane := Max(1, count)])))
  }

  // ---- Bandwidth and congestion ----

  function MinReal(a: real, b: real): real {
    if a <= b then a else b
  }

  // The credit at a later time, were nothing else to happen.
  function CreditAt(b: Budget, now: int): real {
    var elapsed := now - b.lastUpdate;
    if elapsed > 0 && b.limit > 0
    then MinReal(b.limit as real, b.credit + elapsed as real * b.limit as real / 1000.0)
    else b.credit
  }

  function Replenish(s: State, now: int): State {
    s.(budget := s.budget.(credit := CreditAt(s.budget, now), lastUpdate := now), clock := now)
  }

  function SetBandwidthLimit(s: State, bytesPerSecond: int, now: int): State {
    var s1 := Replenish(s, now);
    var next := Max(0, bytesPerSecond);
    if next == s1.budget.limit then s1
    else Schedule(s1.(budget := NewLimit(s1.budget, next, now), timer := None))
  }

  function NewLimit(b: Budget, next: int, now: int): Budget {
    Budget(next, now, if b.limit == 0 then next as real else MinReal(b.credit, next as real), now, 0)
  }

  function Charge(b: Budget, bytes: int): Budget {
    if bytes > 0 && b.limit > 0
    then b.(credit := b.credit - bytes as real, epochBytes := b.epochBytes + bytes) else b
  }

  function CongestionDelay(level: int): int {
    if level <= 1 then 500 else if level == 2 then 1000 else if level == 3 then 2000
    else if level == 4 then 4000 else 8000
  }

  function ReportTransfer(s: State, lane: Lane, bytes: int, congested: bool, now: int): State {
    if s.stopped then s
    else
      var s1 := Replenish(s, now);
      Schedule(s1.(budget := Charge(s1.budget, bytes),
                   policy := s1.policy.(congestion := NextCongestion(s1.policy.congestion, lane, congested, now))))
  }

  function NextCongestion(m: map<Lane, Congestion>, lane: Lane, congested: bool, now: int): map<Lane, Congestion> {
    if lane == "" then m
    else if congested then
      var level := Min(6, GetOr(m, lane, Congestion(0, 0)).level + 1);
      m[lane := Congestion(level, now + CongestionDelay(level))]
    else if lane in m then
      if m[lane].level - 1 <= 0 then m - {lane} else m[lane := m[lane].(level := m[lane].level - 1)]
    else m
  }

  // ---- finish ----

  function Finish(s: State, key: Key, sequence: nat, bytes: Bytes, error: string): State {
    if key !in s.jobs || s.jobs[key].sequence != sequence || !s.jobs[key].active then s
    else
      var job := s.jobs[key];
      var s1 := ReleaseSlot(s, job.lane);
      if job.aborting && job.waiters != [] && (error != "" || bytes == [])
      then Schedule(Restart(s1, key))
      else Schedule(Settle(s1, key, Finished(sequence, bytes, error)))
  }

  function Restart(s: State, key: Key): State
    requires key in s.jobs
  {
    s.(nextSequence := s.nextSequence + 1,
       jobs := s.jobs[key := s.jobs[key].(active := false, aborting := false, abort := false,
                                          sequence := s.nextSequence + 1)])
  }

  function Settle(s: State, key: Key, outcome: Outcome): State
    requires key in s.jobs
  {
    var job := s.jobs[key];
    s.(jobs := s.jobs - {key},
       detached := s.detached + {job.(waiters := [])},
       ticketKeys := s.ticketKeys - TicketSet(job.waiters),
       stack := [Delivering(Tickets(job.waiters), outcome)] + s.stack)
  }

  // ---- pump ----

  predicate Waiting(s: State, key: Key) {
    key in s.jobs && !s.jobs[key].active && s.jobs[key].waiters != []
  }

  // Waiting, and its lane has a free slot.
  predicate LaneOpen(s: State, key: Key) {
    && Waiting(s, key)
    && GetOr(s.laneActive, s.jobs[key].lane, 0) < GetOr(s.policy.laneLimits, s.jobs[key].lane, 1)
  }

  function RetryAfter(s: State, key: Key): int {
    if key in s.jobs && s.jobs[key].lane in s.policy.congestion then s.policy.congestion[s.jobs[key].lane].retryAfter else 0
  }

  predicate CoolingDown(s: State, key: Key, now: int) {
    key in s.jobs && s.jobs[key].lane in s.policy.congestion && s.policy.congestion[s.jobs[key].lane].retryAfter > now
  }

  predicate Eligible(s: State, key: Key, now: int) {
    LaneOpen(s, key) && !CoolingDown(s, key, now)
  }

  predicate Blocked(s: State, key: Key, now: int) {
    LaneOpen(s, key) && CoolingDown(s, key, now)
  }

  function EligibleKeys(s: State, now: int): set<Key> {
    set k | k in s.jobs && Eligible(s, k, now)
  }

  function BlockedKeys(s: State, now: int): set<Key> {
    set k | k in s.jobs && Blocked(s, k, now)
  }

  function SequenceOf(s: State, key: Key): int {
    if key in s.jobs then s.jobs[key].sequence else 0
  }

  function PriorityOf(s: State, key: Key): int {
    if key in s.jobs then TopPriority(s.jobs[key].waiters) else 0
  }

  ghost predicate IsOldest(s: State, keys: set<Key>, key: Key) {
    key in keys && forall k :: k in keys ==> SequenceOf(s, key) <= SequenceOf(s, k)
  }

  // Highest priority first, then the smaller sequence.
  ghost predicate IsPreferred(s: State, keys: set<Key>, key: Key) {
    && key in keys
    && forall k :: k in keys ==>
      PriorityOf(s, k) < PriorityOf(s, key)
      || (PriorityOf(s, k) == PriorityOf(s, key) && SequenceOf(s, key) <= SequenceOf(s, k))
  }

  ghost predicate IsFirstWake(s: State, now: int, wake: Option<int>) {
    match wake
    case None => BlockedKeys(s, now) == {}
    case Some(w) =>
      && (forall k :: k in BlockedKeys(s, now) ==> w <= RetryAfter(s, k) - now)
      && (exists k :: k in BlockedKeys(s, now) && w == RetryAfter(s, k) - now)
  }

  lemma OldestExists(s: State, keys: set<Key>)
    requires keys != {}
    ensures exists k :: IsOldest(s, keys, k)
  {
    LeastExists(keys, k => SequenceOf(s, k));
    var x :| x in keys && forall y :: y in keys ==> SequenceOf(s, x) <= SequenceOf(s, y);
    assert IsOldest(s, keys, x);
  }

  lemma PreferredExists(s: State, keys: set<Key>)
    requires keys != {}
    ensures exists k :: IsPreferred(s, keys, k)
  {
    LeastExists(keys, k => -PriorityOf(s, k));
    var top :| top in keys && forall y :: y in keys ==> -PriorityOf(s, top) <= -PriorityOf(s, y);
    var best := set k | k in keys && PriorityOf(s, k) == PriorityOf(s, top);
    assert top in best;
    OldestExists(s, best);
    var x :| IsOldest(s, best, x);
    assert forall k :: k in keys ==> PriorityOf(s, k) < PriorityOf(s, x) || k in best;
    assert IsPreferred(s, keys, x);
  }

  lemma FirstWakeExists(s: State, now: int)
    ensures exists w :: IsFirstWake(s, now, w)
  {
    var keys := BlockedKeys(s, now);
    if keys == {} {
      assert IsFirstWake(s, now, None);
    } else {
      LeastExists(keys, k => RetryAfter(s, k));
      var x :| x in keys && forall y :: y in keys ==> RetryAfter(s, x) <= RetryAfter(s, y);
      assert IsFirstWake(s, now, Some(RetryAfter(s, x) - now));
    }
  }

  ghost function Oldest(s: State, keys: set<Key>): (k: Key)
    requires keys != {}
    ensures IsOldest(s, keys, k)
  {
    OldestExists(s, keys);
    var k :| IsOldest(s, keys, k);
    k
  }

  ghost function Preferred(s: State, keys: set<Key>): (k: Key)
    requires keys != {}
    ensures IsPreferred(s, keys, k)
  {
    PreferredExists(s, keys);
    var k :| IsPreferred(s, keys, k);
    k
  }

  ghost function FirstWake(s: State, now: int): (w: Option<int>)
    ensures IsFirstWake(s, now, w)
  {
    FirstWakeExists(s, now);
    var w :| IsFirstWake(s, now, w);
    w
  }

  function ScheduleWakeup(s: State, delay: int, now: int): State {
    var wait := Min(Max(delay, 1), MAX_INT32);
    if s.timer.None? || s.timer.value - now > wait then s.(timer := Some(now + wait)) else s
  }

  function Ceil(x: real): int {
    -((-x).Floor)
  }

  function DebtDelay(b: Budget): int
    requires b.limit > 0
  {
    Min(Ceil(-b.credit * 1000.0 / b.limit as real), MAX_INT32)
  }

  function CheckOf(b: Budget, now: int): Check {
    Check(b.limit, b.epochBytes, now - b.epochStart)
  }

  // pump() up to its first callback.
  ghost function Pump(s: State, now: int): State {
    if s.stopped then s
    else
      var s1 := Replenish(s, now);
      if s1.budget.limit > 0 && s1.budget.credit < 0.0 then
        if exists k :: Waiting(s1, k) then ScheduleWakeup(s1, DebtDelay(s1.budget), now) else s1
      else PumpLoop(s1, now, CheckOf(s1.budget, now))
  }

  // One round of the admission loop.
  ghost function PumpLoop(s: State, now: int, check: Check): State {
    if s.active + |s.policy.external| >= s.policy.maxActive then s
    else
      var s1 := match FirstWake(s, now) case Some(w) => ScheduleWakeup(s, w, now) case None => s;
      var keys := EligibleKeys(s, now);
      if keys == {} then s1
      else
        var oldest := Oldest(s, keys);
        var preferred := Preferred(s, keys);
        var chosen := if preferred != oldest && s.bypasses >= MAX_PRIORITY_BYPASSES then oldest else preferred;
        Admit(s1.(bypasses := if chosen == oldest then 0 else s.bypasses + 1), chosen, check)
  }

  function Admit(s: State, key: Key, check: Check): State
    requires key in s.jobs
  {
    var job := s.jobs[key];
    s.(jobs := s.jobs[key := job.(active := true)],
       active := s.active + 1,
       laneActive := s.laneActive[job.lane := GetOr(s.laneActive, job.lane, 0) + 1],
       log := s.log.(admitted := s.log.admitted + [Admission(key, job.sequence, check)]),
       stack := [Fetching(key, job.id, job.kind.Cancelable?, check)] + s.stack)
  }

  // The provider's fetch has returned; `handle` tells whether it gave an abort handle.
  ghost function ResumeFetching(s: State, handle: bool, now: int): State
    requires s.stack != [] && s.stack[0].Fetching?
  {
    var f := s.stack[0];
    var s1 := Pop(s).(clock := now);
    if !f.cancelable then PumpLoop(s1, now, f.check)
    else if f.key in s.jobs && s.jobs[f.key].id == f.id then
      var job := s.jobs[f.key];
      if job.waiters == [] && handle && !job.aborting
      then Push(WithJob(s1, f.key, job.(abort := handle, aborting := true)), Aborting(f.check))
      else PumpLoop(WithJob(s1, f.key, job.(abort := handle)), now, f.check)
    else if handle && exists job :: job in s.detached && job.id == f.id && job.waiters == [] && !job.aborting
    then Push(s1, Aborting(f.check))
    else PumpLoop(s1, now, f.check)
  }

  ghost function ResumeAborting(s: State, now: int): State
    requires s.stack != [] && s.stack[0].Aborting?
  {
    PumpLoop(Pop(s).(clock := now), now, s.stack[0].check)
  }

  // ---- The transition system ----

  datatype Step =
    | Request(source: string, index: nat, lane: Lane, priority: Priority,
              fetch: Option<FetchKind>, hasDone: bool, owner: nat)
    | CancelTicket(ticket: nat)
    | Abandon(ticket: nat)
    | Retire(owner: nat, order: seq<Key>)
    | SetPriority(ticket: nat, priority: Priority)
    | Observe(transport: nat)
    | Release(transport: nat)
    | MaxActive(count: int)
    | LaneMaxActive(lane: Lane, count: int)
    | BandwidthLimit(bytesPerSecond: int, now: int)
    | Report(lane: Lane, networkBytes: int, congested: bool, now: int)
    | Complete(key: Key, sequence: nat, bytes: Bytes, error: string)
    | Stop(order: seq<Key>)
    | RunPump(now: int)        // the event posted by schedule()
    | TimerFires(now: int)
    | Resume(handle: bool, now: int)

  ghost predicate Enabled(s: State, step: Step) {
    match step
    case Retire(_, order) => Enumerates(order, s.jobs.Keys)
    case Stop(order) => Enumerates(order, s.jobs.Keys)
    case BandwidthLimit(_, now) => now >= s.clock
    case Report(_, _, _, now) => now >= s.clock
    case RunPump(now) => s.scheduled && now >= s.clock
    case TimerFires(now) => s.timer.Some? && now >= s.timer.value && now >= s.clock
    case Resume(_, now) => s.stack != [] && now >= s.clock
    case _ => true
  }

  ghost function Apply(s: State, step: Step): State
    requires Enabled(s, step)
  {
    match step
    case Request(source, index, lane, priority, fetch, hasDone, owner) =>
      AddWaiter(s, source, index, lane, priority, fetch, hasDone, owner).0
    case CancelTicket(ticket) => Cancel(s, ticket)
    case Abandon(ticket) => AbandonStopped(s, ticket)
    case Retire(owner, order) => RetireStoppedOwner(s, owner, order)
    case SetPriority(ticket, priority) => Reprioritize(s, ticket, priority)
    case Observe(transport) => ObserveExternal(s, transport)
    case Release(transport) => ReleaseExternal(s, transport)
    case MaxActive(count) => SetMaxActive(s, count)
    case LaneMaxActive(lane, count) => SetLaneMaxActive(s, lane, count)
    case BandwidthLimit(bytes, now) => SetBandwidthLimit(s, bytes, now)
    case Report(lane, bytes, congested, now) => ReportTransfer(s, lane, bytes, congested, now)
    case Complete(key, sequence, bytes, error) => Finish(s, key, sequence, bytes, error)
    case Stop(order) => Shutdown(s, order)
    case RunPump(now) => Pump(s.(scheduled := false, clock := now), now)
    case TimerFires(now) => Schedule(s.(timer := None, clock := now))
    case Resume(handle, now) => ResumeTop(s, handle, now)
  }

  ghost function ResumeTop(s: State, handle: bool, now: int): State
    requires s.stack != []
  {
    match s.stack[0]
    case Cancelling(_) => ResumeCancelling(s)
    case Abandoning(_, _, _) => ResumeAbandoning(s)
    case Delivering(_, _) => ResumeDelivering(s)
    case Fetching(_, _, _, _) => ResumeFetching(s, handle, now)
    case Aborting(_) => ResumeAborting(s, now)
  }

  // A run: states[0], then one step after another.
  ghost predicate IsRun(states: seq<State>, steps: seq<Step>) {
    && |states| == |steps| + 1
    && forall i :: 0 <= i < |steps| ==>
      Enabled(states[i], steps[i]) && states[i + 1] == Apply(states[i], steps[i])
  }
}
