// Where delivered data comes from: over every run, from the completion of a fetch for the very
// chunk the ticket was requested for.
module SchedulerProvenance {
  import opened Basics
  import opened SchedulerState
  import opened SchedulerInvariant
  import opened SchedulerSteps
  import opened SchedulerFairness
  import opened SchedulerCalls

  // Every admission in the log that carries a job's attempt was made for that job's key.
  ghost predicate Keyed(jobs: map<Key, Job>, log: seq<Admission>) {
    forall k, i :: k in jobs && 0 <= i < |log| && log[i].sequence == jobs[k].sequence ==> log[i].key == k
  }

  lemma KeyedEvolves(s: State, r: State)
    requires Inv(s) && Keyed(s.jobs, s.log.admitted) && Evolves(s, r) && r.log.admitted == s.log.admitted
    ensures Keyed(r.jobs, r.log.admitted)
  {
    hide FramesRightful, DeliveriesRightful, FramesSound, AdmissionsSound, CreditSound, Slots,
         JoinedKnown, AbortsKnown, Conserved, Linked, Admitted;
  }

  lemma KeyedAdmission(s: State, now: int, check: Check)
    requires Inv(s) && Keyed(s.jobs, s.log.admitted) && PumpLoop(s, now, check).log.admitted != s.log.admitted
    ensures var r := PumpLoop(s, now, check); Keyed(r.jobs, r.log.admitted)
  {
    hide FramesRightful, DeliveriesRightful, FramesSound, AdmissionsSound, CreditSound, Slots, PumpLoop, Eligible, IsOldest,
         JoinedKnown, AbortsKnown, Conserved, Linked, Admitted;
    var chosen := AdmissionChoice(s, now, check);
  }

  lemma StepKeyed(s: State, step: Step)
    requires Inv(s) && Enabled(s, step) && Keyed(s.jobs, s.log.admitted)
    ensures var r := Apply(s, step); Keyed(r.jobs, r.log.admitted)
  {
    hide Core, Enabled, PumpLoop, Apply, JobsEvolve, Keyed;
    var mid, check := StepSplits(s, step);
    var r := Apply(s, step);
    StepEvolves(s, step);
    if r.log.admitted == s.log.admitted {
      KeyedEvolves(s, r);
    } else {
      SameViewEvolves(s, mid);
      KeyedEvolves(s, mid);
      KeyedAdmission(mid, StepTime(step), check);
    }
  }

  // ---- Runs ----

  lemma {:induction false} RunKeyed(states: seq<State>, steps: seq<Step>, n: nat)
    requires IsRun(states, steps) && states[0] == INITIAL && n < |states|
    ensures Keyed(states[n].jobs, states[n].log.admitted)
  {
    hide Apply, Enabled, Inv;
    if n > 0 {
      RunKeyed(states, steps, n - 1);
      RunKeeps(states, steps, n - 1);
      StepKeyed(states[n - 1], steps[n - 1]);
    }
  }

  ghost predicate AdmittedFor(log: seq<Admission>, key: Key, sequence: nat) {
    exists i :: 0 <= i < |log| && log[i].key == key && log[i].sequence == sequence
  }

  // The attempt that answers a ticket with data was admitted for the chunk the ticket is registered for.
  lemma DecidingAttempt(s: State, step: Step, t: nat, o: Outcome)
    requires Inv(s) && Keyed(s.jobs, s.log.admitted) && Answers(s, step, t, o) && o.Finished?
    ensures step == Complete(s.ticketKeys[t], o.sequence, o.bytes, o.error)
    ensures AdmittedFor(s.log.admitted, s.ticketKeys[t], o.sequence)
  {
    hide FramesRightful, DeliveriesRightful, FramesSound, AdmissionsSound, CreditSound, Slots,
         JoinedKnown, AbortsKnown, Conserved;
  }

  // Data handed to a ticket is what a provider reported, at some earlier step, for an attempt
  // that was admitted for the chunk named in the request that issued the ticket.
  lemma DataIsWhatWasRequested(states: seq<State>, steps: seq<Step>, n: nat, i: nat) returns (a: nat, m: nat)
    requires IsRun(states, steps) && states[0] == INITIAL && n < |states|
    requires i < |states[n].log.delivered| && states[n].log.delivered[i].outcome.Finished?
    ensures var d := states[n].log.delivered[i];
      && a < m < n && IssuesTicket(states[a], steps[a], d.ticket)
      && var key := MakeKey(steps[a].source, steps[a].index);
         && steps[m] == Complete(key, d.outcome.sequence, d.outcome.bytes, d.outcome.error)
         && AdmittedFor(states[m].log.admitted, key, d.outcome.sequence)
  {
    hide Apply, Enabled, Inv, Keyed, MakeKey, Answers, AdmittedFor;
    var d := states[n].log.delivered[i];
    assert Delivery(d.ticket, d.outcome) in states[n].log.delivered;
    AnsweredForAReason(states, steps, n, d.ticket, d.outcome);
    m :| 0 <= m < n && Answers(states[m], steps[m], d.ticket, d.outcome);
    RunKeeps(states, steps, m);
    RunKeyed(states, steps, m);
    AnswersRegistered(states[m], steps[m], d.ticket, d.outcome);
    DecidingAttempt(states[m], steps[m], d.ticket, d.outcome);
    a := TicketsAreIssued(states, steps, m, d.ticket);
  }

  lemma AnswersRegistered(s: State, step: Step, t: nat, o: Outcome)
    requires Answers(s, step, t, o)
    ensures t in s.ticketKeys
  {
  }
}
