// What becomes of every reply of a reader, and why a connection ends.
module RangeReplies {
  import opened Basics
  import opened RangePump

  // A reply that is sent on: the read did not fail and delivered some of the bytes asked for.
  predicate Good(reply: Reply, length: int) {
    !reply.failed && 0 < |reply.bytes| <= length
  }

  // The pump looks when bytes were written and when its timer fires. It does something if no read is
  // pending and at most 128 KiB are unsent.
  predicate Looks(s: Pump, e: Event) {
    && s.connected && !s.pending
    && match e
       case BytesWritten(count, _) => s.unsent - count <= 131072
       case TimerFires(_) => s.unsent <= 131072
       case _ => false
  }

  predicate StartsRead(s: Pump, e: Event) {
    Looks(s, e) && s.ownerAlive && s.pos <= s.range.end
  }

  // The next read: where the body stands, at most 64 KiB, and with priority if it is the first.
  function NextRead(s: Pump): ReadCall {
    var left := s.range.end + 1 - s.pos;
    ReadCall(s.pos, if left <= 65536 then left else 65536, s.log.calls == [])
  }

  // The reply that reaches a live connection in an event, and the read it answers.
  function ReplyIn(s: Pump, e: Event): Option<Reply> {
    match e
    case ReadCompletes(reply) => if s.connected then Some(reply) else None
    case BytesWritten(_, sync) => if StartsRead(s, e) then sync else None
    case TimerFires(sync) => if StartsRead(s, e) then sync else None
    case _ => None
  }

  predicate GoodReply(s: Pump, e: Event) {
    ReplyIn(s, e).Some? && Good(ReplyIn(s, e).value, NextRead(s).length)
  }

  predicate BadReply(s: Pump, e: Event) {
    ReplyIn(s, e).Some? && !Good(ReplyIn(s, e).value, NextRead(s).length)
  }

  // What waits in the socket after an event, leaving aside what the event writes.
  function Unsent(s: Pump, e: Event): int {
    if e.BytesWritten? then s.unsent - e.count else s.unsent
  }

  // The bytes are sent: appended to the body, after the response if that is not out yet. The position
  // moves behind them, the connection goes on and the pump will look again.
  predicate Sent(s: Pump, r: Pump, unsent: int, bytes: Bytes) {
    && r.log.body == s.log.body + bytes && r.pos == s.pos + |bytes| && r.response == []
    && r.unsent == unsent + |s.response| + |bytes|
    && r.connected && r.ending == Ongoing && !r.pending && r.timers > 0 && r.log.errorSent == s.log.errorSent
  }

  // The connection ends, with an error in place of the response if that is not out yet.
  predicate Refused(s: Pump, r: Pump, unsent: int) {
    && r.log.body == s.log.body && r.pos == s.pos && !r.connected && r.ending == Failed
    && r.log.errorSent == (s.log.errorSent || s.response != [])
    && r.unsent == unsent + (if s.response != [] then UNAVAILABLE_SIZE else 0)
  }

  // The error takes as many bytes as it has characters.
  lemma ErrorLength()
    ensures |"HTTP/1.1 503 Unavailable\r\nContent-Length: 0\r\nConnection: close\r\n\r\n"| == UNAVAILABLE_SIZE
  {
  }

  predicate NothingSent(s: Pump, r: Pump, unsent: int) {
    && r.log.body == s.log.body && r.pos == s.pos && r.response == s.response && r.unsent == unsent
    && r.log.errorSent == s.log.errorSent
  }

  // Every reply that reaches a live connection is sent if it is good, and ends the connection if it is
  // not; without a reply nothing is sent.
  lemma RepliesAreSent(s: Pump, e: Event)
    requires Inv(s) && Enabled(s, e)
    ensures GoodReply(s, e) ==> Sent(s, Apply(s, e), Unsent(s, e), ReplyIn(s, e).value.bytes)
    ensures BadReply(s, e) ==> Refused(s, Apply(s, e), Unsent(s, e))
    ensures ReplyIn(s, e).None? ==> NothingSent(s, Apply(s, e), Unsent(s, e))
  {
    hide BodyIsPrefix, ReadOk, Pumped, Completed;
    match e
    case BytesWritten(count, sync) => PumpSends(s, s.(unsent := s.unsent - count), e, sync);
    case TimerFires(sync) => PumpSends(s, s.(timers := s.timers - 1), e, sync);
    case ReadCompletes(reply) => CompletionSends(s, LastCall(s).length, reply);
    case _ =>
  }

  // In the event the pump is called, in state t.
  predicate WakesPump(s: Pump, t: Pump, e: Event, sync: Option<Reply>) {
    match e
    case BytesWritten(count, reply) => reply == sync && count <= s.unsent && t == s.(unsent := s.unsent - count)
    case TimerFires(reply) => reply == sync && t == s.(timers := t.timers)
    case _ => false
  }

  lemma CompletionSends(s: Pump, length: int, reply: Reply)
    requires s.connected <==> s.ending == Ongoing
    ensures var r := Completed(s, length, reply);
      && (s.connected && Good(reply, length) ==> Sent(s, r, s.unsent, reply.bytes))
      && (s.connected && !Good(reply, length) ==> Refused(s, r, s.unsent))
      && (!s.connected ==> NothingSent(s, r, s.unsent))
  {
  }

  lemma PumpSends(s: Pump, t: Pump, e: Event, sync: Option<Reply>)
    requires Inv(s) && Enabled(s, e)
    requires WakesPump(s, t, e, sync)
    ensures var r := Pumped(t, sync);
      && (GoodReply(s, e) ==> Sent(s, r, Unsent(s, e), ReplyIn(s, e).value.bytes))
      && (BadReply(s, e) ==> Refused(s, r, Unsent(s, e)))
      && (ReplyIn(s, e).None? ==> NothingSent(s, r, Unsent(s, e)))
  {
    hide BodyIsPrefix, ReadsInOrder, LittleUnsent, Completed, Good;
    if StartsRead(s, e) && sync.Some? {
      CompletionSends(StartRead(t), Requested(t), sync.value);
    }
  }

  // The reads asked for: whenever the pump looks and there is more to send, exactly the next one.
  lemma ReadsAreAskedFor(s: Pump, e: Event)
    requires Inv(s) && Enabled(s, e)
    ensures Apply(s, e).log.calls == s.log.calls + (if StartsRead(s, e) then [NextRead(s)] else [])
  {
    hide BodyIsPrefix, ReadOk, LittleUnsent, Pumped, Completed;
    match e
    case BytesWritten(count, sync) => PumpAsks(s.(unsent := s.unsent - count), sync);
    case TimerFires(sync) => PumpAsks(s.(timers := s.timers - 1), sync);
    case ReadCompletes(reply) => CompletedCalls(s, LastCall(s).length, reply);
    case _ =>
  }

  lemma PumpAsks(s: Pump, sync: Option<Reply>)
    requires s.firstRead <==> s.log.calls == []
    ensures Pumped(s, sync).log.calls
            == s.log.calls + (if s.connected && !s.pending && s.unsent <= 131072 && s.ownerAlive && s.pos <= s.range.end
                              then [NextRead(s)] else [])
  {
    hide Completed;
    if sync.Some? {
      CompletedCalls(StartRead(s), Requested(s), sync.value);
    }
  }

  // Why a live connection ends: a bad reply; the pump looks and all is sent, or its provider is gone;
  // or the socket is closed from outside. Nothing changes how it has ended.
  lemma EndingsAreDue(s: Pump, e: Event)
    requires Inv(s) && Enabled(s, e)
    ensures var r := Apply(s, e);
      && (r.ending == Failed <==> s.ending == Failed || BadReply(s, e))
      && (r.ending == Complete <==> s.ending == Complete || (Looks(s, e) && s.ownerAlive && s.pos == s.range.end + 1))
      && (r.ending == Unavailable <==> s.ending == Unavailable || (Looks(s, e) && !s.ownerAlive))
      && (r.ending == Closed <==> s.ending == Closed || (s.connected && (e.Disconnected? || e.OwnerDestroyed?)))
  {
    hide ReadOk, Pumped, Completed, Good, ReadsInOrder, LittleUnsent;
    match e
    case BytesWritten(count, sync) => PumpEnds(s, s.(unsent := s.unsent - count), e, sync);
    case TimerFires(sync) => PumpEnds(s, s.(timers := s.timers - 1), e, sync);
    case ReadCompletes(reply) => LastIsNext(s); CompletionEnds(s, LastCall(s).length, reply);
    case _ =>
  }

  // The read in flight on a live connection is the next one.
  lemma LastIsNext(s: Pump)
    requires Inv(s) && s.log.inFlight
    ensures s.log.calls != [] && (s.connected ==> LastCall(s).length == NextRead(s).length)
  {
    hide BodyIsPrefix, ReadOk, LittleUnsent;
  }

  lemma CompletionEnds(s: Pump, length: int, reply: Reply)
    ensures Completed(s, length, reply).ending == if s.connected && !Good(reply, length) then Failed else s.ending
  {
  }

  lemma PumpEnds(s: Pump, t: Pump, e: Event, sync: Option<Reply>)
    requires Inv(s) && Enabled(s, e)
    requires WakesPump(s, t, e, sync)
    ensures Pumped(t, sync).ending
            == if !Looks(s, e) then s.ending
               else if !s.ownerAlive then Unavailable
               else if s.pos == s.range.end + 1 then Complete
               else if BadReply(s, e) then Failed
               else s.ending
    ensures BadReply(s, e) ==> Looks(s, e) && s.ownerAlive && s.pos <= s.range.end
  {
    hide ReadsInOrder, LittleUnsent, Completed, Good;
    if StartsRead(s, e) && sync.Some? {
      CompletionEnds(StartRead(t), Requested(t), sync.value);
    }
  }

  // Over every run: the connection has ended as failed if and only if a reply that reached it had
  // failed, was empty or was longer than asked for.
  lemma {:induction false} FailureHasAReason(states: seq<Pump>, events: seq<Event>, k: nat)
    requires IsRun(states, events) && Inv(states[0]) && states[0].ending != Failed && k < |states|
    ensures states[k].ending == Failed <==> exists j :: 0 <= j < k && BadReply(states[j], events[j])
  {
    hide Inv, Apply, Enabled, TruthfulEvent, BadReply;
    if k > 0 {
      FailureHasAReason(states, events, k - 1);
      RunKeeps(states, events, k - 1);
      assert states[k - 1 + 1] == Apply(states[k - 1], events[k - 1]);
      EndingsAreDue(states[k - 1], events[k - 1]);
    }
  }

  // ---- Cancelling ----

  // A live connection holds the handle of the read in flight, and no other.
  predicate HoldsItsRead(s: Pump) {
    s.handle <==> s.log.inFlight && s.connected
  }

  // A read in flight is cancelled exactly when its connection is closed from outside.
  lemma ReadsAreCancelled(s: Pump, e: Event)
    requires Inv(s) && Enabled(s, e) && HoldsItsRead(s)
    ensures var r := Apply(s, e);
      && HoldsItsRead(r)
      && r.log.cancels == s.log.cancels + (if s.connected && s.log.inFlight && (e.Disconnected? || e.OwnerDestroyed?)
                                           then 1 else 0)
  {
    hide BodyIsPrefix, ReadOk, LittleUnsent;
  }

  // The first read is asked for when the connection starts, and its reply, if it is already there,
  // is treated like any other.
  lemma StartReads(range: Range, response: Bytes, sync: Option<Reply>)
    requires range.start <= range.end < |range.content| && 0 < |response| <= MAX_RESPONSE
    ensures var s := Initial(range, response);
      var r := Pumped(s, sync);
      && r.log.calls == [NextRead(s)] && HoldsItsRead(r)
      && (sync.None? ==> r.log.inFlight && r.ending == Ongoing && r.log.body == [] && r.unsent == 0)
      && (sync.Some? && Good(sync.value, NextRead(s).length) ==>
            && r.log.body == sync.value.bytes && r.pos == range.start + |sync.value.bytes| && r.ending == Ongoing
            && r.unsent == |response| + |sync.value.bytes| && r.timers > 0)
      && (sync.Some? && !Good(sync.value, NextRead(s).length) ==>
            r.ending == Failed && r.log.body == [] && r.log.errorSent)
  {
  }
}
