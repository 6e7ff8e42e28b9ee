// Sending the body of a range response: one asynchronous read at a time, started while little
// is unsent, under any interleaving of completions, socket events and timers.
module RangePump {
  import opened Basics
  import MediaRange

  const LOW_WATER := 128 * 1024
  const MAX_READ := 64 * 1024
  const MAX_RESPONSE := 300

  datatype ReadCall = ReadCall(at: int, length: int, prioritize: bool)

  // How a connection ended: the body was complete, a read failed, the provider went away, or
  // the socket was closed from outside.
  datatype Ending = Ongoing | Complete | Failed | Unavailable | Closed

  // The bytes start to end of the content, both included.
  datatype Range = Range(content: Bytes, start: nat, end: int)

  // What has happened: the body and the error reply that were written, the reads asked for,
  // whether the last of them is still to complete, and how often a cancel handle was used.
  datatype Log = Log(body: Bytes, errorSent: bool, calls: seq<ReadCall>, inFlight: bool, cancels: nat)

  // The state of one connection; `response` is what still precedes the body.
  datatype Pump = Pump(
    range: Range, pos: int, pending: bool, firstRead: bool, response: Bytes, handle: bool,
    connected: bool, ownerAlive: bool, unsent: nat, timers: nat, ending: Ending, log: Log)

  // What a read completes with. A failed read has an error; a good one delivers some of the
  // bytes asked for.
  datatype Reply = Reply(bytes: Bytes, failed: bool)

  datatype Event =
    | BytesWritten(count: nat, sync: Option<Reply>)
    | TimerFires(sync: Option<Reply>)
    | ReadCompletes(reply: Reply)
    | Disconnected
    | OwnerDestroyed

  const UNAVAILABLE_SIZE := 66

  // ---- What happens ----

  predicate MayPump(s: Pump) {
    s.connected && !s.pending && s.unsent <= LOW_WATER
  }

  function LastCall(s: Pump): ReadCall
    requires s.log.calls != []
  {
    s.log.calls[|s.log.calls| - 1]
  }

  function Requested(s: Pump): int {
    Min(MAX_READ, s.range.end - s.pos + 1)
  }

  function StartRead(s: Pump): Pump {
    s.(pending := true, firstRead := false,
       log := s.log.(inFlight := true, calls := s.log.calls + [ReadCall(s.pos, Requested(s), s.firstRead)]))
  }

  // The completion of a read of `requested` bytes.
  function Completed(s: Pump, requested: int, reply: Reply): Pump {
    var t := s.(handle := false, log := s.log.(inFlight := false));
    if !s.connected then t
    else if reply.failed || reply.bytes == [] || |reply.bytes| > requested then
      if s.response != [] then
        t.(pending := false, log := t.log.(errorSent := true), unsent := s.unsent + UNAVAILABLE_SIZE, connected := false,
           ending := Failed)
      else t.(pending := false, connected := false, ending := Failed)
    else
      t.(pending := false, response := [], unsent := s.unsent + |s.response| + |reply.bytes|,
         log := t.log.(body := s.log.body + reply.bytes), pos := s.pos + |reply.bytes|, timers := s.timers + 1)
  }

  // The pump. The reader may complete before it returns its cancel handle.
  function Pumped(s: Pump, sync: Option<Reply>): Pump {
    if !MayPump(s) then s
    else if !s.ownerAlive then s.(connected := false, ending := Unavailable)
    else if s.pos > s.range.end then s.(connected := false, ending := Complete)
    else
      var t := StartRead(s);
      var u := if sync.Some? then Completed(t, Requested(s), sync.value) else t;
      if u.pending then u.(handle := true) else u
  }

  predicate Enabled(s: Pump, e: Event) {
    match e
    case BytesWritten(count, _) => 0 < count <= s.unsent
    case TimerFires(_) => s.timers > 0
    case ReadCompletes(_) => s.log.inFlight && s.log.calls != []
    case Disconnected => true
    case OwnerDestroyed => true
  }

  function Disconnect(s: Pump): Pump {
    s.(connected := false, handle := false, log := s.log.(cancels := s.log.cancels + (if s.handle then 1 else 0)),
       ending := if s.ending == Ongoing then Closed else s.ending)
  }

  function Apply(s: Pump, e: Event): Pump
    requires Enabled(s, e)
  {
    match e
    case BytesWritten(count, sync) => Pumped(s.(unsent := s.unsent - count), sync)
    case TimerFires(sync) => Pumped(s.(timers := s.timers - 1), sync)
    case ReadCompletes(reply) => Completed(s, LastCall(s).length, reply)
    case Disconnected => Disconnect(s)
    case OwnerDestroyed => Disconnect(s.(ownerAlive := false))
  }

  function Initial(range: Range, response: Bytes): Pump {
    Pump(range, range.start, false, true, response, false, true, true, 0, 0, Ongoing, Log([], false, [], false, 0))
  }

  // ---- Readers that tell the truth ----

  // A good reply to a read at `at` holds the content there.
  predicate Truthful(content: Bytes, at: int, length: int, reply: Reply) {
    !reply.failed && |reply.bytes| <= length ==>
      0 <= at && at + |reply.bytes| <= |content| && reply.bytes == content[at..at + |reply.bytes|]
  }

  predicate TruthfulEvent(s: Pump, e: Event) {
    match e
    case BytesWritten(_, Some(reply)) => Truthful(s.range.content, s.pos, Requested(s), reply)
    case TimerFires(Some(reply)) => Truthful(s.range.content, s.pos, Requested(s), reply)
    case ReadCompletes(reply) =>
      s.log.calls != [] ==> Truthful(s.range.content, LastCall(s).at, LastCall(s).length, reply)
    case _ => true
  }

  // ---- What always holds ----

  // Where the body stands.
  predicate BodyIsPrefix(s: Pump) {
    && s.range.start <= s.pos <= s.range.end + 1 <= |s.range.content| && s.range.start <= s.range.end + 1
    && s.log.body == s.range.content[s.range.start..s.pos]
    && (s.ending == Complete ==> s.pos == s.range.end + 1)
  }

  // The bookkeeping of reads.
  predicate ReadsInOrder(s: Pump) {
    && (s.log.inFlight ==> s.pending && s.log.calls != [])
    && (s.pending && s.connected ==> s.log.inFlight)
    && (s.handle ==> s.log.inFlight)
    && (s.firstRead <==> s.log.calls == [])
    && (s.log.inFlight && s.connected ==> LastCall(s).at == s.pos && LastCall(s).length == Requested(s))
    && (forall i :: 0 <= i < |s.log.calls| ==> ReadOk(s, s.log.calls[i], i))
  }

  // Reads stay in the range and are never long; only the first asks for priority.
  predicate ReadOk(s: Pump, r: ReadCall, i: int) {
    s.range.start <= r.at && 0 < r.length <= MAX_READ && r.at + r.length <= s.range.end + 1 && (r.prioritize <==> i == 0)
  }

  predicate LittleUnsent(s: Pump) {
    && |s.response| <= MAX_RESPONSE
    && (s.pending && s.connected ==> s.unsent <= LOW_WATER)
    && (s.response != [] ==> s.log.body == [] && (s.connected ==> s.unsent == 0))
    && s.unsent <= LOW_WATER + MAX_READ
  }

  // Something is always going to call the pump again.
  predicate NotStalled(s: Pump) {
    && (s.connected <==> s.ending == Ongoing)
    && (s.connected && !s.pending ==> s.timers > 0 || s.unsent > LOW_WATER)
  }

  predicate Inv(s: Pump) {
    BodyIsPrefix(s) && ReadsInOrder(s) && LittleUnsent(s) && NotStalled(s)
  }

  // The state in which the connection starts: the first call of the pump has been made.
  lemma StartKeeps(range: Range, response: Bytes, sync: Option<Reply>)
    requires range.start <= range.end < |range.content| && 0 < |response| <= MAX_RESPONSE
    requires sync.Some? ==> Truthful(range.content, range.start, Requested(Initial(range, response)), sync.value)
    ensures Inv(Pumped(Initial(range, response), sync))
  {
    var s := Initial(range, response);
    PumpedKeeps(s, sync);
  }

  lemma StartReadKeeps(s: Pump)
    requires BodyIsPrefix(s) && ReadsInOrder(s) && LittleUnsent(s) && (s.connected <==> s.ending == Ongoing)
    requires MayPump(s) && s.pos <= s.range.end
    ensures Inv(StartRead(s)) && StartRead(s).connected && StartRead(s).log.inFlight
  {
    var t := StartRead(s);
    forall i | 0 <= i < |t.log.calls| ensures ReadOk(t, t.log.calls[i], i) {
      if i < |s.log.calls| {
        assert ReadOk(s, s.log.calls[i], i);
      }
    }
  }

  lemma CompletedKeeps(s: Pump, reply: Reply)
    requires Inv(s) && s.log.inFlight
    requires Truthful(s.range.content, LastCall(s).at, LastCall(s).length, reply)
    ensures Inv(Completed(s, LastCall(s).length, reply))
    ensures s.connected ==> !Completed(s, LastCall(s).length, reply).pending
  {
    var last := LastCall(s);
    var t := Completed(s, last.length, reply);
    assert ReadOk(s, last, |s.log.calls| - 1);
    forall i | 0 <= i < |t.log.calls| ensures ReadOk(t, t.log.calls[i], i) {
      assert ReadOk(s, s.log.calls[i], i);
    }
    if s.connected && !reply.failed && reply.bytes != [] && |reply.bytes| <= last.length {
      var content, end := s.range.content, s.pos + |reply.bytes|;
      assert content[s.range.start..s.pos] + content[s.pos..end] == content[s.range.start..end];
    }
  }

  lemma PumpedKeeps(s: Pump, sync: Option<Reply>)
    requires BodyIsPrefix(s) && ReadsInOrder(s) && LittleUnsent(s) && (s.connected <==> s.ending == Ongoing)
    requires sync.Some? ==> Truthful(s.range.content, s.pos, Requested(s), sync.value)
    ensures Inv(Pumped(s, sync))
  {
    hide BodyIsPrefix, LittleUnsent, ReadOk, Truthful;
    if MayPump(s) && s.ownerAlive && s.pos <= s.range.end {
      StartReadKeeps(s);
      var t := StartRead(s);
      if sync.Some? {
        CompletedKeeps(t, sync.value);
      }
      HandleKeeps(if sync.Some? then Completed(t, Requested(s), sync.value) else t);
    } else {
      EndKeeps(s);
    }
  }

  lemma EndKeeps(s: Pump)
    requires BodyIsPrefix(s) && ReadsInOrder(s) && LittleUnsent(s) && (s.connected <==> s.ending == Ongoing)
    requires !(MayPump(s) && s.ownerAlive && s.pos <= s.range.end)
    ensures Inv(Pumped(s, None)) && Pumped(s, None) == Pumped(s, Some(Reply([], true)))
    ensures forall sync :: Pumped(s, sync) == Pumped(s, None)
  {
    var t := Pumped(s, None);
    forall i | 0 <= i < |t.log.calls| ensures ReadOk(t, t.log.calls[i], i) {
      assert ReadOk(s, s.log.calls[i], i);
    }
  }

  lemma HandleKeeps(s: Pump)
    requires Inv(s)
    ensures s.log.inFlight ==> Inv(s.(handle := true))
  {
    var t := s.(handle := true);
    forall i | 0 <= i < |t.log.calls| ensures ReadOk(t, t.log.calls[i], i) {
      assert ReadOk(s, s.log.calls[i], i);
    }
  }

  // Every event keeps all of it.
  lemma StepKeeps(s: Pump, e: Event)
    requires Inv(s) && Enabled(s, e) && TruthfulEvent(s, e)
    ensures Inv(Apply(s, e))
  {
    hide Pumped, Completed, ReadOk;
    match e {
      case BytesWritten(count, sync) =>
        var t := s.(unsent := s.unsent - count);
        SameReads(s, t);
        PumpedKeeps(t, sync);
      case TimerFires(sync) =>
        var t := s.(timers := s.timers - 1);
        SameReads(s, t);
        PumpedKeeps(t, sync);
      case ReadCompletes(reply) =>
        CompletedKeeps(s, reply);
      case Disconnected =>
        SameReads(s, Disconnect(s));
      case OwnerDestroyed =>
        SameReads(s, Disconnect(s.(ownerAlive := false)));
    }
  }

  lemma SameReads(s: Pump, t: Pump)
    requires t.log.calls == s.log.calls && t.range == s.range && ReadsInOrder(s)
    ensures forall i :: 0 <= i < |t.log.calls| ==> ReadOk(t, t.log.calls[i], i)
  {
    forall i | 0 <= i < |t.log.calls| ensures ReadOk(t, t.log.calls[i], i) {
      assert ReadOk(s, s.log.calls[i], i);
    }
  }

  // ---- Runs ----

  predicate IsRun(states: seq<Pump>, events: seq<Event>) {
    && |states| == |events| + 1
    && forall i :: 0 <= i < |events| ==>
         Enabled(states[i], events[i]) && TruthfulEvent(states[i], events[i]) && states[i + 1] == Apply(states[i], events[i])
  }

  // Over every run: at most one read is in flight, at most 192 KiB are unsent, the body is a
  // prefix of the range, and is all of it if the connection was closed as complete.
  lemma {:induction false} RunKeeps(states: seq<Pump>, events: seq<Event>, k: nat)
    requires IsRun(states, events) && Inv(states[0]) && k < |states|
    ensures var s := states[k];
      && Inv(s) && s.range == states[0].range
      && s.unsent <= 192 * 1024
      && s.log.body <= s.range.content[s.range.start..s.range.end + 1]
      && (s.ending == Complete ==>
            s.log.body == s.range.content[s.range.start..s.range.end + 1]
            && |s.log.body| == s.range.end + 1 - s.range.start)
  {
    hide Apply, Enabled, TruthfulEvent;
    if k > 0 {
      RunKeeps(states, events, k - 1);
      assert states[k - 1 + 1] == Apply(states[k - 1], events[k - 1]);
      StepKeeps(states[k - 1], events[k - 1]);
      RangeIsFixed(states[k - 1], events[k - 1]);
    }
    PrefixOfRange(states[k]);
  }

  // The response, as bytes.
  function Latin1(s: string): (b: Bytes)
    ensures |b| == |s|
  {
    if s == "" then [] else [s[0] as int % 256] + Latin1(s[1..])
  }

  // What serve() sets up for a range of the content it has answered with.
  function Served(content: Bytes, start: nat, end: nat, ranged: bool): Pump
    requires start <= end < |content|
  {
    Initial(Range(content, start, end), Latin1(MediaRange.Response(start, end, ranged, |content|)))
  }

  // From the answer to a request to its end: over every run of a connection that serve() starts,
  // the body is a prefix of the range answered with, and when the connection closes as complete its
  // length is the number in the Content-Length line of the response.
  lemma ServedRunKeeps(content: Bytes, start: nat, end: nat, ranged: bool, sync: Option<Reply>,
                       states: seq<Pump>, events: seq<Event>, k: nat)
    requires start <= end < |content| <= MAX_INT64 && IsRun(states, events) && k < |states|
    requires sync.Some? ==> Truthful(content, start, Requested(Served(content, start, end, ranged)), sync.value)
    requires states[0] == Pumped(Served(content, start, end, ranged), sync)
    ensures var s := states[k];
      && s.unsent <= 192 * 1024 && s.log.body <= content[start..end + 1]
      && (s.ending == Complete ==>
            && s.log.body == content[start..end + 1]
            && MediaRange.Response(start, end, ranged, |content|)
               == MediaRange.StatusLines(ranged) + MediaRange.LengthLine(|s.log.body|)
                  + (if ranged then MediaRange.RangeLine(start, end, |content|) else "") + "\r\n")
  {
    hide Inv, IsRun, Pumped, MediaRange.StatusLines, MediaRange.LengthLine, MediaRange.RangeLine;
    MediaRange.ResponseIsShort(start, end, ranged, |content|);
    StartKeeps(Range(content, start, end), Latin1(MediaRange.Response(start, end, ranged, |content|)), sync);
    PumpedCalls(Served(content, start, end, ranged), sync);
    RunKeeps(states, events, k);
  }

  lemma PrefixOfRange(s: Pump)
    requires BodyIsPrefix(s)
    ensures s.log.body <= s.range.content[s.range.start..s.range.end + 1]
    ensures s.ending == Complete ==> s.log.body == s.range.content[s.range.start..s.range.end + 1]
  {
  }

  // What a completion and a pump leave as it is, and the reads a pump adds.
  lemma CompletedCalls(s: Pump, requested: int, reply: Reply)
    ensures var t := Completed(s, requested, reply);
      t.range == s.range && t.log.calls == s.log.calls && t.log.cancels == s.log.cancels
  {
  }

  lemma PumpedCalls(s: Pump, sync: Option<Reply>)
    ensures var t := Pumped(s, sync);
      && t.range == s.range && t.log.cancels == s.log.cancels
      && (t.log.calls == s.log.calls
          || (!s.pending && s.connected && t.log.calls == s.log.calls + [LastCall(StartRead(s))]))
  {
    hide Completed;
    if sync.Some? {
      CompletedCalls(StartRead(s), Requested(s), sync.value);
    }
  }

  lemma RangeIsFixed(s: Pump, e: Event)
    requires Enabled(s, e)
    ensures Apply(s, e).range == s.range
  {
    hide Pumped, Completed;
    match e {
      case BytesWritten(count, sync) => PumpedCalls(s.(unsent := s.unsent - count), sync);
      case TimerFires(sync) => PumpedCalls(s.(timers := s.timers - 1), sync);
      case ReadCompletes(reply) => CompletedCalls(s, LastCall(s).length, reply);
      case _ =>
    }
  }

  // A new read is asked for only once every earlier one has completed.
  lemma OneReadAtATime(s: Pump, e: Event)
    requires Inv(s) && Enabled(s, e)
    ensures |Apply(s, e).log.calls| <= |s.log.calls| + 1
    ensures |Apply(s, e).log.calls| > |s.log.calls| ==> !s.log.inFlight
    ensures s.log.calls <= Apply(s, e).log.calls
  {
    hide Pumped, Completed;
    match e {
      case BytesWritten(count, sync) => PumpedCalls(s.(unsent := s.unsent - count), sync);
      case TimerFires(sync) => PumpedCalls(s.(timers := s.timers - 1), sync);
      case ReadCompletes(reply) => CompletedCalls(s, LastCall(s).length, reply);
      case _ =>
    }
  }

  // A cancel handle is used only for the read in flight, and at most once for it.
  lemma CancelOnlyInFlight(s: Pump, e: Event)
    requires Inv(s) && Enabled(s, e)
    ensures Apply(s, e).log.cancels <= s.log.cancels + 1
    ensures Apply(s, e).log.cancels > s.log.cancels ==>
      s.log.inFlight && s.handle && !Apply(s, e).handle && !Apply(s, e).connected
  {
    hide Pumped, Completed;
    match e {
      case BytesWritten(count, sync) => PumpedCalls(s.(unsent := s.unsent - count), sync);
      case TimerFires(sync) => PumpedCalls(s.(timers := s.timers - 1), sync);
      case ReadCompletes(reply) => CompletedCalls(s, LastCall(s).length, reply);
      case _ =>
    }
  }

  // ---- The connection ----

  class RangeConnection {
    const range: Range
    var pos: int
    var pending: bool
    var firstRead: bool
    var response: Bytes
    var handle: bool
    var connected: bool
    var ownerAlive: bool
    var unsent: nat
    var timers: nat
    var ending: Ending
    ghost var log: Log

    ghost function View(): Pump
      reads this
    {
      Pump(range, pos, pending, firstRead, response, handle, connected, ownerAlive, unsent, timers, ending, log)
    }

    // A connection starts by pumping.
    constructor (range: Range, response: Bytes, sync: Option<Reply>)
      ensures View() == Pumped(Initial(range, response), sync)
    {
      this.range, this.response := range, response;
      pos, pending, firstRead, handle, connected, ownerAlive := range.start, false, true, false, true, true;
      unsent, timers, ending := 0, 0, Ongoing;
      log := Log([], false, [], false, 0);
      new;
      PumpOnce(sync);
    }

    method PumpOnce(sync: Option<Reply>)
      modifies this
      ensures View() == Pumped(old(View()), sync)
    {
      hide Completed;
      if !connected || pending || unsent > LOW_WATER {
        return;
      }
      if !ownerAlive {
        connected, ending := false, Unavailable;
        return;
      }
      if pos > range.end {
        connected, ending := false, Complete;
        return;
      }
      pending := true;
      var prioritize := firstRead;
      firstRead := false;
      var requested := Min(MAX_READ, range.end - pos + 1);
      log := log.(inFlight := true, calls := log.calls + [ReadCall(pos, requested, prioritize)]);
      if sync.Some? {
        OnCompletion(requested, sync.value);
      }
      if pending {
        handle := true;
      }
    }

    method OnCompletion(requested: int, reply: Reply)
      modifies this
      ensures View() == Completed(old(View()), requested, reply)
    {
      handle, log := false, log.(inFlight := false);
      if !connected {
        return;
      }
      pending := false;
      if reply.failed || reply.bytes == [] || |reply.bytes| > requested {
        FailRead();
        return;
      }
      WriteReply(reply.bytes);
    }

    // The read has failed: an error is sent if the response is not out yet.
    method FailRead()
      modifies `unsent, `log, `connected, `ending
      ensures connected == false && ending == Failed
      ensures unsent == old(unsent) + (if response != [] then UNAVAILABLE_SIZE else 0)
      ensures log == if response != [] then old(log).(errorSent := true) else old(log)
    {
      if response != [] {
        unsent, log := unsent + UNAVAILABLE_SIZE, log.(errorSent := true);
      }
      connected, ending := false, Failed;
    }

    // Writes the response, if it is not out yet, and the bytes read.
    method WriteReply(bytes: Bytes)
      modifies `unsent, `response, `log, `pos, `timers
      ensures unsent == old(unsent) + |old(response)| + |bytes| && response == []
      ensures log == old(log).(body := old(log).body + bytes) && pos == old(pos) + |bytes| && timers == old(timers) + 1
    {
      if response != [] {
        unsent, response := unsent + |response|, [];
      }
      unsent, log := unsent + |bytes|, log.(body := log.body + bytes);
      pos := pos + |bytes|;
      timers := timers + 1;
    }

    method OnReadCompletes(reply: Reply, length: int)
      requires Enabled(View(), ReadCompletes(reply)) && length == log.calls[|log.calls| - 1].length
      modifies this
      ensures View() == Apply(old(View()), ReadCompletes(reply))
    {
      OnCompletion(length, reply);
    }

    method OnBytesWritten(count: nat, sync: Option<Reply>)
      requires Enabled(View(), BytesWritten(count, sync))
      modifies this
      ensures View() == Apply(old(View()), BytesWritten(count, sync))
    {
      unsent := unsent - count;
      PumpOnce(sync);
    }

    method OnTimer(sync: Option<Reply>)
      requires Enabled(View(), TimerFires(sync))
      modifies this
      ensures View() == Apply(old(View()), TimerFires(sync))
    {
      timers := timers - 1;
      PumpOnce(sync);
    }

    method OnDisconnected()
      modifies this
      ensures View() == Apply(old(View()), Disconnected)
    {
      connected := false;
      if handle {
        handle, log := false, log.(cancels := log.cancels + 1);
      }
      if ending == Ongoing {
        ending := Closed;
      }
    }

    // The provider going away aborts the socket.
    method OnOwnerDestroyed()
      modifies this
      ensures View() == Apply(old(View()), OwnerDestroyed)
    {
      ownerAlive := false;
      OnDisconnected();
    }
  }
}
