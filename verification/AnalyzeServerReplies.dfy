/**
  What each client of the analyze-project server sees in every run and every phase: one reply per call,
  and on a stream exactly the events of its own analysis, in order, with the one end or error among them.
 */
module AnalyzeServerReplies {
  import opened Options
  import opened AnalyzeServer
  import opened AnalyzeServerTheorems
  import opened AnalyzeServerAwaiting

  // ----- What a client may have seen -----

  function Writes(n: nat): seq<Output> {
    seq(n, (i: nat) => Write(i))
  }

  /** How many events of its own analysis entry `e` has had delivered to the parent. */
  function DeliveredTo(e: nat, runId: map<nat, nat>, heard: seq<OutMsg>): nat {
    if e in runId then EventCount(heard, runId[e]) else 0
  }

  function WritesFrom(m: nat, n: nat): seq<Output>
    requires m <= n
  {
    seq(n - m, (i: nat) => Write(m + i))
  }

  /** The first `n` writes in order, with what has been sent of the terminal output after the first `m`. */
  function StreamOutputs(m: nat, n: nat, sent: Option<Output>): seq<Output>
    requires m <= n
  {
    Writes(m) + Ending(sent) + WritesFrom(m, n)
  }

  function Ending(terminal: Option<Output>): seq<Output> {
    if terminal.Some? then [terminal.value] else []
  }

  ghost predicate UnaryOk(call: ClientCall, terminal: Option<Output>) {
    call.outputs == Ending(terminal) || (call.transportCancelled && call.outputs == [])
  }

  /**
    What a stream may have been sent while `events` of its own events were delivered.  Nothing is missing
    unless its transport was cancelled, and nothing follows its terminal output unless it was closed.
   */
  ghost predicate StreamFits(call: ClientCall, settlements: seq<Q.Settlement>, events: nat, m: nat, n: nat, sent: Option<Output>) {
    && m <= n <= events && call.outputs == StreamOutputs(m, n, sent)
    && (sent.Some? ==> sent == TerminalOf(call, settlements))
    && (sent.None? ==> m == n)
    && (!call.transportCancelled ==> n == events && sent == TerminalOf(call, settlements))
    && (m < n ==> ClosedFirst(settlements))
  }

  ghost predicate StreamOk(call: ClientCall, settlements: seq<Q.Settlement>, events: nat) {
    exists m: nat, n: nat, sent: Option<Output> :: StreamFits(call, settlements, events, m, n, sent)
  }

  function TerminalOf(call: ClientCall, settlements: seq<Q.Settlement>): Option<Output> {
    if call.done && settlements != [] then Some(Terminal(call.kind, settlements[0])) else None
  }

  /** What a call with an accepted entry may have sent so far. */
  ghost predicate ReplyOk(call: ClientCall, settlements: seq<Q.Settlement>, events: nat) {
    && (call.done ==> settlements != [])
    && (call.kind.Unary? ==> UnaryOk(call, TerminalOf(call, settlements)))
    && (call.kind.Stream? ==> StreamOk(call, settlements, events))
  }

  /** A call that was refused, or whose transport was already cancelled when it arrived. */
  ghost predicate RefusalOk(call: ClientCall) {
    && call.done
    && (call.outputs == [] || (|call.outputs| == 1 && call.outputs[0].Error?))
    && (!call.transportCancelled ==> call.outputs != [])
  }

  ghost predicate CallOk(call: ClientCall, entries: seq<Q.Entry>, runId: map<nat, nat>, heard: seq<OutMsg>) {
    if call.entry.None? then RefusalOk(call)
    else
      var e := call.entry.value;
      e < |entries| && ReplyOk(call, entries[e].settlements, DeliveredTo(e, runId, heard))
  }

  ghost predicate Replies(calls: seq<ClientCall>, entries: seq<Q.Entry>, runId: map<nat, nat>, heard: seq<OutMsg>) {
    forall c | 0 <= c < |calls| :: CallOk(calls[c], entries, runId, heard)
  }

  /** Events carry their own position, follow no completion, and belong to delivered analyses. */
  ghost predicate EventsInPlace(out: seq<OutMsg>, delivered: nat) {
    forall p | 0 <= p < |out| && out[p].Event? ::
      out[p].index == EventCount(out[..p], out[p].id) && !CompletedIn(out[..p], out[p].id) && out[p].id <= delivered
  }

  ghost predicate RepliesHold(s: Server)
    requires s.received <= |s.outbox|
  {
    Replies(s.calls, s.queue.entries, s.runId, Heard(s))
  }

  ghost predicate Inv(s: Server) {
    Core(s) && AwaitingInv(s) && EventsInPlace(s.outbox, s.delivered) && RepliesHold(s)
  }

  // ----- Events -----

  lemma {:induction false} NoEvents(out: seq<OutMsg>, id: nat)
    requires forall p | 0 <= p < |out| && out[p].Event? :: out[p].id != id
    ensures EventCount(out, id) == 0
  {
    if out != [] {
      NoEvents(out[..|out| - 1], id);
    }
  }

  lemma CountNext(out: seq<OutMsg>, m: OutMsg, id: nat)
    ensures EventCount(out + [m], id) == EventCount(out, id) + (if m.Event? && m.id == id then 1 else 0)
  {
    assert (out + [m])[..|out|] == out;
  }

  lemma PostedKeepsEvents(out: seq<OutMsg>, delivered: nat, m: OutMsg)
    requires EventsInPlace(out, delivered)
    requires m.Event? ==> m.index == EventCount(out, m.id) && !CompletedIn(out, m.id) && m.id <= delivered
    ensures EventsInPlace(out + [m], delivered)
  {
    forall p | 0 <= p < |out + [m]| && (out + [m])[p].Event?
      ensures (out + [m])[p].index == EventCount((out + [m])[..p], (out + [m])[p].id)
      ensures !CompletedIn((out + [m])[..p], (out + [m])[p].id) && (out + [m])[p].id <= delivered
    {
      assert (out + [m])[..p] == out[..p];
      if p == |out| {
        assert out[..p] == out;
      }
    }
  }

  /** Once its completion is in the log, an analysis has no further events in it. */
  lemma {:induction false} NoEventsAfterCompletion(out: seq<OutMsg>, delivered: nat, n: nat, id: nat)
    requires EventsInPlace(out, delivered) && n <= |out| && CompletedIn(out[..n], id)
    ensures EventCount(out, id) == EventCount(out[..n], id)
  {
    if n == |out| {
      assert out[..n] == out;
    } else {
      var m := |out| - 1;
      assert out == out[..m] + [out[m]];
      assert out[..m][..n] == out[..n];
      forall p | 0 <= p < m
        ensures out[..m][p] == out[p] && out[..m][..p] == out[..p]
      {
      }
      assert EventsInPlace(out[..m], delivered);
      NoEventsAfterCompletion(out[..m], delivered, n, id);
      CompletedInMore(out, n, m, id);
    }
  }

  lemma CompletedInMore(out: seq<OutMsg>, n: nat, m: nat, id: nat)
    requires n <= m <= |out| && CompletedIn(out[..n], id)
    ensures CompletedIn(out[..m], id)
  {
    assert out[..n] == out[..m][..n];
  }

  // ----- Steps keep the replies -----

  lemma StreamGrows(call: ClientCall, settled: seq<Q.Settlement>, settled': seq<Q.Settlement>, events: nat)
    requires StreamOk(call, settled, events) && settled <= settled' && (call.done ==> settled != [])
    ensures StreamOk(call, settled', events)
  {
    var m: nat, n: nat, sent: Option<Output> :| StreamFits(call, settled, events, m, n, sent);
    assert StreamFits(call, settled', events, m, n, sent);
  }

  lemma ReplyGrows(call: ClientCall, settled: seq<Q.Settlement>, settled': seq<Q.Settlement>, events: nat)
    requires ReplyOk(call, settled, events) && settled <= settled'
    ensures ReplyOk(call, settled', events)
  {
    if call.kind.Stream? {
      StreamGrows(call, settled, settled', events);
    }
  }

  /** Queue calls and shutdown: entries only grow, and only new analyses get identifiers. */
  lemma RepliesFrame(calls: seq<ClientCall>, entries: seq<Q.Entry>, entries': seq<Q.Entry>, runId: map<nat, nat>,
                     runId': map<nat, nat>, heard: seq<OutMsg>)
    requires Replies(calls, entries, runId, heard) && |entries| <= |entries'|
    requires forall e | 0 <= e < |entries| :: entries[e].settlements <= entries'[e].settlements
    requires forall e: nat :: DeliveredTo(e, runId', heard) == DeliveredTo(e, runId, heard)
    ensures Replies(calls, entries', runId', heard)
  {
    forall c | 0 <= c < |calls|
      ensures CallOk(calls[c], entries', runId', heard)
    {
      assert CallOk(calls[c], entries, runId, heard);
      if calls[c].entry.Some? {
        var e := calls[c].entry.value;
        ReplyGrows(calls[c], entries[e].settlements, entries'[e].settlements, DeliveredTo(e, runId, heard));
      }
    }
  }

  lemma ReplaceCall(calls: seq<ClientCall>, c: nat, call: ClientCall, entries: seq<Q.Entry>, runId: map<nat, nat>, heard: seq<OutMsg>)
    requires Replies(calls, entries, runId, heard) && c < |calls|
    requires CallOk(call, entries, runId, heard)
    ensures Replies(calls[c := call], entries, runId, heard)
  {
    var calls' := calls[c := call];
    forall x | 0 <= x < |calls'|
      ensures CallOk(calls'[x], entries, runId, heard)
    {
      assert CallOk(calls[x], entries, runId, heard);
    }
  }

  lemma FreshIdHasNoEvents(s: Server)
    requires Channel(s) && EventsInPlace(s.outbox, s.delivered)
    ensures EventCount(Heard(s), |s.posted| + 1) == 0
  {
    var heard := Heard(s);
    forall p | 0 <= p < |heard| && heard[p].Event?
      ensures heard[p].id != |s.posted| + 1
    {
      assert heard[p] == s.outbox[p];
    }
    NoEvents(heard, |s.posted| + 1);
  }

  lemma QueueCallDelivers(s: Server, q: Q.Queue, e: nat)
    requires Channel(s) && EventsInPlace(s.outbox, s.delivered)
    requires Started(s.queue, q) || Asked(s.queue, q) || Quiet(s.queue, q)
    requires Started(s.queue, q) ==> s.phase == Serving
    ensures DeliveredTo(e, WithQueue(s, q).runId, Heard(s)) == DeliveredTo(e, s.runId, Heard(s))
  {
    FreshIdHasNoEvents(s);
  }

  lemma WithQueueShape(s: Server, q: Q.Queue)
    ensures WithQueue(s, q).queue == q && WithQueue(s, q).calls == s.calls && WithQueue(s, q).phase == s.phase
    ensures WithQueue(s, q).received == s.received && WithQueue(s, q).outbox == s.outbox
    ensures WithQueue(s, q).delivered == s.delivered
  {
  }

  lemma QueueCallReplies(s: Server, q: Q.Queue)
    requires Inv(s) && QueueMoves(s.queue, q) && (s.phase != Serving ==> q.closed)
    ensures Replies(s.calls, q.entries, WithQueue(s, q).runId, Heard(s))
  {
    var runId, heard := WithQueue(s, q).runId, Heard(s);
    forall e: nat
      ensures DeliveredTo(e, runId, heard) == DeliveredTo(e, s.runId, heard)
    {
      QueueCallDelivers(s, q, e);
    }
    RepliesFrame(s.calls, s.queue.entries, q.entries, s.runId, runId, heard);
  }

  lemma QueueStepReplies(s: Server, step: Q.Step)
    requires Inv(s) && Q.Enabled(s.queue, step) && !step.CloseStep?
    ensures QueueMoves(s.queue, Call(s.queue, step))
    ensures var s' := WithQueue(s, Call(s.queue, step));
            && s'.received == s.received && s'.outbox == s.outbox && s'.delivered == s.delivered && s'.calls == s.calls
            && s'.phase == s.phase && s'.queue == Call(s.queue, step)
            && Replies(s.calls, s'.queue.entries, s'.runId, Heard(s))
  {
    CallMoves(s.queue, step);
    CallClosed(s.queue, step);
    WithQueueShape(s, Call(s.queue, step));
    QueueCallReplies(s, Call(s.queue, step));
  }

  lemma CallArrivesReplies(s: Server, kind: CallKind, cancelled: bool)
    requires Inv(s)
    ensures CallArrives(s, kind, cancelled).received == s.received && CallArrives(s, kind, cancelled).outbox == s.outbox
    ensures CallArrives(s, kind, cancelled).delivered == s.delivered
    ensures RepliesHold(CallArrives(s, kind, cancelled))
  {
    var s' := CallArrives(s, kind, cancelled);
    if cancelled || Q.Admit(s.queue).RefusedAdmission? {
      assert RefusalOk(s'.calls[|s.calls|]);
    } else {
      AcceptedReplies(s, kind);
    }
  }

  lemma AcceptedReplies(s: Server, kind: CallKind)
    requires Inv(s) && Q.Admit(s.queue).Accepted?
    ensures CallArrives(s, kind, false).received == s.received && CallArrives(s, kind, false).outbox == s.outbox
    ensures CallArrives(s, kind, false).delivered == s.delivered
    ensures RepliesHold(CallArrives(s, kind, false))
  {
    var call := ClientCall(kind, Some(|s.queue.entries|), false, false, []);
    var s1 := WithQueue(s, Call(s.queue, Q.EnqueueStep));
    QueueStepReplies(s, Q.EnqueueStep);
    NewCallOk(s, call);
    AppendCall(s.calls, call, s1.queue.entries, s1.runId, Heard(s));
    assert CallArrives(s, kind, false) == s1.(calls := s.calls + [call], owner := s.owner + [|s.calls|]);
  }

  lemma FreshCallOk(call: ClientCall, entries: seq<Q.Entry>, runId: map<nat, nat>, heard: seq<OutMsg>, e: nat)
    requires call == ClientCall(call.kind, Some(e), false, false, []) && e < |entries|
    requires entries[e].settlements == [] && DeliveredTo(e, runId, heard) == 0
    ensures CallOk(call, entries, runId, heard)
  {
    assert StreamFits(call, [], 0, 0, 0, None);
  }

  lemma NewCallOk(s: Server, call: ClientCall)
    requires Inv(s) && Q.Admit(s.queue).Accepted?
    requires call == ClientCall(call.kind, Some(|s.queue.entries|), false, false, [])
    requires QueueMoves(s.queue, Call(s.queue, Q.EnqueueStep))
    ensures CallOk(call, Call(s.queue, Q.EnqueueStep).entries, WithQueue(s, Call(s.queue, Q.EnqueueStep)).runId, Heard(s))
  {
    var e, q := |s.queue.entries|, Call(s.queue, Q.EnqueueStep);
    EnqueueEntries(s.queue);
    CallClosed(s.queue, Q.EnqueueStep);
    NewEntryHasNoEvents(s, e);
    QueueCallDelivers(s, q, e);
    FreshCallOk(call, q.entries, WithQueue(s, q).runId, Heard(s), e);
  }

  lemma AppendCall(calls: seq<ClientCall>, call: ClientCall, entries: seq<Q.Entry>, runId: map<nat, nat>, heard: seq<OutMsg>)
    requires Replies(calls, entries, runId, heard) && CallOk(call, entries, runId, heard)
    ensures Replies(calls + [call], entries, runId, heard)
  {
  }

  lemma NewEntryHasNoEvents(s: Server, e: nat)
    requires Core(s) && |s.queue.entries| <= e
    ensures DeliveredTo(e, s.runId, Heard(s)) == 0
  {
    Q.KeptMembers(|s.queue.entries|, s.queue.dropped, e);
    assert e in s.queue.started ==> e in s.queue.started + s.queue.pending;
  }

  lemma CancelledCallOk(call: ClientCall, entries: seq<Q.Entry>, runId: map<nat, nat>, heard: seq<OutMsg>)
    requires CallOk(call, entries, runId, heard)
    ensures CallOk(call.(transportCancelled := true), entries, runId, heard)
  {
    if call.entry.Some? && call.kind.Stream? {
      var settlements, events := entries[call.entry.value].settlements, DeliveredTo(call.entry.value, runId, heard);
      var m: nat, n: nat, sent: Option<Output> :| StreamFits(call, settlements, events, m, n, sent);
      assert StreamFits(call.(transportCancelled := true), settlements, events, m, n, sent);
    }
  }

  lemma TransportCancelsReplies(s: Server, c: nat)
    requires Inv(s) && c < |s.calls|
    ensures TransportCancels(s, c).received == s.received && TransportCancels(s, c).outbox == s.outbox
    ensures TransportCancels(s, c).delivered == s.delivered
    ensures RepliesHold(TransportCancels(s, c))
  {
    var call := s.calls[c].(transportCancelled := true);
    var s1 := s.(calls := s.calls[c := call]);
    assert CallOk(s.calls[c], s.queue.entries, s.runId, Heard(s));
    CancelledCallOk(s.calls[c], s.queue.entries, s.runId, Heard(s));
    ReplaceCall(s.calls, c, call, s.queue.entries, s.runId, Heard(s));
    if s.calls[c].entry.Some? {
      SameEntriesOwned(s.owner, s.calls, c, call);
      ProtocolIgnores(s, s1.calls, s.owner);
      assert AwaitingInv(s1);
      QueueStepReplies(s1, Q.CancelStep(s.calls[c].entry.value));
    }
  }

  lemma CallContinuesReplies(s: Server, c: nat)
    requires Inv(s) && Enabled(s, CallContinuesStep(c))
    ensures RepliesHold(CallContinues(s, c))
  {
    var call := CallContinues(s, c).calls[c];
    CallContinuesShape(s, c);
    assert CallOk(s.calls[c], s.queue.entries, s.runId, Heard(s));
    ContinuedCallOk(s.calls[c], s.queue.entries[s.calls[c].entry.value].settlements,
                    DeliveredTo(s.calls[c].entry.value, s.runId, Heard(s)));
    ReplaceCall(s.calls, c, call, s.queue.entries, s.runId, Heard(s));
  }

  lemma ContinuedCallOk(call: ClientCall, settlements: seq<Q.Settlement>, events: nat)
    requires ReplyOk(call, settlements, events) && !call.done && settlements != []
    ensures ReplyOk(Continued(call, settlements[0]), settlements, events)
  {
    if call.kind.Stream? {
      var m: nat, n: nat, sent: Option<Output> :| StreamFits(call, settlements, events, m, n, sent);
      assert sent.None? && m == n && call.outputs == Writes(n);
      var sent' := if call.transportCancelled then None else Some(Terminal(call.kind, settlements[0]));
      assert StreamFits(Continued(call, settlements[0]), settlements, events, n, n, sent');
    }
  }

  lemma CloseReplies(s: Server)
    requires Inv(s)
    ensures Shutdown(s).received == s.received && Shutdown(s).outbox == s.outbox && Shutdown(s).delivered == s.delivered
    ensures RepliesHold(Shutdown(s))
  {
    if s.phase == Serving {
      CloseMoves(s.queue);
      RepliesFrame(s.calls, s.queue.entries, Shutdown(s).queue.entries, s.runId, s.runId, Heard(s));
    }
  }

  lemma EmitKeepsEvents(s: Server, id: nat)
    requires EventsInPlace(s.outbox, s.delivered) && id in s.worker.handlers && s.worker.handlers[id].Running?
    requires WorkerInv(s.worker, s.posted, s.delivered) && CompletionsAreFinal(s.outbox, s.worker.handlers, s.delivered)
    ensures EventsInPlace(EmitEvent(s, id).outbox, s.delivered)
  {
    assert Latest(s.posted, s.delivered, id);
    PostedKeepsEvents(s.outbox, s.delivered, Event(id, EventCount(s.outbox, id)));
  }

  lemma PostKeepsEvents(s: Server, step: Step)
    requires Linked(s) && Enabled(s, step) && (step.PostCompletionStep? || step.PostAckStep?)
    requires EventsInPlace(s.outbox, s.delivered)
    ensures EventsInPlace(Next(s, step).outbox, s.delivered)
  {
    if step.PostCompletionStep? {
      PostedKeepsEvents(s.outbox, s.delivered, Completed(step.id, s.worker.handlers[step.id].ok));
    } else {
      PostedKeepsEvents(s.outbox, s.delivered, CancelCompleted(step.ack.0, step.ack.1));
    }
  }

  /** Only the delivery of a message moves that count, and the log of messages to the parent only grows. */
  lemma WorkerLogGrows(s: Server, step: Step)
    requires Linked(s) && Enabled(s, step) && WorkerStep(step)
    ensures s.outbox <= Next(s, step).outbox
    ensures Next(s, step).delivered == if step.DeliverStep? then s.delivered + 1 else s.delivered
    ensures step.DeliverStep? || step.EndScopeStep? || step.EndSessionStep? ==> Next(s, step).outbox == s.outbox
  {
  }

  lemma WorkerKeepsEvents(s: Server, step: Step)
    requires Core(s) && EventsInPlace(s.outbox, s.delivered) && Enabled(s, step) && WorkerStep(step)
    ensures EventsInPlace(Next(s, step).outbox, Next(s, step).delivered)
  {
    WorkerLogGrows(s, step);
    if step.EmitEventStep? {
      EmitKeepsEvents(s, step.id);
    } else if step.PostCompletionStep? || step.PostAckStep? {
      PostKeepsEvents(s, step);
    }
  }

  /** The replies depend on the calls, the entries, the identifiers and the messages taken. */
  lemma SameReplies(s: Server, s': Server)
    requires s.received <= |s.outbox| && RepliesHold(s) && s'.received == s.received && s.outbox <= s'.outbox
    requires s'.calls == s.calls && s'.queue == s.queue && s'.runId == s.runId
    ensures RepliesHold(s')
  {
    assert Heard(s') == Heard(s);
  }

  // ----- Receiving -----

  /** One more message changes a call's account only if it is an event of that call's own analysis. */
  lemma HeardMoreCallOk(s: Server, call: ClientCall)
    requires s.received < |s.outbox| && CallOk(call, s.queue.entries, s.runId, Heard(s))
    requires call.entry.Some? && call.entry.value in s.runId ==>
               s.outbox[s.received].id != s.runId[call.entry.value] || !s.outbox[s.received].Event?
    ensures CallOk(call, s.queue.entries, s.runId, s.outbox[..s.received + 1])
  {
    if call.entry.Some? && call.entry.value in s.runId {
      CountNext(Heard(s), s.outbox[s.received], s.runId[call.entry.value]);
      assert s.outbox[..s.received + 1] == Heard(s) + [s.outbox[s.received]];
    }
  }

  /** Writing the next event keeps the account of a call that is unsettled or was closed. */
  lemma WrittenOk(call: ClientCall, settlements: seq<Q.Settlement>, events: nat)
    requires ReplyOk(call, settlements, events) && (settlements == [] || ClosedFirst(settlements))
    ensures ReplyOk(Written(call, events), settlements, events + 1)
  {
    if call.kind.Stream? {
      var m: nat, n: nat, sent: Option<Output> :| StreamFits(call, settlements, events, m, n, sent);
      if call.transportCancelled {
        assert StreamFits(Written(call, events), settlements, events + 1, m, n, sent);
      } else if sent.None? {
        assert Writes(events + 1) == Writes(events) + [Write(events)];
        assert StreamFits(Written(call, events), settlements, events + 1, events + 1, events + 1, None);
      } else {
        assert WritesFrom(m, events + 1) == WritesFrom(m, events) + [Write(events)];
        assert StreamFits(Written(call, events), settlements, events + 1, m, events + 1, sent);
      }
    }
  }

  function CallsAfter(s: Server): seq<ClientCall>
    requires Linked(s) && s.received < |s.outbox|
  {
    var m := s.outbox[s.received];
    if m.Event? && m.id in s.waiters && s.waiters[m.id].RunOf? then
      var c := s.owner[s.waiters[m.id].entry];
      s.calls[c := Written(s.calls[c], m.index)]
    else s.calls
  }

  /** Receiving touches the account of one call at most, and only for an event that a stream's run awaits. */
  lemma ReceiveCalls(s: Server)
    requires Linked(s) && s.received < |s.outbox|
    ensures Receive(s).calls == CallsAfter(s)
  {
  }

  lemma ReceiveShape(s: Server)
    requires Linked(s) && s.received < |s.outbox|
    ensures var s' := Receive(s);
            && s'.received == s.received + 1 && s'.outbox == s.outbox && s'.delivered == s.delivered
            && s'.queue == s.queue && s'.runId == s.runId && s'.phase == s.phase
            && s'.calls == CallsAfter(s)
  {
    ReceiveCalls(s);
  }

  /** The event that the parent takes next is awaited, is the next in order, and its entry is unsettled or was closed. */
  lemma EventIsNext(s: Server, e: nat)
    requires Inv(s) && s.workerAlive && s.received < |s.outbox| && s.outbox[s.received].Event?
    requires e in s.runId && s.runId[e] == s.outbox[s.received].id
    ensures s.outbox[s.received].index == DeliveredTo(e, s.runId, Heard(s))
    ensures RunIsAwaited(e, s.runId, s.waiters) && e < |s.queue.entries|
    ensures s.queue.entries[e].settlements == [] || ClosedFirst(s.queue.entries[e].settlements)
  {
    assert !CompletedIn(Heard(s), s.runId[e]);
    AwaitedWasClosed(s, e);
  }

  lemma IdsAreDistinct(s: Server, e: nat, f: nat)
    requires Channel(s) && e in s.runId && f in s.runId && s.runId[e] == s.runId[f]
    ensures e == f
  {
  }

  /** The event's own call: what `EventIsNext` says of it is all that matters. */
  lemma OwnCallOk(s: Server, call: ClientCall, e: nat)
    requires s.received < |s.outbox| && s.outbox[s.received].Event? && e in s.runId && s.runId[e] == s.outbox[s.received].id
    requires CallOk(call, s.queue.entries, s.runId, Heard(s)) && call.entry == Some(e) && e < |s.queue.entries|
    requires s.outbox[s.received].index == DeliveredTo(e, s.runId, Heard(s))
    requires s.queue.entries[e].settlements == [] || ClosedFirst(s.queue.entries[e].settlements)
    ensures CallOk(Written(call, s.outbox[s.received].index), s.queue.entries, s.runId, s.outbox[..s.received + 1])
  {
    var m := s.outbox[s.received];
    CountNext(Heard(s), m, m.id);
    assert s.outbox[..s.received + 1] == Heard(s) + [m];
    WrittenCallOk(call, s.queue.entries, s.runId, Heard(s), s.outbox[..s.received + 1], e, m.index);
  }

  lemma WrittenCallOk(call: ClientCall, entries: seq<Q.Entry>, runId: map<nat, nat>, heard: seq<OutMsg>, heard': seq<OutMsg>,
                      e: nat, index: nat)
    requires CallOk(call, entries, runId, heard) && call.entry == Some(e) && e < |entries|
    requires index == DeliveredTo(e, runId, heard) && DeliveredTo(e, runId, heard') == index + 1
    requires entries[e].settlements == [] || ClosedFirst(entries[e].settlements)
    ensures CallOk(Written(call, index), entries, runId, heard')
  {
    WrittenOk(call, entries[e].settlements, index);
  }

  /** Only that call's account changes. */
  lemma OthersCallOk(s: Server, e: nat, x: nat)
    requires Channel(s) && Owned(s.owner, s.calls) && RepliesHold(s) && s.received < |s.outbox| && s.outbox[s.received].Event?
    requires e in s.runId && s.runId[e] == s.outbox[s.received].id && e < |s.owner| && x < |s.calls| && x != s.owner[e]
    ensures CallOk(s.calls[x], s.queue.entries, s.runId, s.outbox[..s.received + 1])
  {
    assert CallOk(s.calls[x], s.queue.entries, s.runId, Heard(s));
    if s.calls[x].entry.Some? && s.calls[x].entry.value in s.runId && s.runId[s.calls[x].entry.value] == s.outbox[s.received].id {
      IdsAreDistinct(s, e, s.calls[x].entry.value);
    }
    HeardMoreCallOk(s, s.calls[x]);
  }

  /** What the calls are to satisfy once the next message is taken. */
  ghost predicate TakenReplies(s: Server, calls: seq<ClientCall>)
    requires s.received < |s.outbox|
  {
    Replies(calls, s.queue.entries, s.runId, s.outbox[..s.received + 1])
  }

  lemma EventReplies(s: Server, e: nat)
    requires Inv(s) && s.workerAlive && s.received < |s.outbox| && s.outbox[s.received].Event?
    requires e in s.runId && s.runId[e] == s.outbox[s.received].id
    ensures TakenReplies(s, CallsAfter(s))
  {
    EventIsNext(s, e);
    var c, calls := s.owner[e], CallsAfter(s);
    assert calls == s.calls[c := Written(s.calls[c], s.outbox[s.received].index)];
    forall x | 0 <= x < |calls|
      ensures CallOk(calls[x], s.queue.entries, s.runId, s.outbox[..s.received + 1])
    {
      if x == c {
        assert CallOk(s.calls[c], s.queue.entries, s.runId, Heard(s));
        OwnCallOk(s, s.calls[c], e);
      } else {
        OthersCallOk(s, e, x);
      }
    }
  }

  /** A message that is no event of a started analysis leaves every account as it was. */
  lemma OtherReplies(s: Server)
    requires Core(s) && RepliesHold(s) && s.received < |s.outbox|
    requires s.outbox[s.received].Event? ==> forall e | e in s.runId :: s.runId[e] != s.outbox[s.received].id
    ensures TakenReplies(s, CallsAfter(s))
  {
    assert CallsAfter(s) == s.calls;
    forall x | 0 <= x < |s.calls|
      ensures CallOk(s.calls[x], s.queue.entries, s.runId, s.outbox[..s.received + 1])
    {
      assert CallOk(s.calls[x], s.queue.entries, s.runId, Heard(s));
      HeardMoreCallOk(s, s.calls[x]);
    }
  }

  lemma ReceiveReplies(s: Server)
    requires Inv(s) && s.workerAlive && s.received < |s.outbox|
    ensures Receive(s).received <= |Receive(s).outbox| && RepliesHold(Receive(s))
  {
    ReceiveShape(s);
    if e :| s.outbox[s.received].Event? && e in s.runId && s.runId[e] == s.outbox[s.received].id {
      EventReplies(s, e);
    } else {
      OtherReplies(s);
    }
  }

  // ----- Every run -----

  lemma NewInv(maxPending: nat, startupTimer: bool)
    ensures Inv(New(maxPending, startupTimer))
  {
    NewCore(maxPending, startupTimer);
    ServingAwaiting(New(maxPending, startupTimer));
  }

  lemma CallStepReplies(s: Server, step: Step)
    requires Inv(s) && Enabled(s, step) && CallStep(step)
    ensures var s' := Next(s, step);
            s'.received == s.received && s'.outbox == s.outbox && s'.delivered == s.delivered && RepliesHold(s')
  {
    hide Protocol, Deliver, EmitEvent, EndScope, EndSession, PostCompletion, PostAck, Shutdown, Receive;
    match step
    case CallArrivesStep(kind, cancelled) => CallArrivesReplies(s, kind, cancelled);
    case TransportCancelsStep(c) => TransportCancelsReplies(s, c);
    case CancelRpcStep => QueueStepReplies(s, Q.CancelActiveStep);
    case CallContinuesStep(c) =>
      CallContinuesReplies(s, c);
      CallContinuesShape(s, c);
    case RunSettlesStep(e) => RunSettlesReplies(s, e);
    case AttemptSettlesStep(t) => AttemptSettlesReplies(s, t);
  }

  lemma RunSettlesReplies(s: Server, e: nat)
    requires Inv(s) && Enabled(s, RunSettlesStep(e))
    ensures var s' := RunSettles(s, e);
            s'.received == s.received && s'.outbox == s.outbox && s'.delivered == s.delivered && RepliesHold(s')
  {
    var step := Q.RunCompletesStep(e, s.resolvedRuns[e]);
    QueueStepReplies(s, step);
    WithQueueCommutes(s, Call(s.queue, step), s.resolvedRuns - {e}, s.resolvedAttempts);
  }

  lemma AttemptSettlesReplies(s: Server, t: nat)
    requires Inv(s) && Enabled(s, AttemptSettlesStep(t))
    ensures var s' := AttemptSettles(s, t);
            s'.received == s.received && s'.outbox == s.outbox && s'.delivered == s.delivered && RepliesHold(s')
  {
    var step := Q.AttemptSettlesStep(t, s.resolvedAttempts[t]);
    QueueStepReplies(s, step);
    WithQueueCommutes(s, Call(s.queue, step), s.resolvedRuns, s.resolvedAttempts - {t});
  }

  lemma WorkerStepReplies(s: Server, step: Step)
    requires Inv(s) && Enabled(s, step) && WorkerStep(step)
    ensures var s' := Next(s, step);
            s'.received <= |s'.outbox| && EventsInPlace(s'.outbox, s'.delivered) && RepliesHold(s')
  {
    WorkerKeepsEvents(s, step);
    WorkerLogGrows(s, step);
    WorkerLeavesParent(s, step);
    SameReplies(s, Next(s, step));
  }

  lemma ParentStepReplies(s: Server, step: Step)
    requires Inv(s) && Enabled(s, step) && !WorkerStep(step) && !CallStep(step) && !step.ReceiveStep?
    ensures var s' := Next(s, step);
            s'.received == s.received && s'.outbox == s.outbox && s'.delivered == s.delivered && RepliesHold(s')
  {
    match step
    case AttemptTimesOutStep(_) =>
    case ImmediateFiresStep =>
      TimingKeepsInv(s, s.timing.(immediates := s.timing.immediates - 1));
      CloseReplies(s.(timing := s.timing.(immediates := s.timing.immediates - 1)));
    case StartupTimerFiresStep =>
      TimingKeepsInv(s, s.timing.(startupTimer := false));
      CloseReplies(s.(timing := s.timing.(startupTimer := false)));
    case WorkerFailsStep => CloseReplies(s);
    case ShutdownContinuesStep => ShutdownContinuesReplies(s);
    case LeaseArrivesStep => TimingKeepsInv(s, LeaseArrives(s.timing));
    case LeaseLostStep(l) => TimingKeepsInv(s, LeaseLost(s.timing, l, s.phase));
  }

  lemma TimingKeepsInv(s: Server, timing: Timing)
    requires Inv(s)
    ensures Inv(s.(timing := timing))
  {
    TimingCore(s, timing);
    assert Heard(s.(timing := timing)) == Heard(s);
  }

  lemma ShutdownContinuesLeaves(s: Server)
    ensures var s' := ShutdownContinues(s);
            && s'.received == s.received && s'.outbox == s.outbox && s'.delivered == s.delivered
            && s'.calls == s.calls && s'.queue == s.queue && s'.runId == s.runId
  {
    match s.phase
    case Serving =>
    case Cancelling =>
    case Terminating =>
    case Down =>
  }

  lemma ShutdownContinuesReplies(s: Server)
    requires s.received <= |s.outbox| && RepliesHold(s)
    ensures var s' := ShutdownContinues(s);
            s'.received == s.received && s'.outbox == s.outbox && s'.delivered == s.delivered && RepliesHold(s')
  {
    hide ShutdownContinues, Replies;
    ShutdownContinuesLeaves(s);
    SameReplies(s, ShutdownContinues(s));
  }

  lemma StepInv(s: Server, step: Step)
    requires Inv(s) && Enabled(s, step)
    ensures Inv(Next(s, step))
  {
    StepAwaiting(s, step);
    if WorkerStep(step) {
      WorkerStepReplies(s, step);
    } else if CallStep(step) {
      CallStepReplies(s, step);
    } else if step.ReceiveStep? {
      ReceiveReplies(s);
      ReceiveShape(s);
    } else {
      ParentStepReplies(s, step);
    }
  }

  lemma StartsInv(maxPending: nat, startupTimer: bool, s: Server)
    requires s == New(maxPending, startupTimer)
    ensures Inv(s)
  {
    NewInv(maxPending, startupTimer);
  }

  lemma StepsKeepInv(s: Server, step: Step, s': Server)
    requires Inv(s) && StepsTo(s, step, s')
    ensures Inv(s')
  {
    StepInv(s, step);
  }

  lemma {:induction false} RunsKeepInv(maxPending: nat, timer: bool, ss: seq<Server>, steps: seq<Step>, k: nat)
    requires IsRun(maxPending, timer, ss, steps) && k < |ss|
    ensures Inv(ss[k])
  {
    hide Inv, StepsTo, New;
    if k == 0 {
      StartsInv(maxPending, timer, ss[0]);
    } else {
      RunsKeepInv(maxPending, timer, ss, steps, k - 1);
      assert StepAt(ss, steps, k - 1);
      StepsKeepInv(ss[k - 1], steps[k - 1], ss[k]);
    }
  }

  // ----- Main results -----

  /**
    One reply per unary call: while its handler is still waiting nothing was sent; once it has resumed,
    the callback was invoked exactly once, with the outcome the queue settled the entry with, unless
    the transport was cancelled, and then at most that once.
   */
  lemma UnaryRepliesOnce(maxPending: nat, timer: bool, ss: seq<Server>, steps: seq<Step>, k: nat, c: nat)
    requires IsRun(maxPending, timer, ss, steps) && k < |ss| && c < |ss[k].calls|
    requires ss[k].calls[c].kind.Unary? && ss[k].calls[c].entry.Some?
    ensures var call := ss[k].calls[c];
            && call.entry.value < |ss[k].queue.entries|
            && var settlements := ss[k].queue.entries[call.entry.value].settlements;
            && |settlements| <= 1
            && (call.done ==> settlements != [])
            && (!call.done ==> call.outputs == [])
            && (call.done && !call.transportCancelled ==> call.outputs != [])
            && (call.outputs != [] ==>
                  call.done && call.outputs == [match settlements[0]
                                                case Resolved => Value
                                                case Rejected(RunFailed) => Error(Other)
                                                case Rejected(TransportCancelled) => Error(CancelledStatus)
                                                case Rejected(QueueClosed) => Error(Unavailable)])
  {
    RunsKeepInv(maxPending, timer, ss, steps, k);
    assert CallOk(ss[k].calls[c], ss[k].queue.entries, ss[k].runId, Heard(ss[k]));
  }

  /** A refused call, or one that arrived cancelled, gets at most one error and nothing else. */
  lemma RefusedCallsGetOneError(maxPending: nat, timer: bool, ss: seq<Server>, steps: seq<Step>, k: nat, c: nat)
    requires IsRun(maxPending, timer, ss, steps) && k < |ss| && c < |ss[k].calls| && ss[k].calls[c].entry.None?
    ensures |ss[k].calls[c].outputs| <= 1
    ensures ss[k].calls[c].outputs == [] ==> ss[k].calls[c].transportCancelled
    ensures forall o | o in ss[k].calls[c].outputs :: o.Error?
  {
    RunsKeepInv(maxPending, timer, ss, steps, k);
    assert CallOk(ss[k].calls[c], ss[k].queue.entries, ss[k].runId, Heard(ss[k]));
  }

  /**
    Every phase of every run: a stream whose transport is not cancelled has been sent exactly its own
    analysis's delivered events, in order, with its one end or error among them if its handler has
    resumed.  The end or error comes last, and all events the analysis will ever emit before it, unless
    `close` rejected the entry.  A stream with a cancelled transport has been sent a part of this.
   */
  lemma StreamsSendTheirOwnEvents(maxPending: nat, timer: bool, ss: seq<Server>, steps: seq<Step>, k: nat, c: nat)
    returns (m: nat, n: nat, sent: Option<Output>)
    requires IsRun(maxPending, timer, ss, steps) && k < |ss| && c < |ss[k].calls|
    requires ss[k].calls[c].kind.Stream? && ss[k].calls[c].entry.Some?
    ensures var s, call := ss[k], ss[k].calls[c];
            && call.entry.value < |s.queue.entries| && s.received <= |s.outbox|
            && var e, settlements := call.entry.value, s.queue.entries[call.entry.value].settlements;
            && StreamFits(call, settlements, DeliveredTo(e, s.runId, Heard(s)), m, n, sent)
            && (call.done ==> |settlements| == 1)
            && (s.phase == Serving ==> m == n)
            && (call.done && !ClosedFirst(settlements) ==>
                  DeliveredTo(e, s.runId, Heard(s)) == DeliveredTo(e, s.runId, s.outbox))
  {
    RunsKeepInv(maxPending, timer, ss, steps, k);
    var s, call := ss[k], ss[k].calls[c];
    assert CallOk(call, s.queue.entries, s.runId, Heard(s));
    var e := call.entry.value;
    var settlements, events := s.queue.entries[e].settlements, DeliveredTo(e, s.runId, Heard(s));
    m, n, sent :| StreamFits(call, settlements, events, m, n, sent);
    if call.done && !ClosedFirst(settlements) && e in s.runId {
      NoEventsAfterCompletion(s.outbox, s.delivered, s.received, s.runId[e]);
    }
  }

  ghost predicate CallKept(call: ClientCall, call': ClientCall) {
    && call'.kind == call.kind && call'.entry == call.entry
    && (call.done ==> call'.done) && call.outputs <= call'.outputs
    && (call.transportCancelled ==> call'.transportCancelled && call'.outputs == call.outputs)
  }

  ghost predicate CallsKept(calls: seq<ClientCall>, calls': seq<ClientCall>) {
    |calls| <= |calls'| && forall c | 0 <= c < |calls| :: CallKept(calls[c], calls'[c])
  }

  lemma CallArrivesKeepsCalls(s: Server, kind: CallKind, cancelled: bool)
    requires Linked(s)
    ensures CallsKept(s.calls, CallArrives(s, kind, cancelled).calls)
  {
  }

  lemma CallContinuesKeepsCalls(s: Server, c: nat)
    requires Linked(s) && Enabled(s, CallContinuesStep(c))
    ensures CallsKept(s.calls, CallContinues(s, c).calls)
  {
  }

  lemma TransportCancelKeepsCalls(s: Server, c: nat)
    requires Linked(s) && c < |s.calls|
    ensures CallsKept(s.calls, TransportCancels(s, c).calls)
  {
    hide Linked;
  }

  lemma SettlingKeepsCalls(s: Server, step: Step)
    requires Linked(s) && Enabled(s, step) && (step.RunSettlesStep? || step.AttemptSettlesStep? || step.CancelRpcStep?)
    ensures Next(s, step).calls == s.calls
  {
  }

  lemma CallStepKeepsCalls(s: Server, step: Step)
    requires Linked(s) && Enabled(s, step) && CallStep(step)
    ensures CallsKept(s.calls, Next(s, step).calls)
  {
    match step
    case CallArrivesStep(kind, cancelled) => CallArrivesKeepsCalls(s, kind, cancelled);
    case TransportCancelsStep(c) => TransportCancelKeepsCalls(s, c);
    case CallContinuesStep(c) => CallContinuesKeepsCalls(s, c);
    case _ => SettlingKeepsCalls(s, step);
  }

  lemma ParentStepKeepsCalls(s: Server, step: Step)
    requires Linked(s) && Enabled(s, step) && !CallStep(step) && !WorkerStep(step) && !step.ReceiveStep?
    ensures Next(s, step).calls == s.calls
  {
    hide Linked;
  }

  /** No step takes back an output, and nothing is sent to a call whose transport has been cancelled. */
  lemma CancelledCallsHearNothing(s: Server, step: Step)
    requires Linked(s) && Enabled(s, step)
    ensures CallsKept(s.calls, Next(s, step).calls)
  {
    if CallStep(step) {
      CallStepKeepsCalls(s, step);
    } else if WorkerStep(step) {
      WorkerLeavesParent(s, step);
    } else if step.ReceiveStep? {
      ReceiveCalls(s);
    } else {
      ParentStepKeepsCalls(s, step);
    }
  }

  // ----- Writes after the end -----

  /** The step takes an event of this call's own analysis while its run is still awaited. */
  predicate TakesAwaitedEvent(s: Server, step: Step, c: nat)
    requires c < |s.calls|
  {
    && step.ReceiveStep? && s.received < |s.outbox| && s.outbox[s.received].Event?
    && s.calls[c].entry.Some? && RunIsAwaited(s.calls[c].entry.value, s.runId, s.waiters)
    && s.runId[s.calls[c].entry.value] == s.outbox[s.received].id
  }

  lemma ResumedCallsAreLeft(s: Server, step: Step, c: nat)
    requires Linked(s) && Enabled(s, step) && c < |s.calls| && s.calls[c].done && !step.ReceiveStep?
    ensures c < |Next(s, step).calls| && Next(s, step).calls[c].outputs == s.calls[c].outputs
  {
    if WorkerStep(step) {
      WorkerLeavesParent(s, step);
    } else if !CallStep(step) {
      ParentStepKeepsCalls(s, step);
    } else if step.CallArrivesStep? {
      ArrivalLeavesCalls(s, step.kind, step.cancelled, c);
    } else if step.TransportCancelsStep? {
      TransportCancelLeavesOutputs(s, step.call, c);
    } else if step.CallContinuesStep? {
      CallContinuesShape(s, step.call);
    } else {
      SettlingKeepsCalls(s, step);
    }
  }

  lemma ArrivalLeavesCalls(s: Server, kind: CallKind, cancelled: bool, c: nat)
    requires Linked(s) && c < |s.calls|
    ensures c < |CallArrives(s, kind, cancelled).calls| && CallArrives(s, kind, cancelled).calls[c] == s.calls[c]
  {
  }

  lemma TransportCancelLeavesOutputs(s: Server, d: nat, c: nat)
    requires Linked(s) && d < |s.calls| && c < |s.calls|
    ensures c < |TransportCancels(s, d).calls| && TransportCancels(s, d).calls[c].outputs == s.calls[c].outputs
  {
  }

  lemma ReceiveWritesExactly(s: Server, c: nat)
    requires Core(s) && s.received < |s.outbox| && c < |s.calls|
    requires s.calls[c].kind.Stream? && !s.calls[c].transportCancelled
    ensures c < |Receive(s).calls|
    ensures Receive(s).calls[c].outputs
            == s.calls[c].outputs + (if TakesAwaitedEvent(s, ReceiveStep, c) then [Write(s.outbox[s.received].index)] else [])
  {
    ReceiveCalls(s);
    var m := s.outbox[s.received];
    if m.Event? && m.id in s.waiters && s.waiters[m.id].RunOf? {
      assert s.runId[s.waiters[m.id].entry] == m.id;
    }
  }

  /**
    Exactly when a stream that has got its end or error is written to again, in every run and phase: when
    the parent takes an event of its own analysis while that run is still awaited.  Its entry was then
    started and rejected by `close`; a stream that was settled in any other way, or never started, is
    never written to again.
   */
  lemma WrittenAfterItsEndExactly(maxPending: nat, timer: bool, ss: seq<Server>, steps: seq<Step>, k: nat, c: nat)
    requires IsRun(maxPending, timer, ss, steps) && k < |steps| && c < |ss[k].calls|
    requires ss[k].calls[c].kind.Stream? && ss[k].calls[c].done && !ss[k].calls[c].transportCancelled
    ensures c < |ss[k + 1].calls|
    ensures ss[k + 1].calls[c].outputs != ss[k].calls[c].outputs <==> TakesAwaitedEvent(ss[k], steps[k], c)
    ensures TakesAwaitedEvent(ss[k], steps[k], c) ==>
              var s, e := ss[k], ss[k].calls[c].entry.value;
              && ss[k + 1].calls[c].outputs == s.calls[c].outputs + [Write(s.outbox[s.received].index)]
              && s.phase != Serving && e in s.queue.started && e < |s.queue.entries|
              && s.queue.entries[e].settlements == [Q.Rejected(Q.QueueClosed)]
  {
    RunsKeepInv(maxPending, timer, ss, steps, k);
    assert StepAt(ss, steps, k);
    if steps[k].ReceiveStep? {
      ReceiveWritesExactly(ss[k], c);
      if TakesAwaitedEvent(ss[k], steps[k], c) {
        assert CallOk(ss[k].calls[c], ss[k].queue.entries, ss[k].runId, Heard(ss[k]));
        AwaitedWasClosed(ss[k], ss[k].calls[c].entry.value);
      }
    } else {
      ResumedCallsAreLeft(ss[k], steps[k], c);
    }
  }
}
