/**
  Which runs the parent still waits for, in every phase: a started analysis is awaited until its completion
  is heard or the worker has failed, and only `close` settles an entry before its completion is heard.
 */
module AnalyzeServerAwaiting {
  import opened Options
  import opened AnalyzeServer
  import opened AnalyzeServerTheorems
  import opened AnalyzeServerShutdown

  // ----- While serving -----

  /** An analysis posted before the latest one was heard to complete. */
  lemma EarlierWasHeard(posted: seq<InMsg>, heard: seq<OutMsg>, id: nat, latest: nat)
    requires OneAtATime(posted, heard) && Latest(posted, |posted|, latest)
    requires 1 <= id <= |posted| && posted[id - 1].Analyze? && id != latest
    ensures CompletedIn(heard, id)
  {
    assert CompletedIn(heard, id - 1 + 1);
  }

  lemma RunIsPosted(posted: seq<InMsg>, runId: map<nat, nat>, e: nat)
    requires PostsInPlace(posted, runId) && e in runId
    ensures 1 <= runId[e] <= |posted| && posted[runId[e] - 1] == Analyze(runId[e], e)
  {
  }

  /** While serving, a started entry that is no longer active is one whose completion the parent heard. */
  lemma SettledWasHeard(s: Server, e: nat)
    requires Channel(s) && OneAtATime(s.posted, Heard(s)) && Waiting(s)
    requires s.phase == Serving && e in s.runId && s.queue.active != Some(e)
    ensures CompletedIn(Heard(s), s.runId[e])
  {
    var id := s.runId[e];
    RunIsPosted(s.posted, s.runId, e);
    if s.queue.active.Some? {
      var a := s.queue.active.value;
      assert ActiveIsLatest(a, s.runId, s.posted);
      RunIsPosted(s.posted, s.runId, a);
      EarlierWasHeard(s.posted, Heard(s), id, s.runId[a]);
    } else {
      EveryoneWasHeard(s.posted, Heard(s), id);
    }
  }

  lemma EveryoneWasHeard(posted: seq<InMsg>, heard: seq<OutMsg>, id: nat)
    requires AllHeard(posted, heard) && 1 <= id <= |posted| && posted[id - 1].Analyze?
    ensures CompletedIn(heard, id)
  {
    assert CompletedIn(heard, id - 1 + 1);
  }

  /** While serving, an analysis whose completion is not heard is the active one, and its run is awaited. */
  lemma UnheardIsAwaited(s: Server, e: nat)
    requires Core(s) && s.phase == Serving && e in s.runId && !CompletedIn(Heard(s), s.runId[e])
    ensures s.queue.active == Some(e) && s.runId[e] in s.waiters && s.waiters[s.runId[e]] == RunOf(e)
  {
    if s.queue.active != Some(e) {
      SettledWasHeard(s, e);
    }
    assert Awaited(e, s.resolvedRuns, s.runId, s.waiters);
  }

  // ----- In every phase -----

  predicate RunIsAwaited(e: nat, runId: map<nat, nat>, waiters: map<nat, Waiter>) {
    e in runId && runId[e] in waiters && waiters[runId[e]] == RunOf(e)
  }

  /** Every started analysis is awaited, or heard to complete, or lost with the worker. */
  ghost predicate Accounted(s: Server)
    requires s.received <= |s.outbox|
  {
    forall e | e in s.runId ::
      RunIsAwaited(e, s.runId, s.waiters) || CompletedIn(Heard(s), s.runId[e]) || !s.workerAlive
  }

  predicate ClosedFirst(settlements: seq<Q.Settlement>) {
    settlements != [] && settlements[0] == Q.Rejected(Q.QueueClosed)
  }

  /** A started entry is unsettled, or rejected by `close`, or its completion has been heard. */
  ghost predicate SettledHeard(s: Server)
    requires s.received <= |s.outbox|
  {
    forall e | e in s.runId :: e < |s.queue.entries|
      && (s.queue.entries[e].settlements == [] || ClosedFirst(s.queue.entries[e].settlements)
          || CompletedIn(Heard(s), s.runId[e]))
  }

  ghost predicate AwaitingInv(s: Server)
    requires s.received <= |s.outbox|
  {
    Accounted(s) && SettledHeard(s) && Q.OnlyCloseRejects(s.queue)
  }

  lemma StartedInRange(s: Server, e: nat)
    requires Linked(s) && Channel(s) && e in s.runId
    ensures e < |s.queue.entries|
  {
    Q.KeptMembers(|s.queue.entries|, s.queue.dropped, e);
    assert e in s.queue.started + s.queue.pending;
  }

  lemma ActiveIsUnsettled(q: Q.Queue, e: nat)
    requires Q.Inv(q) && q.active == Some(e) && e < |q.entries|
    ensures q.entries[e].settlements == []
  {
    assert q.entries[e].state.Active?;
  }

  lemma ServingAwaiting(s: Server)
    requires Core(s) && s.phase == Serving && Q.OnlyCloseRejects(s.queue)
    ensures AwaitingInv(s)
  {
    forall e | e in s.runId
      ensures RunIsAwaited(e, s.runId, s.waiters) || CompletedIn(Heard(s), s.runId[e])
      ensures e < |s.queue.entries|
      ensures s.queue.entries[e].settlements == [] || CompletedIn(Heard(s), s.runId[e])
    {
      StartedInRange(s, e);
      if !CompletedIn(Heard(s), s.runId[e]) {
        UnheardIsAwaited(s, e);
        ActiveIsUnsettled(s.queue, e);
      }
    }
  }

  // ----- While the queue is open nothing is rejected as closed -----

  lemma ReturnedOnlyCloseRejects(q: Q.Queue)
    requires Q.Inv(q) && |q.stack| <= 1 && Q.OnlyCloseRejects(q)
    ensures Q.OnlyCloseRejects(Returned(q))
  {
    hide Q.OnlyCloseRejects, Q.StatesAgree, Q.WorkConserving, Q.SettledOnce, Q.Fifo;
    if q.stack != [] && q.stack[0].RunFrame? {
      Q.StepOnlyCloseRejects(q, Q.RunReturnsStep);
    } else if q.stack != [] {
      Q.StepOnlyCloseRejects(q, Q.CancelReturnsStep);
    }
  }

  lemma CallOnlyCloseRejects(q: Q.Queue, step: Q.Step)
    requires Q.Inv(q) && q.stack == [] && Q.Enabled(q, step) && Q.OnlyCloseRejects(q)
    ensures Q.OnlyCloseRejects(Call(q, step))
  {
    hide Q.OnlyCloseRejects, Q.StatesAgree, Q.WorkConserving, Q.SettledOnce, Q.Fifo, Returned, Q.Next;
    Q.StepInv(q, step);
    Q.StepOnlyCloseRejects(q, step);
    NextMoves(q, step);
    ReturnedOnlyCloseRejects(Q.Next(q, step));
  }

  /** A call step leaves the queue or makes one queue call. */
  lemma CallStepQueue(s: Server, step: Step) returns (call: Option<Q.Step>)
    requires Linked(s) && Enabled(s, step) && CallStep(step)
    ensures call.None? ==> Next(s, step).queue == s.queue
    ensures call.Some? ==> Q.Enabled(s.queue, call.value) && Next(s, step).queue == Call(s.queue, call.value)
  {
    hide Deliver, Shutdown, EmitEvent, EndScope, EndSession, PostCompletion, PostAck, Receive, Q.Next;
    match step
    case CallArrivesStep(kind, cancelled) =>
      call := if cancelled || Q.Admit(s.queue).RefusedAdmission? then None else Some(Q.EnqueueStep);
    case TransportCancelsStep(c) =>
      call := if s.calls[c].entry.Some? then Some(Q.CancelStep(s.calls[c].entry.value)) else None;
    case CancelRpcStep => call := Some(Q.CancelActiveStep);
    case CallContinuesStep(c) => call := None;
    case RunSettlesStep(e) => call := Some(Q.RunCompletesStep(e, s.resolvedRuns[e]));
    case AttemptSettlesStep(t) => call := Some(Q.AttemptSettlesStep(t, s.resolvedAttempts[t]));
  }

  lemma CallStepOnlyCloseRejects(s: Server, step: Step)
    requires Linked(s) && Enabled(s, step) && CallStep(step) && Q.OnlyCloseRejects(s.queue)
    ensures Q.OnlyCloseRejects(Next(s, step).queue)
  {
    var call := CallStepQueue(s, step);
    if call.Some? {
      CallOnlyCloseRejects(s.queue, call.value);
    }
  }

  /** The other steps leave the queue or close it. */
  lemma OtherStepOnlyCloseRejects(s: Server, step: Step)
    requires Core(s) && Enabled(s, step) && !CallStep(step) && Q.OnlyCloseRejects(s.queue)
    ensures Q.OnlyCloseRejects(Next(s, step).queue)
  {
    if WorkerStep(step) {
      WorkerLeavesParent(s, step);
    } else {
      CloseMoves(s.queue);
      OtherStepQueue(s, step);
    }
  }

  lemma OtherStepQueue(s: Server, step: Step)
    requires Linked(s) && Enabled(s, step) && !CallStep(step) && !WorkerStep(step)
    ensures Next(s, step).queue == s.queue || Next(s, step).queue == Call(s.queue, Q.CloseStep)
  {
    match step
    case ImmediateFiresStep => ShutdownShape(s.(timing := s.timing.(immediates := s.timing.immediates - 1)));
    case StartupTimerFiresStep => ShutdownShape(s.(timing := s.timing.(startupTimer := false)));
    case WorkerFailsStep => ShutdownShape(s);
    case ReceiveStep => ReceiveKeepsPhase(s);
    case _ =>
  }

  lemma StepOnlyCloseRejects(s: Server, step: Step)
    requires Core(s) && Enabled(s, step) && Q.OnlyCloseRejects(s.queue)
    ensures Q.OnlyCloseRejects(Next(s, step).queue)
  {
    if CallStep(step) {
      CallStepOnlyCloseRejects(s, step);
    } else {
      OtherStepOnlyCloseRejects(s, step);
    }
  }

  /** What a step that ends outside serving may do to the runs that are awaited. */
  ghost predicate RunsOnlyLeave(s: Server, s': Server)
    requires s.received <= |s.outbox| && s'.received <= |s'.outbox|
  {
    && s'.runId == s.runId && (!s.workerAlive ==> !s'.workerAlive)
    && (forall id | CompletedIn(Heard(s), id) :: CompletedIn(Heard(s'), id))
    && (forall id | id in s.waiters && s.waiters[id].RunOf? ::
          (id in s'.waiters && s'.waiters[id] == s.waiters[id]) || CompletedIn(Heard(s'), id) || !s'.workerAlive)
  }

  lemma SameRunsLeave(s: Server, s': Server)
    requires s.received <= |s.outbox| && s'.received == s.received && s.outbox <= s'.outbox
    requires s'.runId == s.runId && s'.waiters == s.waiters && s'.workerAlive == s.workerAlive
    ensures RunsOnlyLeave(s, s')
  {
    assert Heard(s') == Heard(s);
  }

  lemma ClosedCallIsQuiet(s: Server, step: Q.Step)
    requires QueueReady(s) && s.queue.closed && Q.Enabled(s.queue, step)
    ensures var s' := WithQueue(s, Call(s.queue, step));
            s'.runId == s.runId && s'.waiters == s.waiters && s'.received == s.received && s'.outbox == s.outbox
            && s'.workerAlive == s.workerAlive
  {
    CallMoves(s.queue, step);
    assert Quiet(s.queue, Call(s.queue, step));
  }

  lemma ClosedArrival(s: Server, kind: CallKind, cancelled: bool)
    requires QueueReady(s) && s.queue.closed
    ensures CallArrives(s, kind, cancelled) == s.(calls := CallArrives(s, kind, cancelled).calls)
  {
  }

  lemma ClosedTransportCancel(s: Server, c: nat)
    requires Linked(s) && s.queue.closed && c < |s.calls|
    ensures var s' := TransportCancels(s, c);
            s'.runId == s.runId && s'.waiters == s.waiters && s'.received == s.received && s'.outbox == s.outbox
            && s'.workerAlive == s.workerAlive
  {
    if s.calls[c].entry.Some? {
      ClosedCallIsQuiet(s.(calls := s.calls[c := s.calls[c].(transportCancelled := true)]), Q.CancelStep(s.calls[c].entry.value));
    }
  }

  lemma ClosedSettling(s: Server, step: Step)
    requires Linked(s) && s.queue.closed && Enabled(s, step) && (step.RunSettlesStep? || step.AttemptSettlesStep?)
    ensures var s' := Next(s, step);
            s'.runId == s.runId && s'.waiters == s.waiters && s'.received == s.received && s'.outbox == s.outbox
            && s'.workerAlive == s.workerAlive
  {
    if step.RunSettlesStep? {
      ClosedCallIsQuiet(s.(resolvedRuns := s.resolvedRuns - {step.entry}), Q.RunCompletesStep(step.entry, s.resolvedRuns[step.entry]));
    } else {
      ClosedCallIsQuiet(s.(resolvedAttempts := s.resolvedAttempts - {step.attempt}),
                        Q.AttemptSettlesStep(step.attempt, s.resolvedAttempts[step.attempt]));
    }
  }

  lemma ClosedCallStep(s: Server, step: Step)
    requires Core(s) && s.queue.closed && Enabled(s, step) && CallStep(step)
    ensures Next(s, step).received <= |Next(s, step).outbox| && RunsOnlyLeave(s, Next(s, step))
  {
    match step
    case CallArrivesStep(kind, cancelled) => ClosedArrival(s, kind, cancelled);
    case TransportCancelsStep(c) => ClosedTransportCancel(s, c);
    case CancelRpcStep => ClosedCallIsQuiet(s, Q.CancelActiveStep);
    case CallContinuesStep(c) => CallContinuesShape(s, c);
    case RunSettlesStep(_) => ClosedSettling(s, step);
    case AttemptSettlesStep(_) => ClosedSettling(s, step);
    SameRunsLeave(s, Next(s, step));
  }

  lemma ReceiveLeaves(s: Server)
    requires Linked(s) && s.received < |s.outbox|
    ensures Receive(s).received <= |Receive(s).outbox| && RunsOnlyLeave(s, Receive(s))
  {
    HeardMore(s);
    var m := s.outbox[s.received];
    assert m.Completed? ==> m == Completed(m.id, m.ok) && m in s.outbox[..s.received + 1];
  }

  lemma ShutdownLeaves(s: Server)
    requires QueueReady(s) && s.received <= |s.outbox|
    ensures Shutdown(s).received <= |Shutdown(s).outbox| && RunsOnlyLeave(s, Shutdown(s))
  {
    if s.phase == Serving {
      ClosingSame(s, Call(s.queue, Q.CloseStep));
    }
    SameRunsLeave(s, Shutdown(s));
  }

  lemma WorkerFailsLeaves(s: Server)
    requires QueueReady(s) && s.received <= |s.outbox|
    ensures WorkerFails(s).received <= |WorkerFails(s).outbox| && RunsOnlyLeave(s, WorkerFails(s))
  {
    ShutdownLeaves(s);
    assert Heard(WorkerFails(s)) == Heard(Shutdown(s));
  }

  lemma QuietStepLeaves(s: Server, step: Step)
    requires Linked(s) && s.received <= |s.outbox| && Enabled(s, step)
    requires step.AttemptTimesOutStep? || step.LeaseArrivesStep? || step.LeaseLostStep? || step.ShutdownContinuesStep?
    ensures Next(s, step).received <= |Next(s, step).outbox| && RunsOnlyLeave(s, Next(s, step))
  {
    hide Linked, Shutdown, Receive, CallArrives, TransportCancels, Call, RunSettles, AttemptSettles;
    hide CallContinues, WorkerFails, Deliver, EmitEvent, EndScope, EndSession, PostCompletion, PostAck;
    assert Heard(Next(s, step)) == Heard(s);
  }

  lemma ParentStepLeaves(s: Server, step: Step)
    requires Core(s) && Enabled(s, step) && !CallStep(step) && !WorkerStep(step)
    ensures Next(s, step).received <= |Next(s, step).outbox| && RunsOnlyLeave(s, Next(s, step))
  {
    hide CallArrives, TransportCancels, Call, RunSettles, AttemptSettles, CallContinues, Deliver, EmitEvent;
    hide EndScope, EndSession, PostCompletion, PostAck;
    match step
    case ReceiveStep => ReceiveLeaves(s);
    case ImmediateFiresStep =>
      var s1 := s.(timing := s.timing.(immediates := s.timing.immediates - 1));
      ShutdownLeaves(s1);
      assert Heard(s1) == Heard(s);
    case StartupTimerFiresStep =>
      var s1 := s.(timing := s.timing.(startupTimer := false));
      ShutdownLeaves(s1);
      assert Heard(s1) == Heard(s);
    case WorkerFailsStep => WorkerFailsLeaves(s);
    case _ => QuietStepLeaves(s, step);
  }

  lemma WorkerStepLeaves(s: Server, step: Step)
    requires Core(s) && Enabled(s, step) && WorkerStep(step)
    ensures Next(s, step).received <= |Next(s, step).outbox| && RunsOnlyLeave(s, Next(s, step))
  {
    if step.DeliverStep? {
      DeliverShape(s, step.cache);
    }
    SameRunsLeave(s, Next(s, step));
  }

  lemma StepLeaves(s: Server, step: Step)
    requires Core(s) && Enabled(s, step) && Next(s, step).phase != Serving
    ensures Next(s, step).received <= |Next(s, step).outbox| && RunsOnlyLeave(s, Next(s, step))
  {
    if CallStep(step) {
      CallStepKeepsPhase(s, step);
      ClosedCallStep(s, step);
    } else if WorkerStep(step) {
      WorkerStepLeaves(s, step);
    } else {
      ParentStepLeaves(s, step);
    }
  }

  /** One entry's settlements after a step that ends outside serving. */
  ghost predicate OnlyClosed(before: seq<Q.Settlement>, after: seq<Q.Settlement>) {
    after == before || (before == [] && ClosedFirst(after))
  }

  lemma LeavingSettles(s: Server, step: Step, e: nat)
    requires Core(s) && Enabled(s, step) && s.phase == Serving && Next(s, step).phase != Serving && e < |s.queue.entries|
    ensures |Next(s, step).queue.entries| == |s.queue.entries|
    ensures OnlyClosed(s.queue.entries[e].settlements, Next(s, step).queue.entries[e].settlements)
  {
    ShutdownRejectsTheOutstanding(s, step, e);
  }

  /** Outside serving, or on leaving it, an unsettled entry can only be rejected by `close`. */
  lemma SameIsOnlyClosed(settlements: seq<Q.Settlement>)
    ensures OnlyClosed(settlements, settlements)
  {
  }

  lemma SettlementsOnlyClose(s: Server, step: Step, e: nat)
    requires Core(s) && Enabled(s, step) && Next(s, step).phase != Serving && e < |s.queue.entries|
    ensures |Next(s, step).queue.entries| == |s.queue.entries|
    ensures OnlyClosed(s.queue.entries[e].settlements, Next(s, step).queue.entries[e].settlements)
  {
    hide Core, Enabled, Next, OnlyClosed;
    if s.phase == Serving {
      LeavingSettles(s, step, e);
    } else {
      NothingStartsAfterShutdown(s, step);
      assert OnlyClosed(s.queue.entries[e].settlements, s.queue.entries[e].settlements) by {
        SameIsOnlyClosed(s.queue.entries[e].settlements);
      }
    }
  }

  lemma LateAwaiting(s: Server, s': Server, e: nat)
    requires s.received <= |s.outbox| && s'.received <= |s'.outbox| && AwaitingInv(s) && RunsOnlyLeave(s, s') && e in s'.runId
    requires |s'.queue.entries| == |s.queue.entries|
    requires e < |s.queue.entries| && OnlyClosed(s.queue.entries[e].settlements, s'.queue.entries[e].settlements)
    ensures RunIsAwaited(e, s'.runId, s'.waiters) || CompletedIn(Heard(s'), s'.runId[e]) || !s'.workerAlive
    ensures e < |s'.queue.entries|
    ensures s'.queue.entries[e].settlements == [] || ClosedFirst(s'.queue.entries[e].settlements)
            || CompletedIn(Heard(s'), s'.runId[e])
  {
  }

  lemma StepAwaiting(s: Server, step: Step)
    requires Core(s) && Enabled(s, step) && AwaitingInv(s)
    ensures Core(Next(s, step)) && AwaitingInv(Next(s, step))
  {
    var s' := Next(s, step);
    StepCore(s, step);
    StepOnlyCloseRejects(s, step);
    if s'.phase == Serving {
      ServingAwaiting(s');
    } else {
      StepLeaves(s, step);
      forall e | e in s'.runId
        ensures RunIsAwaited(e, s'.runId, s'.waiters) || CompletedIn(Heard(s'), s'.runId[e]) || !s'.workerAlive
        ensures e < |s'.queue.entries|
        ensures s'.queue.entries[e].settlements == [] || ClosedFirst(s'.queue.entries[e].settlements)
                || CompletedIn(Heard(s'), s'.runId[e])
      {
        SettlementsOnlyClose(s, step, e);
        LateAwaiting(s, s', e);
      }
    }
  }

  /** An awaited run of a settled entry is one that `close` rejected while it was running. */
  lemma AwaitedWasClosed(s: Server, e: nat)
    requires Core(s) && AwaitingInv(s) && RunIsAwaited(e, s.runId, s.waiters)
    ensures e < |s.queue.entries| && e in s.queue.started
    ensures s.queue.entries[e].settlements == [] || (s.phase != Serving && s.queue.entries[e].settlements == [Q.Rejected(Q.QueueClosed)])
  {
    if s.phase == Serving {
      UnheardIsAwaited(s, e);
      ActiveIsUnsettled(s.queue, e);
    }
  }

  /** Of the entries that `close` finds unsettled, the started one is the active one. */
  lemma UnsettledStartedIsActive(q: Q.Queue, e: nat)
    requires Q.Inv(q) && q.stack == [] && e < |q.entries| && q.entries[e].settlements == []
    ensures e in q.started <==> q.active == Some(e)
  {
    assert !q.entries[e].state.Settled?;
    if q.active == Some(e) {
      assert q.started[|q.started| - 1] == e;
    } else {
      assert q.entries[e].state.Pending? && e in q.pending;
      StartedIsNew(q, e);
    }
  }

  /** The step that begins shutdown leaves awaited and rejected exactly the run that was active. */
  lemma ShutdownLeavesTheActiveRun(s: Server, step: Step, e: nat)
    requires Core(s) && Enabled(s, step) && s.phase == Serving && Next(s, step).phase != Serving && e < |s.queue.entries|
    requires Q.OnlyCloseRejects(s.queue)
    ensures |Next(s, step).queue.entries| == |s.queue.entries|
    ensures ClosedFirst(Next(s, step).queue.entries[e].settlements) && e in s.queue.started <==> s.queue.active == Some(e)
  {
    ShutdownRejectsTheOutstanding(s, step, e);
    if s.queue.entries[e].settlements == [] {
      UnsettledStartedIsActive(s.queue, e);
    } else if s.queue.active == Some(e) {
      ActiveIsUnsettled(s.queue, e);
    }
  }
}
