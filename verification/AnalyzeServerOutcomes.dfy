/**
  What a client is told about its own analysis, in every run: success exactly if the analysis succeeded, the
  analysis error exactly if it did not or was lost with the worker, and unavailable if shutdown came first.
 */
module AnalyzeServerOutcomes {
  import opened Options
  import opened AnalyzeServer
  import opened AnalyzeServerTheorems
  import opened AnalyzeServerEffects
  import opened AnalyzeServerCancellation
  import opened AnalyzeServerReplies

  // ----- Where a completion's outcome comes from -----

  /** The step ends the analysis with this outcome, or refuses its request. */
  predicate EndsWith(s: Server, step: Step, id: nat, ok: bool) {
    || step == EndScopeStep(id, ok)
    || (step == DeliverStep(InvalidCache) && !ok && s.delivered < |s.posted|
        && s.posted[s.delivered].Analyze? && s.posted[s.delivered].id == id)
  }

  predicate HandlerEnded(handlers: map<nat, Handler>, id: nat, ok: bool) {
    id in handlers && !handlers[id].Running? && handlers[id].ok == ok
  }

  lemma NewEnd(s: Server, step: Step, id: nat, ok: bool)
    requires Core(s) && Enabled(s, step)
    requires HandlerEnded(Next(s, step).worker.handlers, id, ok) && !HandlerEnded(s.worker.handlers, id, ok)
    ensures EndsWith(s, step, id, ok)
  {
    if CallStep(step) {
      CallStepPosts(s, step);
    } else if !WorkerStep(step) {
      ParentStepPosts(s, step);
    } else if step.DeliverStep? {
      DeliveredEnd(s, step.cache, id, ok);
    }
  }

  lemma DeliveredEnd(s: Server, cache: CacheRequest, id: nat, ok: bool)
    requires Core(s) && s.delivered < |s.posted|
    requires HandlerEnded(Deliver(s, cache).worker.handlers, id, ok) && !HandlerEnded(s.worker.handlers, id, ok)
    ensures EndsWith(s, DeliverStep(cache), id, ok)
  {
    hide Linked, Waiting, OneAtATime, CompletionsAreFinal;
    if s.posted[s.delivered].Analyze? {
      WorkerIsIdle(s);
    }
  }

  lemma NewCompletion(s: Server, step: Step, id: nat, ok: bool)
    requires Core(s) && Enabled(s, step) && Completed(id, ok) in Next(s, step).outbox && Completed(id, ok) !in s.outbox
    ensures HandlerEnded(s.worker.handlers, id, ok)
  {
    if CallStep(step) {
      CallStepPosts(s, step);
    } else if !WorkerStep(step) {
      ParentStepPosts(s, step);
    } else if step.DeliverStep? {
      DeliverLeavesParent(s, step.cache);
    }
  }

  lemma NothingEnded(maxPending: nat, timer: bool, id: nat, ok: bool)
    ensures !HandlerEnded(New(maxPending, timer).worker.handlers, id, ok) && Completed(id, ok) !in New(maxPending, timer).outbox
  {
  }

  /** In every run, a completion carries the outcome with which its own analysis ended, or the refusal of its request. */
  lemma {:induction false} CompletionsTellTheTruth(maxPending: nat, timer: bool, ss: seq<Server>, steps: seq<Step>, k: nat, id: nat, ok: bool)
    returns (j: nat)
    requires IsRun(maxPending, timer, ss, steps) && k < |ss|
    requires Completed(id, ok) in ss[k].outbox || HandlerEnded(ss[k].worker.handlers, id, ok)
    ensures j < k && EndsWith(ss[j], steps[j], id, ok)
  {
    hide Core, Next, Enabled, EndsWith, HandlerEnded, New;
    if k > 0 {
      StepOfRun(maxPending, timer, ss, steps, k - 1);
      if Completed(id, ok) in ss[k - 1].outbox || HandlerEnded(ss[k - 1].worker.handlers, id, ok) {
        j := CompletionsTellTheTruth(maxPending, timer, ss, steps, k - 1, id, ok);
      } else if Completed(id, ok) in ss[k].outbox {
        NewCompletion(ss[k - 1], steps[k - 1], id, ok);
      } else {
        NewEnd(ss[k - 1], steps[k - 1], id, ok);
        j := k - 1;
      }
    } else {
      NothingEnded(maxPending, timer, id, ok);
    }
  }

  // ----- What a settlement says -----

  /** No analysis completes both ways. */
  ghost predicate OneOutcome(out: seq<OutMsg>) {
    forall id :: !(Completed(id, true) in out && Completed(id, false) in out)
  }

  /** The outcome of a run is that of its completion, or a failure that came before it. */
  predicate Told(outcome: Q.Settlement, e: nat, runId: map<nat, nat>, heard: seq<OutMsg>, alive: bool) {
    && e in runId
    && (outcome == Q.Resolved ==> Completed(runId[e], true) in heard)
    && (outcome == Q.Rejected(Q.RunFailed) ==>
          Completed(runId[e], true) !in heard && (Completed(runId[e], false) in heard || !alive))
  }

  ghost predicate ResultsTold(results: map<nat, Q.Settlement>, runId: map<nat, nat>, heard: seq<OutMsg>, alive: bool) {
    forall e | e in results :: Told(results[e], e, runId, heard, alive)
  }

  /** A settlement by the run is told by its completion, and only a call's own cancellation cancels its entry. */
  ghost predicate SettlementsTold(entries: seq<Q.Entry>, owner: seq<nat>, calls: seq<ClientCall>, runId: map<nat, nat>,
                                  heard: seq<OutMsg>, alive: bool) {
    forall e, x | 0 <= e < |entries| && x in entries[e].settlements ::
      && (x == Q.Resolved || x == Q.Rejected(Q.RunFailed) ==> Told(x, e, runId, heard, alive))
      && (x == Q.Rejected(Q.TransportCancelled) ==> e < |owner| && owner[e] < |calls| && calls[owner[e]].transportCancelled)
  }

  /** Nobody is told that the transport was cancelled. */
  ghost predicate NoneTold(calls: seq<ClientCall>) {
    forall c | 0 <= c < |calls| :: Error(CancelledStatus) !in calls[c].outputs
  }

  ghost predicate OutcomeInv(s: Server)
    requires s.received <= |s.outbox|
  {
    && OneOutcome(s.outbox)
    && ResultsTold(s.resolvedRuns, s.runId, Heard(s), s.workerAlive)
    && SettlementsTold(s.queue.entries, s.owner, s.calls, s.runId, Heard(s), s.workerAlive)
    && NoneTold(s.calls)
  }

  // ----- Queue calls -----

  /** Everything told stays so while calls keep their cancellations and only new runs get identifiers. */
  lemma ToldFrame(s: Server, s': Server)
    requires s.received <= |s.outbox| && OutcomeInv(s) && s'.received == s.received && s'.outbox == s.outbox
    requires s'.workerAlive == s.workerAlive && s'.resolvedRuns == s.resolvedRuns
    requires forall e | e in s.runId :: e in s'.runId && s'.runId[e] == s.runId[e]
    ensures OneOutcome(s'.outbox) && ResultsTold(s'.resolvedRuns, s'.runId, Heard(s'), s'.workerAlive)
  {
    assert Heard(s') == Heard(s);
  }

  /** Settlements grow by nothing, or by one that is told already. */
  lemma SettledFrame(s: Server, s': Server)
    requires s.received <= |s.outbox| && OutcomeInv(s) && s'.received == s.received && s'.outbox == s.outbox
    requires s'.workerAlive == s.workerAlive
    requires forall e | e in s.runId :: e in s'.runId && s'.runId[e] == s.runId[e]
    requires s.owner <= s'.owner && |s.calls| <= |s'.calls|
    requires forall c | 0 <= c < |s.calls| :: s.calls[c].transportCancelled ==> s'.calls[c].transportCancelled
    requires forall e, x | 0 <= e < |s'.queue.entries| && x in s'.queue.entries[e].settlements ::
               || (e < |s.queue.entries| && x in s.queue.entries[e].settlements)
               || x == Q.Rejected(Q.QueueClosed)
               || (x == Q.Rejected(Q.TransportCancelled) && e < |s'.owner| && s'.owner[e] < |s'.calls|
                   && s'.calls[s'.owner[e]].transportCancelled)
               || (e in s.resolvedRuns && x == s.resolvedRuns[e] && x != Q.Rejected(Q.TransportCancelled))
    ensures SettlementsTold(s'.queue.entries, s'.owner, s'.calls, s'.runId, Heard(s'), s'.workerAlive)
  {
    assert Heard(s') == Heard(s);
    forall e, x | 0 <= e < |s'.queue.entries| && x in s'.queue.entries[e].settlements
      ensures x == Q.Resolved || x == Q.Rejected(Q.RunFailed) ==> Told(x, e, s'.runId, Heard(s'), s'.workerAlive)
      ensures x == Q.Rejected(Q.TransportCancelled) ==>
                e < |s'.owner| && s'.owner[e] < |s'.calls| && s'.calls[s'.owner[e]].transportCancelled
    {
      if e < |s.queue.entries| && x in s.queue.entries[e].settlements {
      } else if e in s.resolvedRuns && x == s.resolvedRuns[e] {
        assert Told(x, e, s.runId, Heard(s), s.workerAlive);
      }
    }
  }

  /** The entries' settlements after a queue call: those before, and at most one new one of `e`. */
  ghost predicate SettlesAtMost(before: seq<Q.Entry>, after: seq<Q.Entry>, e: nat, outcome: Q.Settlement) {
    forall i, x | 0 <= i < |after| && x in after[i].settlements ::
      (i < |before| && x in before[i].settlements) || (i == e && x == outcome)
  }

  ghost predicate SettlesNothing(before: seq<Q.Entry>, after: seq<Q.Entry>) {
    forall i, x | 0 <= i < |after| && x in after[i].settlements :: i < |before| && x in before[i].settlements
  }

  lemma EnqueueSettles(q: Q.Queue)
    requires Q.Inv(q) && q.stack == []
    ensures SettlesNothing(q.entries, Call(q, Q.EnqueueStep).entries)
  {
    EnqueueCall(q);
  }

  lemma CancelSettles(q: Q.Queue, e: nat)
    requires Q.Inv(q) && q.stack == [] && e < |q.entries|
    ensures SettlesAtMost(q.entries, Call(q, Q.CancelStep(e)).entries, e, Q.Rejected(Q.TransportCancelled))
  {
    if e in q.pending {
      CancelPendingCall(q, e);
    } else if q.active == Some(e) && q.entries[e].cancellation.None? {
      CancelActiveCall(q, e);
    } else {
      CancelOtherCall(q, e);
    }
  }

  lemma CancelActiveIsCancel(q: Q.Queue)
    requires Q.Inv(q) && q.stack == []
    ensures q.active.None? ==> Call(q, Q.CancelActiveStep) == q
    ensures q.active.Some? ==> q.active.value < |q.entries| && q.active.value !in q.pending
    ensures q.active.Some? ==> Call(q, Q.CancelActiveStep) == Call(q, Q.CancelStep(q.active.value))
  {
    Q.StepInv(q, Q.CancelActiveStep);
    if q.active.Some? {
      assert q.entries[q.active.value].state.Active?;
    }
  }

  lemma CancelActiveSettles(q: Q.Queue)
    requires Q.Inv(q) && q.stack == []
    ensures SettlesNothing(q.entries, Call(q, Q.CancelActiveStep).entries)
  {
    hide Q.StatesAgree, Q.WorkConserving, Q.StackShape, Q.SettledOnce, Q.Fifo, Call;
    CancelActiveIsCancel(q);
    if q.active.Some? {
      var a := q.active.value;
      if q.entries[a].cancellation.None? {
        CancelActiveCall(q, a);
      } else {
        CancelOtherCall(q, a);
      }
    }
  }

  lemma AttemptSettlesNothing(q: Q.Queue, t: nat, ok: bool)
    requires Q.Inv(q) && q.stack == [] && Q.Enabled(q, Q.AttemptSettlesStep(t, ok))
    ensures SettlesNothing(q.entries, Call(q, Q.AttemptSettlesStep(t, ok)).entries)
  {
    Q.StepInv(q, Q.AttemptSettlesStep(t, ok));
  }

  // ----- Steps -----

  /** Identifiers, owners and calls only grow, and cancellations stay. */
  ghost predicate Kept(s: Server, s': Server) {
    && (forall e | e in s.runId :: e in s'.runId && s'.runId[e] == s.runId[e])
    && s.owner <= s'.owner && |s.calls| <= |s'.calls|
    && (forall c | 0 <= c < |s.calls| :: s.calls[c].transportCancelled ==> s'.calls[c].transportCancelled)
  }

  lemma WithQueueKeeps(s: Server, step: Q.Step)
    requires Core(s) && Q.Enabled(s.queue, step) && !step.CloseStep?
    ensures var s' := WithQueue(s, Call(s.queue, step));
            && (forall e | e in s.runId :: e in s'.runId && s'.runId[e] == s.runId[e])
            && s'.owner == s.owner && s'.calls == s.calls && s'.received == s.received && s'.outbox == s.outbox
            && s'.workerAlive == s.workerAlive && s'.resolvedRuns == s.resolvedRuns && s'.queue == Call(s.queue, step)
  {
    hide Waiting, WorkerInv, OneAtATime, CompletionsAreFinal, PostsInPlace, Call, Linked;
    CallPostsInOrder(s, step);
  }

  lemma QuietQueueOutcomes(s: Server, step: Q.Step)
    requires Core(s) && OutcomeInv(s) && Q.Enabled(s.queue, step) && !step.CloseStep?
    requires SettlesNothing(s.queue.entries, Call(s.queue, step).entries)
    ensures OutcomeInv(WithQueue(s, Call(s.queue, step)))
  {
    hide Call, Q.Inv, Protocol, WithQueue, Told, ResultsTold, SettlementsTold, OneOutcome, NoneTold;
    var s' := WithQueue(s, Call(s.queue, step));
    ReceivedInRange(s);
    WithQueueKeeps(s, step);
    ToldFrame(s, s');
    SettledFrame(s, s');
  }

  lemma ReceivedInRange(s: Server)
    requires Protocol(s)
    ensures s.received <= |s.outbox|
  {
  }

  /** A queue call that settles `e` with an outcome that is told. */
  lemma SettlingQueueOutcomes(s: Server, step: Q.Step, e: nat, outcome: Q.Settlement)
    requires Core(s) && OutcomeInv(s) && Q.Enabled(s.queue, step) && !step.CloseStep?
    requires SettlesAtMost(s.queue.entries, Call(s.queue, step).entries, e, outcome)
    requires if outcome == Q.Rejected(Q.TransportCancelled)
             then e < |s.owner| && s.owner[e] < |s.calls| && s.calls[s.owner[e]].transportCancelled
             else e in s.resolvedRuns && outcome == s.resolvedRuns[e]
    ensures OutcomeInv(WithQueue(s, Call(s.queue, step)))
  {
    hide Call, Q.Inv, Protocol, WithQueue, Told, ResultsTold, SettlementsTold, OneOutcome, NoneTold;
    var s' := WithQueue(s, Call(s.queue, step));
    ReceivedInRange(s);
    WithQueueKeeps(s, step);
    ToldFrame(s, s');
    SettledFrame(s, s');
  }

  lemma ArrivalOutcomes(s: Server, kind: CallKind, cancelled: bool)
    requires Core(s) && OutcomeInv(s)
    ensures CallArrives(s, kind, cancelled).received <= |CallArrives(s, kind, cancelled).outbox|
    ensures OutcomeInv(CallArrives(s, kind, cancelled))
  {
    hide Call, Q.Inv, Waiting, WorkerInv, OneAtATime, CompletionsAreFinal, PostsInPlace, WithQueue, Told, OneOutcome;
    var s' := CallArrives(s, kind, cancelled);
    if !cancelled && Q.Admit(s.queue).Accepted? {
      EnqueueSettles(s.queue);
      QuietQueueOutcomes(s, Q.EnqueueStep);
      WithQueueKeeps(s, Q.EnqueueStep);
    }
    assert Heard(s') == Heard(s);
  }

  lemma TransportCancelOutcomes(s: Server, c: nat)
    requires Core(s) && c < |s.calls| && OutcomeInv(s)
    ensures TransportCancels(s, c).received <= |TransportCancels(s, c).outbox|
    ensures OutcomeInv(TransportCancels(s, c))
  {
    hide Call, Q.Inv, Waiting, WorkerInv, OneAtATime, CompletionsAreFinal, PostsInPlace, WithQueue, Told, OneOutcome;
    var call := s.calls[c].(transportCancelled := true);
    var s1 := s.(calls := s.calls[c := call]);
    assert Heard(s1) == Heard(s);
    assert OutcomeInv(s1);
    if s.calls[c].entry.Some? {
      var e := s.calls[c].entry.value;
      SameEntriesOwned(s.owner, s.calls, c, call);
      ProtocolIgnores(s, s1.calls, s.owner);
      CancelSettles(s.queue, e);
      SettlingQueueOutcomes(s1, Q.CancelStep(e), e, Q.Rejected(Q.TransportCancelled));
      WithQueueKeeps(s1, Q.CancelStep(e));
    }
  }

  lemma RunSettlesOutcomes(s: Server, e: nat)
    requires Core(s) && Enabled(s, RunSettlesStep(e)) && OutcomeInv(s)
    ensures RunSettles(s, e).received <= |RunSettles(s, e).outbox|
    ensures OutcomeInv(RunSettles(s, e))
  {
    hide Call, Q.Inv, Waiting, WorkerInv, OneAtATime, CompletionsAreFinal, PostsInPlace, WithQueue, Told, OneOutcome;
    hide SettlementsTold, NoneTold;
    var step := Q.RunCompletesStep(e, s.resolvedRuns[e]);
    CompleteSettles(s.queue, e, s.resolvedRuns[e]);
    SettlingQueueOutcomes(s, step, e, s.resolvedRuns[e]);
    WithQueueKeeps(s, step);
    WithQueueCommutes(s, Call(s.queue, step), s.resolvedRuns - {e}, s.resolvedAttempts);
    var s' := WithQueue(s, Call(s.queue, step));
    assert Heard(s'.(resolvedRuns := s.resolvedRuns - {e}, resolvedAttempts := s.resolvedAttempts)) == Heard(s');
  }

  lemma CompleteSettles(q: Q.Queue, e: nat, outcome: Q.Settlement)
    requires Q.Inv(q) && q.stack == [] && Q.Enabled(q, Q.RunCompletesStep(e, outcome))
    ensures SettlesAtMost(q.entries, Call(q, Q.RunCompletesStep(e, outcome)).entries, e, outcome)
  {
    hide Call, Q.Inv;
    CompleteCall(q, e, outcome);
  }

  lemma AttemptSettlesOutcomes(s: Server, t: nat)
    requires Core(s) && Enabled(s, AttemptSettlesStep(t)) && OutcomeInv(s)
    ensures AttemptSettles(s, t).received <= |AttemptSettles(s, t).outbox|
    ensures OutcomeInv(AttemptSettles(s, t))
  {
    hide Call, Q.Inv, Waiting, WorkerInv, OneAtATime, CompletionsAreFinal, PostsInPlace, WithQueue, Told, OneOutcome;
    hide SettlementsTold, NoneTold;
    var step := Q.AttemptSettlesStep(t, s.resolvedAttempts[t]);
    AttemptSettlesNothing(s.queue, t, s.resolvedAttempts[t]);
    QuietQueueOutcomes(s, step);
    WithQueueKeeps(s, step);
    WithQueueCommutes(s, Call(s.queue, step), s.resolvedRuns, s.resolvedAttempts - {t});
    var s' := WithQueue(s, Call(s.queue, step));
    assert Heard(s'.(resolvedRuns := s.resolvedRuns, resolvedAttempts := s.resolvedAttempts - {t})) == Heard(s');
  }

  lemma CancelRpcOutcomes(s: Server)
    requires Core(s) && OutcomeInv(s)
    ensures var s' := WithQueue(s, Call(s.queue, Q.CancelActiveStep)); s'.received <= |s'.outbox| && OutcomeInv(s')
  {
    hide Call, WithQueue, OutcomeInv;
    CancelActiveSettles(s.queue);
    QuietQueueOutcomes(s, Q.CancelActiveStep);
    WithQueueKeeps(s, Q.CancelActiveStep);
  }

  lemma CallContinuesOutcomes(s: Server, c: nat)
    requires Core(s) && Enabled(s, CallContinuesStep(c)) && OutcomeInv(s)
    ensures CallContinues(s, c).received <= |CallContinues(s, c).outbox|
    ensures OutcomeInv(CallContinues(s, c))
  {
    hide Q.Inv, Waiting, WorkerInv, OneAtATime, CompletionsAreFinal, PostsInPlace, Told, OneOutcome;
    var e := s.calls[c].entry.value;
    var x := s.queue.entries[e].settlements[0];
    assert x in s.queue.entries[e].settlements && s.owner[e] == c;
    assert Heard(CallContinues(s, c)) == Heard(s);
    assert x == Q.Rejected(Q.TransportCancelled) ==> s.calls[c].transportCancelled;
  }

  lemma CallStepOutcomes(s: Server, step: Step)
    requires Core(s) && Enabled(s, step) && CallStep(step) && OutcomeInv(s)
    ensures Next(s, step).received <= |Next(s, step).outbox| && OutcomeInv(Next(s, step))
  {
    hide OutcomeInv, Protocol, Call, WithQueue;
    match step
    case CallArrivesStep(kind, cancelled) => ArrivalOutcomes(s, kind, cancelled);
    case TransportCancelsStep(c) => TransportCancelOutcomes(s, c);
    case CancelRpcStep => CancelRpcOutcomes(s);
    case CallContinuesStep(c) => CallContinuesOutcomes(s, c);
    case RunSettlesStep(e) => RunSettlesOutcomes(s, e);
    case AttemptSettlesStep(t) => AttemptSettlesOutcomes(s, t);
  }

  // ----- Messages and shutdown -----

  lemma ReceiveToldMore(s: Server, outcome: Q.Settlement, e: nat)
    requires s.received < |s.outbox| && OneOutcome(s.outbox) && s.workerAlive && Told(outcome, e, s.runId, Heard(s), true)
    ensures Told(outcome, e, s.runId, s.outbox[..s.received + 1], true)
  {
    var m := s.outbox[s.received];
    assert s.outbox[..s.received + 1] == Heard(s) + [m];
    if outcome == Q.Rejected(Q.RunFailed) {
      assert Completed(s.runId[e], false) in s.outbox;
      assert m in s.outbox;
    }
  }

  lemma ReceiveResult(s: Server)
    requires Core(s) && s.received < |s.outbox| && OneOutcome(s.outbox)
    requires s.outbox[s.received].Completed? && Expects(s.waiters, s.outbox[s.received])
    ensures var m := s.outbox[s.received];
            Told(if m.ok then Q.Resolved else Q.Rejected(Q.RunFailed), s.waiters[m.id].entry, s.runId, s.outbox[..s.received + 1], true)
  {
    hide Linked, Channel, WorkerInv, OneAtATime, CompletionsAreFinal;
    var m := s.outbox[s.received];
    assert s.outbox[..s.received + 1] == Heard(s) + [m];
    assert s.outbox[..s.received + 1][s.received] == Completed(m.id, m.ok);
  }

  lemma ReceiveOutcomes(s: Server)
    requires Core(s) && Enabled(s, ReceiveStep) && OutcomeInv(s)
    ensures Receive(s).received <= |Receive(s).outbox| && OutcomeInv(Receive(s))
  {
    hide Waiting, WorkerInv, OneAtATime, CompletionsAreFinal, PostsInPlace, Q.Inv, Told, OneOutcome, RunResults;
    var s', heard := Receive(s), s.outbox[..s.received + 1];
    assert Heard(s') == heard;
    forall e | e in s.resolvedRuns
      ensures Told(s.resolvedRuns[e], e, s.runId, heard, true)
    {
      ReceiveToldMore(s, s.resolvedRuns[e], e);
    }
    if s.outbox[s.received].Completed? && Expects(s.waiters, s.outbox[s.received]) {
      ReceiveResult(s);
    }
    forall e, x | 0 <= e < |s.queue.entries| && x in s.queue.entries[e].settlements && (x == Q.Resolved || x == Q.Rejected(Q.RunFailed))
      ensures Told(x, e, s.runId, heard, true)
    {
      ReceiveToldMore(s, x, e);
    }
    ReceiveCalls(s);
  }

  lemma ClosingOutcomes(s: Server, timing: Timing)
    requires Core(s) && OutcomeInv(s)
    ensures var s' := Shutdown(s.(timing := timing)); s'.received <= |s'.outbox| && OutcomeInv(s')
    ensures var s' := Shutdown(s.(timing := timing));
            && s'.waiters == s.waiters && s'.runId == s.runId && s'.workerAlive == s.workerAlive
            && s'.outbox == s.outbox && s'.received == s.received
  {
    hide Waiting, WorkerInv, OneAtATime, CompletionsAreFinal, PostsInPlace, Call, Told, OneOutcome, Q.Inv, PostCancelOfActive;
    var s' := Shutdown(s.(timing := timing));
    assert Heard(s') == Heard(s);
    if s.phase == Serving {
      CloseSettles(s.queue);
    }
  }

  lemma CloseSettles(q: Q.Queue)
    requires Q.Inv(q) && q.stack == []
    ensures forall i, x | 0 <= i < |Call(q, Q.CloseStep).entries| && x in Call(q, Q.CloseStep).entries[i].settlements ::
              (i < |q.entries| && x in q.entries[i].settlements) || x == Q.Rejected(Q.QueueClosed)
  {
    Q.StepInv(q, Q.CloseStep);
  }

  lemma FailureOutcomes(s: Server)
    requires Core(s) && OutcomeInv(s)
    ensures WorkerFails(s).received <= |WorkerFails(s).outbox| && OutcomeInv(WorkerFails(s))
  {
    hide Q.Inv, Channel, WorkerInv, OneAtATime, CompletionsAreFinal, OneOutcome, Shutdown;
    ClosingOutcomes(s, s.timing);
    var s1, s' := Shutdown(s), WorkerFails(s);
    assert s.(timing := s.timing) == s;
    assert Heard(s') == Heard(s1) == Heard(s);
    forall e | e in WaitingRuns(s1.waiters)
      ensures Told(Q.Rejected(Q.RunFailed), e, s1.runId, Heard(s), false)
    {
      var id :| id in s.waiters && s.waiters[id] == RunOf(e);
      assert s.runId[e] == id && !CompletedIn(Heard(s), id);
    }
  }

  lemma ShutdownContinuesOutcomes(s: Server)
    requires Core(s) && OutcomeInv(s)
    ensures ShutdownContinues(s).received <= |ShutdownContinues(s).outbox| && OutcomeInv(ShutdownContinues(s))
  {
    hide Linked, Channel, Waiting, Told, OneOutcome, ResultsTold, SettlementsTold, NoneTold;
    ReceivedInRange(s);
    match s.phase
    case Serving =>
    case Cancelling => assert Heard(ShutdownContinues(s)) == Heard(s);
    case Terminating => assert Heard(ShutdownContinues(s)) == Heard(s);
    case Down =>
  }

  lemma ParentStepOutcomes(s: Server, step: Step)
    requires Core(s) && Enabled(s, step) && !CallStep(step) && !WorkerStep(step) && OutcomeInv(s)
    ensures Next(s, step).received <= |Next(s, step).outbox| && OutcomeInv(Next(s, step))
  {
    hide Channel, Shutdown, WorkerFails, Receive, ShutdownContinues, CallArrives, TransportCancels, Call, RunSettles;
    hide AttemptSettles, CallContinues, Deliver, EmitEvent, EndScope, EndSession, PostCompletion, PostAck;
    hide Told, OneOutcome, ResultsTold, SettlementsTold, NoneTold;
    ReceivedInRange(s);
    match step
    case ReceiveStep => ReceiveOutcomes(s);
    case ImmediateFiresStep => ClosingOutcomes(s, s.timing.(immediates := s.timing.immediates - 1));
    case StartupTimerFiresStep => ClosingOutcomes(s, s.timing.(startupTimer := false));
    case WorkerFailsStep => FailureOutcomes(s);
    case ShutdownContinuesStep => ShutdownContinuesOutcomes(s);
    case AttemptTimesOutStep(_) => assert Heard(Next(s, step)) == Heard(s);
    case LeaseArrivesStep => assert Heard(Next(s, step)) == Heard(s);
    case LeaseLostStep(_) => assert Heard(Next(s, step)) == Heard(s);
  }

  lemma WorkerOutcome(s: Server, step: Step)
    requires Core(s) && Enabled(s, step) && WorkerStep(step) && OneOutcome(s.outbox)
    ensures s.outbox <= Next(s, step).outbox && OneOutcome(Next(s, step).outbox)
  {
    hide Linked, Channel, Waiting, WorkerInv, OneAtATime;
    match step
    case DeliverStep(cache) => DeliverLeavesParent(s, cache);
    case PostCompletionStep(id) =>
      assert forall ok :: Completed(id, ok) !in s.outbox;
    case _ =>
  }

  lemma WorkerStepOutcomes(s: Server, step: Step)
    requires Core(s) && Enabled(s, step) && WorkerStep(step) && OutcomeInv(s)
    ensures Next(s, step).received <= |Next(s, step).outbox| && OutcomeInv(Next(s, step))
  {
    hide Q.Inv, Waiting, WorkerInv, OneAtATime, CompletionsAreFinal, PostsInPlace, Told, OneOutcome;
    WorkerOutcome(s, step);
    assert Heard(Next(s, step)) == Heard(s);
  }

  lemma StepOutcomes(s: Server, step: Step)
    requires Core(s) && Enabled(s, step) && OutcomeInv(s)
    ensures Next(s, step).received <= |Next(s, step).outbox| && OutcomeInv(Next(s, step))
  {
    hide Linked, Waiting, OutcomeInv;
    if CallStep(step) {
      CallStepOutcomes(s, step);
    } else if WorkerStep(step) {
      WorkerStepOutcomes(s, step);
    } else {
      ParentStepOutcomes(s, step);
    }
  }

  lemma NewOutcomes(maxPending: nat, timer: bool)
    ensures New(maxPending, timer).received <= |New(maxPending, timer).outbox| && OutcomeInv(New(maxPending, timer))
  {
  }

  lemma {:induction false} RunsKeepOutcomes(maxPending: nat, timer: bool, ss: seq<Server>, steps: seq<Step>, k: nat)
    requires IsRun(maxPending, timer, ss, steps) && k < |ss|
    ensures ss[k].received <= |ss[k].outbox| && OutcomeInv(ss[k])
  {
    hide Core, Next, Enabled, OutcomeInv, New;
    if k == 0 {
      NewOutcomes(maxPending, timer);
    } else {
      RunsKeepOutcomes(maxPending, timer, ss, steps, k - 1);
      StepOfRun(maxPending, timer, ss, steps, k - 1);
      StepOutcomes(ss[k - 1], steps[k - 1]);
    }
  }

  // ----- Main results -----

  /** The one output that is not a write stands at `i`. */
  ghost predicate EndsAt(outputs: seq<Output>, i: nat, end: Output) {
    i < |outputs| && outputs[i] == end && forall j | 0 <= j < |outputs| && j != i :: outputs[j].Write?
  }

  lemma StreamEnd(m: nat, n: nat, end: Output)
    requires m <= n
    ensures EndsAt(StreamOutputs(m, n, Some(end)), m, end)
  {
  }

  lemma RepliedEnd(s: Server, c: nat) returns (i: nat)
    requires s.received <= |s.outbox| && c < |s.calls| && CallOk(s.calls[c], s.queue.entries, s.runId, Heard(s))
    requires s.calls[c].done && !s.calls[c].transportCancelled && s.calls[c].entry.Some?
    ensures var settlements := s.queue.entries[s.calls[c].entry.value].settlements;
            && s.calls[c].entry.value < |s.queue.entries| && settlements != []
            && EndsAt(s.calls[c].outputs, i, Terminal(s.calls[c].kind, settlements[0]))
            && (s.calls[c].kind.Unary? ==> |s.calls[c].outputs| == 1)
  {
    var call := s.calls[c];
    var settlements, events := s.queue.entries[call.entry.value].settlements, DeliveredTo(call.entry.value, s.runId, Heard(s));
    if call.kind.Stream? {
      var m: nat, n: nat, sent: Option<Output> :| StreamFits(call, settlements, events, m, n, sent);
      StreamEnd(m, n, Terminal(call.kind, settlements[0]));
      i := m;
    } else {
      i := 0;
    }
  }

  /**
    What an answered call was told, in every run and phase.  A resumed call whose transport is not cancelled
    has exactly one output that is not an event.  It is success, the value of a unary call or the end of a
    stream, exactly if the worker's successful completion of its own analysis was received and shutdown
    did not come first; it is the analysis error exactly if that was not received, the analysis having
    failed or the worker been lost; and it is unavailable only once shutdown has begun.
   */
  lemma RepliesTellTheOutcome(maxPending: nat, timer: bool, ss: seq<Server>, steps: seq<Step>, k: nat, c: nat) returns (i: nat)
    requires IsRun(maxPending, timer, ss, steps) && k < |ss| && c < |ss[k].calls|
    requires ss[k].calls[c].done && !ss[k].calls[c].transportCancelled && ss[k].calls[c].entry.Some?
    ensures ss[k].received <= |ss[k].outbox|
    ensures var s, call, e := ss[k], ss[k].calls[c], ss[k].calls[c].entry.value;
            var success := if call.kind.Unary? then Value else End;
            var succeeded := e in s.runId && Completed(s.runId[e], true) in s.outbox[..s.received];
            var failed := e in s.runId && Completed(s.runId[e], false) in s.outbox[..s.received];
            && i < |call.outputs| && (forall j | 0 <= j < |call.outputs| && j != i :: call.outputs[j].Write?)
            && (call.kind.Unary? ==> |call.outputs| == 1)
            && call.outputs[i] in {success, Error(Other), Error(Unavailable)}
            && (call.outputs[i] == Error(Unavailable) ==> s.phase != Serving)
            && (call.outputs[i] == success <==> succeeded && call.outputs[i] != Error(Unavailable))
            && (call.outputs[i] == Error(Other) <==> !succeeded && call.outputs[i] != Error(Unavailable))
            && (call.outputs[i] == Error(Other) ==> e in s.runId && (failed || !s.workerAlive))
  {
    RunsKeepOutcomes(maxPending, timer, ss, steps, k);
    RunsKeepInv(maxPending, timer, ss, steps, k);
    assert CallOk(ss[k].calls[c], ss[k].queue.entries, ss[k].runId, Heard(ss[k]));
    i := RepliedEnd(ss[k], c);
    SettlementIsTold(ss[k], ss[k].calls[c].entry.value, c);
  }

  lemma SettlementIsTold(s: Server, e: nat, c: nat)
    requires Inv(s) && OutcomeInv(s) && c < |s.calls| && s.calls[c].entry == Some(e) && e < |s.queue.entries|
    requires s.queue.entries[e].settlements != [] && !s.calls[c].transportCancelled
    ensures var x := s.queue.entries[e].settlements[0];
            && x != Q.Rejected(Q.TransportCancelled)
            && (x == Q.Rejected(Q.QueueClosed) ==> s.phase != Serving)
            && (x == Q.Resolved || x == Q.Rejected(Q.RunFailed) ==> Told(x, e, s.runId, Heard(s), s.workerAlive))
  {
    var x := s.queue.entries[e].settlements[0];
    assert x in s.queue.entries[e].settlements && s.owner[e] == c;
  }

  /**
    Nobody is told that the transport was cancelled: a request is dropped for that reason only after its own
    client went away.
   */
  lemma CancelledIsNeverSent(maxPending: nat, timer: bool, ss: seq<Server>, steps: seq<Step>, k: nat, c: nat)
    requires IsRun(maxPending, timer, ss, steps) && k < |ss| && c < |ss[k].calls|
    ensures Error(CancelledStatus) !in ss[k].calls[c].outputs
    ensures ss[k].calls[c].entry.Some? ==>
              var e := ss[k].calls[c].entry.value;
              && e < |ss[k].queue.entries|
              && (Q.Rejected(Q.TransportCancelled) in ss[k].queue.entries[e].settlements ==> ss[k].calls[c].transportCancelled)
  {
    RunsKeepOutcomes(maxPending, timer, ss, steps, k);
    RunsKeepInv(maxPending, timer, ss, steps, k);
  }
}
