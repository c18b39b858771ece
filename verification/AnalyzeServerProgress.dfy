/**
  Nothing gets lost: in every run each analysis that the worker took is in a handler or has completed, the
  worker is told to close only when shutdown has come that far, and a serving server with an analysis always
  has a step that brings it on.
 */
module AnalyzeServerProgress {
  import opened Options
  import opened AnalyzeServer
  import opened AnalyzeServerEffects

  ghost predicate Carried(posted: seq<InMsg>, delivered: nat, handlers: map<nat, Handler>, out: seq<OutMsg>) {
    delivered <= |posted| && forall i | 0 <= i < delivered && posted[i].Analyze? :: i + 1 in handlers || CompletedIn(out, i + 1)
  }

  ghost predicate ClosesLate(s: Server) {
    s.worker.closed || CloseWorker in s.posted ==> s.phase == Terminating || s.phase == Down
  }

  ghost predicate ProgressInv(s: Server) {
    Carried(s.posted, s.delivered, s.worker.handlers, s.outbox) && ClosesLate(s)
  }

  lemma CompletedStays(out: seq<OutMsg>, more: seq<OutMsg>, id: nat)
    requires CompletedIn(out, id)
    ensures CompletedIn(out + more, id)
  {
  }

  lemma OneMoreCarried(posted: seq<InMsg>, delivered: nat, handlers: map<nat, Handler>, handlers': map<nat, Handler>, out: seq<OutMsg>)
    requires Carried(posted, delivered, handlers, out) && delivered < |posted| && handlers.Keys <= handlers'.Keys
    requires posted[delivered].Analyze? ==> delivered + 1 in handlers'
    ensures Carried(posted, delivered + 1, handlers', out)
  {
    hide CompletedIn;
  }

  lemma HandledKeeps(w: Worker, m: InMsg, cache: CacheRequest)
    ensures w.handlers.Keys <= Handled(w, m, cache).handlers.Keys
    ensures m.Analyze? ==> m.id in Handled(w, m, cache).handlers
    ensures Handled(w, m, cache).closed ==> w.closed || m.CloseWorker?
  {
  }

  lemma DeliverCarries(s: Server, cache: CacheRequest)
    requires Core(s) && s.delivered < |s.posted| && ProgressInv(s)
    ensures ProgressInv(Deliver(s, cache))
  {
    hide Linked, Waiting, OneAtATime, CompletionsAreFinal, WorkerInv, Handled, Carried;
    var m := s.posted[s.delivered];
    assert m in s.posted;
    HandledKeeps(s.worker, m, cache);
    OneMoreCarried(s.posted, s.delivered, s.worker.handlers, Handled(s.worker, m, cache).handlers, s.outbox);
  }

  lemma WorkerStepCarries(s: Server, step: Step)
    requires Core(s) && Enabled(s, step) && WorkerStep(step) && ProgressInv(s)
    ensures ProgressInv(Next(s, step))
  {
    hide Linked, Channel, Waiting, WorkerInv, OneAtATime, CompletionsAreFinal, CompletedIn;
    match step
    case DeliverStep(cache) => DeliverCarries(s, cache);
    case EmitEventStep(id) => MoreCarried(s, [Event(id, EventCount(s.outbox, id))]);
    case PostCompletionStep(id) => CompletionCarries(s, id);
    case PostAckStep(ack) => MoreCarried(s, [CancelCompleted(ack.0, ack.1)]);
    case EndScopeStep(_, _) =>
    case EndSessionStep(_) =>
  }

  lemma MoreCarried(s: Server, more: seq<OutMsg>)
    requires Carried(s.posted, s.delivered, s.worker.handlers, s.outbox)
    ensures Carried(s.posted, s.delivered, s.worker.handlers, s.outbox + more)
  {
    forall i | 0 <= i < s.delivered && s.posted[i].Analyze? && i + 1 !in s.worker.handlers
      ensures CompletedIn(s.outbox + more, i + 1)
    {
      CompletedStays(s.outbox, more, i + 1);
    }
  }

  lemma CompletionCarries(s: Server, id: nat)
    requires id in s.worker.handlers && s.worker.handlers[id].SessionEnded? && ProgressInv(s)
    ensures ProgressInv(PostCompletion(s, id))
  {
    var m := Completed(id, s.worker.handlers[id].ok);
    MoreCarried(s, [m]);
    assert m in s.outbox + [m];
  }

  /** A step of the parent posts a message to close only when it begins to terminate. */
  ghost predicate PostsMore(s: Server, s': Server) {
    && s.posted <= s'.posted && s'.worker == s.worker && s'.outbox == s.outbox && s'.delivered == s.delivered
    && (s.phase == Terminating || s.phase == Down ==> s'.phase == Terminating || s'.phase == Down)
    && (CloseWorker in s'.posted ==> CloseWorker in s.posted || s'.phase == Terminating)
  }

  lemma QueueCallPostsMore(s: Server, q: Q.Queue)
    ensures PostsMore(s, WithQueue(s, q))
  {
  }

  lemma CallStepPostsMore(s: Server, step: Step)
    requires Linked(s) && Enabled(s, step) && CallStep(step)
    ensures PostsMore(s, Next(s, step))
  {
    hide WithQueue, Call, Deliver, EmitEvent, EndScope, EndSession, PostCompletion, PostAck, Shutdown, Receive, WorkerFails;
    match step
    case CallArrivesStep(kind, cancelled) => QueueCallPostsMore(s, Call(s.queue, Q.EnqueueStep));
    case TransportCancelsStep(c) =>
      if s.calls[c].entry.Some? {
        QueueCallPostsMore(s.(calls := s.calls[c := s.calls[c].(transportCancelled := true)]),
                           Call(s.queue, Q.CancelStep(s.calls[c].entry.value)));
      }
    case CancelRpcStep => QueueCallPostsMore(s, Call(s.queue, Q.CancelActiveStep));
    case CallContinuesStep(c) => CallContinuesShape(s, c);
    case RunSettlesStep(e) =>
      QueueCallPostsMore(s.(resolvedRuns := s.resolvedRuns - {e}), Call(s.queue, Q.RunCompletesStep(e, s.resolvedRuns[e])));
    case AttemptSettlesStep(t) =>
      QueueCallPostsMore(s.(resolvedAttempts := s.resolvedAttempts - {t}),
                         Call(s.queue, Q.AttemptSettlesStep(t, s.resolvedAttempts[t])));
  }

  lemma ClosingPostsMore(s: Server, timing: Timing)
    requires QueueReady(s)
    ensures PostsMore(s, Shutdown(s.(timing := timing)))
  {
  }

  lemma ParentStepPostsMore(s: Server, step: Step)
    requires Linked(s) && Enabled(s, step) && !CallStep(step) && !WorkerStep(step)
    ensures PostsMore(s, Next(s, step))
  {
    hide Shutdown, Receive, CallArrives, TransportCancels, Call, RunSettles, AttemptSettles, CallContinues, Deliver;
    hide EmitEvent, EndScope, EndSession, PostCompletion, PostAck, ShutdownContinues;
    match step
    case ReceiveStep => ReceivePostsNothing(s);
    case ImmediateFiresStep => ClosingPostsMore(s, s.timing.(immediates := s.timing.immediates - 1));
    case StartupTimerFiresStep => ClosingPostsMore(s, s.timing.(startupTimer := false));
    case WorkerFailsStep => ClosingPostsMore(s, s.timing);
    case ShutdownContinuesStep => ContinuingPostsMore(s);
    case _ =>
  }

  lemma ContinuingPostsMore(s: Server)
    ensures PostsMore(s, ShutdownContinues(s))
  {
    match s.phase
    case Serving =>
    case Cancelling =>
    case Terminating =>
    case Down =>
  }

  lemma ReceivePostsNothing(s: Server)
    requires Linked(s) && s.received < |s.outbox|
    ensures PostsMore(s, Receive(s))
  {
  }

  lemma StepProgress(s: Server, step: Step)
    requires Core(s) && Enabled(s, step) && ProgressInv(s)
    ensures ProgressInv(Next(s, step))
  {
    hide Protocol, Next;
    if WorkerStep(step) {
      WorkerStepCarries(s, step);
    } else if CallStep(step) {
      CallStepPostsMore(s, step);
    } else {
      ParentStepPostsMore(s, step);
    }
  }

  lemma NewProgress(maxPending: nat, timer: bool)
    ensures ProgressInv(New(maxPending, timer))
  {
  }

  lemma {:induction false} RunsKeepProgress(maxPending: nat, timer: bool, ss: seq<Server>, steps: seq<Step>, k: nat)
    requires IsRun(maxPending, timer, ss, steps) && k < |ss|
    ensures ProgressInv(ss[k])
  {
    hide Core, Next, Enabled, ProgressInv, New;
    if k == 0 {
      NewProgress(maxPending, timer);
    } else {
      RunsKeepProgress(maxPending, timer, ss, steps, k - 1);
      StepOfRun(maxPending, timer, ss, steps, k - 1);
      StepProgress(ss[k - 1], steps[k - 1]);
    }
  }

  /** In every run, an analysis that the worker took is in hand or its completion is posted. */
  lemma AnalysesAreNeverLost(maxPending: nat, timer: bool, ss: seq<Server>, steps: seq<Step>, k: nat, i: nat)
    requires IsRun(maxPending, timer, ss, steps) && k < |ss| && i < |ss[k].posted| && ss[k].posted[i].Analyze?
    ensures i < ss[k].delivered ==> i + 1 in ss[k].worker.handlers || CompletedIn(ss[k].outbox, i + 1)
  {
    RunsKeepProgress(maxPending, timer, ss, steps, k);
  }

  /** The steps that bring an analysis on, none of which waits for a client. */
  predicate BringsOn(step: Step) {
    step.DeliverStep? || step.EndScopeStep? || step.EndSessionStep? || step.PostCompletionStep? || step.ReceiveStep?
    || step.RunSettlesStep?
  }

  lemma HandlerBringsOn(s: Server, id: nat) returns (step: Step)
    requires Linked(s) && s.workerAlive && id in s.worker.handlers
    ensures BringsOn(step) && Enabled(s, step)
  {
    match s.worker.handlers[id]
    case Running(_) => step := EndScopeStep(id, true);
    case ScopeEnded(_, _) => step := EndSessionStep(id);
    case SessionEnded(_) => step := PostCompletionStep(id);
  }

  /**
    No deadlock: in every run, while the server is serving, its worker alive and an analysis active, a step
    that brings an analysis on is enabled.
   */
  lemma ActiveAnalysisMovesOn(maxPending: nat, timer: bool, ss: seq<Server>, steps: seq<Step>, k: nat) returns (step: Step)
    requires IsRun(maxPending, timer, ss, steps) && k < |ss|
    requires ss[k].phase == Serving && ss[k].workerAlive && ss[k].queue.active.Some?
    ensures Linked(ss[k]) && BringsOn(step) && Enabled(ss[k], step)
  {
    RunsKeepCore(maxPending, timer, ss, steps, k);
    RunsKeepProgress(maxPending, timer, ss, steps, k);
    var s := ss[k];
    var e := s.queue.active.value;
    if e in s.resolvedRuns {
      ActiveIsExecuting(s.queue);
      step := RunSettlesStep(e);
    } else if s.delivered < |s.posted| {
      step := DeliverStep(NoCache);
    } else {
      ActiveIsPosted(s, e);
      if s.runId[e] in s.worker.handlers {
        step := HandlerBringsOn(s, s.runId[e]);
      } else {
        UnheardIsAhead(s, s.runId[e]);
        step := ReceiveStep;
      }
    }
  }

  lemma ActiveIsExecuting(q: Q.Queue)
    requires Q.Inv(q) && q.stack == [] && q.active.Some?
    ensures q.active.value in q.executions
  {
  }

  lemma ActiveIsPosted(s: Server, e: nat)
    requires Protocol(s) && ProgressInv(s) && s.phase == Serving && s.queue.active == Some(e) && e !in s.resolvedRuns
    requires s.delivered == |s.posted|
    ensures e in s.runId && !CompletedIn(Heard(s), s.runId[e])
    ensures s.runId[e] in s.worker.handlers || CompletedIn(s.outbox, s.runId[e])
  {
    assert Awaited(e, s.resolvedRuns, s.runId, s.waiters);
    assert s.posted[s.runId[e] - 1] == Analyze(s.runId[e], e);
    assert s.runId[e] - 1 + 1 == s.runId[e];
  }

  lemma UnheardIsAhead(s: Server, id: nat)
    requires s.received <= |s.outbox| && CompletedIn(s.outbox, id) && !CompletedIn(Heard(s), id)
    ensures s.received < |s.outbox|
  {
    assert s.outbox[..|s.outbox|] == s.outbox;
  }
}
