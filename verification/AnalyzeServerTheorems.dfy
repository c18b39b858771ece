/**
  What the whole analyze-project server guarantees in every run: cancellation isolation and one
  analysis at a time.
 */
module AnalyzeServerTheorems {
  import opened Options
  import opened AnalyzeServer

  // ----- Isolation -----

  /** A cancel is posted only while its target is the active entry's analysis, and after no later analysis. */
  lemma CancelsTargetTheActiveAnalysis(s: Server, step: Step)
    requires Core(s) && Enabled(s, step)
    ensures |Next(s, step).posted| > |s.posted| && Next(s, step).posted[|s.posted|].Cancel? ==>
              && s.queue.active.Some? && s.queue.active.value in s.runId
              && Next(s, step).posted[|s.posted|].target == s.runId[s.queue.active.value]
              && Latest(s.posted, |s.posted|, s.runId[s.queue.active.value])
  {
    if WorkerStep(step) {
      WorkerLeavesParent(s, step);
    } else if CallStep(step) {
      CallStepPosts(s, step);
    } else {
      ParentStepPosts(s, step);
    }
  }

  ghost predicate ParentSame(s: Server, s': Server) {
    && s'.posted == s.posted && s'.queue == s.queue && s'.calls == s.calls && s'.owner == s.owner
    && s'.runId == s.runId && s'.received == s.received && s'.phase == s.phase
  }

  lemma DeliverLeavesParent(s: Server, cache: CacheRequest)
    requires s.delivered < |s.posted|
    ensures ParentSame(s, Deliver(s, cache)) && Deliver(s, cache).outbox == s.outbox
    ensures Deliver(s, cache).delivered == s.delivered + 1
  {
  }

  lemma WorkerLeavesParent(s: Server, step: Step)
    requires Linked(s) && Enabled(s, step) && WorkerStep(step)
    ensures ParentSame(s, Next(s, step))
  {
    if step.DeliverStep? {
      DeliverLeavesParent(s, step.cache);
    }
  }

  /** A parent step posts one message at most: a cancel of the active analysis, or one more analysis. */
  ghost predicate PostsProperly(s: Server, s': Server) {
    && (s'.posted == s.posted || (|s'.posted| == |s.posted| + 1 && s'.posted[..|s.posted|] == s.posted))
    && (|s'.posted| > |s.posted| && s'.posted[|s.posted|].Cancel? ==>
          && s.queue.active.Some? && s.queue.active.value in s.runId
          && s'.posted[|s.posted|].target == s.runId[s.queue.active.value])
    && (|s'.posted| > |s.posted| && s'.posted[|s.posted|].Analyze? ==> |s'.queue.started| > |s.queue.started|)
  }

  ghost predicate WorkerSame(s: Server, s': Server) {
    s'.worker == s.worker && s'.outbox == s.outbox && s'.delivered == s.delivered
  }

  lemma QueueCallPosts(s: Server, q: Q.Queue)
    requires Started(s.queue, q) || Asked(s.queue, q) || Quiet(s.queue, q)
    ensures PostsProperly(s, WithQueue(s, q))
    ensures WorkerSame(s, WithQueue(s, q))
  {
  }

  lemma ArrivalPosts(s: Server, kind: CallKind, cancelled: bool)
    requires QueueReady(s)
    ensures PostsProperly(s, CallArrives(s, kind, cancelled))
    ensures WorkerSame(s, CallArrives(s, kind, cancelled))
  {
    if !cancelled && Q.Admit(s.queue).Accepted? {
      CallMoves(s.queue, Q.EnqueueStep);
      QueueCallPosts(s, Call(s.queue, Q.EnqueueStep));
    }
  }

  lemma TransportCancelPosts(s: Server, c: nat)
    requires QueueReady(s) && c < |s.calls|
    requires s.calls[c].entry.Some? ==> s.calls[c].entry.value < |s.queue.entries|
    ensures PostsProperly(s, TransportCancels(s, c))
    ensures WorkerSame(s, TransportCancels(s, c))
  {
    if s.calls[c].entry.Some? {
      var s1 := s.(calls := s.calls[c := s.calls[c].(transportCancelled := true)]);
      CallMoves(s.queue, Q.CancelStep(s.calls[c].entry.value));
      QueueCallPosts(s1, Call(s.queue, Q.CancelStep(s.calls[c].entry.value)));
    }
  }

  lemma CallStepPosts(s: Server, step: Step)
    requires Linked(s) && Enabled(s, step) && CallStep(step)
    ensures PostsProperly(s, Next(s, step))
    ensures WorkerSame(s, Next(s, step))
  {
    match step
    case CallArrivesStep(kind, cancelled) => ArrivalPosts(s, kind, cancelled);
    case TransportCancelsStep(c) => TransportCancelPosts(s, c);
    case CancelRpcStep =>
      CallMoves(s.queue, Q.CancelActiveStep);
      QueueCallPosts(s, Call(s.queue, Q.CancelActiveStep));
    case CallContinuesStep(c) =>
    case RunSettlesStep(e) => RunSettlesPosts(s, e);
    case AttemptSettlesStep(t) => AttemptSettlesPosts(s, t);
  }

  lemma RunSettlesPosts(s: Server, e: nat)
    requires Linked(s) && Enabled(s, RunSettlesStep(e))
    ensures PostsProperly(s, RunSettles(s, e))
    ensures WorkerSame(s, RunSettles(s, e))
  {
    CallMoves(s.queue, Q.RunCompletesStep(e, s.resolvedRuns[e]));
    QueueCallPosts(s.(resolvedRuns := s.resolvedRuns - {e}), Call(s.queue, Q.RunCompletesStep(e, s.resolvedRuns[e])));
  }

  lemma AttemptSettlesPosts(s: Server, t: nat)
    requires Linked(s) && Enabled(s, AttemptSettlesStep(t))
    ensures PostsProperly(s, AttemptSettles(s, t))
    ensures WorkerSame(s, AttemptSettles(s, t))
  {
    var step := Q.AttemptSettlesStep(t, s.resolvedAttempts[t]);
    CallMoves(s.queue, step);
    QueueCallPosts(s.(resolvedAttempts := s.resolvedAttempts - {t}), Call(s.queue, step));
  }

  lemma ShutdownPosts(s: Server)
    requires QueueReady(s)
    ensures PostsProperly(s, Shutdown(s))
    ensures WorkerSame(s, Shutdown(s))
  {
  }

  lemma QuietStepPosts(s: Server, step: Step)
    requires Linked(s) && Enabled(s, step)
    requires step.AttemptTimesOutStep? || step.LeaseArrivesStep? || step.LeaseLostStep? || step.ShutdownContinuesStep?
             || step.ReceiveStep?
    ensures PostsProperly(s, Next(s, step))
    ensures WorkerSame(s, Next(s, step))
  {
    hide Linked, Shutdown, WorkerFails;
    hide CallArrives, TransportCancels, Call, RunSettles, AttemptSettles, CallContinues, Deliver, EmitEvent, EndScope;
    hide EndSession, PostCompletion, PostAck;
  }

  lemma ParentStepPosts(s: Server, step: Step)
    requires Linked(s) && Enabled(s, step) && !CallStep(step) && !WorkerStep(step)
    ensures PostsProperly(s, Next(s, step))
    ensures WorkerSame(s, Next(s, step))
  {
    hide Shutdown, Receive, ShutdownContinues;
    hide CallArrives, TransportCancels, Call, RunSettles, AttemptSettles, CallContinues, Deliver, EmitEvent, EndScope;
    hide EndSession, PostCompletion, PostAck;
    match step
    case ImmediateFiresStep => ShutdownPosts(s.(timing := s.timing.(immediates := s.timing.immediates - 1)));
    case StartupTimerFiresStep => ShutdownPosts(s.(timing := s.timing.(startupTimer := false)));
    case WorkerFailsStep => ShutdownPosts(s);
    case _ => QuietStepPosts(s, step);
  }

  /** The analysis is in its cancellation scope. */
  predicate InScope(w: Worker, id: nat) {
    id in w.handlers && w.handlers[id].Running?
  }

  lemma CancelDeliveredEffect(s: Server, cache: CacheRequest)
    requires Core(s) && s.delivered < |s.posted| && s.posted[s.delivered].Cancel?
    ensures var m, w, w' := s.posted[s.delivered], s.worker, Deliver(s, cache).worker;
            w' == w.(cancelled := w.cancelled + (if InScope(w, m.target) then {m.target} else {}),
                     acks := w.acks + {(m.id, InScope(w, m.target))})
  {
    hide Linked, Waiting, OneAtATime, CompletionsAreFinal;
    var w, m := s.worker, s.posted[s.delivered];
    DeliverCancelWorker(w, s.posted, s.delivered);
    if InScope(w, m.target) {
      assert w.status == Some(m.target);
    } else {
      assert w.status.None?;
      assert w.cancelled + {} == w.cancelled;
    }
  }

  /**
    Cancellation isolation: in every run, a step changes a flag exactly if the worker takes a cancel whose
    own target is in its scope, and then it raises the flag of that target and no other, whatever was
    completed, cancelled or started in between.
   */
  lemma CancellationIsIsolated(maxPending: nat, timer: bool, ss: seq<Server>, steps: seq<Step>, k: nat)
    requires IsRun(maxPending, timer, ss, steps) && k < |steps|
    ensures var s := ss[k];
            ss[k + 1].worker.cancelled
            == s.worker.cancelled
               + if steps[k].DeliverStep? && s.delivered < |s.posted| && s.posted[s.delivered].Cancel?
                    && s.posted[s.delivered].target in s.worker.handlers
                    && s.worker.handlers[s.posted[s.delivered].target].Running?
                 then {s.posted[s.delivered].target} else {}
    ensures forall id | id in ss[k + 1].worker.cancelled && id !in ss[k].worker.cancelled ::
              steps[k].DeliverStep? && ss[k].worker.status == Some(id)
  {
    RunsKeepCore(maxPending, timer, ss, steps, k);
    assert StepAt(ss, steps, k);
    FlagsAreSetByTheirOwnCancel(ss[k], steps[k]);
  }

  lemma FlagsAreSetByTheirOwnCancel(s: Server, step: Step)
    requires Core(s) && Enabled(s, step)
    ensures Next(s, step).worker.cancelled
            == s.worker.cancelled
               + if step.DeliverStep? && s.delivered < |s.posted| && s.posted[s.delivered].Cancel?
                    && InScope(s.worker, s.posted[s.delivered].target)
                 then {s.posted[s.delivered].target} else {}
    ensures forall id | id in Next(s, step).worker.cancelled && id !in s.worker.cancelled ::
              && step.DeliverStep? && s.delivered < |s.posted|
              && s.posted[s.delivered].Cancel? && s.posted[s.delivered].target == id
              && s.worker.status == Some(id)
  {
    if CallStep(step) {
      CallStepPosts(s, step);
    } else if !WorkerStep(step) {
      ParentStepPosts(s, step);
    } else if step.DeliverStep? {
      DeliveredFlags(s, step.cache);
      DeliveredExactly(s, step.cache);
    }
    assert s.worker.cancelled + {} == s.worker.cancelled;
  }

  lemma DeliveredExactly(s: Server, cache: CacheRequest)
    requires Core(s) && s.delivered < |s.posted|
    ensures Deliver(s, cache).worker.cancelled
            == s.worker.cancelled
               + if s.posted[s.delivered].Cancel? && InScope(s.worker, s.posted[s.delivered].target)
                 then {s.posted[s.delivered].target} else {}
  {
    if s.posted[s.delivered].Cancel? {
      CancelDeliveredEffect(s, cache);
    } else {
      assert s.worker.cancelled + {} == s.worker.cancelled;
    }
  }

  lemma HandledFlags(w: Worker, posted: seq<InMsg>, n: nat, cache: CacheRequest)
    requires WorkerInv(w, posted, n) && n < |posted| && (posted[n].Cancel? ==> Latest(posted, n, posted[n].target))
    ensures w.cancelled <= Handled(w, posted[n], cache).cancelled
    ensures forall id | id in Handled(w, posted[n], cache).cancelled && id !in w.cancelled ::
              posted[n].Cancel? && posted[n].target == id && w.status == Some(id)
  {
    if posted[n].Cancel? {
      DeliverCancelWorker(w, posted, n);
    }
  }

  lemma DeliveredFlags(s: Server, cache: CacheRequest)
    requires Core(s) && s.delivered < |s.posted|
    ensures s.worker.cancelled <= Deliver(s, cache).worker.cancelled
    ensures forall id | id in Deliver(s, cache).worker.cancelled && id !in s.worker.cancelled ::
              s.posted[s.delivered].Cancel? && s.posted[s.delivered].target == id && s.worker.status == Some(id)
  {
    HandledFlags(s.worker, s.posted, s.delivered, cache);
  }

  /**
    One analysis at a time: the worker never has two analyses in flight, never opens a second
    cancellation scope or filesystem cache session over an open one, and so the "already active"
    error of the cache is never raised.
   */
  lemma OneAnalysisInFlight(maxPending: nat, timer: bool, ss: seq<Server>, steps: seq<Step>, k: nat, a: nat, b: nat)
    requires IsRun(maxPending, timer, ss, steps) && k < |ss|
    ensures a in ss[k].worker.handlers && b in ss[k].worker.handlers ==> a == b
    ensures !ss[k].worker.sessionConflict
    ensures ss[k].delivered < |ss[k].posted| && ss[k].posted[ss[k].delivered].Analyze? ==>
              ss[k].worker.handlers == map[] && ss[k].worker.status.None? && ss[k].worker.session.None?
  {
    RunsKeepCore(maxPending, timer, ss, steps, k);
    var s := ss[k];
    if a in s.worker.handlers && b in s.worker.handlers {
      LatestUnique(s.posted, s.delivered, a, b);
    }
    if s.delivered < |s.posted| && s.posted[s.delivered].Analyze? {
      WorkerIsIdle(s);
    }
  }
}
