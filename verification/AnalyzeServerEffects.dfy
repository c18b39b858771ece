/**
  What each kind of step of the analyze-project server does in every run: who is admitted, what a cancel,
  a completion, a lease and a shutdown post and settle, and what the worker makes of each message.
 */
module AnalyzeServerEffects {
  import opened Options
  import opened AnalyzeServer
  import opened AnalyzeServerTheorems
  import opened AnalyzeServerShutdown

  lemma StepOfRun(maxPending: nat, timer: bool, ss: seq<Server>, steps: seq<Step>, k: nat)
    requires IsRun(maxPending, timer, ss, steps) && k < |steps|
    ensures Core(ss[k]) && Enabled(ss[k], steps[k]) && ss[k + 1] == Next(ss[k], steps[k])
  {
    hide Core, New, Next, Enabled;
    RunsKeepCore(maxPending, timer, ss, steps, k);
    assert StepAt(ss, steps, k);
  }

  lemma {:induction false} RunsKeepCapacity(maxPending: nat, timer: bool, ss: seq<Server>, steps: seq<Step>, k: nat)
    requires IsRun(maxPending, timer, ss, steps) && k < |ss|
    ensures ss[k].queue.maxPending == maxPending
  {
    hide Core, Next, Enabled;
    if k > 0 {
      RunsKeepCapacity(maxPending, timer, ss, steps, k - 1);
      StepOfRun(maxPending, timer, ss, steps, k - 1);
      StepShutsDownOnce(ss[k - 1], steps[k - 1]);
    }
  }

  // ----- Queue calls -----

  lemma EnqueueCall(q: Q.Queue)
    requires Q.Inv(q) && q.stack == []
    ensures q.closed || (q.active.Some? && |q.pending| >= q.maxPending) ==> Call(q, Q.EnqueueStep) == q
    ensures !q.closed && q.active.Some? && |q.pending| < q.maxPending ==>
              Call(q, Q.EnqueueStep) == q.(pending := q.pending + [|q.entries|], entries := q.entries + [Q.Entry(Q.Pending, [], None)])
    ensures !q.closed && q.active.None? ==>
              Call(q, Q.EnqueueStep) == q.(active := Some(|q.entries|), entries := q.entries + [Q.Entry(Q.Active, [], None)],
                                           started := q.started + [|q.entries|], executions := q.executions + {|q.entries|})
  {
    hide Q.Inv;
    Q.StepInv(q, Q.EnqueueStep);
    if !q.closed && q.active.None? {
      assert (q.entries + [Q.Entry(Q.Active, [], None)])[|q.entries| := Q.Entry(Q.Active, [], None)]
             == q.entries + [Q.Entry(Q.Active, [], None)];
    }
  }

  lemma CancelPendingCall(q: Q.Queue, e: nat)
    requires Q.Inv(q) && q.stack == [] && e < |q.entries| && e in q.pending
    ensures var q' := Call(q, Q.CancelStep(e));
            && q'.entries == q.entries[e := Q.Entry(Q.Settled, [Q.Rejected(Q.TransportCancelled)], q.entries[e].cancellation)]
            && e !in q'.pending && (forall x | x != e :: x in q'.pending <==> x in q.pending)
            && q'.active == q.active && q'.started == q.started && q'.attempts == q.attempts
  {
    Q.StepInv(q, Q.CancelStep(e));
    assert q.entries[e].state.Pending? && q.entries[e].settlements == [];
    assert [] + [Q.Rejected(Q.TransportCancelled)] == [Q.Rejected(Q.TransportCancelled)];
    Q.SplicedOnce(|q.entries|, q.dropped, q.started, q.pending, e);
  }

  lemma CancelActiveCall(q: Q.Queue, e: nat)
    requires Q.Inv(q) && q.stack == [] && e < |q.entries| && q.active == Some(e) && q.entries[e].cancellation.None?
    ensures Call(q, Q.CancelStep(e))
            == q.(entries := q.entries[e := q.entries[e].(cancellation := Some(|q.attempts|))],
                  attempts := q.attempts + [Q.Attempt(e, Q.Outstanding)])
  {
    Q.StepInv(q, Q.CancelStep(e));
    assert q.entries[e].state.Active?;
    assert (q.attempts + [Q.Attempt(e, Q.Calling)])[|q.attempts| := Q.Attempt(e, Q.Outstanding)]
           == q.attempts + [Q.Attempt(e, Q.Outstanding)];
  }

  lemma CancelOtherCall(q: Q.Queue, e: nat)
    requires Q.Inv(q) && q.stack == [] && e < |q.entries| && e !in q.pending
    requires q.active != Some(e) || q.entries[e].cancellation.Some?
    ensures Call(q, Q.CancelStep(e)) == q
  {
    Q.StepInv(q, Q.CancelStep(e));
    assert !q.entries[e].state.Pending?;
  }

  lemma CompleteCall(q: Q.Queue, e: nat, outcome: Q.Settlement)
    requires Q.Inv(q) && q.stack == [] && Q.Enabled(q, Q.RunCompletesStep(e, outcome))
    ensures e < |q.entries|
    ensures var q' := Call(q, Q.RunCompletesStep(e, outcome));
            if q.active != Some(e) then q' == q.(executions := q.executions - {e})
            else
              && |q'.entries| == |q.entries| && q'.entries[e].settlements == q.entries[e].settlements + [outcome]
              && (forall x | 0 <= x < |q.entries| && x != e :: q'.entries[x].settlements == q.entries[x].settlements)
              && (if q.pending == [] then q'.active.None? && q'.pending == [] && q'.started == q.started
                  else q'.active == Some(q.pending[0]) && q'.pending == q.pending[1..] && q'.started == q.started + [q.pending[0]])
  {
    Q.StepInv(q, Q.RunCompletesStep(e, outcome));
    if q.active == Some(e) {
      assert q.entries[e].state.Active?;
      if q.pending != [] {
        assert q.pending[0] in q.pending;
        assert q.entries[q.pending[0]].state.Pending?;
      }
    }
  }

  // ----- Calls -----

  lemma ArrivalEffect(s: Server, kind: CallKind, cancelled: bool)
    requires Core(s)
    ensures var s' := CallArrives(s, kind, cancelled);
            if cancelled then s' == s.(calls := s.calls + [ClientCall(kind, None, true, true, [])])
            else if s.queue.closed then s' == s.(calls := s.calls + [ClientCall(kind, None, false, true, [Error(Unavailable)])])
            else if s.queue.active.Some? && |s.queue.pending| >= s.queue.maxPending then
              s' == s.(calls := s.calls + [ClientCall(kind, None, false, true, [Error(ResourceExhausted)])])
            else
              var e := |s.queue.entries|;
              && s'.calls == s.calls + [ClientCall(kind, Some(e), false, false, [])] && |s'.queue.entries| == e + 1
              && (if s.queue.active.Some? then s'.queue.pending == s.queue.pending + [e] && s'.posted == s.posted
                  else s'.queue.active == Some(e) && s'.posted == s.posted + [Analyze(|s.posted| + 1, e)])
  {
    hide Q.Inv, Owned, WaitersInRange, RunResults, Call, Waiting, WorkerInv, OneAtATime, CompletionsAreFinal, PostsInPlace;
    EnqueueCall(s.queue);
  }

  /**
    Exactly which calls get a place: a live one is refused as unavailable once shutdown has begun, and as
    exhausted while an analysis is active and `maxPending` others wait.  Any other is accepted, and if
    nothing was active its analysis is posted at once.
   */
  lemma ArrivalsAreAdmittedExactly(maxPending: nat, timer: bool, ss: seq<Server>, steps: seq<Step>, k: nat, kind: CallKind, cancelled: bool)
    requires IsRun(maxPending, timer, ss, steps) && k < |steps| && steps[k] == CallArrivesStep(kind, cancelled)
    ensures var s, s' := ss[k], ss[k + 1];
            if cancelled then s' == s.(calls := s.calls + [ClientCall(kind, None, true, true, [])])
            else if s.phase != Serving then s' == s.(calls := s.calls + [ClientCall(kind, None, false, true, [Error(Unavailable)])])
            else if s.queue.active.Some? && |s.queue.pending| >= maxPending then
              s' == s.(calls := s.calls + [ClientCall(kind, None, false, true, [Error(ResourceExhausted)])])
            else
              var e := |s.queue.entries|;
              && s'.calls == s.calls + [ClientCall(kind, Some(e), false, false, [])] && |s'.queue.entries| == e + 1
              && (if s.queue.active.Some? then s'.queue.pending == s.queue.pending + [e] && s'.posted == s.posted
                  else s'.queue.active == Some(e) && s'.posted == s.posted + [Analyze(|s.posted| + 1, e)])
  {
    hide Linked, Waiting, WorkerInv, OneAtATime, CompletionsAreFinal, CallArrives;
    StepOfRun(maxPending, timer, ss, steps, k);
    RunsKeepCapacity(maxPending, timer, ss, steps, k);
    ArrivalEffect(ss[k], kind, cancelled);
  }

  lemma TransportCancelEffect(s: Server, c: nat)
    requires Core(s) && c < |s.calls|
    ensures s.calls[c].entry.Some? ==> s.calls[c].entry.value < |s.queue.entries|
    ensures var s', entry := TransportCancels(s, c), s.calls[c].entry;
            && s'.calls == s.calls[c := s.calls[c].(transportCancelled := true)]
            && if entry.Some? && entry.value in s.queue.pending then
                 && |s'.queue.entries| == |s.queue.entries|
                 && s'.queue.entries[entry.value].settlements == [Q.Rejected(Q.TransportCancelled)]
                 && entry.value !in s'.queue.pending && s'.posted == s.posted
               else if entry.Some? && s.queue.active == entry && s.queue.entries[entry.value].cancellation.None? then
                 && entry.value in s.runId && s'.posted == s.posted + [Cancel(|s.posted| + 1, s.runId[entry.value])]
                 && s'.waiters == s.waiters[|s.posted| + 1 := CancelOf(|s.queue.attempts|)]
               else s'.queue == s.queue && s'.posted == s.posted
  {
    hide Call, Waiting, WorkerInv, OneAtATime, CompletionsAreFinal;
    if s.calls[c].entry.Some? {
      CancelEffect(s, s.calls[c].entry.value);
    }
  }

  /** What one cancellation of an entry posts. */
  lemma CancelEffect(s: Server, e: nat)
    requires Core(s) && e < |s.queue.entries|
    ensures var q, p := Call(s.queue, Q.CancelStep(e)), Posting(s.nextWorkerRequestId, s.runId, s.waiters, s.posted);
            var after := PostFor(s.queue, q, p);
            if e in s.queue.pending then
              && |q.entries| == |s.queue.entries| && q.entries[e].settlements == [Q.Rejected(Q.TransportCancelled)]
              && e !in q.pending && after == p
            else if s.queue.active == Some(e) && s.queue.entries[e].cancellation.None? then
              && e in s.runId && after.posted == s.posted + [Cancel(|s.posted| + 1, s.runId[e])]
              && after.waiters == s.waiters[|s.posted| + 1 := CancelOf(|s.queue.attempts|)]
            else q == s.queue && after == p
  {
    hide Call, Q.Inv, Waiting, WorkerInv, OneAtATime, CompletionsAreFinal;
    if e in s.queue.pending {
      CancelPendingCall(s.queue, e);
    } else if s.queue.active == Some(e) && s.queue.entries[e].cancellation.None? {
      CancelActiveCall(s.queue, e);
    } else {
      CancelOtherCall(s.queue, e);
    }
  }

  /**
    What a cancelled transport does: a waiting request is dropped, and for the active analysis, unless it
    is being cancelled already, a cancel of that very analysis is posted; else nothing happens.
   */
  lemma TransportCancelsExactly(maxPending: nat, timer: bool, ss: seq<Server>, steps: seq<Step>, k: nat, c: nat)
    requires IsRun(maxPending, timer, ss, steps) && k < |steps| && steps[k] == TransportCancelsStep(c)
    ensures c < |ss[k].calls|
    ensures ss[k].calls[c].entry.Some? ==> ss[k].calls[c].entry.value < |ss[k].queue.entries|
    ensures var s, s', entry := ss[k], ss[k + 1], ss[k].calls[c].entry;
            && s'.calls == s.calls[c := s.calls[c].(transportCancelled := true)]
            && if entry.Some? && entry.value in s.queue.pending then
                 && |s'.queue.entries| == |s.queue.entries|
                 && s'.queue.entries[entry.value].settlements == [Q.Rejected(Q.TransportCancelled)]
                 && entry.value !in s'.queue.pending && s'.posted == s.posted
               else if entry.Some? && s.queue.active == entry && s.queue.entries[entry.value].cancellation.None? then
                 && entry.value in s.runId && s'.posted == s.posted + [Cancel(|s.posted| + 1, s.runId[entry.value])]
                 && s'.waiters == s.waiters[|s.posted| + 1 := CancelOf(|s.queue.attempts|)]
               else s'.queue == s.queue && s'.posted == s.posted
  {
    hide Core, TransportCancels;
    StepOfRun(maxPending, timer, ss, steps, k);
    TransportCancelEffect(ss[k], c);
  }

  lemma CancelRpcEffect(s: Server)
    requires Core(s)
    ensures var s' := WithQueue(s, Call(s.queue, Q.CancelActiveStep));
            && s'.calls == s.calls
            && if s.queue.active.Some? && s.queue.entries[s.queue.active.value].cancellation.None? then
                 && s.queue.active.value in s.runId
                 && s'.posted == s.posted + [Cancel(|s.posted| + 1, s.runId[s.queue.active.value])]
                 && s'.waiters == s.waiters[|s.posted| + 1 := CancelOf(|s.queue.attempts|)]
               else s'.queue == s.queue && s'.posted == s.posted
  {
    hide Waiting, WorkerInv, OneAtATime, CompletionsAreFinal, PostsInPlace, Owned, WaitersInRange, Call, PostFor, Q.Inv;
    CancelActiveCallIsCancel(s.queue);
    if s.queue.active.Some? {
      CancelEffect(s, s.queue.active.value);
    } else {
      NothingPosted(s);
    }
  }

  lemma CancelActiveCallIsCancel(q: Q.Queue)
    requires Q.Inv(q) && q.stack == []
    ensures if q.active.Some?
            then q.active.value < |q.entries| && q.active.value !in q.pending
                 && Call(q, Q.CancelActiveStep) == Call(q, Q.CancelStep(q.active.value))
            else Call(q, Q.CancelActiveStep) == q
  {
    Q.StepInv(q, Q.CancelActiveStep);
  }

  lemma NothingPosted(s: Server)
    ensures WithQueue(s, s.queue) == s
  {
  }

  /** What the cancel call does: it posts a cancel of the active analysis unless one is outstanding already. */
  lemma CancelRpcsExactly(maxPending: nat, timer: bool, ss: seq<Server>, steps: seq<Step>, k: nat)
    requires IsRun(maxPending, timer, ss, steps) && k < |steps| && steps[k] == CancelRpcStep
    ensures ss[k].queue.active.Some? ==> ss[k].queue.active.value < |ss[k].queue.entries|
    ensures var s, s' := ss[k], ss[k + 1];
            && s'.calls == s.calls
            && if s.queue.active.Some? && s.queue.entries[s.queue.active.value].cancellation.None? then
                 && s.queue.active.value in s.runId
                 && s'.posted == s.posted + [Cancel(|s.posted| + 1, s.runId[s.queue.active.value])]
                 && s'.waiters == s.waiters[|s.posted| + 1 := CancelOf(|s.queue.attempts|)]
               else s'.queue == s.queue && s'.posted == s.posted
  {
    hide WithQueue, Call, Waiting, WorkerInv, OneAtATime, CompletionsAreFinal;
    StepOfRun(maxPending, timer, ss, steps, k);
    CancelRpcEffect(ss[k]);
  }

  lemma SettlingEffect(s: Server, e: nat)
    requires Core(s) && Enabled(s, RunSettlesStep(e))
    ensures e < |s.queue.entries|
    ensures var s' := RunSettles(s, e);
            && s'.calls == s.calls && |s'.queue.entries| == |s.queue.entries|
            && (forall x | 0 <= x < |s.queue.entries| ::
                  s'.queue.entries[x].settlements == s.queue.entries[x].settlements
                    + if x == e && s.queue.active == Some(e) then [s.resolvedRuns[e]] else [])
            && if s.queue.active == Some(e) && s.queue.pending != [] then
                 && s'.queue.active == Some(s.queue.pending[0]) && s'.queue.pending == s.queue.pending[1..]
                 && s'.posted == s.posted + [Analyze(|s.posted| + 1, s.queue.pending[0])]
               else
                 && s'.queue.active == (if s.queue.active == Some(e) then None else s.queue.active) && s'.posted == s.posted
  {
    hide Q.Inv, Owned, WaitersInRange, Call, Waiting, WorkerInv, OneAtATime, CompletionsAreFinal, PostsInPlace;
    CompleteCall(s.queue, e, s.resolvedRuns[e]);
    QueueCallAttempts(s.queue, Q.RunCompletesStep(e, s.resolvedRuns[e]));
  }

  lemma QueueCallAttempts(q: Q.Queue, step: Q.Step)
    requires Q.Inv(q) && q.stack == [] && Q.Enabled(q, step) && step.RunCompletesStep?
    ensures Call(q, step).attempts == q.attempts
  {
    Q.StepInv(q, step);
  }

  /**
    What a run's completion does once the queue takes it: the active entry is settled with that outcome and
    the first of those waiting is started and posted; for any other entry nothing is settled or posted.
   */
  lemma CompletionsSettleExactly(maxPending: nat, timer: bool, ss: seq<Server>, steps: seq<Step>, k: nat, e: nat)
    requires IsRun(maxPending, timer, ss, steps) && k < |steps| && steps[k] == RunSettlesStep(e)
    ensures e < |ss[k].queue.entries| == |ss[k + 1].queue.entries| && e in ss[k].resolvedRuns
    ensures var s, s' := ss[k], ss[k + 1];
            && s'.calls == s.calls
            && (forall x | 0 <= x < |s.queue.entries| ::
                  s'.queue.entries[x].settlements == s.queue.entries[x].settlements
                    + if x == e && s.queue.active == Some(e) then [s.resolvedRuns[e]] else [])
            && if s.queue.active == Some(e) && s.queue.pending != [] then
                 && s'.queue.active == Some(s.queue.pending[0]) && s'.queue.pending == s.queue.pending[1..]
                 && s'.posted == s.posted + [Analyze(|s.posted| + 1, s.queue.pending[0])]
               else
                 && s'.queue.active == (if s.queue.active == Some(e) then None else s.queue.active) && s'.posted == s.posted
  {
    hide Core, RunSettles;
    StepOfRun(maxPending, timer, ss, steps, k);
    SettlingEffect(ss[k], e);
  }

  /**
    What the parent makes of a message: an awaited completion becomes its entry's outcome, an awaited
    acknowledgement its attempt's answer, and whoever waited for it waits no longer; nothing else is decided.
   */
  lemma MessagesAreTakenExactly(maxPending: nat, timer: bool, ss: seq<Server>, steps: seq<Step>, k: nat)
    requires IsRun(maxPending, timer, ss, steps) && k < |steps| && steps[k] == ReceiveStep
    ensures ss[k].received < |ss[k].outbox| && ss[k + 1].received == ss[k].received + 1
    ensures var s, s', m := ss[k], ss[k + 1], ss[k].outbox[ss[k].received];
            && s'.queue == s.queue && s'.posted == s.posted && s'.worker == s.worker
            && match m
               case Event(id, i) => s'.waiters == s.waiters && s'.resolvedRuns == s.resolvedRuns && s'.resolvedAttempts == s.resolvedAttempts
               case Completed(id, ok) =>
                 if id in s.waiters && s.waiters[id].RunOf? then
                   && s'.waiters == s.waiters - {id} && s'.resolvedAttempts == s.resolvedAttempts && s'.calls == s.calls
                   && s'.resolvedRuns == s.resolvedRuns[s.waiters[id].entry := if ok then Q.Resolved else Q.Rejected(Q.RunFailed)]
                 else s' == s.(received := s.received + 1)
               case CancelCompleted(id, ok) =>
                 if id in s.waiters && s.waiters[id].CancelOf? then
                   && s'.waiters == s.waiters - {id} && s'.resolvedRuns == s.resolvedRuns && s'.calls == s.calls
                   && s'.resolvedAttempts == s.resolvedAttempts[s.waiters[id].attempt := ok]
                 else s' == s.(received := s.received + 1)
  {
    hide Protocol, Q.Inv, Owned, RunResults, CallArrives, TransportCancels, Call, RunSettles, WorkerFails, Deliver;
    hide AttemptSettles, CallContinues, EmitEvent, EndScope, EndSession, PostCompletion, PostAck, Shutdown, WithQueue;
    StepOfRun(maxPending, timer, ss, steps, k);
  }

  /** A failed worker refuses every run and attempt that was waited for, and a late attempt is refused. */
  lemma FailuresRefuseExactly(maxPending: nat, timer: bool, ss: seq<Server>, steps: seq<Step>, k: nat)
    requires IsRun(maxPending, timer, ss, steps) && k < |steps|
    ensures steps[k] == WorkerFailsStep ==>
              var s, s' := ss[k], ss[k + 1];
              && !s'.workerAlive && s'.waiters == map[]
              && (forall e :: e in s'.resolvedRuns <==> e in s.resolvedRuns || RunOf(e) in s.waiters.Values)
              && (forall e | e in s'.resolvedRuns ::
                    s'.resolvedRuns[e] == if RunOf(e) in s.waiters.Values then Q.Rejected(Q.RunFailed) else s.resolvedRuns[e])
              && (forall t :: t in s'.resolvedAttempts <==> t in s.resolvedAttempts || CancelOf(t) in s.waiters.Values)
              && (forall t | t in s'.resolvedAttempts ::
                    s'.resolvedAttempts[t] == if CancelOf(t) in s.waiters.Values then false else s.resolvedAttempts[t])
    ensures steps[k].AttemptTimesOutStep? ==>
              && steps[k].id in ss[k].waiters && ss[k].waiters[steps[k].id].CancelOf?
              && ss[k + 1] == ss[k].(waiters := ss[k].waiters - {steps[k].id},
                                     resolvedAttempts := ss[k].resolvedAttempts[ss[k].waiters[steps[k].id].attempt := false])
  {
    hide Protocol, Q.Inv, Owned, RunResults, CallArrives, TransportCancels, Call, RunSettles, Deliver, Receive;
    hide AttemptSettles, CallContinues, EmitEvent, EndScope, EndSession, PostCompletion, PostAck, WithQueue, PostCancelOfActive;
    StepOfRun(maxPending, timer, ss, steps, k);
    if steps[k] == WorkerFailsStep {
      FailureEffect(ss[k]);
    }
  }

  lemma FailureEffect(s: Server)
    requires QueueReady(s)
    ensures var s' := WorkerFails(s);
            && !s'.workerAlive && s'.waiters == map[]
            && (forall e :: e in s'.resolvedRuns <==> e in s.resolvedRuns || RunOf(e) in s.waiters.Values)
            && (forall e | e in s'.resolvedRuns ::
                  s'.resolvedRuns[e] == if RunOf(e) in s.waiters.Values then Q.Rejected(Q.RunFailed) else s.resolvedRuns[e])
            && (forall t :: t in s'.resolvedAttempts <==> t in s.resolvedAttempts || CancelOf(t) in s.waiters.Values)
            && (forall t | t in s'.resolvedAttempts ::
                  s'.resolvedAttempts[t] == if CancelOf(t) in s.waiters.Values then false else s.resolvedAttempts[t])
  {
    hide Q.Inv, Call, PostCancelOfActive;
    var w := s.waiters;
    assert Shutdown(s).waiters == w && Shutdown(s).resolvedRuns == s.resolvedRuns && Shutdown(s).resolvedAttempts == s.resolvedAttempts;
    assert forall e :: e in WaitingRuns(w) <==> RunOf(e) in w.Values by {
      assert forall id | id in w :: w[id] in w.Values;
    }
    assert forall t :: t in WaitingAttempts(w) <==> CancelOf(t) in w.Values by {
      assert forall id | id in w :: w[id] in w.Values;
    }
  }

  // ----- Leases, timers and shutdown -----

  /** A step that calls `shutdown`. */
  predicate CallsShutdown(step: Step) {
    step.ImmediateFiresStep? || step.StartupTimerFiresStep? || step.WorkerFailsStep?
  }

  lemma ClosingEffect(s: Server, timing: Timing)
    requires Core(s)
    ensures var s' := Shutdown(s.(timing := timing));
            if s.phase == Serving then
              && s'.phase == Cancelling && s'.queue.closed && s'.queue.pending == [] && s'.queue.active.None?
              && s'.timing.lease.None? && !s'.timing.startupTimer
              && (s.queue.active.Some? ==> s.queue.active.value in s.runId)
              && s'.posted == s.posted
                   + if s.queue.active.Some? then [Cancel(|s.posted| + 1, s.runId[s.queue.active.value])] else []
            else s' == s.(timing := timing)
  {
    hide Waiting, WorkerInv, OneAtATime, CompletionsAreFinal, PostsInPlace, Owned, WaitersInRange, Call;
    if s.phase == Serving {
      CloseCall(s.queue);
    }
  }

  lemma CloseCall(q: Q.Queue)
    requires Q.Inv(q) && q.stack == [] && !q.closed
    ensures var q' := Call(q, Q.CloseStep); q'.closed && q'.pending == [] && q'.active.None?
  {
    Q.StepInv(q, Q.CloseStep);
  }

  /**
    Exactly when and how shutdown begins: at the first step that calls `shutdown`.  The queue is closed and
    emptied, lease and startup timer are cleared, and an active analysis is cancelled.  A later call does
    nothing, and no other step ends serving.
   */
  lemma ShutdownBeginsExactly(maxPending: nat, timer: bool, ss: seq<Server>, steps: seq<Step>, k: nat)
    requires IsRun(maxPending, timer, ss, steps) && k < |steps| && ss[k].phase == Serving
    ensures ss[k + 1].phase != Serving <==> CallsShutdown(steps[k])
    ensures CallsShutdown(steps[k]) ==>
              var s, s' := ss[k], ss[k + 1];
              && s'.phase == Cancelling && s'.queue.closed && s'.queue.pending == [] && s'.queue.active.None?
              && s'.timing.lease.None? && !s'.timing.startupTimer
              && (s.queue.active.Some? ==> s.queue.active.value in s.runId)
              && s'.posted == s.posted
                   + if s.queue.active.Some? then [Cancel(|s.posted| + 1, s.runId[s.queue.active.value])] else []
  {
    hide Core, Next, Enabled;
    StepOfRun(maxPending, timer, ss, steps, k);
    if CallsShutdown(steps[k]) {
      BeginEffect(ss[k], steps[k]);
    } else {
      OtherStepsServe(ss[k], steps[k]);
    }
  }

  lemma BeginEffect(s: Server, step: Step)
    requires Core(s) && Enabled(s, step) && s.phase == Serving && CallsShutdown(step)
    ensures var s' := Next(s, step);
            && s'.phase == Cancelling && s'.queue.closed && s'.queue.pending == [] && s'.queue.active.None?
            && s'.timing.lease.None? && !s'.timing.startupTimer
            && (s.queue.active.Some? ==> s.queue.active.value in s.runId)
            && s'.posted == s.posted
                 + if s.queue.active.Some? then [Cancel(|s.posted| + 1, s.runId[s.queue.active.value])] else []
  {
    hide Core, Shutdown;
    match step
    case ImmediateFiresStep => ClosingEffect(s, s.timing.(immediates := s.timing.immediates - 1));
    case StartupTimerFiresStep => ClosingEffect(s, s.timing.(startupTimer := false));
    case WorkerFailsStep => ClosingEffect(s, s.timing);
  }

  lemma OtherStepsServe(s: Server, step: Step)
    requires Core(s) && Enabled(s, step) && s.phase == Serving && !CallsShutdown(step)
    ensures Next(s, step).phase == Serving
  {
    if CallStep(step) {
      CallStepKeepsPhase(s, step);
    } else if WorkerStep(step) {
      WorkerKeepsPhase(s, step);
    } else if step.ReceiveStep? {
      ReceiveKeepsPhase(s);
    } else {
      TimedStepsServe(s, step);
    }
  }

  lemma TimedStepsServe(s: Server, step: Step)
    requires Linked(s) && Enabled(s, step) && s.phase == Serving
    requires step.AttemptTimesOutStep? || step.LeaseArrivesStep? || step.LeaseLostStep? || step.ShutdownContinuesStep?
    ensures Next(s, step).phase == Serving
  {
    hide Linked, Shutdown, Receive, CallArrives, TransportCancels, Call, RunSettles, AttemptSettles;
    hide CallContinues, WorkerFails, Deliver, EmitEvent, EndScope, EndSession, PostCompletion, PostAck;
  }

  /** Who keeps the server up: a held lease, a shutdown that is scheduled already, or the startup timer. */
  ghost predicate Guarded(t: Timing, phase: Phase, timer: bool) {
    && (t.lease.Some? ==> t.lease.value < t.leases && !t.startupTimer)
    && (phase == Serving && t.lease.None? && t.leases > 0 ==> t.immediates > 0)
    && (phase == Serving && t.leases == 0 ==> t.startupTimer == timer && t.lease.None?)
    && (phase == Serving && t.leases > 0 ==> !t.startupTimer)
  }

  lemma TimingEffect(s: Server, step: Step, timer: bool)
    requires Core(s) && Enabled(s, step) && Guarded(s.timing, s.phase, timer)
    ensures Guarded(Next(s, step).timing, Next(s, step).phase, timer)
  {
    hide Core, Shutdown, Call, CallArrives, TransportCancels, WithQueue, RunSettles, AttemptSettles, Receive, CallContinues;
    hide Deliver, EmitEvent, EndScope, EndSession, PostCompletion, PostAck;
    match step
    case ImmediateFiresStep => ClosingEffect(s, s.timing.(immediates := s.timing.immediates - 1));
    case StartupTimerFiresStep => ClosingEffect(s, s.timing.(startupTimer := false));
    case WorkerFailsStep => ClosingEffect(s, s.timing);
    case LeaseArrivesStep =>
    case LeaseLostStep(_) =>
    case ShutdownContinuesStep =>
    case AttemptTimesOutStep(_) =>
    case _ => OtherTiming(s, step);
  }

  lemma OtherTiming(s: Server, step: Step)
    requires Core(s) && Enabled(s, step) && (CallStep(step) || WorkerStep(step) || step.ReceiveStep?)
    ensures Next(s, step).timing == s.timing && Next(s, step).phase == s.phase
  {
    hide Next;
    if CallStep(step) {
      CallStepKeepsPhase(s, step);
    } else if WorkerStep(step) {
      WorkerKeepsPhase(s, step);
    } else {
      ReceiveTiming(s);
    }
  }

  lemma ReceiveTiming(s: Server)
    requires Core(s) && Enabled(s, ReceiveStep)
    ensures Next(s, ReceiveStep).timing == s.timing && Next(s, ReceiveStep).phase == s.phase
  {
    hide Receive;
    ReceiveKeepsPhase(s);
  }

  lemma {:induction false} RunsAreGuarded(maxPending: nat, timer: bool, ss: seq<Server>, steps: seq<Step>, k: nat)
    requires IsRun(maxPending, timer, ss, steps) && k < |ss|
    ensures Guarded(ss[k].timing, ss[k].phase, timer)
  {
    hide Core, Next, Enabled, Guarded;
    if k == 0 {
      NewIsGuarded(maxPending, timer);
    } else {
      RunsAreGuarded(maxPending, timer, ss, steps, k - 1);
      StepOfRun(maxPending, timer, ss, steps, k - 1);
      TimingEffect(ss[k - 1], steps[k - 1], timer);
    }
  }

  lemma NewIsGuarded(maxPending: nat, timer: bool)
    ensures Guarded(New(maxPending, timer).timing, Serving, timer) && New(maxPending, timer).phase == Serving
  {
  }

  /**
    In every run a serving server has a lease, or its shutdown is scheduled, or nobody has ever asked for a
    lease and the startup timer is as it was armed; and while a lease is held the timer is off.
   */
  lemma ServingNeedsALease(maxPending: nat, timer: bool, ss: seq<Server>, steps: seq<Step>, k: nat)
    requires IsRun(maxPending, timer, ss, steps) && k < |ss|
    ensures ss[k].phase == Serving ==>
              || ss[k].timing.lease.Some? || ss[k].timing.immediates > 0
              || (ss[k].timing.leases == 0 && ss[k].timing.startupTimer == timer)
    ensures ss[k].timing.lease.Some? ==> !ss[k].timing.startupTimer
  {
    RunsAreGuarded(maxPending, timer, ss, steps, k);
  }

  /** A lease is given only when none is held, and losing the one that is held schedules a shutdown, once. */
  lemma LeasesExactly(maxPending: nat, timer: bool, ss: seq<Server>, steps: seq<Step>, k: nat)
    requires IsRun(maxPending, timer, ss, steps) && k < |steps|
    ensures var t, t' := ss[k].timing, ss[k + 1].timing;
            && (steps[k].LeaseArrivesStep? ==>
                  && t'.lease == (if t.lease.Some? then t.lease else Some(t.leases))
                  && t'.leases == t.leases + 1 && t'.immediates == t.immediates
                  && t'.startupTimer == (t.startupTimer && t.lease.Some?))
            && (steps[k].LeaseLostStep? ==>
                  && t'.lease == (if t.lease == Some(steps[k].lease) then None else t.lease)
                  && t'.immediates == t.immediates
                       + (if t.lease == Some(steps[k].lease) && ss[k].phase == Serving then 1 else 0)
                  && t'.leases == t.leases && t'.startupTimer == t.startupTimer)
            && (steps[k].LeaseArrivesStep? || steps[k].LeaseLostStep? ==> ss[k + 1] == ss[k].(timing := t'))
  {
    hide Core, Shutdown, Call, CallArrives, TransportCancels, WithQueue, RunSettles, AttemptSettles, Receive, CallContinues;
    hide Deliver, EmitEvent, EndScope, EndSession, PostCompletion, PostAck, WorkerFails, ShutdownContinues;
    StepOfRun(maxPending, timer, ss, steps, k);
  }

  /** The rest of the one shutdown: the worker is told to close, and then the server is forced down. */
  lemma ShutdownEndsExactly(maxPending: nat, timer: bool, ss: seq<Server>, steps: seq<Step>, k: nat)
    requires IsRun(maxPending, timer, ss, steps) && k < |steps| && steps[k] == ShutdownContinuesStep
    ensures var s, s' := ss[k], ss[k + 1];
            && (s.phase == Cancelling ==> s'.phase == Terminating && s'.posted == s.posted + [CloseWorker])
            && (s.phase == Terminating ==> s'.phase == Down && s'.posted == s.posted && s'.forcedShutdowns == s.forcedShutdowns + 1)
            && (s.phase == Cancelling || s.phase == Terminating)
  {
    hide Core, Shutdown, Call, CallArrives, TransportCancels, WithQueue, RunSettles, AttemptSettles, Receive, CallContinues;
    hide Deliver, EmitEvent, EndScope, EndSession, PostCompletion, PostAck, WorkerFails;
    StepOfRun(maxPending, timer, ss, steps, k);
  }

  // ----- The worker's messages -----

  lemma FreshFlag(posted: seq<InMsg>, runId: map<nat, nat>, delivered: nat, id: nat)
    requires delivered < |posted| && id == delivered + 1 && PostsInPlace(posted, runId)
    ensures !CancelDelivered(posted, delivered, id)
  {
  }

  /**
    What the worker makes of an analysis: on an idle worker it opens a fresh scope, whose flag is down, with
    a cache session exactly if the request asks for one; or it refuses the request at once.
   */
  lemma AnalysesOpenExactly(maxPending: nat, timer: bool, ss: seq<Server>, steps: seq<Step>, k: nat, id: nat, e: nat, cache: CacheRequest)
    requires IsRun(maxPending, timer, ss, steps) && k < |steps| && steps[k] == DeliverStep(cache)
    requires ss[k].delivered < |ss[k].posted| && ss[k].posted[ss[k].delivered] == Analyze(id, e)
    ensures var w, w' := ss[k].worker, ss[k + 1].worker;
            && w.handlers == map[] && w.status.None? && w.session.None? && id !in w.cancelled && e in ss[k].runId && ss[k].runId[e] == id
            && w' == if cache.InvalidCache? then w.(handlers := map[id := SessionEnded(false)])
                     else w.(handlers := map[id := Running(cache.WithCache?)], status := Some(id),
                             session := if cache.WithCache? then Some(id) else None)
  {
    hide Linked, Call, CallArrives, TransportCancels, WithQueue, RunSettles, AttemptSettles, Receive, CallContinues, Shutdown;
    hide EmitEvent, EndScope, EndSession, PostCompletion, PostAck, WorkerFails, Waiting, OneAtATime, CompletionsAreFinal;
    StepOfRun(maxPending, timer, ss, steps, k);
    WorkerIsIdle(ss[k]);
    FreshFlag(ss[k].posted, ss[k].runId, ss[k].delivered, id);
  }

  /**
    Exactly what a cancel does when the worker takes it: it raises the flag of its own target if that
    analysis is in its scope, and no flag otherwise, and its acknowledgement says which.
   */
  lemma CancelsTakeEffectExactly(maxPending: nat, timer: bool, ss: seq<Server>, steps: seq<Step>, k: nat, m: nat, id: nat)
    requires IsRun(maxPending, timer, ss, steps) && k < |steps| && steps[k].DeliverStep?
    requires ss[k].delivered < |ss[k].posted| && ss[k].posted[ss[k].delivered] == Cancel(m, id)
    ensures var w, w' := ss[k].worker, ss[k + 1].worker;
            && w'.cancelled == w.cancelled + (if id in w.handlers && w.handlers[id].Running? then {id} else {})
            && w'.acks == w.acks + {(m, id in w.handlers && w.handlers[id].Running?)}
            && w'.handlers == w.handlers && w'.status == w.status && w'.session == w.session
  {
    hide Core, Call, CallArrives, TransportCancels, WithQueue, RunSettles, AttemptSettles, Receive, CallContinues, Shutdown;
    hide EmitEvent, EndScope, EndSession, PostCompletion, PostAck, WorkerFails, Deliver;
    StepOfRun(maxPending, timer, ss, steps, k);
    CancelDeliveredEffect(ss[k], steps[k].cache);
  }

  // ----- Events and what the worker does by itself -----

  lemma EventEffect(s: Server, c: nat)
    requires Core(s) && s.received < |s.outbox| && s.outbox[s.received].Event? && c < |s.calls|
    ensures var id, i, call := s.outbox[s.received].id, s.outbox[s.received].index, s.calls[c];
            var own := call.entry.Some? && id in s.waiters && s.waiters[id] == RunOf(call.entry.value);
            && |Receive(s).calls| == |s.calls|
            && Receive(s).calls[c]
               == if own && call.kind.Stream? && !call.transportCancelled then call.(outputs := call.outputs + [Write(i)]) else call
  {
    hide Waiting, WorkerInv, OneAtATime, CompletionsAreFinal, PostsInPlace, Q.Inv;
    var id := s.outbox[s.received].id;
    if Expects(s.waiters, s.outbox[s.received]) {
      assert s.calls[s.owner[s.waiters[id].entry]].entry == Some(s.waiters[id].entry);
    }
  }

  /** An event is written to the live stream whose analysis it is of, while that run is awaited, and to no other call. */
  lemma EventsAreWrittenExactly(maxPending: nat, timer: bool, ss: seq<Server>, steps: seq<Step>, k: nat, id: nat, i: nat, c: nat)
    requires IsRun(maxPending, timer, ss, steps) && k < |steps| && steps[k] == ReceiveStep
    requires ss[k].received < |ss[k].outbox| && ss[k].outbox[ss[k].received] == Event(id, i) && c < |ss[k].calls|
    ensures var s, call := ss[k], ss[k].calls[c];
            var own := call.entry.Some? && id in s.waiters && s.waiters[id] == RunOf(call.entry.value);
            && |ss[k + 1].calls| == |s.calls|
            && ss[k + 1].calls[c]
               == if own && call.kind.Stream? && !call.transportCancelled then call.(outputs := call.outputs + [Write(i)]) else call
  {
    hide Core, Receive;
    StepOfRun(maxPending, timer, ss, steps, k);
    EventEffect(ss[k], c);
  }

  /** A handler that resumes is done, and unless its transport was cancelled it sends its entry's outcome. */
  lemma CallsContinueExactly(maxPending: nat, timer: bool, ss: seq<Server>, steps: seq<Step>, k: nat, c: nat)
    requires IsRun(maxPending, timer, ss, steps) && k < |steps| && steps[k] == CallContinuesStep(c)
    ensures c < |ss[k].calls| && ss[k].calls[c].entry.Some? && !ss[k].calls[c].done
    ensures ss[k].calls[c].entry.value < |ss[k].queue.entries| && ss[k].queue.entries[ss[k].calls[c].entry.value].settlements != []
    ensures var s, call := ss[k], ss[k].calls[c];
            var answer := match s.queue.entries[call.entry.value].settlements[0]
                          case Resolved => (if call.kind.Unary? then Value else End)
                          case Rejected(RunFailed) => Error(Other)
                          case Rejected(TransportCancelled) => Error(CancelledStatus)
                          case Rejected(QueueClosed) => Error(Unavailable);
            ss[k + 1] == s.(calls := s.calls[c := call.(done := true,
                              outputs := if call.transportCancelled then call.outputs else call.outputs + [answer])])
  {
    StepOfRun(maxPending, timer, ss, steps, k);
    hide Waiting, WorkerInv, OneAtATime, CompletionsAreFinal, PostsInPlace, Q.Inv;
  }

  /**
    What the worker does by itself: the next event of the running analysis is posted, its scope ends with its
    outcome, then its cache session, then its completion with that outcome is posted; or an acknowledgement is.
   */
  ghost predicate Acts(step: Step, w: Worker, out: seq<OutMsg>, w': Worker, out': seq<OutMsg>) {
    match step
    case EmitEventStep(id) => w' == w && w.status == Some(id) && out' == out + [Event(id, EventCount(out, id))]
    case EndScopeStep(id, ok) =>
      && w.status == Some(id) && id in w.handlers && w.handlers[id].Running? && out' == out
      && w' == w.(handlers := w.handlers[id := ScopeEnded(w.handlers[id].cached, ok)], status := None)
    case EndSessionStep(id) =>
      && id in w.handlers && w.handlers[id].ScopeEnded? && out' == out
      && w' == w.(handlers := w.handlers[id := SessionEnded(w.handlers[id].ok)],
                  session := if w.handlers[id].cached then None else w.session)
    case PostCompletionStep(id) =>
      && id in w.handlers && w.handlers[id].SessionEnded?
      && out' == out + [Completed(id, w.handlers[id].ok)] && w' == w.(handlers := w.handlers - {id})
    case PostAckStep(ack) =>
      ack in w.acks && out' == out + [CancelCompleted(ack.0, ack.1)] && w' == w.(acks := w.acks - {ack})
    case _ => true
  }

  lemma WorkerActs(s: Server, step: Step)
    requires Core(s) && Enabled(s, step) && WorkerStep(step) && !step.DeliverStep?
    ensures Acts(step, s.worker, s.outbox, Next(s, step).worker, Next(s, step).outbox)
  {
    hide Linked, Waiting, OneAtATime, CompletionsAreFinal;
  }

  /** In every run every step of the worker but a delivery does exactly that. */
  lemma WorkerActsExactly(maxPending: nat, timer: bool, ss: seq<Server>, steps: seq<Step>, k: nat)
    requires IsRun(maxPending, timer, ss, steps) && k < |steps| && WorkerStep(steps[k]) && !steps[k].DeliverStep?
    ensures Acts(steps[k], ss[k].worker, ss[k].outbox, ss[k + 1].worker, ss[k + 1].outbox)
  {
    hide Core, Next, Acts;
    StepOfRun(maxPending, timer, ss, steps, k);
    WorkerActs(ss[k], steps[k]);
  }

  /** A worker that takes the order to close stops, and from then on takes nothing. */
  lemma CloseEndsDelivery(maxPending: nat, timer: bool, ss: seq<Server>, steps: seq<Step>, j: nat, k: nat)
    requires IsRun(maxPending, timer, ss, steps) && j < k < |ss| && steps[j].DeliverStep?
    requires ss[j].delivered < |ss[j].posted| && ss[j].posted[ss[j].delivered] == CloseWorker
    ensures ss[j + 1].worker == ss[j].worker.(closed := true)
    ensures ss[k].worker.closed && ss[k].delivered == ss[j].delivered + 1
  {
    StepOfRun(maxPending, timer, ss, steps, j);
    StaysClosed(maxPending, timer, ss, steps, j + 1, k);
  }

  lemma {:induction false} StaysClosed(maxPending: nat, timer: bool, ss: seq<Server>, steps: seq<Step>, j: nat, k: nat)
    requires IsRun(maxPending, timer, ss, steps) && j <= k < |ss| && ss[j].worker.closed
    ensures ss[k].worker.closed && ss[k].delivered == ss[j].delivered
  {
    hide Core, Next, Enabled;
    if j < k {
      StaysClosed(maxPending, timer, ss, steps, j, k - 1);
      StepOfRun(maxPending, timer, ss, steps, k - 1);
      ClosedStep(ss[k - 1], steps[k - 1]);
    }
  }

  lemma ClosedStep(s: Server, step: Step)
    requires Core(s) && Enabled(s, step) && s.worker.closed
    ensures Next(s, step).worker.closed && Next(s, step).delivered == s.delivered
  {
    hide Next, Waiting, WorkerInv, OneAtATime, CompletionsAreFinal;
    if CallStep(step) {
      CallStepPosts(s, step);
    } else if WorkerStep(step) {
      ClosedWorkerStep(s, step);
    } else {
      ParentStepPosts(s, step);
    }
  }

  lemma ClosedWorkerStep(s: Server, step: Step)
    requires Linked(s) && Enabled(s, step) && WorkerStep(step) && s.worker.closed
    ensures Next(s, step).worker.closed && Next(s, step).delivered == s.delivered
  {
    hide Linked;
  }
}
