/**
  What a cancellation's acknowledgement is worth: in every run it tells whether the cancel found its target in
  its scope, and an acknowledged attempt has raised the flag of its own entry's analysis.
 */
module AnalyzeServerCancellation {
  import opened Options
  import opened AnalyzeServer
  import opened AnalyzeServerTheorems
  import opened AnalyzeServerEffects

  // ----- Where acknowledgements come from -----

  /** The step takes the cancel with this identifier, and the answer says whether its target is in its scope. */
  predicate AnswersAt(s: Server, step: Step, ack: (nat, bool)) {
    && step.DeliverStep? && s.delivered < |s.posted| && s.posted[s.delivered].Cancel? && s.posted[s.delivered].id == ack.0
    && ack.1 == InScope(s.worker, s.posted[s.delivered].target)
  }

  predicate Posted(out: seq<OutMsg>, ack: (nat, bool)) {
    CancelCompleted(ack.0, ack.1) in out
  }

  lemma NewAcks(s: Server, step: Step, ack: (nat, bool))
    requires Core(s) && Enabled(s, step) && ack in Next(s, step).worker.acks && ack !in s.worker.acks
    ensures AnswersAt(s, step, ack)
  {
    hide Next;
    if CallStep(step) {
      CallStepPosts(s, step);
    } else if WorkerStep(step) {
      WorkerNewAcks(s, step, ack);
    } else {
      ParentStepPosts(s, step);
    }
  }

  lemma WorkerNewAcks(s: Server, step: Step, ack: (nat, bool))
    requires Core(s) && Enabled(s, step) && WorkerStep(step) && ack in Next(s, step).worker.acks && ack !in s.worker.acks
    ensures AnswersAt(s, step, ack)
  {
    hide Core;
    if step.DeliverStep? && s.posted[s.delivered].Cancel? {
      CancelDeliveredEffect(s, step.cache);
    }
  }

  lemma NewAnswers(s: Server, step: Step, ack: (nat, bool))
    requires Core(s) && Enabled(s, step) && Posted(Next(s, step).outbox, ack) && !Posted(s.outbox, ack)
    ensures ack in s.worker.acks
  {
    if CallStep(step) {
      CallStepPosts(s, step);
    } else if !WorkerStep(step) {
      ParentStepPosts(s, step);
    } else if step.DeliverStep? {
      DeliverLeavesParent(s, step.cache);
    }
  }

  /**
    In every run, an acknowledgement that is held or was posted was decided when the worker took that very
    cancel: it is a success if the cancel's target was in its scope then, and a failure otherwise.
   */
  lemma {:induction false} AcksTellTheTruth(maxPending: nat, timer: bool, ss: seq<Server>, steps: seq<Step>, k: nat, ack: (nat, bool))
    returns (j: nat)
    requires IsRun(maxPending, timer, ss, steps) && k < |ss|
    requires ack in ss[k].worker.acks || CancelCompleted(ack.0, ack.1) in ss[k].outbox
    ensures j < k && AnswersAt(ss[j], steps[j], ack)
  {
    hide Core, Next, Enabled, AnswersAt;
    if k > 0 {
      StepOfRun(maxPending, timer, ss, steps, k - 1);
      if ack in ss[k - 1].worker.acks || Posted(ss[k - 1].outbox, ack) {
        j := AcksTellTheTruth(maxPending, timer, ss, steps, k - 1, ack);
      } else if ack in ss[k].worker.acks {
        NewAcks(ss[k - 1], steps[k - 1], ack);
        j := k - 1;
      } else {
        NewAnswers(ss[k - 1], steps[k - 1], ack);
      }
    } else {
      NothingAcknowledged(maxPending, timer, ack);
    }
  }

  lemma NothingAcknowledged(maxPending: nat, timer: bool, ack: (nat, bool))
    ensures ack !in New(maxPending, timer).worker.acks && !Posted(New(maxPending, timer).outbox, ack)
  {
  }

  // ----- What an acknowledged attempt did -----

  /** The flag of the analysis that the cancel with this identifier is for is up. */
  ghost predicate Raises(posted: seq<InMsg>, cancelled: set<nat>, id: nat) {
    1 <= id <= |posted| && posted[id - 1].Cancel? && posted[id - 1].target in cancelled
  }

  ghost predicate WorkerAcks(acks: set<(nat, bool)>, out: seq<OutMsg>, posted: seq<InMsg>, cancelled: set<nat>) {
    && (forall id | (id, true) in acks :: Raises(posted, cancelled, id))
    && (forall id | CancelCompleted(id, true) in out :: Raises(posted, cancelled, id))
  }

  /** The attempt's entry has an analysis whose flag is up. */
  ghost predicate Raised(attempts: seq<Q.Attempt>, runId: map<nat, nat>, cancelled: set<nat>, t: nat) {
    t < |attempts| && attempts[t].entry in runId && runId[attempts[t].entry] in cancelled
  }

  /** A waiting attempt waits for a cancel of its own entry's analysis. */
  ghost predicate AwaitsItsOwn(attempts: seq<Q.Attempt>, runId: map<nat, nat>, posted: seq<InMsg>, id: nat, t: nat) {
    && t < |attempts| && attempts[t].entry in runId && 1 <= id <= |posted|
    && posted[id - 1].Cancel? && posted[id - 1].target == runId[attempts[t].entry]
  }

  ghost predicate AttemptAcks(attempts: seq<Q.Attempt>, results: map<nat, bool>, waiters: map<nat, Waiter>, runId: map<nat, nat>,
                              posted: seq<InMsg>, cancelled: set<nat>) {
    && (forall id | id in waiters && waiters[id].CancelOf? :: AwaitsItsOwn(attempts, runId, posted, id, waiters[id].attempt))
    && (forall t | t in results && results[t] :: Raised(attempts, runId, cancelled, t))
    && (forall t | 0 <= t < |attempts| && attempts[t].phase.Acknowledged? :: Raised(attempts, runId, cancelled, t))
  }

  ghost predicate AckInv(s: Server) {
    && WorkerAcks(s.worker.acks, s.outbox, s.posted, s.worker.cancelled)
    && AttemptAcks(s.queue.attempts, s.resolvedAttempts, s.waiters, s.runId, s.posted, s.worker.cancelled)
  }

  // ----- Queue calls -----

  /** What a queue call may do to the attempts: nothing, or it adds one for the active entry. */
  ghost predicate AddsAttempt(q: Q.Queue, q': Q.Queue) {
    || q'.attempts == q.attempts
    || (q'.active.Some? && q'.started == q.started && q'.attempts == q.attempts + [Q.Attempt(q'.active.value, Q.Outstanding)])
  }

  lemma CancelAddsAttempt(q: Q.Queue, e: nat)
    requires Q.Inv(q) && q.stack == [] && e < |q.entries|
    ensures AddsAttempt(q, Call(q, Q.CancelStep(e)))
  {
    if e in q.pending {
      CancelPendingCall(q, e);
    } else if q.active == Some(e) && q.entries[e].cancellation.None? {
      CancelActiveCall(q, e);
    } else {
      CancelOtherCall(q, e);
    }
  }

  lemma CallAddsAttempt(q: Q.Queue, step: Q.Step)
    requires Q.Inv(q) && q.stack == [] && Q.Enabled(q, step)
    requires step.EnqueueStep? || step.CancelStep? || step.CancelActiveStep? || step.RunCompletesStep?
    ensures AddsAttempt(q, Call(q, step))
  {
    match step
    case EnqueueStep => EnqueueCall(q);
    case CancelStep(e) => CancelAddsAttempt(q, e);
    case CancelActiveStep =>
      if q.active.Some? {
        CancelAddsAttempt(q, q.active.value);
        assert Call(q, step) == Call(q, Q.CancelStep(q.active.value));
      } else {
        Q.StepInv(q, step);
      }
    case RunCompletesStep(_, _) => QueueCallAttempts(q, step);
  }

  lemma PostedAttempts(q: Q.Queue, q': Q.Queue, p: Posting, results: map<nat, bool>, cancelled: set<nat>)
    requires AttemptAcks(q.attempts, results, p.waiters, p.runId, p.posted, cancelled) && AddsAttempt(q, q')
    requires |q'.started| > |q.started| ==> q'.started[|q'.started| - 1] !in p.runId
    requires |q'.attempts| > |q.attempts| ==> p.lastId == |p.posted|
    ensures var p' := PostFor(q, q', p); AttemptAcks(q'.attempts, results, p'.waiters, p'.runId, p'.posted, cancelled)
  {
  }

  lemma QueueCallAcks(s: Server, step: Q.Step)
    requires Core(s) && Q.Enabled(s.queue, step) && AckInv(s)
    requires step.EnqueueStep? || step.CancelStep? || step.CancelActiveStep? || step.RunCompletesStep?
    ensures AckInv(WithQueue(s, Call(s.queue, step)))
  {
    hide Waiting, WorkerInv, OneAtATime, CompletionsAreFinal, PostsInPlace, Call, AttemptAcks, AddsAttempt, PostFor;
    var q, p := Call(s.queue, step), Posting(s.nextWorkerRequestId, s.runId, s.waiters, s.posted);
    CallAddsAttempt(s.queue, step);
    CallPostsInOrder(s, step);
    PostedAttempts(s.queue, q, p, s.resolvedAttempts, s.worker.cancelled);
    PostedAcks(s.worker.acks, s.outbox, s.posted, PostFor(s.queue, q, p).posted, s.worker.cancelled);
  }

  lemma PostedAcks(acks: set<(nat, bool)>, out: seq<OutMsg>, posted: seq<InMsg>, posted': seq<InMsg>, cancelled: set<nat>)
    requires WorkerAcks(acks, out, posted, cancelled) && posted <= posted'
    ensures WorkerAcks(acks, out, posted', cancelled)
  {
    forall id | (id, true) in acks
      ensures Raises(posted', cancelled, id)
    {
      assert Raises(posted, cancelled, id);
    }
    forall id | CancelCompleted(id, true) in out
      ensures Raises(posted', cancelled, id)
    {
      assert Raises(posted, cancelled, id);
    }
  }

  /** Where a queue call's message goes, and that what it starts was never started. */
  lemma CallPostsInOrder(s: Server, step: Q.Step)
    requires Core(s) && Q.Enabled(s.queue, step) && !step.CloseStep?
    ensures var q := Call(s.queue, step);
            && (|q.started| > |s.queue.started| ==> q.started[|q.started| - 1] !in s.runId)
            && (|q.attempts| > |s.queue.attempts| ==> s.nextWorkerRequestId == |s.posted|)
            && s.posted <= PostFor(s.queue, q, Posting(s.nextWorkerRequestId, s.runId, s.waiters, s.posted)).posted
  {
    hide Waiting, WorkerInv, OneAtATime, CompletionsAreFinal, PostsInPlace, Call, Q.Inv, Q.Extends, Owned, WaitersInRange;
    CallMoves(s.queue, step);
  }

  // ----- Steps -----

  lemma CallStepAcks(s: Server, step: Step)
    requires Core(s) && Enabled(s, step) && CallStep(step) && AckInv(s)
    ensures AckInv(Next(s, step))
  {
    hide AckInv, Core, WithQueue, Call;
    match step
    case CallArrivesStep(kind, cancelled) => ArrivalAcks(s, kind, cancelled);
    case TransportCancelsStep(c) => TransportCancelAcks(s, c);
    case CancelRpcStep => CancelRpcAcks(s);
    case CallContinuesStep(c) => CallContinuesAcks(s, c);
    case RunSettlesStep(e) => RunSettlesAcks(s, e);
    case AttemptSettlesStep(t) => AttemptSettlesAcks(s, t);
  }

  lemma ArrivalAcks(s: Server, kind: CallKind, cancelled: bool)
    requires Core(s) && AckInv(s)
    ensures AckInv(CallArrives(s, kind, cancelled))
  {
    hide Waiting, WorkerInv, OneAtATime, CompletionsAreFinal, PostsInPlace, Call, WorkerAcks, AttemptAcks, PostFor;
    if !cancelled && Q.Admit(s.queue).Accepted? {
      QueueCallAcks(s, Q.EnqueueStep);
    }
  }

  lemma TransportCancelAcks(s: Server, c: nat)
    requires Core(s) && c < |s.calls| && AckInv(s)
    ensures AckInv(TransportCancels(s, c))
  {
    hide WorkerAcks, AttemptAcks, PostFor, Call, Protocol;
    if s.calls[c].entry.Some? {
      var call := s.calls[c].(transportCancelled := true);
      SameEntriesOwned(s.owner, s.calls, c, call);
      ProtocolIgnores(s, s.calls[c := call], s.owner);
      QueueCallAcks(s.(calls := s.calls[c := call]), Q.CancelStep(s.calls[c].entry.value));
    }
  }

  lemma CancelRpcAcks(s: Server)
    requires Core(s) && AckInv(s)
    ensures AckInv(WithQueue(s, Call(s.queue, Q.CancelActiveStep)))
  {
    QueueCallAcks(s, Q.CancelActiveStep);
  }

  lemma CallContinuesAcks(s: Server, c: nat)
    requires Core(s) && Enabled(s, CallContinuesStep(c)) && AckInv(s)
    ensures AckInv(CallContinues(s, c))
  {
    CallContinuesShape(s, c);
  }

  lemma RunSettlesAcks(s: Server, e: nat)
    requires Core(s) && Enabled(s, RunSettlesStep(e)) && AckInv(s)
    ensures AckInv(RunSettles(s, e))
  {
    hide WorkerAcks, AttemptAcks, PostFor, Call;
    QueueCallAcks(s, Q.RunCompletesStep(e, s.resolvedRuns[e]));
  }

  lemma AttemptSettlesCall(q: Q.Queue, t: nat, ok: bool)
    requires Q.Inv(q) && q.stack == [] && Q.Enabled(q, Q.AttemptSettlesStep(t, ok))
    ensures var q' := Call(q, Q.AttemptSettlesStep(t, ok));
            && q'.attempts == q.attempts[t := Q.Attempt(q.attempts[t].entry, if ok then Q.Acknowledged else Q.Refused)]
            && q'.started == q.started && q'.active == q.active
  {
    Q.StepInv(q, Q.AttemptSettlesStep(t, ok));
  }

  lemma AttemptSettlesAcks(s: Server, t: nat)
    requires Core(s) && Enabled(s, AttemptSettlesStep(t)) && AckInv(s)
    ensures AckInv(AttemptSettles(s, t))
  {
    hide Waiting, WorkerInv, OneAtATime, CompletionsAreFinal, PostsInPlace, Q.Inv, WorkerAcks, AttemptAcks, PostFor, Call;
    AttemptSettlesCall(s.queue, t, s.resolvedAttempts[t]);
    SettledAttempt(s.queue, Call(s.queue, Q.AttemptSettlesStep(t, s.resolvedAttempts[t])), t, s.resolvedAttempts,
                   Posting(s.nextWorkerRequestId, s.runId, s.waiters, s.posted), s.worker.cancelled);
  }

  /** An attempt settles as its result says, and nothing is posted. */
  lemma SettledAttempt(q: Q.Queue, q': Q.Queue, t: nat, results: map<nat, bool>, p: Posting, cancelled: set<nat>)
    requires AttemptAcks(q.attempts, results, p.waiters, p.runId, p.posted, cancelled)
    requires t < |q.attempts| && t in results && q'.started == q.started
    requires q'.attempts == q.attempts[t := Q.Attempt(q.attempts[t].entry, if results[t] then Q.Acknowledged else Q.Refused)]
    ensures PostFor(q, q', p) == p
    ensures AttemptAcks(q'.attempts, results - {t}, p.waiters, p.runId, p.posted, cancelled)
  {
  }

  lemma ReceiveAcks(s: Server)
    requires Core(s) && s.received < |s.outbox| && AckInv(s)
    ensures AckInv(Receive(s))
  {
    hide Waiting, WorkerInv, OneAtATime, CompletionsAreFinal, PostsInPlace, Q.Inv;
    var m := s.outbox[s.received];
    if m.CancelCompleted? && Expects(s.waiters, m) {
      assert AwaitsItsOwn(s.queue.attempts, s.runId, s.posted, m.id, s.waiters[m.id].attempt);
      if m.ok {
        assert CancelCompleted(m.id, true) in s.outbox;
        assert Raises(s.posted, s.worker.cancelled, m.id);
      }
    }
  }

  lemma ClosingAcks(s: Server, timing: Timing)
    requires Core(s) && AckInv(s)
    ensures AckInv(Shutdown(s.(timing := timing)))
  {
    hide WorkerAcks, Waiting, WorkerInv, OneAtATime, CompletionsAreFinal, PostsInPlace, Q.Inv, Call;
    if s.phase == Serving {
      CloseAttempts(s.queue);
      PostedAcks(s.worker.acks, s.outbox, s.posted, Shutdown(s.(timing := timing)).posted, s.worker.cancelled);
    }
  }

  lemma CloseAttempts(q: Q.Queue)
    requires Q.Inv(q) && q.stack == []
    ensures Call(q, Q.CloseStep).attempts == q.attempts
  {
    Q.StepInv(q, Q.CloseStep);
  }

  lemma WorkerFailsAcks(s: Server)
    requires Core(s) && AckInv(s)
    ensures AckInv(WorkerFails(s))
  {
    hide WorkerAcks, Shutdown, Raised, AwaitsItsOwn, Core;
    ClosingAcks(s, s.timing);
  }

  lemma ParentStepAcks(s: Server, step: Step)
    requires Core(s) && Enabled(s, step) && !CallStep(step) && !WorkerStep(step) && AckInv(s)
    ensures AckInv(Next(s, step))
  {
    hide Core, Shutdown, WorkerFails, Receive, ShutdownContinues, CallArrives, TransportCancels, Call, RunSettles;
    hide AttemptSettles, CallContinues, Deliver, EmitEvent, EndScope, EndSession, PostCompletion, PostAck;
    match step
    case ReceiveStep => ReceiveAcks(s);
    case ImmediateFiresStep => ClosingAcks(s, s.timing.(immediates := s.timing.immediates - 1));
    case StartupTimerFiresStep => ClosingAcks(s, s.timing.(startupTimer := false));
    case WorkerFailsStep => WorkerFailsAcks(s);
    case ShutdownContinuesStep => ShutdownContinuesAcks(s);
    case _ =>
  }

  lemma ShutdownContinuesAcks(s: Server)
    requires AckInv(s)
    ensures AckInv(ShutdownContinues(s))
  {
    hide WorkerAcks, AttemptAcks, ShutdownContinues;
    var s' := ShutdownContinues(s);
    ShutdownContinuesPosts(s);
    PostedAcks(s.worker.acks, s.outbox, s.posted, s'.posted, s.worker.cancelled);
    PostedAttemptAcks(s.queue.attempts, s.resolvedAttempts, s.waiters, s.runId, s.posted, s'.posted, s.worker.cancelled);
  }

  lemma ShutdownContinuesPosts(s: Server)
    ensures s.posted <= ShutdownContinues(s).posted
    ensures ShutdownContinues(s) == s.(phase := ShutdownContinues(s).phase, posted := ShutdownContinues(s).posted,
                                       forcedShutdowns := ShutdownContinues(s).forcedShutdowns)
  {
  }

  lemma PostedAttemptAcks(attempts: seq<Q.Attempt>, results: map<nat, bool>, waiters: map<nat, Waiter>, runId: map<nat, nat>,
                          posted: seq<InMsg>, posted': seq<InMsg>, cancelled: set<nat>)
    requires AttemptAcks(attempts, results, waiters, runId, posted, cancelled) && posted <= posted'
    ensures AttemptAcks(attempts, results, waiters, runId, posted', cancelled)
  {
    forall id | id in waiters && waiters[id].CancelOf?
      ensures AwaitsItsOwn(attempts, runId, posted', id, waiters[id].attempt)
    {
      assert AwaitsItsOwn(attempts, runId, posted, id, waiters[id].attempt);
    }
  }

  lemma FlagsGrowAcks(s: Server, cancelled: set<nat>)
    requires AckInv(s) && s.worker.cancelled <= cancelled
    ensures WorkerAcks(s.worker.acks, s.outbox, s.posted, cancelled)
    ensures AttemptAcks(s.queue.attempts, s.resolvedAttempts, s.waiters, s.runId, s.posted, cancelled)
  {
    assert forall id | Raises(s.posted, s.worker.cancelled, id) :: Raises(s.posted, cancelled, id);
  }

  lemma DeliverAcks(s: Server, cache: CacheRequest)
    requires Core(s) && s.delivered < |s.posted| && AckInv(s)
    ensures AckInv(Deliver(s, cache))
  {
    hide AttemptAcks, Linked, Waiting, OneAtATime, CompletionsAreFinal;
    var m := s.posted[s.delivered];
    DeliveredFlags(s, cache);
    FlagsGrowAcks(s, Deliver(s, cache).worker.cancelled);
    if m.Cancel? {
      CancelDeliveredEffect(s, cache);
      assert InScope(s.worker, m.target) ==> Raises(s.posted, Deliver(s, cache).worker.cancelled, m.id);
    }
  }

  lemma WorkerStepAcks(s: Server, step: Step)
    requires Core(s) && Enabled(s, step) && WorkerStep(step) && AckInv(s)
    ensures AckInv(Next(s, step))
  {
    hide Core, AttemptAcks, Raises;
    if step.DeliverStep? {
      DeliverAcks(s, step.cache);
    }
  }

  lemma StepAcks(s: Server, step: Step)
    requires Core(s) && Enabled(s, step) && AckInv(s)
    ensures AckInv(Next(s, step))
  {
    hide Core, AckInv;
    if CallStep(step) {
      CallStepAcks(s, step);
    } else if WorkerStep(step) {
      WorkerStepAcks(s, step);
    } else {
      ParentStepAcks(s, step);
    }
  }

  lemma NewAckInv(maxPending: nat, timer: bool)
    ensures AckInv(New(maxPending, timer))
  {
  }

  lemma {:induction false} RunsKeepAcks(maxPending: nat, timer: bool, ss: seq<Server>, steps: seq<Step>, k: nat)
    requires IsRun(maxPending, timer, ss, steps) && k < |ss|
    ensures AckInv(ss[k])
  {
    hide Core, Next, Enabled, AckInv, New;
    if k == 0 {
      NewAckInv(maxPending, timer);
    } else {
      RunsKeepAcks(maxPending, timer, ss, steps, k - 1);
      StepOfRun(maxPending, timer, ss, steps, k - 1);
      StepAcks(ss[k - 1], steps[k - 1]);
    }
  }

  /** In every run, an attempt that was acknowledged has raised the flag of its own entry's analysis. */
  lemma AcknowledgedMeansRaised(maxPending: nat, timer: bool, ss: seq<Server>, steps: seq<Step>, k: nat, t: nat)
    requires IsRun(maxPending, timer, ss, steps) && k < |ss| && t < |ss[k].queue.attempts|
    requires ss[k].queue.attempts[t].phase.Acknowledged?
    ensures var e := ss[k].queue.attempts[t].entry; e in ss[k].runId && ss[k].runId[e] in ss[k].worker.cancelled
  {
    RunsKeepAcks(maxPending, timer, ss, steps, k);
    assert Raised(ss[k].queue.attempts, ss[k].runId, ss[k].worker.cancelled, t);
  }

  /** An attempt settles with what the worker answered to its own cancel, or is refused by a timeout or failure. */
  lemma AttemptsSettleExactly(maxPending: nat, timer: bool, ss: seq<Server>, steps: seq<Step>, k: nat, t: nat)
    requires IsRun(maxPending, timer, ss, steps) && k < |steps| && steps[k] == AttemptSettlesStep(t)
    ensures t in ss[k].resolvedAttempts && t < |ss[k].queue.attempts|
    ensures ss[k + 1].queue.attempts == ss[k].queue.attempts[t := Q.Attempt(ss[k].queue.attempts[t].entry,
              if ss[k].resolvedAttempts[t] then Q.Acknowledged else Q.Refused)]
    ensures ss[k + 1].posted == ss[k].posted && ss[k + 1].calls == ss[k].calls
  {
    StepOfRun(maxPending, timer, ss, steps, k);
    hide Protocol, Call;
    AttemptSettlesCall(ss[k].queue, t, ss[k].resolvedAttempts[t]);
  }
}
