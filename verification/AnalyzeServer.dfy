/**
  The analyze-project server: gRPC call handlers, request queue, worker channel, worker and shutdown,
  as one transition system.

  The parent thread and the worker exchange messages over two first-in first-out channels.  Each
  channel is kept as the log of everything posted plus the number of messages already taken, so a
  request identifier names a position in the log.  The server's `run` and `requestCancel` only post a
  message before their first await, so the queue operations here are whole calls of AnalysisQueue.
 */
module AnalyzeServer {
  import opened Options
  import Q = AnalysisQueue

  // ----- Queue calls as the server makes them -----

  function Returned(q: Q.Queue): Q.Queue
    requires Q.InRange(q)
  {
    if q.stack == [] then q
    else if q.stack[|q.stack| - 1].RunFrame? then Q.RunReturns(q)
    else Q.CancelReturns(q)
  }

  function Call(q: Q.Queue, step: Q.Step): Q.Queue
    requires Q.Inv(q) && q.stack == [] && Q.Enabled(q, step)
  {
    Q.StepInv(q, step);
    Returned(Q.Next(q, step))
  }

  /** The entry was started, an attempt was made, or neither: what one queue call does for the server. */
  ghost predicate Started(q: Q.Queue, q': Q.Queue) {
    && |q'.started| == |q.started| + 1 && q'.started[..|q.started|] == q.started
    && q'.active == Some(q'.started[|q.started|]) && q'.started[|q.started|] !in q.started
    && |q'.attempts| == |q.attempts| && !q'.closed
    && q'.executions <= q.executions + {q'.started[|q.started|]}
  }

  ghost predicate Asked(q: Q.Queue, q': Q.Queue) {
    && q'.started == q.started && q'.active == q.active && q.active.Some? && q'.closed == q.closed
    && |q'.attempts| == |q.attempts| + 1
    && q'.executions == q.executions
  }

  ghost predicate Quiet(q: Q.Queue, q': Q.Queue) {
    && q'.started == q.started && |q'.attempts| == |q.attempts| && q'.executions <= q.executions
    && (q'.active == q.active || q'.active == None) && (q.closed ==> q'.closed)
  }

  ghost predicate QueueMoves(q: Q.Queue, q': Q.Queue) {
    && Q.Inv(q') && q'.stack == [] && Q.Extends(q, q')
    && (Started(q, q') || Asked(q, q') || Quiet(q, q'))
    && |q'.entries| >= |q.entries|
  }

  /** What the server relies on when a callback returns. */
  ghost predicate ReturnsTo(q: Q.Queue, q': Q.Queue) {
    && q'.started == q.started && |q'.attempts| == |q.attempts| && q'.active == q.active && q'.closed == q.closed
    && |q'.entries| == |q.entries|
    && q'.executions == q.executions + (if q.stack != [] && q.stack[0].RunFrame? then {q.stack[0].entry} else {})
  }

  lemma ReturnedShape(q: Q.Queue)
    requires Q.InRange(q) && |q.stack| <= 1
    ensures Returned(q).stack == [] && ReturnsTo(q, Returned(q))
  {
  }

  lemma ReturnedInv(q: Q.Queue)
    requires Q.Inv(q) && |q.stack| <= 1
    ensures Q.Inv(Returned(q)) && Returned(q).stack == []
    ensures Q.Extends(q, Returned(q)) && ReturnsTo(q, Returned(q))
  {
    ReturnedShape(q);
    if q.stack != [] {
      if q.stack[0].RunFrame? {
        Q.RunReturnsInv(q);
        Q.RunReturnsExtends(q);
      } else {
        Q.CancelReturnsInv(q);
        Q.CancelReturnsExtends(q);
      }
    }
  }

  lemma ExtendsTransitive(a: Q.Queue, b: Q.Queue, c: Q.Queue)
    requires Q.Extends(a, b) && Q.Extends(b, c)
    ensures Q.Extends(a, c)
  {
  }

  lemma NextMoves(q: Q.Queue, step: Q.Step)
    requires Q.Inv(q) && q.stack == [] && Q.Enabled(q, step)
    ensures var q1 := Q.Next(q, step);
            && |q1.stack| <= 1
            && (|q1.stack| == 1 && q1.stack[0].RunFrame? ==>
                  Started(q, q1) && q1.executions <= q.executions && q1.stack[0].entry == q1.started[|q.started|])
            && (|q1.stack| == 1 && q1.stack[0].CancelFrame? ==> Asked(q, q1))
            && (q1.stack == [] ==> Quiet(q, q1))
  {
    match step
    case RunCompletesStep(e, s) =>
      if q.active == Some(e) && q.pending != [] {
        StartedIsNew(q, q.pending[0]);
      }
    case EnqueueStep =>
      if q.active.None? && !q.closed {
        Q.KeptMembers(|q.entries|, q.dropped, |q.entries|);
        assert q.started + q.pending == q.started;
      }
    case _ =>
  }

  lemma StartedIsNew(q: Q.Queue, e: nat)
    requires Q.Inv(q) && e in q.pending
    ensures e !in q.started
  {
    Q.SplicedOnce(|q.entries|, q.dropped, q.started, q.pending, e);
  }

  /** What `NextMoves` says of the queue inside a call still holds when the call has returned. */
  lemma MovesReturned(q: Q.Queue, q1: Q.Queue, q2: Q.Queue)
    requires |q1.stack| <= 1 && ReturnsTo(q1, q2)
    requires |q1.stack| == 1 && q1.stack[0].RunFrame? ==>
               Started(q, q1) && q1.executions <= q.executions && q1.stack[0].entry == q1.started[|q.started|]
    requires |q1.stack| == 1 && q1.stack[0].CancelFrame? ==> Asked(q, q1)
    requires q1.stack == [] ==> Quiet(q, q1)
    ensures Started(q, q2) || Asked(q, q2) || Quiet(q, q2)
  {
  }

  lemma CallMoves(q: Q.Queue, step: Q.Step)
    requires Q.Inv(q) && q.stack == [] && Q.Enabled(q, step)
    ensures QueueMoves(q, Call(q, step))
  {
    hide Q.StatesAgree, Q.WorkConserving, Q.StackShape, Q.SettledOnce, Q.Fifo, Q.Enabled, Q.Next;
    hide Returned, Started, Asked, Quiet;
    var q1 := Q.Next(q, step);
    Q.StepInv(q, step);
    Q.StepExtends(q, step);
    NextMoves(q, step);
    ReturnedInv(q1);
    ExtendsTransitive(q, q1, Returned(q1));
    MovesReturned(q, q1, Returned(q1));
  }

  /** Only a completion or `close` can retire the active entry, and only a completion replaces it. */
  lemma CallKeepsActive(q: Q.Queue, step: Q.Step)
    requires Q.Inv(q) && q.stack == [] && Q.Enabled(q, step)
    requires !step.CloseStep? && (step.RunCompletesStep? ==> q.active != Some(step.entry))
    ensures q.active.Some? ==> Call(q, step).active == q.active
    ensures Call(q, step).closed == q.closed
    ensures |Call(q, step).started| > |q.started| ==> q.active.None?
  {
    hide Q.StatesAgree, Q.WorkConserving, Q.SettledOnce, Q.Fifo;
    Q.StepInv(q, step);
    NextMoves(q, step);
    ReturnedInv(Q.Next(q, step));
  }

  // ----- Messages and state -----

  datatype CallKind = Unary | Stream

  /** Messages to the worker.  `target` of a cancel is the analysis of the then active entry. */
  datatype InMsg =
    | Analyze(id: nat, entry: nat)
    | Cancel(id: nat, target: nat)
    | CloseWorker

  datatype OutMsg =
    | Event(id: nat, index: nat)
    | Completed(id: nat, ok: bool)
    | CancelCompleted(id: nat, ok: bool)

  /** What a `waitForWorkerCompletion` promise belongs to. */
  datatype Waiter = RunOf(entry: nat) | CancelOf(attempt: nat)

  /** A worker message handler that is still running an analysis; `cached` says it holds a cache session. */
  datatype Handler =
    | Running(cached: bool)
    | ScopeEnded(cached: bool, ok: bool)
    | SessionEnded(ok: bool)

  /** How an analyze request configures the filesystem cache. */
  datatype CacheRequest = NoCache | WithCache | InvalidCache

  /** `status` is the worker's `analysisStatus`: the analysis whose scope is current. */
  datatype Worker = Worker(
    status: Option<nat>,
    cancelled: set<nat>,
    handlers: map<nat, Handler>,
    session: Option<nat>,
    sessionConflict: bool,
    closed: bool,
    acks: set<(nat, bool)>)

  datatype Status = Unavailable | CancelledStatus | ResourceExhausted | Other

  /** What a call's client sees: stream writes and end, the unary callback's value, or an error. */
  datatype Output = Write(index: nat) | End | Value | Error(status: Status)

  datatype ClientCall = ClientCall(
    kind: CallKind,
    entry: Option<nat>,
    transportCancelled: bool,
    done: bool,
    outputs: seq<Output>)

  datatype Phase = Serving | Cancelling | Terminating | Down

  /** What can call `shutdown` later: the lease, the startup timer and the queued `setImmediate`s. */
  datatype Timing = Timing(lease: Option<nat>, leases: nat, startupTimer: bool, immediates: nat)

  /**
    `continuations` counts the calls of `shutdown` that passed its guard, each of which has its own
    asynchronous rest; `phase` is how far that rest has come.
   */
  datatype Server = Server(
    queue: Q.Queue,
    nextWorkerRequestId: nat,
    runId: map<nat, nat>,
    waiters: map<nat, Waiter>,
    resolvedRuns: map<nat, Q.Settlement>,
    resolvedAttempts: map<nat, bool>,
    calls: seq<ClientCall>,
    owner: seq<nat>,
    posted: seq<InMsg>,
    delivered: nat,
    outbox: seq<OutMsg>,
    received: nat,
    worker: Worker,
    workerAlive: bool,
    phase: Phase,
    continuations: nat,
    forcedShutdowns: nat,
    timing: Timing)

  function New(maxPending: nat, startupTimer: bool): Server {
    Server(Q.New(maxPending), 0, map[], map[], map[], map[], [], [], [], 0, [], 0,
           Worker(None, {}, map[], None, false, false, {}), true, Serving, 0, 0, Timing(None, 0, startupTimer, 0))
  }

  /** How many events of analysis `id` are in `out`. */
  function EventCount(out: seq<OutMsg>, id: nat): nat {
    if out == [] then 0
    else
      EventCount(out[..|out| - 1], id)
      + (if out[|out| - 1].Event? && out[|out| - 1].id == id then 1 else 0)
  }

  predicate CompletedIn(out: seq<OutMsg>, id: nat) {
    Completed(id, true) in out || Completed(id, false) in out
  }

  // ----- Parent steps -----

  datatype Posting = Posting(lastId: nat, runId: map<nat, nat>, waiters: map<nat, Waiter>, posted: seq<InMsg>)

  /** The message that a started run or a cancellation attempt posts, under a new request identifier. */
  function PostFor(before: Q.Queue, after: Q.Queue, p: Posting): Posting {
    var id := p.lastId + 1;
    if |after.started| > |before.started| then
      var e := after.started[|after.started| - 1];
      Posting(id, p.runId[e := id], p.waiters[id := RunOf(e)], p.posted + [Analyze(id, e)])
    else if |after.attempts| > |before.attempts| && after.active.Some? && after.active.value in p.runId then
      Posting(id, p.runId, p.waiters[id := CancelOf(|after.attempts| - 1)],
              p.posted + [Cancel(id, p.runId[after.active.value])])
    else p
  }

  /** Takes a queue call's effect into the server. */
  function WithQueue(s: Server, q: Q.Queue): Server {
    var p := PostFor(s.queue, q, Posting(s.nextWorkerRequestId, s.runId, s.waiters, s.posted));
    s.(queue := q, nextWorkerRequestId := p.lastId, runId := p.runId, waiters := p.waiters, posted := p.posted)
  }

  function CallArrives(s: Server, kind: CallKind, cancelled: bool): Server
    requires QueueReady(s)
  {
    if cancelled then s.(calls := s.calls + [ClientCall(kind, None, true, true, [])])
    else
      match Q.Admit(s.queue)
      case RefusedAdmission(reason) =>
        var status := if reason.Full? then ResourceExhausted else Unavailable;
        s.(calls := s.calls + [ClientCall(kind, None, false, true, [Error(status)])])
      case Accepted(e) =>
        WithQueue(s, Call(s.queue, Q.EnqueueStep))
          .(calls := s.calls + [ClientCall(kind, Some(e), false, false, [])], owner := s.owner + [|s.calls|])
  }

  function TransportCancels(s: Server, c: nat): Server
    requires QueueReady(s) && c < |s.calls|
    requires s.calls[c].entry.Some? ==> s.calls[c].entry.value < |s.queue.entries|
  {
    var s1 := s.(calls := s.calls[c := s.calls[c].(transportCancelled := true)]);
    if s.calls[c].entry.Some? then WithQueue(s1, Call(s.queue, Q.CancelStep(s.calls[c].entry.value))) else s1
  }

  /** Nothing is sent once the transport is cancelled. */
  function Sent(call: ClientCall, output: Output): ClientCall {
    if call.transportCancelled then call else call.(outputs := call.outputs + [output])
  }

  /** The stream handler's message listener; a unary call has none. */
  function Written(call: ClientCall, index: nat): ClientCall {
    if call.kind.Stream? then Sent(call, Write(index)) else call
  }

  /** Some promise or listener of the parent is waiting for the message. */
  predicate Expects(waiters: map<nat, Waiter>, m: OutMsg) {
    m.id in waiters && (if m.CancelCompleted? then waiters[m.id].CancelOf? else waiters[m.id].RunOf?)
  }

  /** The worker 'message' listeners of the parent, for the next message of the channel. */
  function Receive(s: Server): Server
    requires s.received < |s.outbox|
    requires forall id | id in s.waiters && s.waiters[id].RunOf? ::
               s.waiters[id].entry < |s.owner| && s.owner[s.waiters[id].entry] < |s.calls|
  {
    var m := s.outbox[s.received];
    var expected := Expects(s.waiters, m);
    s.(received := s.received + 1,
       calls := if expected && m.Event? then
                  var c := s.owner[s.waiters[m.id].entry];
                  s.calls[c := Written(s.calls[c], m.index)]
                else s.calls,
       waiters := if expected && !m.Event? then s.waiters - {m.id} else s.waiters,
       resolvedRuns := if expected && m.Completed? then
                         s.resolvedRuns[s.waiters[m.id].entry := if m.ok then Q.Resolved else Q.Rejected(Q.RunFailed)]
                       else s.resolvedRuns,
       resolvedAttempts := if expected && m.CancelCompleted? then s.resolvedAttempts[s.waiters[m.id].attempt := m.ok]
                           else s.resolvedAttempts)
  }

  function RunSettles(s: Server, e: nat): Server
    requires QueueReady(s) && e in s.resolvedRuns && e in s.queue.executions
    requires s.resolvedRuns[e] == Q.Resolved || s.resolvedRuns[e] == Q.Rejected(Q.RunFailed)
  {
    WithQueue(s.(resolvedRuns := s.resolvedRuns - {e}), Call(s.queue, Q.RunCompletesStep(e, s.resolvedRuns[e])))
  }

  function AttemptSettles(s: Server, t: nat): Server
    requires QueueReady(s) && t in s.resolvedAttempts
    requires Q.Enabled(s.queue, Q.AttemptSettlesStep(t, s.resolvedAttempts[t]))
  {
    WithQueue(s.(resolvedAttempts := s.resolvedAttempts - {t}),
              Call(s.queue, Q.AttemptSettlesStep(t, s.resolvedAttempts[t])))
  }

  function StatusOf(reason: Q.FailureReason): Status {
    match reason
    case RunFailed => Other
    case TransportCancelled => CancelledStatus
    case QueueClosed => Unavailable
  }

  function Terminal(kind: CallKind, settlement: Q.Settlement): Output {
    match settlement
    case Resolved => if kind.Unary? then Value else End
    case Rejected(reason) => Error(StatusOf(reason))
  }

  function Continued(call: ClientCall, settlement: Q.Settlement): ClientCall {
    Sent(call.(done := true), Terminal(call.kind, settlement))
  }

  /** The handler's continuation after `await submission.result`. */
  function CallContinues(s: Server, c: nat): Server
    requires c < |s.calls| && s.calls[c].entry.Some? && s.calls[c].entry.value < |s.queue.entries|
    requires s.queue.entries[s.calls[c].entry.value].settlements != []
  {
    s.(calls := s.calls[c := Continued(s.calls[c], s.queue.entries[s.calls[c].entry.value].settlements[0])])
  }

  /** The synchronous part of `shutdown`, up to the first await. */
  function Shutdown(s: Server): Server
    requires QueueReady(s)
  {
    if s.phase != Serving then s else Closing(s, Call(s.queue, Q.CloseStep))
  }

  /** The queue is closed, timers and lease are cleared, and a cancel of the active analysis is posted. */
  function Closing(s: Server, closed: Q.Queue): Server {
    var p := PostCancelOfActive(s.queue, Posting(s.nextWorkerRequestId, s.runId, s.waiters, s.posted));
    s.(phase := Cancelling, continuations := s.continuations + 1, queue := closed,
       timing := s.timing.(startupTimer := false, lease := None),
       nextWorkerRequestId := p.lastId, posted := p.posted)
  }

  function PostCancelOfActive(q: Q.Queue, p: Posting): Posting {
    if q.active.Some? && q.active.value in p.runId then
      p.(lastId := p.lastId + 1, posted := p.posted + [Cancel(p.lastId + 1, p.runId[q.active.value])])
    else p
  }

  function ShutdownContinues(s: Server): Server {
    match s.phase
    case Serving => s
    case Cancelling => s.(phase := Terminating, posted := s.posted + [CloseWorker])
    case Terminating => s.(phase := Down, forcedShutdowns := s.forcedShutdowns + 1)
    case Down => s
  }

  function WaitingRuns(waiters: map<nat, Waiter>): set<nat> {
    set id | id in waiters && waiters[id].RunOf? :: waiters[id].entry
  }

  function WaitingAttempts(waiters: map<nat, Waiter>): set<nat> {
    set id | id in waiters && waiters[id].CancelOf? :: waiters[id].attempt
  }

  /** The worker's 'error' or 'exit' event: the lifecycle listener first, then every waiting promise rejects. */
  function WorkerFails(s: Server): Server
    requires QueueReady(s)
  {
    var s1 := Shutdown(s);
    s1.(workerAlive := false,
        waiters := map[],
        resolvedRuns := s1.resolvedRuns
          + (map e | e in WaitingRuns(s1.waiters) :: Q.Rejected(Q.RunFailed)),
        resolvedAttempts := s1.resolvedAttempts
          + (map t | t in WaitingAttempts(s1.waiters) :: false))
  }

  function LeaseArrives(t: Timing): Timing {
    if t.lease.Some? then t.(leases := t.leases + 1)
    else t.(lease := Some(t.leases), leases := t.leases + 1, startupTimer := false)
  }

  function LeaseLost(t: Timing, l: nat, phase: Phase): Timing {
    if t.lease != Some(l) then t
    else t.(lease := None, immediates := if phase == Serving then t.immediates + 1 else t.immediates)
  }

  // ----- Worker steps -----

  /** The worker's 'message' listener up to its first await. */
  function Deliver(s: Server, cache: CacheRequest): Server
    requires s.delivered < |s.posted|
  {
    s.(delivered := s.delivered + 1, worker := Handled(s.worker, s.posted[s.delivered], cache))
  }

  function Handled(w: Worker, m: InMsg, cache: CacheRequest): Worker {
    match m
    case Analyze(id, _) =>
      if cache.InvalidCache? then w.(handlers := w.handlers[id := SessionEnded(false)])
      else if cache.WithCache? && w.session.Some? then
        w.(handlers := w.handlers[id := SessionEnded(false)], sessionConflict := true)
      else
        w.(handlers := w.handlers[id := Running(cache.WithCache?)],
           session := if cache.WithCache? then Some(id) else w.session,
           status := Some(id))
    case Cancel(id, _) =>
      w.(cancelled := if w.status.Some? then w.cancelled + {w.status.value} else w.cancelled,
         acks := w.acks + {(id, w.status.Some?)})
    case CloseWorker => w.(closed := true)
  }

  function EmitEvent(s: Server, id: nat): Server {
    s.(outbox := s.outbox + [Event(id, EventCount(s.outbox, id))])
  }

  /** The `finally` of `withAnalysisCancellation`. */
  function EndScope(s: Server, id: nat, ok: bool): Server
    requires id in s.worker.handlers && s.worker.handlers[id].Running?
  {
    var w := s.worker;
    s.(worker := w.(handlers := w.handlers[id := ScopeEnded(w.handlers[id].cached, ok)],
                    status := if w.status == Some(id) then None else w.status))
  }

  /** The outer `finally`, which ends the filesystem cache session. */
  function EndSession(s: Server, id: nat): Server
    requires id in s.worker.handlers && s.worker.handlers[id].ScopeEnded?
  {
    var w := s.worker;
    s.(worker := w.(handlers := w.handlers[id := SessionEnded(w.handlers[id].ok)],
                    session := if w.handlers[id].cached then None else w.session))
  }

  function PostCompletion(s: Server, id: nat): Server
    requires id in s.worker.handlers && s.worker.handlers[id].SessionEnded?
  {
    s.(worker := s.worker.(handlers := s.worker.handlers - {id}),
       outbox := s.outbox + [Completed(id, s.worker.handlers[id].ok)])
  }

  function PostAck(s: Server, ack: (nat, bool)): Server {
    s.(worker := s.worker.(acks := s.worker.acks - {ack}), outbox := s.outbox + [CancelCompleted(ack.0, ack.1)])
  }

  // ----- The transition system -----

  datatype Step =
    | CallArrivesStep(kind: CallKind, cancelled: bool)
    | TransportCancelsStep(call: nat)
    | CancelRpcStep
    | ReceiveStep
    | RunSettlesStep(entry: nat)
    | AttemptSettlesStep(attempt: nat)
    | AttemptTimesOutStep(id: nat)
    | CallContinuesStep(call: nat)
    | LeaseArrivesStep
    | LeaseLostStep(lease: nat)
    | ImmediateFiresStep
    | StartupTimerFiresStep
    | WorkerFailsStep
    | ShutdownContinuesStep
    | DeliverStep(cache: CacheRequest)
    | EmitEventStep(id: nat)
    | EndScopeStep(id: nat, ok: bool)
    | EndSessionStep(id: nat)
    | PostCompletionStep(id: nat)
    | PostAckStep(ack: (nat, bool))

  predicate WorkerStep(step: Step) {
    step.DeliverStep? || step.EmitEventStep? || step.EndScopeStep? || step.EndSessionStep?
    || step.PostCompletionStep? || step.PostAckStep?
  }

  ghost predicate QueueReady(s: Server) {
    Q.Inv(s.queue) && s.queue.stack == []
  }

  /** Each accepted entry belongs to exactly one call. */
  ghost predicate Owned(owner: seq<nat>, calls: seq<ClientCall>) {
    && (forall e | 0 <= e < |owner| :: owner[e] < |calls| && calls[owner[e]].entry == Some(e))
    && (forall c | 0 <= c < |calls| && calls[c].entry.Some? ::
          calls[c].entry.value < |owner| && owner[calls[c].entry.value] == c)
  }

  ghost predicate WaitersInRange(waiters: map<nat, Waiter>, entries: nat, attempts: nat) {
    && (forall id | id in waiters && waiters[id].RunOf? :: waiters[id].entry < entries)
    && (forall id | id in waiters && waiters[id].CancelOf? :: waiters[id].attempt < attempts)
  }

  ghost predicate RunResults(resolvedRuns: map<nat, Q.Settlement>) {
    forall e | e in resolvedRuns :: resolvedRuns[e] == Q.Resolved || resolvedRuns[e] == Q.Rejected(Q.RunFailed)
  }

  /** Indices that the parent's closures hold are in range. */
  ghost predicate Linked(s: Server) {
    && QueueReady(s)
    && |s.owner| == |s.queue.entries|
    && Owned(s.owner, s.calls)
    && WaitersInRange(s.waiters, |s.owner|, |s.queue.attempts|)
    && RunResults(s.resolvedRuns)
  }

  ghost predicate Enabled(s: Server, step: Step)
    requires Linked(s)
  {
    && (WorkerStep(step) || step.ReceiveStep? ==> s.workerAlive)
    && match step
       case CallArrivesStep(_, _) => true
       case TransportCancelsStep(c) => c < |s.calls|
       case CancelRpcStep => true
       case ReceiveStep => s.received < |s.outbox|
       case RunSettlesStep(e) => e in s.resolvedRuns && e in s.queue.executions
       case AttemptSettlesStep(t) =>
         t in s.resolvedAttempts && t < |s.queue.attempts| && s.queue.attempts[t].phase.Outstanding?
       case AttemptTimesOutStep(id) => id in s.waiters && s.waiters[id].CancelOf?
       case CallContinuesStep(c) =>
         c < |s.calls| && s.calls[c].entry.Some? && !s.calls[c].done
         && s.queue.entries[s.calls[c].entry.value].settlements != []
       case LeaseArrivesStep => true
       case LeaseLostStep(l) => l < s.timing.leases
       case ImmediateFiresStep => s.timing.immediates > 0
       case StartupTimerFiresStep => s.timing.startupTimer
       case WorkerFailsStep => s.workerAlive
       case ShutdownContinuesStep => s.phase == Cancelling || s.phase == Terminating
       case DeliverStep(_) => !s.worker.closed && s.delivered < |s.posted|
       case EmitEventStep(id) => id in s.worker.handlers && s.worker.handlers[id].Running?
       case EndScopeStep(id, _) => id in s.worker.handlers && s.worker.handlers[id].Running?
       case EndSessionStep(id) => id in s.worker.handlers && s.worker.handlers[id].ScopeEnded?
       case PostCompletionStep(id) => id in s.worker.handlers && s.worker.handlers[id].SessionEnded?
       case PostAckStep(ack) => ack in s.worker.acks
  }

  ghost function Next(s: Server, step: Step): Server
    requires Linked(s) && Enabled(s, step)
  {
    match step
    case CallArrivesStep(kind, cancelled) => CallArrives(s, kind, cancelled)
    case TransportCancelsStep(c) => TransportCancels(s, c)
    case CancelRpcStep => WithQueue(s, Call(s.queue, Q.CancelActiveStep))
    case ReceiveStep => Receive(s)
    case RunSettlesStep(e) => RunSettles(s, e)
    case AttemptSettlesStep(t) => AttemptSettles(s, t)
    case AttemptTimesOutStep(id) =>
      s.(waiters := s.waiters - {id}, resolvedAttempts := s.resolvedAttempts[s.waiters[id].attempt := false])
    case CallContinuesStep(c) => CallContinues(s, c)
    case LeaseArrivesStep => s.(timing := LeaseArrives(s.timing))
    case LeaseLostStep(l) => s.(timing := LeaseLost(s.timing, l, s.phase))
    case ImmediateFiresStep => Shutdown(s.(timing := s.timing.(immediates := s.timing.immediates - 1)))
    case StartupTimerFiresStep => Shutdown(s.(timing := s.timing.(startupTimer := false)))
    case WorkerFailsStep => WorkerFails(s)
    case ShutdownContinuesStep => ShutdownContinues(s)
    case DeliverStep(cache) => Deliver(s, cache)
    case EmitEventStep(id) => EmitEvent(s, id)
    case EndScopeStep(id, ok) => EndScope(s, id, ok)
    case EndSessionStep(id) => EndSession(s, id)
    case PostCompletionStep(id) => PostCompletion(s, id)
    case PostAckStep(ack) => PostAck(s, ack)
  }

  ghost predicate IsRun(maxPending: nat, startupTimer: bool, ss: seq<Server>, steps: seq<Step>) {
    && |ss| == |steps| + 1
    && ss[0] == New(maxPending, startupTimer)
    && forall k | 0 <= k < |steps| :: StepAt(ss, steps, k)
  }

  /** Step number `k` of a sequence of states. */
  ghost predicate StepAt(ss: seq<Server>, steps: seq<Step>, k: nat) {
    k < |steps| && k + 1 < |ss| && StepsTo(ss[k], steps[k], ss[k + 1])
  }

  ghost predicate StepsTo(s: Server, step: Step, s': Server) {
    Linked(s) && Enabled(s, step) && s' == Next(s, step)
  }

  // ----- Invariant -----

  /** `id` is the last analysis among the first `n` posted messages. */
  ghost predicate Latest(posted: seq<InMsg>, n: nat, id: nat) {
    && 1 <= id <= n <= |posted|
    && posted[id - 1].Analyze?
    && forall j | id <= j < n :: !posted[j].Analyze?
  }

  /** Identifiers name positions, runs name their analysis, and each cancel follows the analysis it is for. */
  ghost predicate PostsInPlace(posted: seq<InMsg>, runId: map<nat, nat>) {
    && (forall i | 0 <= i < |posted| && posted[i].Analyze? ::
          posted[i].id == i + 1 && posted[i].entry in runId && runId[posted[i].entry] == i + 1)
    && (forall i | 0 <= i < |posted| && posted[i].Cancel? ::
          posted[i].id == i + 1 && Latest(posted, i, posted[i].target))
    && (forall e | e in runId :: 1 <= runId[e] <= |posted| && posted[runId[e] - 1] == Analyze(runId[e], e))
  }

  /** The messages that the parent has taken. */
  function Heard(s: Server): seq<OutMsg>
    requires s.received <= |s.outbox|
  {
    s.outbox[..s.received]
  }

  ghost predicate Channel(s: Server) {
    && s.delivered <= |s.posted| && s.received <= |s.outbox|
    && (s.phase == Serving <==> !s.queue.closed)
    && s.nextWorkerRequestId + (if s.phase == Terminating || s.phase == Down then 1 else 0) == |s.posted|
    && PostsInPlace(s.posted, s.runId)
    && RunsNamed(s.runId, s.queue.started)
    && (s.queue.closed ==> s.queue.active.None?)
    && (s.queue.active.Some? ==> ActiveIsLatest(s.queue.active.value, s.runId, s.posted))
  }

  ghost predicate RunsNamed(runId: map<nat, nat>, started: seq<nat>) {
    forall e :: e in runId <==> e in started
  }

  ghost predicate ActiveIsLatest(e: nat, runId: map<nat, nat>, posted: seq<InMsg>) {
    e in runId && Latest(posted, |posted|, runId[e])
  }

  /** The worker runs at most the latest delivered analysis, and its scope and session belong to it. */
  ghost predicate WorkerInv(w: Worker, posted: seq<InMsg>, delivered: nat) {
    && (forall id | id in w.handlers :: Latest(posted, delivered, id))
    && (forall id | id in w.handlers :: w.handlers[id].Running? <==> w.status == Some(id))
    && (w.status.Some? ==> w.status.value in w.handlers)
    && (w.session.Some? ==> w.session.value in w.handlers && HoldsSession(w.handlers[w.session.value]))
    && !w.sessionConflict
    && (forall id | id in w.cancelled :: CancelDelivered(posted, delivered, id))
  }

  predicate HoldsSession(h: Handler) {
    !h.SessionEnded? && h.cached
  }

  ghost predicate CancelDelivered(posted: seq<InMsg>, delivered: nat, id: nat) {
    delivered <= |posted| && exists j | 0 <= j < delivered :: posted[j].Cancel? && posted[j].target == id
  }

  /** An analysis is posted only when the parent has heard the completion of every earlier one. */
  ghost predicate OneAtATime(posted: seq<InMsg>, heard: seq<OutMsg>) {
    forall i, j | 0 <= i < j < |posted| && posted[i].Analyze? && posted[j].Analyze? :: CompletedIn(heard, i + 1)
  }

  ghost predicate AllHeard(posted: seq<InMsg>, heard: seq<OutMsg>) {
    forall i | 0 <= i < |posted| && posted[i].Analyze? :: CompletedIn(heard, i + 1)
  }

  /** A posted completion is final: its handler is gone. */
  ghost predicate CompletionsAreFinal(out: seq<OutMsg>, handlers: map<nat, Handler>, delivered: nat) {
    forall p | 0 <= p < |out| && out[p].Completed? :: out[p].id !in handlers && 1 <= out[p].id <= delivered
  }

  ghost predicate ResolvedHeard(resolvedRuns: map<nat, Q.Settlement>, runId: map<nat, nat>, heard: seq<OutMsg>) {
    forall e | e in resolvedRuns :: e in runId && CompletedIn(heard, runId[e])
  }

  ghost predicate RunWaiters(waiters: map<nat, Waiter>, runId: map<nat, nat>, heard: seq<OutMsg>, lastId: nat) {
    && (forall id | id in waiters && waiters[id].RunOf? ::
          waiters[id].entry in runId && runId[waiters[id].entry] == id && !CompletedIn(heard, id))
    && (forall id | id in waiters :: id <= lastId)
  }

  /** While the server is serving, resolved runs were completed, and the active run is awaited or resolved. */
  ghost predicate Waiting(s: Server)
    requires s.received <= |s.outbox|
  {
    && (s.phase == Serving && s.queue.active.None? ==> AllHeard(s.posted, Heard(s)))
    && (s.phase == Serving ==> ResolvedHeard(s.resolvedRuns, s.runId, Heard(s)))
    && RunWaiters(s.waiters, s.runId, Heard(s), s.nextWorkerRequestId)
    && (s.phase == Serving && s.queue.active.Some? ==>
          Awaited(s.queue.active.value, s.resolvedRuns, s.runId, s.waiters))
  }

  ghost predicate Awaited(e: nat, resolvedRuns: map<nat, Q.Settlement>, runId: map<nat, nat>, waiters: map<nat, Waiter>) {
    e in resolvedRuns || (e in runId && runId[e] in waiters && waiters[runId[e]] == RunOf(e))
  }

  ghost predicate Core(s: Server) {
    Linked(s) && Protocol(s)
  }

  ghost predicate Protocol(s: Server) {
    && Channel(s)
    && WorkerInv(s.worker, s.posted, s.delivered)
    && OneAtATime(s.posted, Heard(s))
    && CompletionsAreFinal(s.outbox, s.worker.handlers, s.delivered)
    && Waiting(s)
  }

  lemma NewCore(maxPending: nat, startupTimer: bool)
    ensures Core(New(maxPending, startupTimer))
  {
    Q.NewInv(maxPending);
  }

  // ----- Posting -----

  lemma LatestExtends(posted: seq<InMsg>, m: InMsg, n: nat, id: nat)
    requires Latest(posted, n, id)
    ensures Latest(posted + [m], n, id)
    ensures n == |posted| && !m.Analyze? ==> Latest(posted + [m], n + 1, id)
  {
  }

  lemma PostAnalyze(posted: seq<InMsg>, runId: map<nat, nat>, e: nat)
    requires PostsInPlace(posted, runId) && e !in runId
    ensures PostsInPlace(posted + [Analyze(|posted| + 1, e)], runId[e := |posted| + 1])
    ensures Latest(posted + [Analyze(|posted| + 1, e)], |posted| + 1, |posted| + 1)
  {
    var m := Analyze(|posted| + 1, e);
    forall i | 0 <= i < |posted| && posted[i].Cancel?
      ensures Latest(posted + [m], i, posted[i].target)
    {
      LatestExtends(posted, m, i, posted[i].target);
    }
  }

  lemma PostOther(posted: seq<InMsg>, runId: map<nat, nat>, m: InMsg)
    requires PostsInPlace(posted, runId) && !m.Analyze?
    requires m.Cancel? ==> m.id == |posted| + 1 && Latest(posted, |posted|, m.target)
    ensures PostsInPlace(posted + [m], runId)
  {
    forall i | 0 <= i < |posted| && posted[i].Cancel?
      ensures Latest(posted + [m], i, posted[i].target)
    {
      LatestExtends(posted, m, i, posted[i].target);
    }
    if m.Cancel? {
      LatestExtends(posted, m, |posted|, m.target);
    }
  }

  lemma PostKeepsWorker(w: Worker, posted: seq<InMsg>, delivered: nat, m: InMsg)
    requires WorkerInv(w, posted, delivered)
    ensures WorkerInv(w, posted + [m], delivered)
  {
    forall id | id in w.handlers
      ensures Latest(posted + [m], delivered, id)
    {
      LatestExtends(posted, m, delivered, id);
    }
    forall id | id in w.cancelled
      ensures CancelDelivered(posted + [m], delivered, id)
    {
      assert CancelDelivered(posted, delivered, id);
      var j :| 0 <= j < delivered && posted[j].Cancel? && posted[j].target == id;
      assert (posted + [m])[j] == posted[j];
    }
  }

  // ----- Queue calls keep the protocol -----

  lemma FreshIdNotHeard(s: Server)
    requires Channel(s) && CompletionsAreFinal(s.outbox, s.worker.handlers, s.delivered) && s.phase == Serving
    ensures !CompletedIn(Heard(s), s.nextWorkerRequestId + 1)
  {
    assert forall p | 0 <= p < |Heard(s)| :: Heard(s)[p] == s.outbox[p];
  }

  lemma StartedChannel(s: Server, q: Q.Queue)
    requires Channel(s) && Started(s.queue, q) && s.phase == Serving
    ensures Channel(WithQueue(s, q))
  {
    var e := q.started[|s.queue.started|];
    PostAnalyze(s.posted, s.runId, e);
    assert q.started == s.queue.started + [e];
  }

  lemma StartedWaiting(s: Server, q: Q.Queue)
    requires Channel(s) && Waiting(s) && Started(s.queue, q) && s.phase == Serving
    requires !CompletedIn(Heard(s), s.nextWorkerRequestId + 1)
    ensures Waiting(WithQueue(s, q))
  {
    var s' := WithQueue(s, q);
    var e := q.started[|s.queue.started|];
    assert e !in s.runId;
    assert Heard(s') == Heard(s);
    assert Awaited(e, s'.resolvedRuns, s'.runId, s'.waiters);
  }

  lemma StartedOneAtATime(posted: seq<InMsg>, heard: seq<OutMsg>, m: InMsg)
    requires AllHeard(posted, heard)
    ensures OneAtATime(posted + [m], heard)
  {
  }

  lemma StartedProtocol(s: Server, q: Q.Queue)
    requires Protocol(s) && Started(s.queue, q) && s.phase == Serving
    requires AllHeard(s.posted, Heard(s))
    ensures Protocol(WithQueue(s, q))
  {
    hide PostsInPlace, RunsNamed, ActiveIsLatest, WorkerInv, OneAtATime, AllHeard, ResolvedHeard, RunWaiters;
    hide Awaited, CompletionsAreFinal;
    var m := Analyze(s.nextWorkerRequestId + 1, q.started[|s.queue.started|]);
    StartedChannel(s, q);
    PostKeepsWorker(s.worker, s.posted, s.delivered, m);
    StartedOneAtATime(s.posted, Heard(s), m);
    FreshIdNotHeard(s);
    StartedWaiting(s, q);
  }

  lemma CancelIsPosted(s: Server, q: Q.Queue)
    requires Channel(s) && Asked(s.queue, q)
    ensures q.active.Some? && q.active.value in s.runId && s.phase == Serving
    ensures WithQueue(s, q) == s.(queue := q, nextWorkerRequestId := s.nextWorkerRequestId + 1,
                                  waiters := s.waiters[s.nextWorkerRequestId + 1 := CancelOf(|q.attempts| - 1)],
                                  posted := s.posted + [Cancel(s.nextWorkerRequestId + 1, s.runId[q.active.value])])
  {
  }

  lemma AskedChannel(s: Server, q: Q.Queue)
    requires Channel(s) && Asked(s.queue, q)
    ensures Channel(WithQueue(s, q))
  {
    CancelIsPosted(s, q);
    var s' := WithQueue(s, q);
    var m := Cancel(s.nextWorkerRequestId + 1, s.runId[q.active.value]);
    PostOther(s.posted, s.runId, m);
    LatestExtends(s.posted, m, |s.posted|, m.target);
    assert PostsInPlace(s'.posted, s'.runId);
  }

  lemma OtherOneAtATime(posted: seq<InMsg>, heard: seq<OutMsg>, m: InMsg)
    requires OneAtATime(posted, heard) && !m.Analyze?
    ensures OneAtATime(posted + [m], heard)
  {
  }

  lemma AskedWaiting(s: Server, q: Q.Queue)
    requires Channel(s) && Waiting(s) && Asked(s.queue, q)
    ensures Waiting(WithQueue(s, q))
  {
    var s' := WithQueue(s, q);
    assert Heard(s') == Heard(s);
    var e := q.active.value;
    assert Awaited(e, s.resolvedRuns, s.runId, s.waiters) ==> Awaited(e, s'.resolvedRuns, s'.runId, s'.waiters);
  }

  lemma AskedProtocol(s: Server, q: Q.Queue)
    requires Protocol(s) && Asked(s.queue, q)
    ensures Protocol(WithQueue(s, q))
  {
    CancelIsPosted(s, q);
    AskedChannel(s, q);
    var m := Cancel(s.nextWorkerRequestId + 1, s.runId[q.active.value]);
    PostKeepsWorker(s.worker, s.posted, s.delivered, m);
    OtherOneAtATime(s.posted, Heard(s), m);
    AskedWaiting(s, q);
  }

  lemma QuietProtocol(s: Server, q: Q.Queue)
    requires Protocol(s) && Quiet(s.queue, q) && q.closed == s.queue.closed
    requires s.phase == Serving && s.queue.active.Some? && q.active.None? ==> AllHeard(s.posted, Heard(s))
    ensures Protocol(WithQueue(s, q))
  {
  }

  lemma ActiveHeard(s: Server, e: nat)
    requires Channel(s) && OneAtATime(s.posted, Heard(s)) && s.queue.active == Some(e)
    requires CompletedIn(Heard(s), s.runId[e])
    ensures AllHeard(s.posted, Heard(s))
  {
    forall i | 0 <= i < |s.posted| && s.posted[i].Analyze?
      ensures CompletedIn(Heard(s), i + 1)
    {
      assert i < s.runId[e];
    }
  }

  lemma CallProtocol(s: Server, step: Q.Step)
    requires Protocol(s) && QueueReady(s) && Q.Enabled(s.queue, step) && !step.CloseStep?
    requires step.RunCompletesStep? && s.queue.active == Some(step.entry) && s.phase == Serving ==> AllHeard(s.posted, Heard(s))
    ensures Protocol(WithQueue(s, Call(s.queue, step)))
    ensures QueueMoves(s.queue, Call(s.queue, step)) && Call(s.queue, step).closed == s.queue.closed
  {
    var q := Call(s.queue, step);
    CallMoves(s.queue, step);
    CallClosed(s.queue, step);
    if !step.RunCompletesStep? || s.queue.active != Some(step.entry) {
      CallKeepsActive(s.queue, step);
    }
    if Started(s.queue, q) {
      StartedProtocol(s, q);
    } else if Asked(s.queue, q) {
      AskedProtocol(s, q);
    } else {
      QuietProtocol(s, q);
    }
  }

  lemma CallClosed(q: Q.Queue, step: Q.Step)
    requires Q.Inv(q) && q.stack == [] && Q.Enabled(q, step) && !step.CloseStep?
    ensures Call(q, step).closed == q.closed
    ensures !step.EnqueueStep? ==> |Call(q, step).entries| == |q.entries|
  {
    Q.StepInv(q, step);
    NextSizes(q, step);
    NextMoves(q, step);
    ReturnedInv(Q.Next(q, step));
  }

  lemma NextSizes(q: Q.Queue, step: Q.Step)
    requires Q.InRange(q) && Q.Enabled(q, step) && !step.CloseStep?
    ensures Q.Next(q, step).closed == q.closed
    ensures !step.EnqueueStep? ==> |Q.Next(q, step).entries| == |q.entries|
  {
  }

  lemma WithQueueLinks(s: Server, q: Q.Queue)
    requires Started(s.queue, q) || Asked(s.queue, q) || Quiet(s.queue, q)
    requires WaitersInRange(s.waiters, |s.owner|, |s.queue.attempts|)
    requires q.active.Some? ==> q.active.value < |q.entries|
    requires |s.owner| <= |q.entries|
    ensures WaitersInRange(WithQueue(s, q).waiters, |q.entries|, |q.attempts|)
  {
  }

  lemma WithQueueLinked(s: Server, q: Q.Queue)
    requires Linked(s) && QueueMoves(s.queue, q) && |q.entries| == |s.queue.entries|
    ensures Linked(WithQueue(s, q))
  {
    WithQueueLinks(s, q);
  }

  // ----- Parent steps -----

  /** The protocol says nothing about the calls, the lease or the timers. */
  lemma ProtocolIgnores(s: Server, calls: seq<ClientCall>, owner: seq<nat>)
    requires Protocol(s)
    ensures Protocol(s.(calls := calls, owner := owner))
  {
    var s' := s.(calls := calls, owner := owner);
  }

  lemma CallArrivesCore(s: Server, kind: CallKind, cancelled: bool)
    requires Core(s)
    ensures Core(CallArrives(s, kind, cancelled))
  {
    var s' := CallArrives(s, kind, cancelled);
    if cancelled || Q.Admit(s.queue).RefusedAdmission? {
      CallWithoutEntry(s.owner, s.calls, s'.calls[|s.calls|]);
      ProtocolIgnores(s, s'.calls, s.owner);
    } else {
      EnqueueProtocol(s);
      EnqueueEntries(s.queue);
      EnqueueLinked(s, kind);
      ProtocolIgnores(WithQueue(s, Call(s.queue, Q.EnqueueStep)), s'.calls, s'.owner);
    }
  }

  lemma EnqueueProtocol(s: Server)
    requires Core(s)
    ensures Protocol(WithQueue(s, Call(s.queue, Q.EnqueueStep)))
    ensures QueueMoves(s.queue, Call(s.queue, Q.EnqueueStep))
  {
    CallProtocol(s, Q.EnqueueStep);
  }

  lemma CallWithoutEntry(owner: seq<nat>, calls: seq<ClientCall>, call: ClientCall)
    requires Owned(owner, calls) && call.entry.None?
    ensures Owned(owner, calls + [call])
  {
  }

  lemma EnqueueEntries(q: Q.Queue)
    requires Q.Inv(q) && q.stack == [] && Q.Admit(q).Accepted?
    ensures |Call(q, Q.EnqueueStep).entries| == |q.entries| + 1
    ensures Call(q, Q.EnqueueStep).entries[|q.entries|].settlements == []
    ensures forall e | 0 <= e < |q.entries| :: Call(q, Q.EnqueueStep).entries[e] == q.entries[e]
  {
    Q.StepInv(q, Q.EnqueueStep);
  }

  lemma EnqueueLinked(s: Server, kind: CallKind)
    requires Linked(s) && Q.Admit(s.queue).Accepted?
    requires QueueMoves(s.queue, Call(s.queue, Q.EnqueueStep))
    requires |Call(s.queue, Q.EnqueueStep).entries| == |s.queue.entries| + 1
    ensures Linked(CallArrives(s, kind, false))
  {
    WithQueueLinks(s, Call(s.queue, Q.EnqueueStep));
    NewCallOwned(s.owner, s.calls, ClientCall(kind, Some(|s.owner|), false, false, []));
  }

  lemma NewCallOwned(owner: seq<nat>, calls: seq<ClientCall>, call: ClientCall)
    requires Owned(owner, calls) && call.entry == Some(|owner|)
    ensures Owned(owner + [|calls|], calls + [call])
  {
  }

  lemma SameEntriesOwned(owner: seq<nat>, calls: seq<ClientCall>, c: nat, call: ClientCall)
    requires Owned(owner, calls) && c < |calls| && call.entry == calls[c].entry
    ensures Owned(owner, calls[c := call])
  {
  }

  lemma QueueCallCore(s: Server, step: Q.Step)
    requires Core(s) && Q.Enabled(s.queue, step) && !step.CloseStep? && !step.EnqueueStep? && !step.RunCompletesStep?
    ensures Core(WithQueue(s, Call(s.queue, step)))
  {
    CallProtocol(s, step);
    CallClosed(s.queue, step);
    WithQueueLinked(s, Call(s.queue, step));
  }

  lemma TransportCancelsCore(s: Server, c: nat)
    requires Core(s) && c < |s.calls|
    ensures Core(TransportCancels(s, c))
  {
    var call := s.calls[c].(transportCancelled := true);
    var s1 := s.(calls := s.calls[c := call]);
    SameEntriesOwned(s.owner, s.calls, c, call);
    ProtocolIgnores(s, s1.calls, s.owner);
    if s.calls[c].entry.Some? {
      QueueCallCore(s1, Q.CancelStep(s.calls[c].entry.value));
    }
  }

  /** A queue call commutes with taking a microtask off the lists. */
  lemma WithQueueCommutes(s: Server, q: Q.Queue, runs: map<nat, Q.Settlement>, attempts: map<nat, bool>)
    ensures WithQueue(s.(resolvedRuns := runs, resolvedAttempts := attempts), q)
            == WithQueue(s, q).(resolvedRuns := runs, resolvedAttempts := attempts)
    ensures WithQueue(s, q).resolvedRuns == s.resolvedRuns && WithQueue(s, q).resolvedAttempts == s.resolvedAttempts
    ensures WithQueue(s, q).queue == q
  {
  }

  lemma DropAttempts(s: Server, attempts: map<nat, bool>)
    requires Core(s)
    ensures Core(s.(resolvedAttempts := attempts))
  {
    var s' := s.(resolvedAttempts := attempts);
  }

  lemma AttemptSettlesCore(s: Server, t: nat)
    requires Core(s) && Enabled(s, AttemptSettlesStep(t))
    ensures Core(AttemptSettles(s, t))
  {
    var step := Q.AttemptSettlesStep(t, s.resolvedAttempts[t]);
    QueueCallCore(s, step);
    WithQueueCommutes(s, Call(s.queue, step), s.resolvedRuns, s.resolvedAttempts - {t});
    DropAttempts(WithQueue(s, Call(s.queue, step)), s.resolvedAttempts - {t});
  }

  lemma RunSettlesRetires(q: Q.Queue, e: nat, settlement: Q.Settlement)
    requires Q.Inv(q) && q.stack == [] && Q.Enabled(q, Q.RunCompletesStep(e, settlement))
    ensures Call(q, Q.RunCompletesStep(e, settlement)).active != Some(e)
  {
    var step := Q.RunCompletesStep(e, settlement);
    CallMoves(q, step);
    if q.active != Some(e) {
      CallKeepsActive(q, step);
    } else {
      CompletedEntryLeaves(q, e, settlement);
    }
  }

  lemma CompletedEntryLeaves(q: Q.Queue, e: nat, settlement: Q.Settlement)
    requires Q.Inv(q) && q.stack == [] && Q.Enabled(q, Q.RunCompletesStep(e, settlement)) && q.active == Some(e)
    ensures Call(q, Q.RunCompletesStep(e, settlement)).active != Some(e)
  {
    Q.StepInv(q, Q.RunCompletesStep(e, settlement));
    if q.pending != [] {
      assert q.pending[0] in q.pending;
    }
  }

  lemma RunCompletesCore(s: Server, e: nat)
    requires Core(s) && Enabled(s, RunSettlesStep(e))
    ensures Core(WithQueue(s, Call(s.queue, Q.RunCompletesStep(e, s.resolvedRuns[e]))))
  {
    var step := Q.RunCompletesStep(e, s.resolvedRuns[e]);
    if s.queue.active == Some(e) && s.phase == Serving {
      ActiveHeard(s, e);
    }
    CallProtocol(s, step);
    CallClosed(s.queue, step);
    WithQueueLinked(s, Call(s.queue, step));
  }

  lemma RunSettlesCore(s: Server, e: nat)
    requires Core(s) && Enabled(s, RunSettlesStep(e))
    ensures Core(RunSettles(s, e))
  {
    var q := Call(s.queue, Q.RunCompletesStep(e, s.resolvedRuns[e]));
    RunCompletesCore(s, e);
    RunSettlesRetires(s.queue, e, s.resolvedRuns[e]);
    WithQueueCommutes(s, q, s.resolvedRuns - {e}, s.resolvedAttempts);
    DropResolved(WithQueue(s, q), e);
  }

  lemma DropResolved(s: Server, e: nat)
    requires Core(s) && s.queue.active != Some(e)
    ensures Core(s.(resolvedRuns := s.resolvedRuns - {e}))
  {
    var s' := s.(resolvedRuns := s.resolvedRuns - {e});
    assert Heard(s') == Heard(s);
  }

  lemma HeardMore(s: Server)
    requires s.received < |s.outbox|
    ensures s.outbox[..s.received + 1] == Heard(s) + [s.outbox[s.received]]
    ensures forall id :: CompletedIn(Heard(s), id) ==> CompletedIn(s.outbox[..s.received + 1], id)
    ensures forall id :: CompletedIn(s.outbox[..s.received + 1], id) ==>
              CompletedIn(Heard(s), id) || (s.outbox[s.received].Completed? && s.outbox[s.received].id == id)
  {
  }

  /** Taking a message the parent has no promise for, an event, or a cancel acknowledgement. */
  lemma ReceiveOtherProtocol(s: Server, attempts: map<nat, bool>, waiters: map<nat, Waiter>, calls: seq<ClientCall>)
    requires Protocol(s) && s.received < |s.outbox|
    requires s.outbox[s.received].Completed? ==> s.outbox[s.received].id !in s.waiters || s.waiters[s.outbox[s.received].id].CancelOf?
    requires forall id | id in waiters :: id in s.waiters && waiters[id] == s.waiters[id]
    requires forall id | id in s.waiters && s.waiters[id].RunOf? :: id in waiters
    ensures Protocol(s.(received := s.received + 1, resolvedAttempts := attempts, waiters := waiters, calls := calls))
  {
    var s' := s.(received := s.received + 1, resolvedAttempts := attempts, waiters := waiters, calls := calls);
    HeardMore(s);
  }

  lemma HeardMoreOrders(s: Server)
    requires s.received < |s.outbox|
    ensures OneAtATime(s.posted, Heard(s)) ==> OneAtATime(s.posted, s.outbox[..s.received + 1])
    ensures AllHeard(s.posted, Heard(s)) ==> AllHeard(s.posted, s.outbox[..s.received + 1])
  {
    HeardMore(s);
  }

  lemma CompletedMaps(s: Server, id: nat, e: nat, settlement: Q.Settlement, heard: seq<OutMsg>)
    requires s.received <= |s.outbox| && RunWaiters(s.waiters, s.runId, Heard(s), s.nextWorkerRequestId)
    requires id in s.waiters && s.waiters[id] == RunOf(e) && CompletedIn(heard, id)
    requires forall x :: CompletedIn(Heard(s), x) ==> CompletedIn(heard, x)
    requires forall x :: CompletedIn(heard, x) ==> CompletedIn(Heard(s), x) || x == id
    ensures RunWaiters(s.waiters - {id}, s.runId, heard, s.nextWorkerRequestId)
    ensures ResolvedHeard(s.resolvedRuns, s.runId, Heard(s)) ==>
              ResolvedHeard(s.resolvedRuns[e := settlement], s.runId, heard)
  {
  }

  lemma StillAwaited(s: Server, id: nat, e: nat, settlement: Q.Settlement, a: nat)
    requires Awaited(a, s.resolvedRuns, s.runId, s.waiters) && id in s.waiters && s.waiters[id] == RunOf(e)
    ensures Awaited(a, s.resolvedRuns[e := settlement], s.runId, s.waiters - {id})
  {
  }

  lemma ReceiveCompletedWaiting(s: Server, id: nat, e: nat, settlement: Q.Settlement)
    requires Channel(s) && Waiting(s) && s.received < |s.outbox|
    requires s.outbox[s.received].Completed? && s.outbox[s.received].id == id
    requires id in s.waiters && s.waiters[id] == RunOf(e)
    ensures Waiting(s.(received := s.received + 1, waiters := s.waiters - {id}, resolvedRuns := s.resolvedRuns[e := settlement]))
  {
    HeardMore(s);
    HeardMoreOrders(s);
    assert s.outbox[s.received] == Completed(id, s.outbox[s.received].ok);
    CompletedMaps(s, id, e, settlement, s.outbox[..s.received + 1]);
    if s.phase == Serving && s.queue.active.Some? {
      StillAwaited(s, id, e, settlement, s.queue.active.value);
    }
  }

  lemma ReceiveCompletedProtocol(s: Server, id: nat, e: nat, settlement: Q.Settlement)
    requires Protocol(s) && s.received < |s.outbox|
    requires s.outbox[s.received].Completed? && s.outbox[s.received].id == id
    requires id in s.waiters && s.waiters[id] == RunOf(e)
    ensures Protocol(s.(received := s.received + 1, waiters := s.waiters - {id}, resolvedRuns := s.resolvedRuns[e := settlement]))
  {
    HeardMoreOrders(s);
    ReceiveCompletedWaiting(s, id, e, settlement);
  }

  lemma ReceiveCompletedShape(s: Server)
    requires Linked(s) && s.received < |s.outbox| && s.outbox[s.received].Completed?
    requires s.outbox[s.received].id in s.waiters && s.waiters[s.outbox[s.received].id].RunOf?
    ensures var m := s.outbox[s.received];
            Receive(s) == s.(received := s.received + 1, waiters := s.waiters - {m.id},
                             resolvedRuns := s.resolvedRuns[s.waiters[m.id].entry :=
                               if m.ok then Q.Resolved else Q.Rejected(Q.RunFailed)])
  {
    hide QueueReady, Owned, RunResults;
  }

  lemma ReceiveCompletedLinked(s: Server, id: nat, e: nat, settlement: Q.Settlement)
    requires Linked(s) && (settlement == Q.Resolved || settlement == Q.Rejected(Q.RunFailed))
    ensures Linked(s.(received := s.received + 1, waiters := s.waiters - {id}, resolvedRuns := s.resolvedRuns[e := settlement]))
  {
    hide Q.Inv, Owned;
  }

  lemma ReceiveCompletedCore(s: Server)
    requires Core(s) && s.received < |s.outbox| && s.outbox[s.received].Completed?
    requires s.outbox[s.received].id in s.waiters && s.waiters[s.outbox[s.received].id].RunOf?
    ensures Core(Receive(s))
  {
    hide Receive, Protocol;
    var m := s.outbox[s.received];
    var e, settlement := s.waiters[m.id].entry, if m.ok then Q.Resolved else Q.Rejected(Q.RunFailed);
    ReceiveCompletedShape(s);
    ReceiveCompletedProtocol(s, m.id, e, settlement);
    ReceiveCompletedLinked(s, m.id, e, settlement);
    var s' := s.(received := s.received + 1, waiters := s.waiters - {m.id}, resolvedRuns := s.resolvedRuns[e := settlement]);
    assert Receive(s) == s' && Core(s');
  }

  lemma ReceiveEventShape(s: Server)
    requires Linked(s) && s.received < |s.outbox| && s.outbox[s.received].Event?
    ensures Receive(s) == s.(received := s.received + 1, calls := Receive(s).calls)
    ensures Receive(s).calls == s.calls
            || exists c :: 0 <= c < |s.calls| && Receive(s).calls[c].entry == s.calls[c].entry
                           && Receive(s).calls == s.calls[c := Receive(s).calls[c]]
  {
  }

  lemma ReceiveEventCore(s: Server)
    requires Core(s) && s.received < |s.outbox| && s.outbox[s.received].Event?
    ensures Core(Receive(s))
  {
    var s' := Receive(s);
    ReceiveEventShape(s);
    ReceiveOtherProtocol(s, s.resolvedAttempts, s.waiters, s'.calls);
    if s'.calls != s.calls {
      var c :| 0 <= c < |s.calls| && s'.calls[c].entry == s.calls[c].entry && s'.calls == s.calls[c := s'.calls[c]];
      SameEntriesOwned(s.owner, s.calls, c, s'.calls[c]);
    }
  }

  lemma ReceiveCore(s: Server)
    requires Core(s) && s.received < |s.outbox|
    ensures Core(Receive(s))
  {
    var m := s.outbox[s.received];
    if m.Event? {
      ReceiveEventCore(s);
    } else if m.Completed? && m.id in s.waiters && s.waiters[m.id].RunOf? {
      ReceiveCompletedCore(s);
    } else {
      ReceiveOtherCore(s);
    }
  }

  lemma ReceiveOtherCore(s: Server)
    requires Core(s) && s.received < |s.outbox| && !s.outbox[s.received].Event?
    requires s.outbox[s.received].Completed? ==> s.outbox[s.received].id !in s.waiters || s.waiters[s.outbox[s.received].id].CancelOf?
    ensures Core(Receive(s))
  {
    var m := s.outbox[s.received];
    if m.CancelCompleted? && m.id in s.waiters && s.waiters[m.id].CancelOf? {
      var attempts := s.resolvedAttempts[s.waiters[m.id].attempt := m.ok];
      ReceiveOtherProtocol(s, attempts, s.waiters - {m.id}, s.calls);
      assert Receive(s) == s.(received := s.received + 1, resolvedAttempts := attempts, waiters := s.waiters - {m.id});
    } else {
      ReceiveOtherProtocol(s, s.resolvedAttempts, s.waiters, s.calls);
      assert Receive(s) == s.(received := s.received + 1);
    }
  }

  lemma AttemptTimesOutCore(s: Server, id: nat)
    requires Core(s) && id in s.waiters && s.waiters[id].CancelOf?
    ensures Core(s.(waiters := s.waiters - {id}, resolvedAttempts := s.resolvedAttempts[s.waiters[id].attempt := false]))
  {
    var s' := s.(waiters := s.waiters - {id}, resolvedAttempts := s.resolvedAttempts[s.waiters[id].attempt := false]);
    assert Heard(s') == Heard(s);
  }

  lemma CallContinuesShape(s: Server, c: nat)
    requires Linked(s) && Enabled(s, CallContinuesStep(c))
    ensures CallContinues(s, c) == s.(calls := s.calls[c := CallContinues(s, c).calls[c]])
    ensures CallContinues(s, c).calls[c].entry == s.calls[c].entry
  {
  }

  lemma CallContinuesCore(s: Server, c: nat)
    requires Core(s) && Enabled(s, CallContinuesStep(c))
    ensures Core(CallContinues(s, c))
  {
    var call := CallContinues(s, c).calls[c];
    CallContinuesShape(s, c);
    SameEntriesOwned(s.owner, s.calls, c, call);
    ProtocolIgnores(s, s.calls[c := call], s.owner);
  }

  // ----- Shutdown -----

  lemma TimingCore(s: Server, timing: Timing)
    requires Core(s)
    ensures Core(s.(timing := timing))
  {
  }

  /** What `close` does to the queue, as the server sees it. */
  lemma CloseMoves(q: Q.Queue)
    requires Q.Inv(q) && q.stack == []
    ensures var q' := Call(q, Q.CloseStep);
            && Q.Inv(q') && q'.stack == [] && q'.closed && q'.active.None? && q'.started == q.started
            && |q'.entries| == |q.entries| && |q'.attempts| == |q.attempts| && q'.executions == q.executions
    ensures Q.Extends(q, Call(q, Q.CloseStep))
  {
    Q.StepInv(q, Q.CloseStep);
    Q.CloseExtends(q);
    CloseFields(q);
  }

  lemma CloseFields(q: Q.Queue)
    ensures Q.Close(q).stack == q.stack && |Q.Close(q).attempts| == |q.attempts| && Q.Close(q).started == q.started
    ensures |Q.Close(q).entries| == |q.entries| && Q.Close(q).executions == q.executions
    ensures Q.Close(q).closed && (!q.closed ==> Q.Close(q).active.None?)
  {
  }

  lemma ShutdownCore(s: Server)
    requires Core(s)
    ensures Core(Shutdown(s))
  {
    if s.phase == Serving {
      CloseMoves(s.queue);
      ShutdownProtocol(s);
    }
  }

  /** The log after shutdown: with an active analysis, one more cancel of it. */
  function ClosingLog(s: Server): Posting {
    PostCancelOfActive(s.queue, Posting(s.nextWorkerRequestId, s.runId, s.waiters, s.posted))
  }

  ghost predicate LogInPlace(w: Worker, p: Posting, delivered: nat, heard: seq<OutMsg>) {
    PostsInPlace(p.posted, p.runId) && p.lastId == |p.posted| && WorkerInv(w, p.posted, delivered) && OneAtATime(p.posted, heard)
  }

  lemma ActiveCancelPosted(w: Worker, p: Posting, delivered: nat, heard: seq<OutMsg>, e: nat)
    requires LogInPlace(w, p, delivered, heard) && ActiveIsLatest(e, p.runId, p.posted)
    ensures LogInPlace(w, p.(lastId := p.lastId + 1, posted := p.posted + [Cancel(p.lastId + 1, p.runId[e])]), delivered, heard)
  {
    var m := Cancel(p.lastId + 1, p.runId[e]);
    PostOther(p.posted, p.runId, m);
    PostKeepsWorker(w, p.posted, delivered, m);
    OtherOneAtATime(p.posted, heard, m);
  }

  lemma ClosingPosted(q: Q.Queue, w: Worker, p: Posting, p': Posting, delivered: nat, heard: seq<OutMsg>)
    requires LogInPlace(w, p, delivered, heard) && p' == PostCancelOfActive(q, p)
    requires q.active.Some? ==> ActiveIsLatest(q.active.value, p.runId, p.posted)
    ensures LogInPlace(w, p', delivered, heard)
  {
    if q.active.Some? {
      ActiveCancelPosted(w, p, delivered, heard, q.active.value);
    }
  }

  lemma ClosingSame(s: Server, closed: Q.Queue)
    ensures var s' := Closing(s, closed);
            && s'.queue == closed && s'.phase == Cancelling && s'.runId == s.runId
            && s'.waiters == s.waiters && s'.worker == s.worker && s'.delivered == s.delivered
            && s'.outbox == s.outbox && s'.received == s.received && s.posted <= s'.posted
            && s'.owner == s.owner && s'.calls == s.calls && s'.resolvedRuns == s.resolvedRuns
            && s'.forcedShutdowns == s.forcedShutdowns
            && s'.posted == ClosingLog(s).posted && s'.nextWorkerRequestId == ClosingLog(s).lastId
            && ClosingLog(s).runId == s.runId
  {
  }

  lemma ShutdownProtocol(s: Server)
    requires Protocol(s) && QueueReady(s) && s.phase == Serving
    requires var q' := Call(s.queue, Q.CloseStep); q'.closed && q'.active.None? && q'.started == s.queue.started
    ensures Protocol(Shutdown(s))
  {
    hide WorkerInv, OneAtATime, CompletionsAreFinal, Closing, PostCancelOfActive, Q.Inv, PostsInPlace;
    hide RunsNamed, AllHeard, ResolvedHeard, Awaited;
    ClosingPosted(s.queue, s.worker, Posting(s.nextWorkerRequestId, s.runId, s.waiters, s.posted), ClosingLog(s), s.delivered, Heard(s));
    ClosingSame(s, Call(s.queue, Q.CloseStep));
    var s' := Shutdown(s);
    assert Channel(s');
    assert RunWaiters(s'.waiters, s'.runId, Heard(s'), s'.nextWorkerRequestId);
    assert Waiting(s');
  }

  lemma ShutdownContinuesCore(s: Server)
    requires Core(s)
    ensures Core(ShutdownContinues(s))
  {
    if s.phase == Cancelling {
      PostOther(s.posted, s.runId, CloseWorker);
      PostKeepsWorker(s.worker, s.posted, s.delivered, CloseWorker);
      OtherOneAtATime(s.posted, Heard(s), CloseWorker);
      assert Heard(ShutdownContinues(s)) == Heard(s);
    }
  }

  lemma WorkerFailsCore(s: Server)
    requires Core(s)
    ensures Core(WorkerFails(s))
  {
    ShutdownCore(s);
    FailWaitersCore(Shutdown(s), WorkerFails(s).resolvedAttempts);
  }

  lemma FailWaitersCore(s: Server, attempts: map<nat, bool>)
    requires Core(s) && s.phase != Serving
    ensures Core(s.(workerAlive := false, waiters := map[], resolvedAttempts := attempts,
                    resolvedRuns := s.resolvedRuns + (map e | e in WaitingRuns(s.waiters) :: Q.Rejected(Q.RunFailed))))
  {
  }

  // ----- Worker steps -----

  lemma LatestShift(posted: seq<InMsg>, n: nat, id: nat)
    requires Latest(posted, n, id) && n < |posted| && !posted[n].Analyze?
    ensures Latest(posted, n + 1, id)
  {
  }

  lemma DeliveredMore(posted: seq<InMsg>, n: nat, id: nat)
    requires CancelDelivered(posted, n, id) && n < |posted|
    ensures CancelDelivered(posted, n + 1, id)
  {
  }

  /** When an analysis is delivered, the worker has no analysis in flight, no scope and no cache session. */
  lemma WorkerIsIdle(s: Server)
    requires Protocol(s) && s.delivered < |s.posted| && s.posted[s.delivered].Analyze?
    ensures s.worker.handlers == map[] && s.worker.status.None? && s.worker.session.None?
  {
    forall id | id in s.worker.handlers
      ensures false
    {
      assert Latest(s.posted, s.delivered, id);
      assert CompletedIn(Heard(s), id - 1 + 1);
      CompletedHandlerGone(s, id);
    }
  }

  lemma CompletedHandlerGone(s: Server, id: nat)
    requires s.received <= |s.outbox| && CompletedIn(Heard(s), id)
    requires CompletionsAreFinal(s.outbox, s.worker.handlers, s.delivered)
    ensures id !in s.worker.handlers
  {
    assert forall p | 0 <= p < s.received :: Heard(s)[p] == s.outbox[p];
  }

  lemma DeliverAnalyzeWorker(w: Worker, posted: seq<InMsg>, n: nat, id: nat, cached: bool)
    requires WorkerInv(w, posted, n) && n < |posted| && posted[n].Analyze? && id == n + 1
    requires w.handlers == map[] && w.status.None? && w.session.None?
    ensures WorkerInv(w.(handlers := map[id := SessionEnded(false)]), posted, n + 1)
    ensures WorkerInv(w.(handlers := map[id := Running(cached)], status := Some(id),
                         session := if cached then Some(id) else None), posted, n + 1)
  {
    forall x | x in w.cancelled
      ensures CancelDelivered(posted, n + 1, x)
    {
      DeliveredMore(posted, n, x);
    }
  }

  lemma DeliverCancelWorker(w: Worker, posted: seq<InMsg>, n: nat)
    requires WorkerInv(w, posted, n) && n < |posted| && posted[n].Cancel?
    requires Latest(posted, n, posted[n].target)
    ensures w.status.Some? ==> w.status.value == posted[n].target
    ensures WorkerInv(w.(cancelled := if w.status.Some? then w.cancelled + {w.status.value} else w.cancelled,
                         acks := w.acks + {(posted[n].id, w.status.Some?)}), posted, n + 1)
  {
    forall id | id in w.handlers
      ensures Latest(posted, n + 1, id)
    {
      LatestShift(posted, n, id);
    }
    forall x | x in w.cancelled
      ensures CancelDelivered(posted, n + 1, x)
    {
      DeliveredMore(posted, n, x);
    }
    if w.status.Some? {
      LatestUnique(posted, n, w.status.value, posted[n].target);
      assert CancelDelivered(posted, n + 1, w.status.value);
    }
  }

  lemma LatestUnique(posted: seq<InMsg>, n: nat, a: nat, b: nat)
    requires Latest(posted, n, a) && Latest(posted, n, b)
    ensures a == b
  {
  }

  lemma DeliverCloseWorker(w: Worker, posted: seq<InMsg>, n: nat)
    requires WorkerInv(w, posted, n) && n < |posted| && posted[n].CloseWorker?
    ensures WorkerInv(w.(closed := true), posted, n + 1)
  {
    forall id | id in w.handlers
      ensures Latest(posted, n + 1, id)
    {
      LatestShift(posted, n, id);
    }
    forall x | x in w.cancelled
      ensures CancelDelivered(posted, n + 1, x)
    {
      DeliveredMore(posted, n, x);
    }
  }

  /** Handling a message on an idle or matching worker keeps the worker's invariant. */
  lemma HandledWorker(w: Worker, w': Worker, posted: seq<InMsg>, n: nat, cache: CacheRequest)
    requires ReadyFor(w, posted, n) && w' == Handled(w, posted[n], cache)
    ensures HandledOk(w, w', posted, n)
  {
    var m := posted[n];
    if m.Analyze? {
      DeliverAnalyzeWorker(w, posted, n, m.id, cache.WithCache?);
    } else if m.Cancel? {
      DeliverCancelWorker(w, posted, n);
    } else {
      DeliverCloseWorker(w, posted, n);
    }
  }

  lemma DeliverReady(s: Server)
    requires Protocol(s) && s.delivered < |s.posted|
    ensures ReadyFor(s.worker, s.posted, s.delivered)
  {
    if s.posted[s.delivered].Analyze? {
      WorkerIsIdle(s);
    }
  }

  lemma DeliverShape(s: Server, cache: CacheRequest)
    requires s.delivered < |s.posted|
    ensures Deliver(s, cache) == s.(worker := Handled(s.worker, s.posted[s.delivered], cache), delivered := s.delivered + 1)
  {
  }

  /** What the channel and the worker's invariant promise about the next message. */
  ghost predicate ReadyFor(w: Worker, posted: seq<InMsg>, n: nat) {
    && n < |posted| && WorkerInv(w, posted, n)
    && (posted[n].Analyze? ==> posted[n].id == n + 1 && w.handlers == map[] && w.status.None? && w.session.None?)
    && (posted[n].Cancel? ==> Latest(posted, n, posted[n].target))
  }

  ghost predicate HandledOk(w: Worker, w': Worker, posted: seq<InMsg>, n: nat) {
    WorkerInv(w', posted, n + 1) && forall id | id in w'.handlers :: id in w.handlers || id == n + 1
  }

  lemma DeliverCore(s: Server, cache: CacheRequest)
    requires Core(s) && s.delivered < |s.posted|
    ensures Core(Deliver(s, cache))
  {
    var w := Handled(s.worker, s.posted[s.delivered], cache);
    DeliverReady(s);
    HandledWorker(s.worker, w, s.posted, s.delivered, cache);
    DeliverShape(s, cache);
    DeliveredCore(s, w);
  }

  lemma DeliveredCore(s: Server, w: Worker)
    requires Core(s) && s.delivered < |s.posted| && HandledOk(s.worker, w, s.posted, s.delivered)
    ensures Core(s.(worker := w, delivered := s.delivered + 1))
  {
    var s' := s.(worker := w, delivered := s.delivered + 1);
    assert Heard(s') == Heard(s);
  }

  /** Steps inside the worker: handlers move or finish, and messages are posted to the parent. */
  lemma WorkerMovesCore(s: Server, w: Worker, out: seq<OutMsg>)
    requires Core(s) && WorkerInv(w, s.posted, s.delivered)
    requires s.outbox <= out && CompletionsAreFinal(out, w.handlers, s.delivered)
    ensures Core(s.(worker := w, outbox := out))
  {
    var s' := s.(worker := w, outbox := out);
    assert Heard(s') == Heard(s);
  }

  /** What a step inside the worker does: handlers move, messages are posted, the parent is untouched. */
  ghost predicate MovesWorker(s: Server, s': Server) {
    && s' == s.(worker := s'.worker, outbox := s'.outbox)
    && WorkerInv(s'.worker, s.posted, s.delivered)
    && s.outbox <= s'.outbox && CompletionsAreFinal(s'.outbox, s'.worker.handlers, s.delivered)
  }

  lemma EventMoves(s: Server, id: nat)
    requires WorkerInv(s.worker, s.posted, s.delivered) && CompletionsAreFinal(s.outbox, s.worker.handlers, s.delivered)
    requires id in s.worker.handlers && s.worker.handlers[id].Running?
    ensures MovesWorker(s, EmitEvent(s, id))
  {
  }

  lemma ScopeEndMoves(s: Server, id: nat, ok: bool)
    requires WorkerInv(s.worker, s.posted, s.delivered) && CompletionsAreFinal(s.outbox, s.worker.handlers, s.delivered)
    requires id in s.worker.handlers && s.worker.handlers[id].Running?
    ensures MovesWorker(s, EndScope(s, id, ok))
  {
  }

  lemma SessionEndMoves(s: Server, id: nat)
    requires WorkerInv(s.worker, s.posted, s.delivered) && CompletionsAreFinal(s.outbox, s.worker.handlers, s.delivered)
    requires id in s.worker.handlers && s.worker.handlers[id].ScopeEnded?
    ensures MovesWorker(s, EndSession(s, id))
  {
  }

  lemma CompletionMoves(s: Server, id: nat)
    requires WorkerInv(s.worker, s.posted, s.delivered) && CompletionsAreFinal(s.outbox, s.worker.handlers, s.delivered)
    requires id in s.worker.handlers && s.worker.handlers[id].SessionEnded?
    ensures MovesWorker(s, PostCompletion(s, id))
  {
    assert Latest(s.posted, s.delivered, id);
  }

  lemma AckMoves(s: Server, ack: (nat, bool))
    requires WorkerInv(s.worker, s.posted, s.delivered) && CompletionsAreFinal(s.outbox, s.worker.handlers, s.delivered)
    requires ack in s.worker.acks
    ensures MovesWorker(s, PostAck(s, ack))
  {
  }

  lemma WorkerMoves(s: Server, step: Step)
    requires Linked(s) && Enabled(s, step) && WorkerStep(step) && !step.DeliverStep?
    requires WorkerInv(s.worker, s.posted, s.delivered) && CompletionsAreFinal(s.outbox, s.worker.handlers, s.delivered)
    ensures MovesWorker(s, Next(s, step))
  {
    hide Linked, WorkerInv, CompletionsAreFinal, MovesWorker, EmitEvent, EndScope, EndSession, PostCompletion, PostAck;
    match step
    case PostCompletionStep(id) => CompletionMoves(s, id);
    case PostAckStep(ack) => AckMoves(s, ack);
    case EmitEventStep(id) => EventMoves(s, id);
    case EndScopeStep(id, ok) => ScopeEndMoves(s, id, ok);
    case EndSessionStep(id) => SessionEndMoves(s, id);
  }

  lemma WorkerStepCore(s: Server, step: Step)
    requires Core(s) && Enabled(s, step) && WorkerStep(step) && !step.DeliverStep?
    ensures Core(Next(s, step))
  {
    WorkerMoves(s, step);
    WorkerMovesCore(s, Next(s, step).worker, Next(s, step).outbox);
  }

  predicate CallStep(step: Step) {
    step.CallArrivesStep? || step.TransportCancelsStep? || step.CancelRpcStep? || step.CallContinuesStep?
    || step.RunSettlesStep? || step.AttemptSettlesStep?
  }

  predicate TimingStep(step: Step) {
    step.LeaseArrivesStep? || step.LeaseLostStep? || step.ImmediateFiresStep? || step.StartupTimerFiresStep?
  }

  lemma CallStepCore(s: Server, step: Step)
    requires Core(s) && Enabled(s, step) && CallStep(step)
    ensures Core(Next(s, step))
  {
    match step
    case CallArrivesStep(kind, cancelled) => CallArrivesCore(s, kind, cancelled);
    case TransportCancelsStep(c) => TransportCancelsCore(s, c);
    case CancelRpcStep => QueueCallCore(s, Q.CancelActiveStep);
    case CallContinuesStep(c) => CallContinuesCore(s, c);
    case RunSettlesStep(e) => RunSettlesCore(s, e);
    case AttemptSettlesStep(t) => AttemptSettlesCore(s, t);
  }

  lemma TimedShutdownCore(s: Server, timing: Timing)
    requires Core(s)
    ensures Core(Shutdown(s.(timing := timing)))
  {
    TimingCore(s, timing);
    ShutdownCore(s.(timing := timing));
  }

  lemma TimingStepCore(s: Server, step: Step)
    requires Core(s) && Enabled(s, step) && TimingStep(step)
    ensures Core(Next(s, step))
  {
    if step.LeaseArrivesStep? {
      TimingCore(s, LeaseArrives(s.timing));
    } else if step.LeaseLostStep? {
      TimingCore(s, LeaseLost(s.timing, step.lease, s.phase));
    } else if step.ImmediateFiresStep? {
      ImmediateFiresCore(s);
    } else {
      StartupTimerFiresCore(s);
    }
  }

  lemma ImmediateFiresCore(s: Server)
    requires Core(s) && Enabled(s, ImmediateFiresStep)
    ensures Core(Next(s, ImmediateFiresStep))
  {
    TimedShutdownCore(s, s.timing.(immediates := s.timing.immediates - 1));
  }

  lemma StartupTimerFiresCore(s: Server)
    requires Core(s) && Enabled(s, StartupTimerFiresStep)
    ensures Core(Next(s, StartupTimerFiresStep))
  {
    TimedShutdownCore(s, s.timing.(startupTimer := false));
  }

  lemma StepCore(s: Server, step: Step)
    requires Core(s) && Enabled(s, step)
    ensures Core(Next(s, step))
  {
    if CallStep(step) {
      CallStepCore(s, step);
    } else if TimingStep(step) {
      TimingStepCore(s, step);
    } else if step.DeliverStep? {
      DeliverCore(s, step.cache);
    } else if WorkerStep(step) {
      WorkerStepCore(s, step);
    } else {
      OtherStepCore(s, step);
    }
  }

  lemma OtherStepCore(s: Server, step: Step)
    requires Core(s) && Enabled(s, step) && !CallStep(step) && !TimingStep(step) && !WorkerStep(step)
    ensures Core(Next(s, step))
  {
    match step
    case ReceiveStep => ReceiveCore(s);
    case AttemptTimesOutStep(id) => AttemptTimesOutCore(s, id);
    case WorkerFailsStep => WorkerFailsCore(s);
    case ShutdownContinuesStep => ShutdownContinuesCore(s);
  }

  lemma {:induction false} RunsKeepCore(maxPending: nat, timer: bool, ss: seq<Server>, steps: seq<Step>, k: nat)
    requires IsRun(maxPending, timer, ss, steps) && k < |ss|
    ensures Core(ss[k])
  {
    if k == 0 {
      NewCore(maxPending, timer);
    } else {
      RunsKeepCore(maxPending, timer, ss, steps, k - 1);
      assert StepAt(ss, steps, k - 1);
      StepCore(ss[k - 1], steps[k - 1]);
    }
  }
}
