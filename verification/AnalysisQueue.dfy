/**
  The request queue of packages/grpc/src/analyze-project-server-queue.ts as a state machine.

  `run()` and `requestCancellation()` are caller code that runs inside `start()` and inside
  `cancelEntry()` and may call the queue again.  The machine therefore carries the stack of
  suspended queue calls: between two steps the top of the stack is caller code, and everything
  that JavaScript schedules as a microtask is enabled only when the stack is empty.
 */
module AnalysisQueue {
  import opened Options

  datatype EntryState = Active | Pending | Settled

  datatype FailureReason = RunFailed | TransportCancelled | QueueClosed

  datatype Settlement = Resolved | Rejected(reason: FailureReason)

  /** `settlements` lists every call made to the entry's `resolve` or `reject`, in order. */
  datatype Entry = Entry(state: EntryState, settlements: seq<Settlement>, cancellation: Option<nat>)

  datatype AttemptPhase = Calling | Outstanding | Acknowledged | Refused

  /** One call of an entry's `requestCancellation`. */
  datatype Attempt = Attempt(entry: nat, phase: AttemptPhase)

  /** A finished entry whose `settle()` waits for the next entry's `run()` to return. */
  datatype Owed = Owed(entry: nat, settlement: Settlement)

  datatype Frame =
    | RunFrame(entry: nat, owed: Option<Owed>)
    | CancelFrame(entry: nat, attempt: nat)

  datatype RefusalReason = Closed | Full

  datatype Admission = Accepted(entry: nat) | RefusedAdmission(reason: RefusalReason)

  /**
    Entries are named by their acceptance order.  `started`, `dropped` and `attempts` are history:
    entries in the order their `run()` was called, entries that will never run, and all
    cancellation attempts.  `executions` holds the entries whose `run()` has returned a promise
    that has not yet been delivered to `complete`.
   */
  datatype Queue = Queue(
    maxPending: nat,
    closed: bool,
    active: Option<nat>,
    pending: seq<nat>,
    entries: seq<Entry>,
    stack: seq<Frame>,
    executions: set<nat>,
    attempts: seq<Attempt>,
    started: seq<nat>,
    dropped: set<nat>)

  function New(maxPending: nat): Queue {
    Queue(maxPending, false, None, [], [], [], {}, [], [], {})
  }

  // ----- Operations -----

  function Admit(q: Queue): Admission {
    if q.closed then RefusedAdmission(Closed)
    else if q.active.Some? && |q.pending| >= q.maxPending then RefusedAdmission(Full)
    else Accepted(|q.entries|)
  }

  function Enqueue(q: Queue): Queue {
    if Admit(q).RefusedAdmission? then q
    else if q.active.Some? then
      q.(pending := q.pending + [|q.entries|], entries := q.entries + [Entry(Pending, [], None)])
    else
      Start(q.(entries := q.entries + [Entry(Active, [], None)]), |q.entries|, None)
  }

  /** `start(entry)` up to and including the call of `entry.run()`. */
  function Start(q: Queue, e: nat, owed: Option<Owed>): Queue
    requires e < |q.entries|
  {
    q.(entries := q.entries[e := q.entries[e].(state := Active)],
       active := Some(e),
       started := q.started + [e],
       stack := q.stack + [RunFrame(e, owed)])
  }

  function Settle(q: Queue, e: nat, s: Settlement): Queue
    requires e < |q.entries|
  {
    q.(entries := q.entries[e := q.entries[e].(settlements := q.entries[e].settlements + [s])])
  }

  /** The rest of `start` and of its caller, once `entry.run()` has returned or thrown. */
  function RunReturns(q: Queue): Queue
    requires q.stack != [] && q.stack[|q.stack| - 1].RunFrame?
    requires FramesInRange(q)
  {
    var frame := q.stack[|q.stack| - 1];
    var q1 := q.(stack := q.stack[..|q.stack| - 1], executions := q.executions + {frame.entry});
    if frame.owed.Some? then Settle(q1, frame.owed.value.entry, frame.owed.value.settlement) else q1
  }

  /** `complete(entry, settle)`, up to the re-entrant `run()` when a pending entry is started. */
  function Complete(q: Queue, e: nat, s: Settlement): Queue
    requires e < |q.entries|
    requires forall k | 0 <= k < |q.pending| :: q.pending[k] < |q.entries|
  {
    if !q.entries[e].state.Active? || q.active != Some(e) then q
    else
      var q1 := q.(entries := q.entries[e := q.entries[e].(state := Settled)], active := None);
      if q1.pending != [] then
        Start(q1.(pending := q1.pending[1..]), q1.pending[0], Some(Owed(e, s)))
      else
        Settle(q1, e, s)
  }

  function IndexOf(s: seq<nat>, x: nat): (i: nat)
    requires x in s
    ensures i < |s| && s[i] == x && x !in s[..i]
  {
    if s[0] == x then 0 else 1 + IndexOf(s[1..], x)
  }

  /** `array.splice(indexOf(x), 1)`, which removes nothing when `x` is absent. */
  function Spliced(s: seq<nat>, x: nat): seq<nat> {
    if x in s then s[..IndexOf(s, x)] + s[IndexOf(s, x) + 1..] else s
  }

  /** `cancelEntry(entry)` up to the call of `entry.requestCancellation()`. */
  function CancelEntry(q: Queue, e: nat): Queue
    requires e < |q.entries|
  {
    if q.entries[e].state.Pending? then
      Settle(q.(pending := Spliced(q.pending, e),
                entries := q.entries[e := q.entries[e].(state := Settled)],
                dropped := q.dropped + {e}),
             e, Rejected(TransportCancelled))
    else if !q.entries[e].state.Active? || q.active != Some(e) then q
    else if q.entries[e].cancellation.None? then
      q.(attempts := q.attempts + [Attempt(e, Calling)], stack := q.stack + [CancelFrame(e, |q.attempts|)])
    else q
  }

  function CancelActiveAnalysis(q: Queue): Queue
    requires q.active.Some? ==> q.active.value < |q.entries|
  {
    if q.active.Some? then CancelEntry(q, q.active.value) else q
  }

  /** The rest of `cancelEntry`, once `entry.requestCancellation()` has returned or thrown. */
  function CancelReturns(q: Queue): Queue
    requires q.stack != [] && q.stack[|q.stack| - 1].CancelFrame?
    requires FramesInRange(q)
  {
    var frame := q.stack[|q.stack| - 1];
    q.(stack := q.stack[..|q.stack| - 1],
       entries := q.entries[frame.entry := q.entries[frame.entry].(cancellation := Some(frame.attempt))],
       attempts := q.attempts[frame.attempt := q.attempts[frame.attempt].(phase := Outstanding)])
  }

  /** The test `entry.cancellationResult === cancellationResult` made when an attempt settles. */
  predicate IdentityCheckHolds(q: Queue, t: nat)
    requires t < |q.attempts| && q.attempts[t].entry < |q.entries|
  {
    q.entries[q.attempts[t].entry].cancellation == Some(t)
  }

  /** The `then` callbacks of one cancellation attempt; a rejection counts as not acknowledged. */
  function AttemptSettles(q: Queue, t: nat, acknowledged: bool): Queue
    requires t < |q.attempts| && q.attempts[t].entry < |q.entries|
  {
    var e := q.attempts[t].entry;
    var q1 := q.(attempts := q.attempts[t := Attempt(e, if acknowledged then Acknowledged else Refused)]);
    if !acknowledged && IdentityCheckHolds(q, t) then
      q1.(entries := q.entries[e := q.entries[e].(cancellation := None)])
    else q1
  }

  function ClosingEntries(q: Queue): set<nat> {
    (set e | e in q.pending) + (if q.active.Some? then {q.active.value} else {})
  }

  function Close(q: Queue): Queue {
    if q.closed then q
    else
      q.(closed := true,
         active := None,
         pending := [],
         dropped := q.dropped + (set e | e in q.pending),
         entries := seq(|q.entries|, i requires 0 <= i < |q.entries| =>
           if i in ClosingEntries(q) then
             Entry(Settled, q.entries[i].settlements + [Rejected(QueueClosed)], q.entries[i].cancellation)
           else q.entries[i]))
  }

  // ----- Steps and runs -----

  datatype Step =
    | EnqueueStep
    | RunReturnsStep
    | RunCompletesStep(entry: nat, settlement: Settlement)
    | CancelStep(entry: nat)
    | CancelActiveStep
    | CancelReturnsStep
    | AttemptSettlesStep(attempt: nat, acknowledged: bool)
    | CloseStep

  predicate FramesInRange(q: Queue) {
    forall k | 0 <= k < |q.stack| ::
      && q.stack[k].entry < |q.entries|
      && (q.stack[k].RunFrame? && q.stack[k].owed.Some? ==> q.stack[k].owed.value.entry < |q.entries|)
      && (q.stack[k].CancelFrame? ==> q.stack[k].attempt < |q.attempts|)
  }

  predicate InRange(q: Queue) {
    && FramesInRange(q)
    && (q.active.Some? ==> q.active.value < |q.entries|)
    && (forall k | 0 <= k < |q.pending| :: q.pending[k] < |q.entries|)
    && (forall t | 0 <= t < |q.attempts| :: q.attempts[t].entry < |q.entries|)
    && (forall e | e in q.executions :: e < |q.entries|)
  }

  predicate Enabled(q: Queue, step: Step) {
    match step
    case EnqueueStep => true
    case RunReturnsStep => q.stack != [] && q.stack[|q.stack| - 1].RunFrame?
    case RunCompletesStep(e, s) => q.stack == [] && e in q.executions && (s == Resolved || s == Rejected(RunFailed))
    case CancelStep(e) => e < |q.entries|
    case CancelActiveStep => true
    case CancelReturnsStep => q.stack != [] && q.stack[|q.stack| - 1].CancelFrame?
    case AttemptSettlesStep(t, _) => q.stack == [] && t < |q.attempts| && q.attempts[t].phase.Outstanding?
    case CloseStep => true
  }

  function Next(q: Queue, step: Step): Queue
    requires InRange(q) && Enabled(q, step)
  {
    match step
    case EnqueueStep => Enqueue(q)
    case RunReturnsStep => RunReturns(q)
    case RunCompletesStep(e, s) => Complete(q.(executions := q.executions - {e}), e, s)
    case CancelStep(e) => CancelEntry(q, e)
    case CancelActiveStep => CancelActiveAnalysis(q)
    case CancelReturnsStep => CancelReturns(q)
    case AttemptSettlesStep(t, ack) => AttemptSettles(q, t, ack)
    case CloseStep => Close(q)
  }

  /** `qs` is a run: a new queue followed by enabled steps. */
  ghost predicate IsRun(maxPending: nat, qs: seq<Queue>, steps: seq<Step>) {
    && |qs| == |steps| + 1
    && qs[0] == New(maxPending)
    && forall k | 0 <= k < |steps| :: StepAt(qs, steps, k)
  }

  /** Step number `k` of a sequence of states. */
  ghost predicate StepAt(qs: seq<Queue>, steps: seq<Step>, k: nat) {
    k < |steps| && k + 1 < |qs| && StepsTo(qs[k], steps[k], qs[k + 1])
  }

  ghost predicate StepsTo(q: Queue, step: Step, q': Queue) {
    InRange(q) && Enabled(q, step) && q' == Next(q, step)
  }

  // ----- Invariant -----

  /** The acceptance order 0, 1, ..., n - 1 without the entries in `dropped`. */
  function Kept(n: nat, dropped: set<nat>): seq<nat> {
    if n == 0 then [] else Kept(n - 1, dropped) + (if n - 1 in dropped then [] else [n - 1])
  }

  /** The finished entry whose `settle()` is still to come: only the bottom frame can owe one. */
  function OwedEntry(q: Queue): Option<nat> {
    if q.stack != [] && q.stack[0].RunFrame? && q.stack[0].owed.Some? then Some(q.stack[0].owed.value.entry) else None
  }

  /** `active`, `pending` and the entries' states describe the same thing. */
  ghost predicate StatesAgree(q: Queue) {
    && (forall i | 0 <= i < |q.entries| :: q.entries[i].state.Active? <==> q.active == Some(i))
    && (forall i | 0 <= i < |q.entries| :: q.entries[i].state.Pending? <==> i in q.pending)
  }

  /** The capacity bound holds, and work never waits on an idle queue. */
  ghost predicate WorkConserving(q: Queue) {
    && |q.pending| <= q.maxPending
    && (q.closed ==> q.active.None?)
    && (q.active.None? ==> q.pending == [])
    && (q.stack != [] && !q.closed ==> q.active.Some?)
    && (q.active.Some? ==> q.started != [] && q.started[|q.started| - 1] == q.active.value)
    && (q.active.Some? ==> q.active.value in q.executions
                           || (q.stack != [] && q.stack[0].RunFrame? && q.stack[0].entry == q.active.value))
  }

  /** `run()` never nests: a run frame is the bottom frame. */
  ghost predicate StackShape(q: Queue)
    requires FramesInRange(q)
  {
    && (forall k | 1 <= k < |q.stack| :: q.stack[k].CancelFrame?)
    && (forall k | 0 <= k < |q.stack| && q.stack[k].CancelFrame? :: q.attempts[q.stack[k].attempt] == Attempt(q.stack[k].entry, Calling))
    && (forall t | 0 <= t < |q.attempts| && q.attempts[t].phase.Calling? :: CancelFrame(q.attempts[t].entry, t) in q.stack)
    && (forall j, k | 0 <= j < k < |q.stack| && q.stack[j].CancelFrame? :: q.stack[j].attempt < q.stack[k].attempt)
    && (q.stack != [] && q.stack[0].RunFrame? ==> q.stack[0].entry in q.started && q.stack[0].entry !in q.executions)
    && (forall e | e in q.executions :: e in q.started)
  }

  /** Each entry is settled through its callbacks at most once, and only after it is marked settled. */
  ghost predicate SettledOnce(q: Queue) {
    forall i | 0 <= i < |q.entries| ::
      && |q.entries[i].settlements| <= 1
      && (q.entries[i].settlements != [] ==> q.entries[i].state.Settled?)
      && (q.entries[i].state.Settled? && q.entries[i].settlements == [] <==> OwedEntry(q) == Some(i))
  }

  /** Start order, then pending order, is the acceptance order without the dropped entries. */
  ghost predicate Fifo(q: Queue) {
    && q.started + q.pending == Kept(|q.entries|, q.dropped)
    && (forall i | i in q.dropped :: i < |q.entries|
          && (q.entries[i].settlements == [Rejected(TransportCancelled)] || q.entries[i].settlements == [Rejected(QueueClosed)]))
  }

  ghost predicate Inv(q: Queue) {
    InRange(q) && StatesAgree(q) && WorkConserving(q) && StackShape(q) && SettledOnce(q) && Fifo(q)
  }

  lemma {:induction false} KeptMembers(n: nat, dropped: set<nat>, i: nat)
    ensures i in Kept(n, dropped) <==> i < n && i !in dropped
  {
    if n > 0 {
      KeptMembers(n - 1, dropped, i);
    }
  }

  lemma {:induction false} KeptIncreasing(n: nat, dropped: set<nat>)
    ensures forall j, k | 0 <= j < k < |Kept(n, dropped)| :: Kept(n, dropped)[j] < Kept(n, dropped)[k]
    ensures forall k | 0 <= k < |Kept(n, dropped)| :: Kept(n, dropped)[k] < n
  {
    if n > 0 {
      KeptIncreasing(n - 1, dropped);
    }
  }

  /** Dropping one more entry removes exactly that entry from the kept order. */
  lemma {:induction false} KeptDrop(n: nat, dropped: set<nat>, a: seq<nat>, e: nat, b: seq<nat>)
    requires Kept(n, dropped) == a + [e] + b
    ensures Kept(n, dropped + {e}) == a + b
  {
    KeptIncreasing(n, dropped);
    if n > 0 {
      var k := Kept(n - 1, dropped);
      if n - 1 in dropped {
        KeptDrop(n - 1, dropped, a, e, b);
      } else if b == [] {
        assert (a + [e] + b)[|a|] == e;
        assert a + [e] + b == a + [e] && (k + [n - 1])[..|k|] == k;
        KeptUnchanged(n - 1, dropped, e);
        assert a + b == a;
      } else {
        var m := |b| - 1;
        assert b == b[..m] + [b[m]];
        assert a + [e] + b == (a + [e] + b[..m]) + [b[m]];
        assert (k + [n - 1])[..|k|] == k;
        assert (a + [e] + b)[..|k|] == a + [e] + b[..m];
        assert k == a + [e] + b[..m] && b[m] == n - 1;
        KeptDrop(n - 1, dropped, a, e, b[..m]);
        assert (a + [e] + b)[|a|] == e < n - 1;
        assert a + b == (a + b[..m]) + [b[m]];
      }
    }
  }

  lemma {:induction false} KeptUnchanged(n: nat, dropped: set<nat>, e: nat)
    requires n <= e
    ensures Kept(n, dropped + {e}) == Kept(n, dropped)
  {
    if n > 0 {
      KeptUnchanged(n - 1, dropped, e);
    }
  }

  lemma KeptOnce(n: nat, dropped: set<nat>, a: seq<nat>, e: nat, b: seq<nat>)
    requires Kept(n, dropped) == a + [e] + b
    ensures e !in a && e !in b
  {
    KeptIncreasing(n, dropped);
    var kept := Kept(n, dropped);
    assert kept[|a|] == e;
    forall k | 0 <= k < |a|
      ensures a[k] != e
    {
      assert kept[k] < kept[|a|];
    }
    forall k | 0 <= k < |b|
      ensures b[k] != e
    {
      assert kept[|a|] < kept[|a| + 1 + k];
    }
  }

  /** Dropping a whole tail of the kept order. */
  lemma {:induction false} KeptDropTail(n: nat, dropped: set<nat>, a: seq<nat>, b: seq<nat>)
    requires Kept(n, dropped) == a + b
    ensures Kept(n, dropped + (set e | e in b)) == a
    decreases |b|
  {
    if b == [] {
      assert dropped + (set e | e in b) == dropped;
      assert a + b == a;
    } else {
      assert a + b == a + [b[0]] + b[1..];
      KeptDrop(n, dropped, a, b[0], b[1..]);
      KeptDropTail(n, dropped + {b[0]}, a, b[1..]);
      assert dropped + {b[0]} + (set e | e in b[1..]) == dropped + (set e | e in b);
    }
  }

  // ----- Every step keeps the invariant -----

  lemma NewInv(maxPending: nat)
    ensures Inv(New(maxPending))
  {
  }

  lemma EnqueuePendingInv(q: Queue)
    requires Inv(q) && Admit(q).Accepted? && q.active.Some? && |q.entries| !in q.dropped
    ensures Inv(Enqueue(q))
  {
    var q' := Enqueue(q);
    assert q'.started + q'.pending == (q.started + q.pending) + [|q.entries|];
    assert InRange(q') && StatesAgree(q') && WorkConserving(q') && StackShape(q');
    assert SettledOnce(q') && Fifo(q');
  }

  lemma EnqueueStartsInv(q: Queue)
    requires Inv(q) && Admit(q).Accepted? && q.active.None? && |q.entries| !in q.dropped
    ensures Inv(Enqueue(q))
  {
    var q' := Enqueue(q);
    assert q.started + q.pending == q.started;
    assert q'.started + q'.pending == q.started + [|q.entries|];
    assert q.stack == [];
    assert InRange(q') && StatesAgree(q') && WorkConserving(q') && StackShape(q');
    assert SettledOnce(q') && Fifo(q');
  }

  lemma EnqueueInv(q: Queue)
    requires Inv(q)
    ensures Inv(Enqueue(q))
  {
    if Admit(q).Accepted? {
      assert |q.entries| !in q.dropped;
      if q.active.Some? {
        EnqueuePendingInv(q);
      } else {
        EnqueueStartsInv(q);
      }
    }
  }

  lemma RunReturnsStates(q: Queue)
    requires InRange(q) && StatesAgree(q) && WorkConserving(q) && StackShape(q) && Enabled(q, RunReturnsStep)
    ensures InRange(RunReturns(q)) && StatesAgree(RunReturns(q)) && WorkConserving(RunReturns(q)) && StackShape(RunReturns(q))
  {
    assert |q.stack| == 1;
  }

  lemma RunReturnsSettles(q: Queue)
    requires InRange(q) && StackShape(q) && SettledOnce(q) && Fifo(q) && Enabled(q, RunReturnsStep)
    ensures SettledOnce(RunReturns(q)) && Fifo(RunReturns(q))
  {
    assert |q.stack| == 1;
    assert q.stack[0].owed.Some? ==> OwedEntry(q) == Some(q.stack[0].owed.value.entry);
  }

  lemma RunReturnsInv(q: Queue)
    requires Inv(q) && Enabled(q, RunReturnsStep)
    ensures Inv(RunReturns(q))
  {
    RunReturnsStates(q);
    RunReturnsSettles(q);
  }

  /** The completed entry is the last one: nothing is pending. */
  lemma CompleteLastInv(q: Queue, e: nat, s: Settlement)
    requires Inv(q) && Enabled(q, RunCompletesStep(e, s)) && q.active == Some(e) && q.pending == []
    ensures Inv(Next(q, RunCompletesStep(e, s)))
  {
    var q' := Next(q, RunCompletesStep(e, s));
    assert InRange(q') && StatesAgree(q') && WorkConserving(q');
    assert StackShape(q');
    assert SettledOnce(q') && Fifo(q');
  }

  lemma CompleteNextStates(q: Queue, e: nat, s: Settlement)
    requires Inv(q) && Enabled(q, RunCompletesStep(e, s)) && q.active == Some(e) && q.pending != []
    requires q.pending[0] !in q.started && q.pending[0] !in q.pending[1..]
    ensures var q' := Next(q, RunCompletesStep(e, s));
            InRange(q') && StatesAgree(q') && WorkConserving(q') && StackShape(q')
  {
    var q' := Next(q, RunCompletesStep(e, s));
    assert q.pending[0] in q.pending;
    assert forall x :: x in q.pending <==> x == q.pending[0] || x in q.pending[1..];
    assert StatesAgree(q');
  }

  lemma CompleteNextSettles(q: Queue, e: nat, s: Settlement)
    requires InRange(q) && StatesAgree(q) && SettledOnce(q) && Fifo(q)
    requires Enabled(q, RunCompletesStep(e, s)) && q.active == Some(e) && q.pending != []
    ensures var q' := Next(q, RunCompletesStep(e, s)); SettledOnce(q') && Fifo(q')
  {
    var q' := Next(q, RunCompletesStep(e, s));
    var next := q.pending[0];
    assert next in q.pending;
    assert q'.started + q'.pending == q.started + q.pending;
    assert forall i | 0 <= i < |q.entries| :: q'.entries[i].settlements == q.entries[i].settlements;
    assert OwedEntry(q') == Some(e);
  }

  lemma CompleteInv(q: Queue, e: nat, s: Settlement)
    requires Inv(q) && Enabled(q, RunCompletesStep(e, s))
    ensures Inv(Next(q, RunCompletesStep(e, s)))
  {
    if q.active == Some(e) {
      if q.pending != [] {
        var next := q.pending[0];
        assert q.started + q.pending == q.started + [next] + q.pending[1..];
        KeptOnce(|q.entries|, q.dropped, q.started, next, q.pending[1..]);
        CompleteNextStates(q, e, s);
        CompleteNextSettles(q, e, s);
      } else {
        CompleteLastInv(q, e, s);
      }
    } else {
      LateCompleteInv(q, e, s);
    }
  }

  lemma LateCompleteInv(q: Queue, e: nat, s: Settlement)
    requires Inv(q) && Enabled(q, RunCompletesStep(e, s)) && q.active != Some(e)
    ensures Inv(Next(q, RunCompletesStep(e, s)))
  {
    assert Next(q, RunCompletesStep(e, s)) == q.(executions := q.executions - {e});
  }

  lemma SplicedOnce(n: nat, dropped: set<nat>, started: seq<nat>, pending: seq<nat>, e: nat)
    requires Kept(n, dropped) == started + pending && e in pending
    ensures forall x :: x in Spliced(pending, e) <==> x in pending && x != e
    ensures started + Spliced(pending, e) == Kept(n, dropped + {e})
    ensures e !in started && |Spliced(pending, e)| == |pending| - 1
  {
    var i := IndexOf(pending, e);
    assert pending == pending[..i] + [e] + pending[i + 1..];
    assert started + pending == (started + pending[..i]) + [e] + pending[i + 1..];
    KeptOnce(n, dropped, started + pending[..i], e, pending[i + 1..]);
    KeptDrop(n, dropped, started + pending[..i], e, pending[i + 1..]);
    assert started + Spliced(pending, e) == (started + pending[..i]) + pending[i + 1..];
  }

  lemma CancelPendingInv(q: Queue, e: nat)
    requires Inv(q) && e < |q.entries| && q.entries[e].state.Pending?
    ensures Inv(CancelEntry(q, e))
  {
    var q' := CancelEntry(q, e);
    SplicedOnce(|q.entries|, q.dropped, q.started, q.pending, e);
    assert forall k | 0 <= k < |q'.pending| :: q'.pending[k] in q'.pending;
    assert InRange(q') && StatesAgree(q');
    assert WorkConserving(q');
    assert StackShape(q');
    assert SettledOnce(q');
    assert Fifo(q');
  }

  lemma AskedStack(q: Queue, e: nat)
    requires Inv(q) && e < |q.entries| && q.active == Some(e) && q.entries[e].cancellation.None?
    requires q.entries[e].state.Active?
    ensures InRange(CancelEntry(q, e)) && StackShape(CancelEntry(q, e))
  {
    hide StatesAgree, WorkConserving, SettledOnce, Fifo;
  }

  lemma CancelActiveInv(q: Queue, e: nat)
    requires Inv(q) && e < |q.entries| && q.active == Some(e) && q.entries[e].cancellation.None?
    requires q.entries[e].state.Active?
    ensures Inv(CancelEntry(q, e))
  {
    hide InRange, StackShape, Kept;
    AskedStack(q, e);
    var q' := CancelEntry(q, e);
    assert StatesAgree(q') && WorkConserving(q');
    assert SettledOnce(q');
  }

  lemma CancelEntryInv(q: Queue, e: nat)
    requires Inv(q) && e < |q.entries|
    ensures Inv(CancelEntry(q, e))
  {
    if q.entries[e].state.Pending? {
      CancelPendingInv(q, e);
    } else if CancelEntry(q, e) != q {
      CancelActiveInv(q, e);
    }
  }

  lemma CancelReturnsInRange(q: Queue)
    requires InRange(q) && Enabled(q, CancelReturnsStep)
    ensures InRange(CancelReturns(q))
  {
  }

  /** The attempt of the popped frame is the last one that was being made. */
  lemma CancelReturnsCalling(q: Queue, t: nat)
    requires InRange(q) && StackShape(q) && Enabled(q, CancelReturnsStep)
    requires t < |q.attempts| && t != q.stack[|q.stack| - 1].attempt && q.attempts[t].phase.Calling?
    ensures CancelFrame(q.attempts[t].entry, t) in q.stack[..|q.stack| - 1]
  {
    var frame := CancelFrame(q.attempts[t].entry, t);
    var k :| 0 <= k < |q.stack| && q.stack[k] == frame;
    assert q.stack[..|q.stack| - 1][k] == frame;
  }

  lemma CancelReturnsStack(q: Queue)
    requires InRange(q) && StackShape(q) && Enabled(q, CancelReturnsStep)
    ensures InRange(CancelReturns(q)) && StackShape(CancelReturns(q))
  {
    CancelReturnsInRange(q);
    var q' := CancelReturns(q);
    forall t | 0 <= t < |q'.attempts| && q'.attempts[t].phase.Calling?
      ensures CancelFrame(q'.attempts[t].entry, t) in q'.stack
    {
      CancelReturnsCalling(q, t);
    }
  }

  lemma CancelReturnsInv(q: Queue)
    requires Inv(q) && Enabled(q, CancelReturnsStep)
    ensures Inv(CancelReturns(q))
  {
    CancelReturnsStack(q);
    var q' := CancelReturns(q);
    assert OwedEntry(q') == OwedEntry(q);
    assert StatesAgree(q');
    assert WorkConserving(q');
    assert SettledOnce(q') && Fifo(q');
  }

  lemma AttemptSettlesStack(q: Queue, t: nat, acknowledged: bool)
    requires InRange(q) && StackShape(q) && Enabled(q, AttemptSettlesStep(t, acknowledged))
    ensures InRange(AttemptSettles(q, t, acknowledged)) && StackShape(AttemptSettles(q, t, acknowledged))
  {
  }

  /** The entries as the invariant sees them are unchanged. */
  ghost predicate SameEntries(q: Queue, q': Queue) {
    && |q'.entries| == |q.entries|
    && (forall i | 0 <= i < |q.entries| :: q'.entries[i].state == q.entries[i].state)
    && (forall i | 0 <= i < |q.entries| :: q'.entries[i].settlements == q.entries[i].settlements)
  }

  lemma AttemptSettlesEntries(q: Queue, t: nat, acknowledged: bool)
    requires InRange(q) && Enabled(q, AttemptSettlesStep(t, acknowledged))
    ensures var q' := AttemptSettles(q, t, acknowledged);
            SameEntries(q, q') && q' == q.(entries := q'.entries, attempts := q'.attempts)
  {
  }

  lemma SameEntriesInv(q: Queue, entries: seq<Entry>, attempts: seq<Attempt>)
    requires Inv(q)
    requires var q' := q.(entries := entries, attempts := attempts); SameEntries(q, q') && InRange(q') && StackShape(q')
    ensures Inv(q.(entries := entries, attempts := attempts))
  {
    var q' := q.(entries := entries, attempts := attempts);
    assert StatesAgree(q') && WorkConserving(q');
    assert SettledOnce(q') && Fifo(q');
  }

  lemma AttemptSettlesInv(q: Queue, t: nat, acknowledged: bool)
    requires Inv(q) && Enabled(q, AttemptSettlesStep(t, acknowledged))
    ensures Inv(AttemptSettles(q, t, acknowledged))
  {
    AttemptSettlesStack(q, t, acknowledged);
    AttemptSettlesEntries(q, t, acknowledged);
    SameEntriesInv(q, AttemptSettles(q, t, acknowledged).entries, AttemptSettles(q, t, acknowledged).attempts);
  }

  /** What `close` does to each entry. */
  lemma CloseEntry(q: Queue)
    requires !q.closed
    ensures |Close(q).entries| == |q.entries| && Close(q).pending == [] && Close(q).active.None? && Close(q).closed
    ensures forall i | 0 <= i < |q.entries| ::
              Close(q).entries[i] == if i in ClosingEntries(q)
                                     then Entry(Settled, q.entries[i].settlements + [Rejected(QueueClosed)], q.entries[i].cancellation)
                                     else q.entries[i]
  {
  }

  lemma ClosedEntries(q: Queue)
    requires Inv(q) && !q.closed
    ensures StatesAgree(Close(q)) && SettledOnce(Close(q))
  {
    hide Fifo, Kept;
    CloseEntry(q);
  }

  lemma ClosedStack(q: Queue)
    requires Inv(q) && !q.closed
    ensures InRange(Close(q)) && StackShape(Close(q))
  {
    hide Fifo, Kept;
  }

  lemma ClosedFifo(q: Queue)
    requires Inv(q) && !q.closed
    ensures Fifo(Close(q))
  {
    KeptDropTail(|q.entries|, q.dropped, q.started, q.pending);
    assert Close(q).started + Close(q).pending == q.started;
  }

  lemma CloseInv(q: Queue)
    requires Inv(q)
    ensures Inv(Close(q))
  {
    if !q.closed {
      hide InRange, StatesAgree, StackShape, SettledOnce, Fifo;
      ClosedEntries(q);
      ClosedStack(q);
      ClosedFifo(q);
      assert WorkConserving(Close(q));
    }
  }

  lemma StepInv(q: Queue, step: Step)
    requires Inv(q) && Enabled(q, step)
    ensures Inv(Next(q, step))
  {
    match step
    case EnqueueStep => EnqueueInv(q);
    case RunReturnsStep => RunReturnsInv(q);
    case RunCompletesStep(e, s) => CompleteInv(q, e, s);
    case CancelStep(e) => CancelEntryInv(q, e);
    case CancelActiveStep => if q.active.Some? { CancelEntryInv(q, q.active.value); }
    case CancelReturnsStep => CancelReturnsInv(q);
    case AttemptSettlesStep(t, ack) => AttemptSettlesInv(q, t, ack);
    case CloseStep => CloseInv(q);
  }

  lemma StepsKeepInv(q: Queue, step: Step, q': Queue)
    requires Inv(q) && StepsTo(q, step, q')
    ensures Inv(q') && q'.maxPending == q.maxPending
  {
    StepInv(q, step);
  }

  lemma {:induction false} RunsKeepInv(maxPending: nat, qs: seq<Queue>, steps: seq<Step>, k: nat)
    requires IsRun(maxPending, qs, steps) && k < |qs|
    ensures Inv(qs[k]) && qs[k].maxPending == maxPending
  {
    if k == 0 {
      NewInv(maxPending);
    } else {
      RunsKeepInv(maxPending, qs, steps, k - 1);
      assert StepAt(qs, steps, k - 1);
      StepsKeepInv(qs[k - 1], steps[k - 1], qs[k]);
    }
  }

  /** While the queue is open, nothing is rejected as closed, nor owed such a rejection. */
  ghost predicate OnlyCloseRejects(q: Queue) {
    !q.closed ==>
      && (forall i | 0 <= i < |q.entries| :: Rejected(QueueClosed) !in q.entries[i].settlements)
      && (forall k | 0 <= k < |q.stack| && q.stack[k].RunFrame? && q.stack[k].owed.Some? ::
            q.stack[k].owed.value.settlement != Rejected(QueueClosed))
  }

  lemma CompleteOnlyCloseRejects(q: Queue, e: nat, s: Settlement)
    requires InRange(q) && Enabled(q, RunCompletesStep(e, s)) && OnlyCloseRejects(q)
    ensures OnlyCloseRejects(Next(q, RunCompletesStep(e, s)))
  {
  }

  lemma CancelOnlyCloseRejects(q: Queue, e: nat)
    requires InRange(q) && e < |q.entries| && OnlyCloseRejects(q)
    ensures OnlyCloseRejects(CancelEntry(q, e))
  {
  }

  lemma ReturnsOnlyCloseRejects(q: Queue, step: Step)
    requires InRange(q) && Enabled(q, step) && OnlyCloseRejects(q)
    requires step.RunReturnsStep? || step.CancelReturnsStep? || step.AttemptSettlesStep?
    ensures OnlyCloseRejects(Next(q, step))
  {
  }

  lemma EnqueueOnlyCloseRejects(q: Queue)
    requires OnlyCloseRejects(q)
    ensures OnlyCloseRejects(Enqueue(q))
  {
  }

  /** Every step keeps that, up to `close`. */
  lemma StepOnlyCloseRejects(q: Queue, step: Step)
    requires Inv(q) && Enabled(q, step) && OnlyCloseRejects(q)
    ensures OnlyCloseRejects(Next(q, step))
  {
    match step
    case EnqueueStep => EnqueueOnlyCloseRejects(q);
    case RunCompletesStep(e, s) => CompleteOnlyCloseRejects(q, e, s);
    case CancelStep(e) => CancelOnlyCloseRejects(q, e);
    case CancelActiveStep => if q.active.Some? { CancelOnlyCloseRejects(q, q.active.value); }
    case CloseStep =>
    case _ => ReturnsOnlyCloseRejects(q, step);
  }

  // ----- Settlement, order and capacity over whole runs -----

  /** What one step may do to the history of an entry that was already there. */
  ghost predicate Extends(q: Queue, q': Queue) {
    && q'.maxPending == q.maxPending
    && |q.entries| <= |q'.entries|
    && q.started <= q'.started
    && q.dropped <= q'.dropped
    && (q.closed ==> q'.closed && q'.started == q.started && |q'.entries| == |q.entries|)
    && forall i | 0 <= i < |q.entries| ::
         && q.entries[i].settlements <= q'.entries[i].settlements
         && (q.entries[i].state.Settled? ==> q'.entries[i].state.Settled?)
         && (q.entries[i].state.Active? ==> !q'.entries[i].state.Pending?)
  }

  lemma EnqueueExtends(q: Queue)
    requires Inv(q)
    ensures Extends(q, Enqueue(q))
  {
  }

  lemma RunReturnsExtends(q: Queue)
    requires Inv(q) && Enabled(q, RunReturnsStep)
    ensures Extends(q, RunReturns(q))
  {
  }

  lemma CancelReturnsExtends(q: Queue)
    requires InRange(q) && Enabled(q, CancelReturnsStep)
    ensures Extends(q, CancelReturns(q))
  {
  }

  lemma AttemptSettlesExtends(q: Queue, t: nat, acknowledged: bool)
    requires InRange(q) && Enabled(q, AttemptSettlesStep(t, acknowledged))
    ensures Extends(q, AttemptSettles(q, t, acknowledged))
  {
  }

  lemma StepExtends(q: Queue, step: Step)
    requires Inv(q) && Enabled(q, step)
    ensures Extends(q, Next(q, step))
  {
    match step
    case EnqueueStep => EnqueueExtends(q);
    case RunReturnsStep => RunReturnsExtends(q);
    case RunCompletesStep(e, s) => CompleteExtends(q, e, s);
    case CancelStep(e) => CancelExtends(q, e);
    case CancelActiveStep => if q.active.Some? { CancelExtends(q, q.active.value); }
    case CancelReturnsStep => CancelReturnsExtends(q);
    case AttemptSettlesStep(t, ack) => AttemptSettlesExtends(q, t, ack);
    case CloseStep => CloseExtends(q);
  }

  lemma CancelExtends(q: Queue, e: nat)
    requires Inv(q) && e < |q.entries|
    ensures Extends(q, CancelEntry(q, e))
  {
  }

  lemma CloseExtends(q: Queue)
    requires Inv(q)
    ensures Extends(q, Close(q))
  {
  }

  lemma CompleteExtends(q: Queue, e: nat, s: Settlement)
    requires Inv(q) && Enabled(q, RunCompletesStep(e, s))
    ensures Extends(q, Next(q, RunCompletesStep(e, s)))
  {
  }

  /** In a run, states only extend: nothing that was settled, started or dropped is taken back. */
  lemma {:induction false} RunsExtend(maxPending: nat, qs: seq<Queue>, steps: seq<Step>, j: nat, k: nat)
    requires IsRun(maxPending, qs, steps) && j <= k < |qs|
    ensures Extends(qs[j], qs[k])
    decreases k - j
  {
    RunsKeepInv(maxPending, qs, steps, j);
    if j < k {
      assert StepAt(qs, steps, j);
      StepExtends(qs[j], steps[j]);
      RunsExtend(maxPending, qs, steps, j + 1, k);
    }
  }

  /**
    Exactly-once settlement: in every run each accepted entry has had `resolve` or `reject` called at
    most once, what was called stays the only call, and whenever no caller code is on the stack the
    entries that have been called are exactly the settled ones.
   */
  lemma SettlementIsExactlyOnce(maxPending: nat, qs: seq<Queue>, steps: seq<Step>, j: nat, k: nat, i: nat)
    requires IsRun(maxPending, qs, steps) && j <= k < |qs| && i < |qs[j].entries|
    ensures i < |qs[k].entries| && |qs[k].entries[i].settlements| <= 1
    ensures qs[j].entries[i].settlements != [] ==> qs[k].entries[i].settlements == qs[j].entries[i].settlements
    ensures qs[k].stack == [] ==> (qs[k].entries[i].settlements != [] <==> qs[k].entries[i].state.Settled?)
  {
    RunsKeepInv(maxPending, qs, steps, k);
    RunsExtend(maxPending, qs, steps, j, k);
  }

  /**
    The completion of the active entry settles that entry with its own run's outcome: at once when
    nothing is pending, and otherwise when the next entry's `run()` has returned, which owes it until then.
   */
  lemma CompletionSettlesItsOwnEntry(q: Queue, e: nat, s: Settlement)
    requires Inv(q) && Enabled(q, RunCompletesStep(e, s)) && q.active == Some(e)
    ensures var q' := Next(q, RunCompletesStep(e, s));
            && |q'.entries| == |q.entries| && q'.entries[e].state.Settled?
            && (q.pending == [] ==> q'.entries[e].settlements == [s] && q'.active.None?)
            && (q.pending != [] ==> q'.active == Some(q.pending[0]) && q'.stack == [RunFrame(q.pending[0], Some(Owed(e, s)))]
                                    && q'.entries[e].settlements == [])
  {
    if q.pending != [] {
      assert q.pending[0] in q.pending;
    }
  }

  lemma OwedIsPaid(q: Queue, e: nat, owed: Owed)
    requires Inv(q) && q.stack == [RunFrame(e, Some(owed))]
    ensures var q' := Next(q, RunReturnsStep);
            && |q'.entries| == |q.entries| && q'.entries[owed.entry].settlements == [owed.settlement]
            && forall i | 0 <= i < |q.entries| && i != owed.entry :: q'.entries[i] == q.entries[i]
  {
    assert OwedEntry(q) == Some(owed.entry);
  }

  /** A completion that arrives after `close` or after the entry stopped being active changes no entry. */
  lemma LateCompletionsAreIgnored(q: Queue, e: nat, s: Settlement)
    requires Inv(q) && Enabled(q, RunCompletesStep(e, s))
    ensures Next(q, RunCompletesStep(e, s)).entries == q.entries <==> q.entries[e].state.Settled?
  {
    if q.active == Some(e) {
      assert q.entries[e].state.Active? && Next(q, RunCompletesStep(e, s)).entries[e].state.Settled?;
    } else if !q.entries[e].state.Settled? {
      assert e in q.started && e in q.pending;
      SplicedOnce(|q.entries|, q.dropped, q.started, q.pending, e);
    }
  }

  /**
    First in, first out: in every run the start order followed by the waiting entries is the
    acceptance order without the dropped entries, and an entry is dropped exactly when it was
    accepted, never started and is waiting no more; such an entry was rejected as cancelled or closed.
   */
  lemma StartsInAcceptanceOrder(maxPending: nat, qs: seq<Queue>, steps: seq<Step>, k: nat, i: nat)
    requires IsRun(maxPending, qs, steps) && k < |qs|
    ensures qs[k].started + qs[k].pending == Kept(|qs[k].entries|, qs[k].dropped)
    ensures i in qs[k].dropped <==> i < |qs[k].entries| && i !in qs[k].started && i !in qs[k].pending
    ensures i in qs[k].dropped ==> i < |qs[k].entries| && |qs[k].entries[i].settlements| == 1
                                   && qs[k].entries[i].settlements[0] in {Rejected(TransportCancelled), Rejected(QueueClosed)}
  {
    RunsKeepInv(maxPending, qs, steps, k);
    KeptMembers(|qs[k].entries|, qs[k].dropped, i);
    assert i in qs[k].started + qs[k].pending <==> i in qs[k].started || i in qs[k].pending;
  }

  /**
    Capacity and work conservation: at most `maxPending` entries ever wait (even for 0), an open queue
    with nothing active has nothing waiting, and an active entry's `run()` is either still on the
    stack or has a completion to come, so the queue never stalls.
   */
  lemma NeverStallsNorOverflows(maxPending: nat, qs: seq<Queue>, steps: seq<Step>, k: nat)
    requires IsRun(maxPending, qs, steps) && k < |qs|
    ensures InRange(qs[k]) && |qs[k].pending| <= maxPending
    ensures qs[k].active.None? ==> qs[k].pending == []
    ensures qs[k].closed ==> qs[k].active.None? && qs[k].pending == []
    ensures qs[k].active.Some? && qs[k].stack == [] ==> Enabled(qs[k], RunCompletesStep(qs[k].active.value, Resolved))
    ensures qs[k].active.Some? && qs[k].stack == [] ==>
              var q' := Next(qs[k], RunCompletesStep(qs[k].active.value, Resolved));
              q'.active == if qs[k].pending == [] then None else Some(qs[k].pending[0])
  {
    RunsKeepInv(maxPending, qs, steps, k);
  }

  // ----- Admission -----

  /**
    Exactly which requests are accepted, and what becomes of them: none once the queue is closed, and none
    while an entry is active and `maxPending` others wait.  The first of an idle queue is started at once,
    the others wait behind those that came before.
   */
  lemma AdmissionIsExact(q: Queue)
    ensures q.closed || (q.active.Some? && |q.pending| >= q.maxPending) ==> Enqueue(q) == q
    ensures !q.closed && q.active.Some? && |q.pending| < q.maxPending ==>
              && Enqueue(q).pending == q.pending + [|q.entries|] && Enqueue(q).entries == q.entries + [Entry(Pending, [], None)]
              && Enqueue(q).active == q.active && Enqueue(q).started == q.started && Enqueue(q).stack == q.stack
    ensures !q.closed && q.active.None? ==>
              && Enqueue(q).active == Some(|q.entries|) && Enqueue(q).entries == q.entries + [Entry(Active, [], None)]
              && Enqueue(q).started == q.started + [|q.entries|] && Enqueue(q).pending == q.pending
              && Enqueue(q).stack == q.stack + [RunFrame(|q.entries|, None)]
    ensures |Enqueue(q).entries|
            == |q.entries| + if q.closed || (q.active.Some? && |q.pending| >= q.maxPending) then 0 else 1
  {
  }

  // ----- Cancellation attempts -----

  predicate Live(a: Attempt) {
    a.phase.Outstanding? || a.phase.Acknowledged?
  }

  /** `requestCancellation` of `e` is on the stack: its promise is not stored yet. */
  ghost predicate Cancelling(q: Queue, e: nat) {
    exists t :: 0 <= t < |q.attempts| && q.attempts[t] == Attempt(e, Calling)
  }

  /** The entry that a step asks to cancel. */
  function CancelTarget(q: Queue, step: Step): Option<nat> {
    match step
    case CancelStep(e) => Some(e)
    case CancelActiveStep => q.active
    case _ => None
  }

  /** The step cancels the active entry from inside that entry's own `requestCancellation`. */
  ghost predicate SelfCancels(q: Queue, step: Step) {
    var target := CancelTarget(q, step);
    target.Some? && q.active == target && Cancelling(q, target.value)
  }

  /** Of two attempts of one entry at least one was refused. */
  ghost predicate Separate(q: Queue) {
    forall t, u | 0 <= t < u < |q.attempts| && q.attempts[t].entry == q.attempts[u].entry ::
      q.attempts[t].phase.Refused? || q.attempts[u].phase.Refused?
  }

  /** Every live attempt is the stored one, and an entry being asked has none stored. */
  ghost predicate SoleAttempts(q: Queue)
    requires InRange(q)
  {
    && (forall t | 0 <= t < |q.attempts| && Live(q.attempts[t]) :: q.entries[q.attempts[t].entry].cancellation == Some(t))
    && (forall t | 0 <= t < |q.attempts| && q.attempts[t].phase.Calling? :: q.entries[q.attempts[t].entry].cancellation == None)
    && (forall t, u | 0 <= t < u < |q.attempts| && q.attempts[t].phase.Calling? && q.attempts[u].phase.Calling? ::
          q.attempts[t].entry != q.attempts[u].entry)
  }

  lemma SoleIsSeparate(q: Queue)
    requires InRange(q) && SoleAttempts(q)
    ensures Separate(q)
  {
  }

  lemma CancelEntrySole(q: Queue, e: nat)
    requires InRange(q) && SoleAttempts(q) && e < |q.entries| && (q.active == Some(e) ==> !Cancelling(q, e))
    requires InRange(CancelEntry(q, e))
    ensures SoleAttempts(CancelEntry(q, e))
  {
  }

  /** An entry that is being asked already is asked again: its two attempts overlap. */
  lemma SelfCancellationOverlaps(q: Queue, e: nat)
    requires InRange(q) && StatesAgree(q) && SoleAttempts(q) && q.active == Some(e) && Cancelling(q, e)
    ensures CancelEntry(q, e).attempts == q.attempts + [Attempt(e, Calling)]
    ensures !Separate(CancelEntry(q, e))
  {
    var t :| 0 <= t < |q.attempts| && q.attempts[t] == Attempt(e, Calling);
    assert CancelEntry(q, e).attempts[t] == CancelEntry(q, e).attempts[|q.attempts|] == Attempt(e, Calling);
  }

  lemma CancelReturnsSole(q: Queue)
    requires InRange(q) && StackShape(q) && SoleAttempts(q) && Enabled(q, CancelReturnsStep)
    requires InRange(CancelReturns(q))
    ensures SoleAttempts(CancelReturns(q))
  {
    var frame := q.stack[|q.stack| - 1];
    assert q.attempts[frame.attempt] == Attempt(frame.entry, Calling);
  }

  lemma CompleteSole(q: Queue, e: nat, s: Settlement)
    requires InRange(q) && SoleAttempts(q) && Enabled(q, RunCompletesStep(e, s))
    requires InRange(Next(q, RunCompletesStep(e, s)))
    ensures SoleAttempts(Next(q, RunCompletesStep(e, s)))
  {
  }

  lemma AttemptSettlesSole(q: Queue, t: nat, acknowledged: bool)
    requires InRange(q) && SoleAttempts(q) && Enabled(q, AttemptSettlesStep(t, acknowledged))
    requires InRange(AttemptSettles(q, t, acknowledged))
    ensures SoleAttempts(AttemptSettles(q, t, acknowledged))
  {
  }

  lemma EnqueueSole(q: Queue)
    requires InRange(q) && SoleAttempts(q) && InRange(Enqueue(q))
    ensures SoleAttempts(Enqueue(q))
  {
  }

  lemma RunReturnsSole(q: Queue)
    requires InRange(q) && SoleAttempts(q) && Enabled(q, RunReturnsStep) && InRange(RunReturns(q))
    ensures SoleAttempts(RunReturns(q))
  {
  }

  lemma CloseSole(q: Queue)
    requires InRange(q) && SoleAttempts(q) && InRange(Close(q))
    ensures SoleAttempts(Close(q))
  {
  }

  lemma StepSole(q: Queue, step: Step)
    requires InRange(q) && StackShape(q) && SoleAttempts(q) && Enabled(q, step) && !SelfCancels(q, step)
    requires InRange(Next(q, step))
    ensures SoleAttempts(Next(q, step))
  {
    match step
    case EnqueueStep => EnqueueSole(q);
    case RunReturnsStep => RunReturnsSole(q);
    case RunCompletesStep(e, s) => CompleteSole(q, e, s);
    case CancelStep(e) => CancelEntrySole(q, e);
    case CancelActiveStep => if q.active.Some? { CancelEntrySole(q, q.active.value); }
    case CancelReturnsStep => CancelReturnsSole(q);
    case AttemptSettlesStep(t, ack) => AttemptSettlesSole(q, t, ack);
    case CloseStep => CloseSole(q);
  }

  /**
    Exactly when a step makes attempts overlap: when it cancels the active entry from inside that
    entry's own `requestCancellation`.
   */
  lemma StepSeparatesExactly(q: Queue, step: Step)
    requires Inv(q) && SoleAttempts(q) && Enabled(q, step)
    ensures InRange(Next(q, step))
    ensures SoleAttempts(Next(q, step)) <==> !SelfCancels(q, step)
    ensures Separate(Next(q, step)) <==> !SelfCancels(q, step)
  {
    hide SoleAttempts, Separate, StatesAgree, WorkConserving, SettledOnce, Fifo, CancelEntry;
    StepInv(q, step);
    if SelfCancels(q, step) {
      SelfCancellationOverlaps(q, q.active.value);
      assert Next(q, step) == CancelEntry(q, q.active.value);
      if SoleAttempts(Next(q, step)) {
        SoleIsSeparate(Next(q, step));
      }
    } else {
      StepSole(q, step);
      SoleIsSeparate(Next(q, step));
    }
  }

  lemma StepsKeepSole(q: Queue, step: Step, q': Queue)
    requires Inv(q) && SoleAttempts(q) && !SelfCancels(q, step) && StepsTo(q, step, q')
    ensures Inv(q') && SoleAttempts(q')
  {
    hide SoleAttempts, Separate, SelfCancels, StatesAgree, WorkConserving, StackShape, SettledOnce, Fifo, Enabled, Next;
    StepInv(q, step);
    StepSeparatesExactly(q, step);
  }

  lemma NewSole(maxPending: nat)
    ensures Inv(New(maxPending)) && SoleAttempts(New(maxPending))
  {
    NewInv(maxPending);
  }

  lemma {:induction false} RunsKeepSoleAttempts(maxPending: nat, qs: seq<Queue>, steps: seq<Step>, k: nat)
    requires IsRun(maxPending, qs, steps) && k < |qs|
    requires forall j | 0 <= j < k :: !SelfCancels(qs[j], steps[j])
    ensures Inv(qs[k]) && SoleAttempts(qs[k])
  {
    hide InRange, StatesAgree, WorkConserving, StackShape, SettledOnce, Fifo;
    hide SoleAttempts, SelfCancels, StepsTo, New;
    if k == 0 {
      NewSole(maxPending);
    } else {
      RunsKeepSoleAttempts(maxPending, qs, steps, k - 1);
      assert StepAt(qs, steps, k - 1);
      StepsKeepSole(qs[k - 1], steps[k - 1], qs[k]);
    }
  }

  lemma FirstSelfCancellationOverlaps(maxPending: nat, qs: seq<Queue>, steps: seq<Step>, j: nat)
    requires IsRun(maxPending, qs, steps) && j < |steps| && SelfCancels(qs[j], steps[j])
    requires forall i | 0 <= i < j :: !SelfCancels(qs[i], steps[i])
    ensures !Separate(qs[j + 1])
  {
    hide InRange, StatesAgree, WorkConserving, StackShape, SettledOnce, Fifo, SoleAttempts, SelfCancels, Separate;
    hide Next, Enabled, New;
    RunsKeepSoleAttempts(maxPending, qs, steps, j);
    assert StepAt(qs, steps, j);
    StepSeparatesExactly(qs[j], steps[j]);
  }

  /**
    Exactly the runs in which attempts of one entry never overlap, so that it has one unrefused attempt
    at most and is asked again only when every earlier attempt was refused: those in which no
    `requestCancellation` cancels its own entry while that entry is active.
   */
  lemma AttemptsOverlapExactly(maxPending: nat, qs: seq<Queue>, steps: seq<Step>, k: nat)
    requires IsRun(maxPending, qs, steps) && k < |qs|
    ensures (forall j | 0 <= j <= k :: Separate(qs[j])) <==> (forall j | 0 <= j < k :: !SelfCancels(qs[j], steps[j]))
  {
    if forall j | 0 <= j < k :: !SelfCancels(qs[j], steps[j]) {
      forall j | 0 <= j <= k
        ensures Separate(qs[j])
      {
        RunsKeepSoleAttempts(maxPending, qs, steps, j);
        SoleIsSeparate(qs[j]);
      }
    } else {
      var j := FirstSelfCancellation(qs, steps, k);
      FirstSelfCancellationOverlaps(maxPending, qs, steps, j);
    }
  }

  lemma {:induction false} FirstSelfCancellation(qs: seq<Queue>, steps: seq<Step>, k: nat) returns (j: nat)
    requires k <= |steps| && k <= |qs| && exists i :: 0 <= i < k && SelfCancels(qs[i], steps[i])
    ensures j < k && SelfCancels(qs[j], steps[j]) && forall i | 0 <= i < j :: !SelfCancels(qs[i], steps[i])
  {
    if exists i :: 0 <= i < k - 1 && SelfCancels(qs[i], steps[i]) {
      j := FirstSelfCancellation(qs, steps, k - 1);
    } else {
      j := k - 1;
    }
  }

  /** `requestCancellation` is called for the active entry only, in every reachable state. */
  lemma OnlyTheActiveEntryIsAsked(q: Queue, step: Step)
    requires Inv(q) && Enabled(q, step)
    ensures |q.attempts| <= |Next(q, step).attempts| <= |q.attempts| + 1
    ensures |Next(q, step).attempts| == |q.attempts| + 1 ==>
              q.active.Some? && Next(q, step).attempts[|q.attempts|] == Attempt(q.active.value, Calling)
  {
  }

  /**
    Cancellation attempts, for every run in which no `requestCancellation` cancels its own active entry:
    an entry has at most one attempt that is being made, outstanding or acknowledged; a new attempt is
    made only when every earlier one was refused; and the identity check of an outstanding attempt
    holds whenever the attempt settles.
   */
  lemma AttemptsNeverOverlap(maxPending: nat, qs: seq<Queue>, steps: seq<Step>, k: nat, t: nat, u: nat)
    requires IsRun(maxPending, qs, steps) && k < |steps|
    requires forall j | 0 <= j <= k :: !SelfCancels(qs[j], steps[j])
    requires t < |qs[k + 1].attempts| && u < |qs[k + 1].attempts|
    ensures t != u && qs[k + 1].attempts[t].entry == qs[k + 1].attempts[u].entry ==>
              qs[k + 1].attempts[t].phase.Refused? || qs[k + 1].attempts[u].phase.Refused?
    ensures InRange(qs[k])
    ensures steps[k].AttemptSettlesStep? ==>
              steps[k].attempt < |qs[k].attempts| && IdentityCheckHolds(qs[k], steps[k].attempt)
  {
    RunsKeepSoleAttempts(maxPending, qs, steps, k);
    RunsKeepSoleAttempts(maxPending, qs, steps, k + 1);
    assert StepAt(qs, steps, k);
  }

  // ----- Which attempts pass the identity check -----

  /** The attempts made by the first `k` steps from inside another attempt of the same entry. */
  ghost function Inner(qs: seq<Queue>, steps: seq<Step>, k: nat): set<nat>
    requires k <= |steps| && k < |qs|
  {
    if k == 0 then {} else Inner(qs, steps, k - 1) + MadeInside(qs[k - 1], steps[k - 1], qs[k])
  }

  ghost function MadeInside(q: Queue, step: Step, q': Queue): set<nat> {
    if SelfCancels(q, step) && |q'.attempts| > |q.attempts| then {|q.attempts|} else {}
  }

  ghost predicate CancellingBefore(q: Queue, e: nat, t: nat) {
    exists u :: 0 <= u < t && u < |q.attempts| && q.attempts[u] == Attempt(e, Calling)
  }

  /**
    An attempt that was not made inside another is the stored one once it is live, and an attempt that
    was is not, unless the outer one has yet to return.
   */
  ghost predicate Attributed(q: Queue, inner: set<nat>)
    requires InRange(q)
  {
    forall t | 0 <= t < |q.attempts| :: AttributedAt(q, inner, t)
  }

  ghost predicate AttributedAt(q: Queue, inner: set<nat>, t: nat)
    requires InRange(q) && t < |q.attempts|
  {
    var e := q.attempts[t].entry;
    && (Live(q.attempts[t]) ==>
          if t in inner then !IdentityCheckHolds(q, t) || Cancelling(q, e) else IdentityCheckHolds(q, t) && !Cancelling(q, e))
    && (q.attempts[t].phase.Calling? ==> (t in inner <==> CancellingBefore(q, e, t)))
  }

  lemma SameAttempts(q: Queue, q': Queue, inner: set<nat>)
    requires InRange(q) && InRange(q') && Attributed(q, inner) && q'.attempts == q.attempts && |q'.entries| >= |q.entries|
    requires forall i | 0 <= i < |q.entries| :: q'.entries[i].cancellation == q.entries[i].cancellation
    ensures Attributed(q', inner)
  {
    forall t | 0 <= t < |q'.attempts|
      ensures AttributedAt(q', inner, t)
    {
      assert AttributedAt(q, inner, t);
    }
  }

  lemma SameBefore(q: Queue, q': Queue, e: nat, t: nat)
    requires t <= |q.attempts| && t <= |q'.attempts| && forall u | 0 <= u < t :: q'.attempts[u] == q.attempts[u]
    ensures CancellingBefore(q', e, t) <==> CancellingBefore(q, e, t)
  {
    if u :| 0 <= u < t && q.attempts[u] == Attempt(e, Calling) {
      assert q'.attempts[u] == Attempt(e, Calling);
    }
    if u :| 0 <= u < t && q'.attempts[u] == Attempt(e, Calling) {
      assert q.attempts[u] == Attempt(e, Calling);
    }
  }

  lemma AskAttributed(q: Queue, q': Queue, e: nat, inner: set<nat>)
    requires InRange(q) && Attributed(q, inner) && e < |q.entries| && q.entries[e].cancellation.None?
    requires InRange(q') && q'.entries == q.entries && q'.attempts == q.attempts + [Attempt(e, Calling)]
    requires |q.attempts| !in inner
    ensures Attributed(q', inner + if Cancelling(q, e) then {|q.attempts|} else {})
  {
    var n := |q.attempts|;
    var inner' := inner + if Cancelling(q, e) then {n} else {};
    assert CancellingBefore(q, e, n) == Cancelling(q, e);
    forall t | 0 <= t < |q'.attempts|
      ensures AttributedAt(q', inner', t)
    {
      var f := q'.attempts[t].entry;
      SameBefore(q, q', f, t);
      SameBefore(q, q', f, n);
      assert q'.attempts[n] == Attempt(e, Calling);
      if t < n {
        assert AttributedAt(q, inner, t) && q'.attempts[t] == q.attempts[t];
        assert CancellingBefore(q, f, n) == Cancelling(q, f);
      }
    }
  }

  /** The returning attempt is the last of those being made. */
  lemma TopIsLast(q: Queue, u: nat)
    requires InRange(q) && StackShape(q) && Enabled(q, CancelReturnsStep) && u < |q.attempts| && q.attempts[u].phase.Calling?
    ensures u <= q.stack[|q.stack| - 1].attempt
  {
    var j :| 0 <= j < |q.stack| && q.stack[j] == CancelFrame(q.attempts[u].entry, u);
  }

  lemma ReturnedAttributed(q: Queue, inner: set<nat>)
    requires InRange(q) && StackShape(q) && Attributed(q, inner) && Enabled(q, CancelReturnsStep) && InRange(CancelReturns(q))
    ensures AttributedAt(CancelReturns(q), inner, q.stack[|q.stack| - 1].attempt)
  {
    var q', e, t := CancelReturns(q), q.stack[|q.stack| - 1].entry, q.stack[|q.stack| - 1].attempt;
    assert q.attempts[t] == Attempt(e, Calling) && AttributedAt(q, inner, t);
    SameBefore(q, q', e, t);
    if u :| 0 <= u < |q'.attempts| && q'.attempts[u] == Attempt(e, Calling) {
      TopIsLast(q, u);
      assert u < t && CancellingBefore(q', e, t);
    }
  }

  lemma OthersAttributed(q: Queue, inner: set<nat>, t: nat)
    requires InRange(q) && StackShape(q) && Attributed(q, inner) && Enabled(q, CancelReturnsStep) && InRange(CancelReturns(q))
    requires t < |q.attempts| && t != q.stack[|q.stack| - 1].attempt
    ensures AttributedAt(CancelReturns(q), inner, t)
  {
    var q', frame, e := CancelReturns(q), q.stack[|q.stack| - 1], q.attempts[t].entry;
    assert q.attempts[frame.attempt] == Attempt(frame.entry, Calling) && AttributedAt(q, inner, t);
    assert forall u | 0 <= u < |q.attempts| && u != frame.attempt :: q'.attempts[u] == q.attempts[u];
    if q.attempts[t].phase.Calling? {
      TopIsLast(q, t);
      SameBefore(q, q', e, t);
    } else if e != frame.entry && Cancelling(q, e) {
      var u :| 0 <= u < |q.attempts| && q.attempts[u] == Attempt(e, Calling);
      assert q'.attempts[u] == Attempt(e, Calling);
    }
  }

  lemma ReturnAttributed(q: Queue, inner: set<nat>)
    requires InRange(q) && StackShape(q) && Attributed(q, inner) && Enabled(q, CancelReturnsStep) && InRange(CancelReturns(q))
    ensures Attributed(CancelReturns(q), inner)
  {
    forall t | 0 <= t < |q.attempts|
      ensures AttributedAt(CancelReturns(q), inner, t)
    {
      if t == q.stack[|q.stack| - 1].attempt {
        ReturnedAttributed(q, inner);
      } else {
        OthersAttributed(q, inner, t);
      }
    }
  }

  lemma SettleAttributed(q: Queue, t: nat, acknowledged: bool, inner: set<nat>)
    requires InRange(q) && StackShape(q) && Attributed(q, inner) && Enabled(q, AttemptSettlesStep(t, acknowledged))
    requires InRange(AttemptSettles(q, t, acknowledged))
    ensures Attributed(AttemptSettles(q, t, acknowledged), inner)
  {
    var q' := AttemptSettles(q, t, acknowledged);
    forall u | 0 <= u < |q'.attempts|
      ensures AttributedAt(q', inner, u)
    {
      assert AttributedAt(q, inner, u) && AttributedAt(q, inner, t);
    }
  }

  lemma CancelAttributed(q: Queue, e: nat, inner: set<nat>)
    requires InRange(q) && Attributed(q, inner) && e < |q.entries| && InRange(CancelEntry(q, e))
    requires forall t | t in inner :: t < |q.attempts|
    ensures Attributed(CancelEntry(q, e), inner + MadeInside(q, CancelStep(e), CancelEntry(q, e)))
  {
    hide Attributed, InRange;
    if !q.entries[e].state.Pending? && q.entries[e].state.Active? && q.active == Some(e) && q.entries[e].cancellation.None? {
      AskAttributed(q, CancelEntry(q, e), e, inner);
    } else {
      SameAttempts(q, CancelEntry(q, e), inner);
      assert inner + {} == inner;
    }
  }

  /** The steps that neither make nor end an attempt. */
  predicate LeavesAttempts(step: Step) {
    step.EnqueueStep? || step.RunReturnsStep? || step.RunCompletesStep? || step.CloseStep?
  }

  lemma AttemptsLeft(q: Queue, step: Step)
    requires InRange(q) && Enabled(q, step) && LeavesAttempts(step)
    ensures Next(q, step).attempts == q.attempts && |Next(q, step).entries| >= |q.entries|
    ensures forall i | 0 <= i < |q.entries| :: Next(q, step).entries[i].cancellation == q.entries[i].cancellation
  {
  }

  lemma StepAttributed(q: Queue, step: Step, inner: set<nat>)
    requires Inv(q) && Enabled(q, step) && Attributed(q, inner) && forall t | t in inner :: t < |q.attempts|
    ensures InRange(Next(q, step)) && Attributed(Next(q, step), inner + MadeInside(q, step, Next(q, step)))
    ensures forall t | t in inner + MadeInside(q, step, Next(q, step)) :: t < |Next(q, step).attempts|
  {
    hide Attributed, Cancelling, StatesAgree, WorkConserving, SettledOnce, Fifo;
    hide Enqueue, RunReturns, Complete, CancelEntry, CancelReturns, AttemptSettles, Close;
    StepInv(q, step);
    OnlyTheActiveEntryIsAsked(q, step);
    assert inner + {} == inner;
    if LeavesAttempts(step) {
      AttemptsLeft(q, step);
      SameAttempts(q, Next(q, step), inner);
    } else {
      match step
      case CancelStep(e) => CancelAttributed(q, e, inner);
      case CancelActiveStep => if q.active.Some? { CancelAttributed(q, q.active.value, inner); }
      case CancelReturnsStep => ReturnAttributed(q, inner);
      case AttemptSettlesStep(t, ack) => SettleAttributed(q, t, ack, inner);
    }
  }

  lemma {:induction false} RunsAttribute(maxPending: nat, qs: seq<Queue>, steps: seq<Step>, k: nat)
    requires IsRun(maxPending, qs, steps) && k < |qs|
    ensures Inv(qs[k]) && Attributed(qs[k], Inner(qs, steps, k))
    ensures forall t | t in Inner(qs, steps, k) :: t < |qs[k].attempts|
  {
    hide InRange, StatesAgree, WorkConserving, StackShape, SettledOnce, Fifo, Attributed, MadeInside, Next, Enabled;
    RunsKeepInv(maxPending, qs, steps, k);
    if k == 0 {
      NewAttributed(maxPending);
    } else {
      RunsAttribute(maxPending, qs, steps, k - 1);
      assert StepAt(qs, steps, k - 1);
      StepAttributed(qs[k - 1], steps[k - 1], Inner(qs, steps, k - 1));
    }
  }

  lemma NewAttributed(maxPending: nat)
    ensures Inv(New(maxPending)) && Attributed(New(maxPending), {})
  {
    NewInv(maxPending);
  }

  /**
    In every run, re-entrant or not, the identity check holds when an attempt settles if and only if the
    attempt was not made inside another attempt of its entry.
   */
  lemma IdentityCheckHoldsExactly(maxPending: nat, qs: seq<Queue>, steps: seq<Step>, k: nat)
    requires IsRun(maxPending, qs, steps) && k < |steps| && steps[k].AttemptSettlesStep?
    ensures InRange(qs[k]) && steps[k].attempt < |qs[k].attempts|
    ensures IdentityCheckHolds(qs[k], steps[k].attempt) <==> steps[k].attempt !in Inner(qs, steps, k)
  {
    RunsAttribute(maxPending, qs, steps, k);
    assert StepAt(qs, steps, k);
    assert AttributedAt(qs[k], Inner(qs, steps, k), steps[k].attempt);
  }

  /** The first two steps of a re-entrant cancellation: the inner call is made, returns and is stored. */
  lemma InnerAttemptShape(q: Queue, e: nat)
    requires InRange(q) && StatesAgree(q) && q.active == Some(e) && q.entries[e].cancellation == None
    ensures CancelEntry(q, e) == q.(attempts := q.attempts + [Attempt(e, Calling)],
                                    stack := q.stack + [CancelFrame(e, |q.attempts|)])
    ensures InRange(CancelEntry(q, e)) && Enabled(CancelEntry(q, e), CancelReturnsStep)
    ensures var q2 := CancelReturns(CancelEntry(q, e));
            q2.stack == q.stack && q2.attempts == q.attempts + [Attempt(e, Outstanding)]
  {
  }

  lemma InnerAttemptReturns(q: Queue, e: nat)
    requires Inv(q) && q.active == Some(e) && q.entries[e].cancellation == None
    ensures Inv(CancelEntry(q, e)) && Enabled(CancelEntry(q, e), CancelReturnsStep)
    ensures var q2 := CancelReturns(CancelEntry(q, e));
            Inv(q2) && q2.stack == q.stack && q2.attempts == q.attempts + [Attempt(e, Outstanding)]
  {
    InnerAttemptShape(q, e);
    CancelEntryInv(q, e);
    CancelReturnsInv(CancelEntry(q, e));
  }

  lemma OuterCallOverwrites(q: Queue, q2: Queue, e: nat)
    requires Inv(q2) && q2.stack == q.stack && q2.attempts == q.attempts + [Attempt(e, Outstanding)]
    requires q.stack != [] && q.stack[|q.stack| - 1].CancelFrame? && q.stack[|q.stack| - 1].entry == e
    requires q.stack[|q.stack| - 1].attempt < |q.attempts|
    ensures Enabled(q2, CancelReturnsStep) && InRange(CancelReturns(q2))
    ensures |q.attempts| < |CancelReturns(q2).attempts|
    ensures CancelReturns(q2).attempts[|q.attempts|] == Attempt(e, Outstanding)
    ensures !IdentityCheckHolds(CancelReturns(q2), |q.attempts|)
  {
    CancelReturnsInv(q2);
  }

  /** An attempt that has returned and is not the stored one never is again. */
  lemma OverwrittenStaysSo(q: Queue, step: Step, t: nat)
    requires Inv(q) && Enabled(q, step) && t < |q.attempts| && !q.attempts[t].phase.Calling? && !IdentityCheckHolds(q, t)
    ensures InRange(Next(q, step)) && t < |Next(q, step).attempts|
    ensures !Next(q, step).attempts[t].phase.Calling? && !IdentityCheckHolds(Next(q, step), t)
  {
    hide StatesAgree, WorkConserving, SettledOnce, Fifo, Next;
    StepInv(q, step);
    if LeavesAttempts(step) {
      AttemptsLeft(q, step);
    } else {
      OverwrittenByNone(q, step, t);
    }
  }

  lemma OverwrittenByNone(q: Queue, step: Step, t: nat)
    requires Inv(q) && Enabled(q, step) && t < |q.attempts| && !LeavesAttempts(step) && Inv(Next(q, step))
    requires !q.attempts[t].phase.Calling? && !IdentityCheckHolds(q, t)
    ensures t < |Next(q, step).attempts|
    ensures !Next(q, step).attempts[t].phase.Calling? && !IdentityCheckHolds(Next(q, step), t)
  {
    hide StatesAgree, WorkConserving, SettledOnce, Fifo, Enqueue, RunReturns, Complete, Close;
    if step.CancelReturnsStep? {
      OverwrittenByReturn(q, t);
    } else {
      hide CancelReturns;
    }
  }

  lemma OverwrittenByReturn(q: Queue, t: nat)
    requires Inv(q) && Enabled(q, CancelReturnsStep) && t < |q.attempts|
    requires !q.attempts[t].phase.Calling? && !IdentityCheckHolds(q, t)
    ensures t < |CancelReturns(q).attempts|
    ensures !CancelReturns(q).attempts[t].phase.Calling? && !IdentityCheckHolds(CancelReturns(q), t)
  {
    hide StatesAgree, WorkConserving, SettledOnce, Fifo;
    assert q.attempts[q.stack[|q.stack| - 1].attempt].phase.Calling?;
  }

  lemma {:induction false} OverwrittenForGood(maxPending: nat, qs: seq<Queue>, steps: seq<Step>, j: nat, k: nat, t: nat)
    requires IsRun(maxPending, qs, steps) && j <= k < |qs| && InRange(qs[j]) && t < |qs[j].attempts|
    requires !qs[j].attempts[t].phase.Calling? && !IdentityCheckHolds(qs[j], t)
    ensures InRange(qs[k]) && t < |qs[k].attempts|
    ensures !qs[k].attempts[t].phase.Calling? && !IdentityCheckHolds(qs[k], t)
  {
    hide InRange, StatesAgree, WorkConserving, StackShape, SettledOnce, Fifo, Next, Enabled, New, IdentityCheckHolds;
    if j < k {
      OverwrittenForGood(maxPending, qs, steps, j, k - 1, t);
      RunsKeepInv(maxPending, qs, steps, k - 1);
      assert StepAt(qs, steps, k - 1);
      OverwrittenStaysSo(qs[k - 1], steps[k - 1], t);
    }
  }

  /**
    In any state where a `requestCancellation` on the stack cancels its own active entry, the inner
    attempt is overwritten by the outer one as both calls return, and its identity check fails.  By
    `OverwrittenForGood` it fails from then on.
   */
  lemma ReentrantCancellationIsOverwritten(q: Queue, e: nat)
    requires Inv(q) && SoleAttempts(q) && q.active == Some(e)
    requires q.stack != [] && q.stack[|q.stack| - 1].CancelFrame? && q.stack[|q.stack| - 1].entry == e
    ensures SelfCancels(q, CancelStep(e))
    ensures var q1 := CancelEntry(q, e);
            Inv(q1) && Enabled(q1, CancelReturnsStep)
    ensures var q2 := CancelReturns(CancelEntry(q, e));
            Inv(q2) && Enabled(q2, CancelReturnsStep)
    ensures var q3 := CancelReturns(CancelReturns(CancelEntry(q, e)));
            && InRange(q3) && |q.attempts| < |q3.attempts|
            && q3.attempts[|q.attempts|] == Attempt(e, Outstanding)
            && !IdentityCheckHolds(q3, |q.attempts|)
  {
    hide StatesAgree, WorkConserving, SettledOnce, Fifo, SoleAttempts, SelfCancels, CancelEntry, CancelReturns;
    hide IdentityCheckHolds;
    SelfCancellation(q, e);
    InnerAttemptReturns(q, e);
    OuterCallOverwrites(q, CancelReturns(CancelEntry(q, e)), e);
  }

  lemma SelfCancellation(q: Queue, e: nat)
    requires InRange(q) && StackShape(q) && SoleAttempts(q) && q.active == Some(e) && q.stack != []
    requires q.stack[|q.stack| - 1].CancelFrame? && q.stack[|q.stack| - 1].entry == e
    ensures SelfCancels(q, CancelStep(e)) && q.entries[e].cancellation == None
  {
    assert q.attempts[q.stack[|q.stack| - 1].attempt] == Attempt(e, Calling);
  }

  // ----- A run in which attempts overlap -----

  /** The caller's `requestCancellation` cancels the entry once more before it returns. */
  function OverlapSteps(): seq<Step> {
    [EnqueueStep, RunReturnsStep, CancelStep(0), CancelStep(0), CancelReturnsStep, CancelReturnsStep]
  }

  function OverlapState(maxPending: nat, k: nat): Queue {
    if k == 0 then New(maxPending)
    else
      Queue(maxPending, false, Some(0), [],
            [Entry(Active, [], if k < 5 then None else if k == 5 then Some(1) else Some(0))],
            if k == 1 then [RunFrame(0, None)]
            else if k == 3 || k == 5 then [CancelFrame(0, 0)]
            else if k == 4 then [CancelFrame(0, 0), CancelFrame(0, 1)]
            else [],
            if k == 1 then {} else {0},
            if k < 3 then []
            else if k == 3 then [Attempt(0, Calling)]
            else [Attempt(0, if k < 6 then Calling else Outstanding), Attempt(0, if k < 5 then Calling else Outstanding)],
            [0], {})
  }

  lemma OverlapEnqueues(maxPending: nat)
    ensures StepsTo(OverlapState(maxPending, 0), EnqueueStep, OverlapState(maxPending, 1))
  {
    assert Enqueue(New(maxPending)) == OverlapState(maxPending, 1);
  }

  lemma OverlapRuns(maxPending: nat)
    ensures StepsTo(OverlapState(maxPending, 1), RunReturnsStep, OverlapState(maxPending, 2))
  {
    var q := OverlapState(maxPending, 1);
    assert q.stack[..0] == [] && q.executions + {0} == {0};
    assert RunReturns(q) == OverlapState(maxPending, 2);
  }

  lemma OverlapAsks(maxPending: nat)
    ensures StepsTo(OverlapState(maxPending, 2), CancelStep(0), OverlapState(maxPending, 3))
    ensures StepsTo(OverlapState(maxPending, 3), CancelStep(0), OverlapState(maxPending, 4))
  {
    assert CancelEntry(OverlapState(maxPending, 2), 0) == OverlapState(maxPending, 3);
    assert CancelEntry(OverlapState(maxPending, 3), 0) == OverlapState(maxPending, 4);
  }

  lemma OverlapReturns(maxPending: nat)
    ensures StepsTo(OverlapState(maxPending, 4), CancelReturnsStep, OverlapState(maxPending, 5))
    ensures StepsTo(OverlapState(maxPending, 5), CancelReturnsStep, OverlapState(maxPending, 6))
  {
    var q4, q5 := OverlapState(maxPending, 4), OverlapState(maxPending, 5);
    assert q4.stack[..1] == [CancelFrame(0, 0)] && q5.stack[..0] == [];
    assert CancelReturns(q4) == q5;
    assert CancelReturns(q5) == OverlapState(maxPending, 6);
  }

  lemma OverlapStep(maxPending: nat, k: nat)
    requires k < 6
    ensures StepsTo(OverlapState(maxPending, k), OverlapSteps()[k], OverlapState(maxPending, k + 1))
  {
    hide StepsTo, OverlapState;
    match k
    case 0 => OverlapEnqueues(maxPending);
    case 1 => OverlapRuns(maxPending);
    case 2 => OverlapAsks(maxPending);
    case 3 => OverlapAsks(maxPending);
    case 4 => OverlapReturns(maxPending);
    case 5 => OverlapReturns(maxPending);
  }

  lemma OverlapFacts(maxPending: nat)
    ensures SelfCancels(OverlapState(maxPending, 3), CancelStep(0))
    ensures !Separate(OverlapState(maxPending, 4)) && !Separate(OverlapState(maxPending, 6))
  {
    var q3, q4, q6 := OverlapState(maxPending, 3), OverlapState(maxPending, 4), OverlapState(maxPending, 6);
    assert q3.attempts[0] == Attempt(0, Calling);
    assert q4.attempts[0].entry == q4.attempts[1].entry;
    assert q6.attempts[0].entry == q6.attempts[1].entry;
  }

  /** From a new queue of any capacity: two attempts of one entry outstanding, and one of them forgotten. */
  lemma AttemptsMayOverlap(maxPending: nat) returns (qs: seq<Queue>)
    ensures IsRun(maxPending, qs, OverlapSteps()) && |qs| == 7
    ensures qs[6].stack == [] && qs[6].attempts == [Attempt(0, Outstanding), Attempt(0, Outstanding)]
    ensures SelfCancels(qs[3], OverlapSteps()[3]) && !Separate(qs[4]) && !Separate(qs[6])
    ensures InRange(qs[6]) && IdentityCheckHolds(qs[6], 0) && !IdentityCheckHolds(qs[6], 1)
  {
    hide StepsTo, SelfCancels, Separate;
    qs := seq(7, k requires 0 <= k < 7 => OverlapState(maxPending, k));
    forall k | 0 <= k < 6
      ensures StepAt(qs, OverlapSteps(), k)
    {
      OverlapStep(maxPending, k);
    }
    OverlapFacts(maxPending);
  }
}
