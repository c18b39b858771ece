/**
  Shutdown of the analyze-project server: it happens once, closes the queue, starts no analysis
  afterwards, and is the one case where a stream may be written to after its error.
 */
module AnalyzeServerShutdown {
  import opened Options
  import opened AnalyzeServer
  import opened AnalyzeServerTheorems

  function Rank(phase: Phase): nat {
    match phase
    case Serving => 0
    case Cancelling => 1
    case Terminating => 2
    case Down => 3
  }

  /** One call of `shutdown` at most got past the guard, and its rest is what `phase` shows. */
  ghost predicate ForcedOnce(s: Server) {
    && s.continuations == (if s.phase == Serving then 0 else 1)
    && s.forcedShutdowns == (if s.phase == Down then s.continuations else 0)
  }

  /** A closed queue has settled every entry it ever accepted, once. */
  lemma ClosedIsSettled(q: Q.Queue, e: nat)
    requires Q.Inv(q) && q.stack == [] && q.closed && e < |q.entries|
    ensures q.entries[e].state.Settled? && |q.entries[e].settlements| == 1
  {
    assert q.active.None? && q.pending == [];
    assert q.entries[e].state.Settled?;
  }

  /** What one step may do to the phase, the forced shutdowns and the set of started analyses. */
  ghost predicate ShutsDownOnce(s: Server, s': Server) {
    && Rank(s.phase) <= Rank(s'.phase)
    && (ForcedOnce(s) ==> ForcedOnce(s'))
    && (s.phase != Serving ==> s'.queue.started == s.queue.started && |s'.queue.entries| == |s.queue.entries|)
  }

  lemma ArrivalExtendsQueue(s: Server, kind: CallKind, cancelled: bool)
    requires Linked(s)
    ensures Q.Extends(s.queue, CallArrives(s, kind, cancelled).queue)
  {
    CallMoves(s.queue, Q.EnqueueStep);
  }

  lemma TransportCancelExtendsQueue(s: Server, c: nat)
    requires Linked(s) && c < |s.calls|
    ensures Q.Extends(s.queue, TransportCancels(s, c).queue)
  {
    if s.calls[c].entry.Some? {
      CallMoves(s.queue, Q.CancelStep(s.calls[c].entry.value));
    }
  }

  lemma SettlingExtendsQueue(s: Server, step: Step)
    requires Linked(s) && Enabled(s, step) && (step.RunSettlesStep? || step.AttemptSettlesStep?)
    ensures Q.Extends(s.queue, Next(s, step).queue)
  {
    if step.RunSettlesStep? {
      CallMoves(s.queue, Q.RunCompletesStep(step.entry, s.resolvedRuns[step.entry]));
    } else {
      CallMoves(s.queue, Q.AttemptSettlesStep(step.attempt, s.resolvedAttempts[step.attempt]));
    }
  }

  lemma CallStepExtendsQueue(s: Server, step: Step)
    requires Linked(s) && Enabled(s, step) && CallStep(step)
    ensures Q.Extends(s.queue, Next(s, step).queue)
  {
    match step
    case CallArrivesStep(kind, cancelled) => ArrivalExtendsQueue(s, kind, cancelled);
    case TransportCancelsStep(c) => TransportCancelExtendsQueue(s, c);
    case CancelRpcStep => CallMoves(s.queue, Q.CancelActiveStep);
    case CallContinuesStep(c) => CallContinuesShape(s, c);
    case RunSettlesStep(_) => SettlingExtendsQueue(s, step);
    case AttemptSettlesStep(_) => SettlingExtendsQueue(s, step);
  }

  lemma ArrivalKeepsPhase(s: Server, kind: CallKind, cancelled: bool)
    requires QueueReady(s)
    ensures CallArrives(s, kind, cancelled).phase == s.phase
    ensures CallArrives(s, kind, cancelled).forcedShutdowns == s.forcedShutdowns
    ensures CallArrives(s, kind, cancelled).continuations == s.continuations
    ensures CallArrives(s, kind, cancelled).timing == s.timing
  {
  }

  lemma SettlingKeepsPhase(s: Server, step: Step)
    requires Linked(s) && Enabled(s, step) && (step.RunSettlesStep? || step.AttemptSettlesStep? || step.CancelRpcStep?)
    ensures Next(s, step).phase == s.phase && Next(s, step).forcedShutdowns == s.forcedShutdowns
    ensures Next(s, step).continuations == s.continuations
    ensures Next(s, step).timing == s.timing
  {
  }

  lemma CallStepKeepsPhase(s: Server, step: Step)
    requires Linked(s) && Enabled(s, step) && CallStep(step)
    ensures Next(s, step).phase == s.phase && Next(s, step).forcedShutdowns == s.forcedShutdowns
    ensures Next(s, step).continuations == s.continuations
    ensures Next(s, step).timing == s.timing
  {
    match step
    case CallArrivesStep(kind, cancelled) => ArrivalKeepsPhase(s, kind, cancelled);
    case TransportCancelsStep(_) =>
    case CallContinuesStep(_) =>
    case _ => SettlingKeepsPhase(s, step);
  }

  lemma ShutdownShape(s: Server)
    requires QueueReady(s)
    ensures Shutdown(s).forcedShutdowns == s.forcedShutdowns
    ensures s.phase != Serving ==> Shutdown(s) == s
    ensures s.phase == Serving ==> Shutdown(s).phase == Cancelling && Shutdown(s).queue == Call(s.queue, Q.CloseStep)
  {
  }

  lemma TimedShutdownShape(s: Server, timing: Timing)
    requires Linked(s)
    ensures Q.Extends(s.queue, Shutdown(s.(timing := timing)).queue)
    ensures ForcedOnce(s) ==> ForcedOnce(Shutdown(s.(timing := timing)))
    ensures Rank(s.phase) <= Rank(Shutdown(s.(timing := timing)).phase)
  {
    CloseMoves(s.queue);
  }

  /** `s'` has the queue of `s` or an extension of it, a phase no earlier, and the forced shutdown counted. */
  ghost predicate ShutsDown(s: Server, s': Server) {
    Q.Extends(s.queue, s'.queue) && Rank(s.phase) <= Rank(s'.phase) && (ForcedOnce(s) ==> ForcedOnce(s'))
  }

  lemma WorkerFailsShutsDown(s: Server)
    requires Linked(s)
    ensures ShutsDown(s, WorkerFails(s))
  {
    TimedShutdownShape(s, s.timing);
  }

  lemma QuietStepShutsDown(s: Server, step: Step)
    requires Linked(s) && Enabled(s, step)
    requires step.AttemptTimesOutStep? || step.LeaseArrivesStep? || step.LeaseLostStep? || step.ShutdownContinuesStep?
    ensures ShutsDown(s, Next(s, step))
  {
    hide Linked, Shutdown, Receive, CallArrives, TransportCancels, Call, RunSettles, AttemptSettles;
    hide CallContinues, WorkerFails, Deliver, EmitEvent, EndScope, EndSession, PostCompletion, PostAck;
  }

  lemma ParentStepShutsDownOnce(s: Server, step: Step)
    requires Linked(s) && Enabled(s, step) && !CallStep(step) && !WorkerStep(step)
    ensures ShutsDown(s, Next(s, step))
  {
    hide Protocol, CallArrives, TransportCancels, Call, RunSettles, AttemptSettles, CallContinues, Deliver;
    hide EmitEvent, EndScope, EndSession, PostCompletion, PostAck;
    match step
    case ImmediateFiresStep => TimedShutdownShape(s, s.timing.(immediates := s.timing.immediates - 1));
    case StartupTimerFiresStep => TimedShutdownShape(s, s.timing.(startupTimer := false));
    case WorkerFailsStep => WorkerFailsShutsDown(s);
    case ReceiveStep => ReceiveKeepsPhase(s);
    case _ => QuietStepShutsDown(s, step);
  }

  lemma ReceiveKeepsPhase(s: Server)
    requires Linked(s) && s.received < |s.outbox|
    ensures Receive(s).phase == s.phase && Receive(s).forcedShutdowns == s.forcedShutdowns
    ensures Receive(s).continuations == s.continuations
    ensures Receive(s).queue == s.queue
    ensures Receive(s).timing == s.timing
  {
  }

  lemma WorkerKeepsPhase(s: Server, step: Step)
    requires Linked(s) && Enabled(s, step) && WorkerStep(step)
    ensures Next(s, step).phase == s.phase && Next(s, step).forcedShutdowns == s.forcedShutdowns
    ensures Next(s, step).continuations == s.continuations
    ensures Next(s, step).timing == s.timing
  {
  }

  lemma StepShutsDownOnce(s: Server, step: Step)
    requires Core(s) && Enabled(s, step)
    ensures ShutsDownOnce(s, Next(s, step)) && Q.Extends(s.queue, Next(s, step).queue)
  {
    if CallStep(step) {
      CallStepExtendsQueue(s, step);
      CallStepKeepsPhase(s, step);
    } else if WorkerStep(step) {
      WorkerLeavesParent(s, step);
      WorkerKeepsPhase(s, step);
    } else {
      ParentStepShutsDownOnce(s, step);
    }
  }

  /**
    Whatever races with whatever (lease loss, worker failure, startup timeout): in every run one call of
    `shutdown` at most gets past its guard, so its asynchronous rest never races with another, and the
    forced shutdown has happened exactly once if the server is down and not at all before.
   */
  lemma {:induction false} ShutdownHappensOnce(maxPending: nat, timer: bool, ss: seq<Server>, steps: seq<Step>, k: nat)
    requires IsRun(maxPending, timer, ss, steps) && k < |ss|
    ensures ss[k].continuations == (if ss[k].phase == Serving then 0 else 1)
    ensures ss[k].forcedShutdowns == (if ss[k].phase == Down then 1 else 0)
  {
    hide Linked, Protocol, Enabled, Next;
    if k > 0 {
      ShutdownHappensOnce(maxPending, timer, ss, steps, k - 1);
      RunsKeepCore(maxPending, timer, ss, steps, k - 1);
      assert StepAt(ss, steps, k - 1);
      StepShutsDownOnce(ss[k - 1], steps[k - 1]);
    }
  }

  /** From the moment shutdown begins, every accepted entry is settled, exactly once and for good. */
  lemma ShutdownSettlesEverything(maxPending: nat, timer: bool, ss: seq<Server>, steps: seq<Step>, k: nat, e: nat)
    requires IsRun(maxPending, timer, ss, steps) && k < |ss| && ss[k].phase != Serving && e < |ss[k].queue.entries|
    ensures ss[k].queue.entries[e].state.Settled? && |ss[k].queue.entries[e].settlements| == 1
    ensures ss[k].queue.active.None? && ss[k].queue.pending == []
  {
    RunsKeepCore(maxPending, timer, ss, steps, k);
    ClosedIsSettled(ss[k].queue, e);
  }

  /** The step that begins shutdown rejects exactly the outstanding entries as closed, and no settled one. */
  lemma ShutdownRejectsTheOutstanding(s: Server, step: Step, e: nat)
    requires Core(s) && Enabled(s, step) && s.phase == Serving && Next(s, step).phase != Serving && e < |s.queue.entries|
    ensures |Next(s, step).queue.entries| == |s.queue.entries|
    ensures Next(s, step).queue.entries[e].settlements
            == if s.queue.entries[e].settlements == [] then [Q.Rejected(Q.QueueClosed)] else s.queue.entries[e].settlements
  {
    OnlyShutdownLeavesServing(s, step);
    CloseMoves(s.queue);
    CloseRejects(s.queue, e);
  }

  lemma CloseRejects(q: Q.Queue, e: nat)
    requires Q.Inv(q) && q.stack == [] && !q.closed && e < |q.entries|
    ensures var q' := Call(q, Q.CloseStep);
            && |q'.entries| == |q.entries|
            && q'.entries[e].settlements
               == if q.entries[e].settlements == [] then [Q.Rejected(Q.QueueClosed)] else q.entries[e].settlements
  {
    CloseFields(q);
    assert q.entries[e].state.Settled? <==> q.entries[e].settlements != [];
  }

  lemma OnlyShutdownLeavesServing(s: Server, step: Step)
    requires Core(s) && Enabled(s, step) && s.phase == Serving && Next(s, step).phase != Serving
    ensures Next(s, step).queue == Call(s.queue, Q.CloseStep)
  {
    if CallStep(step) {
      CallStepKeepsPhase(s, step);
    } else if WorkerStep(step) {
      WorkerKeepsPhase(s, step);
    } else {
      LeavingServing(s, step);
    }
  }

  lemma LeavingServing(s: Server, step: Step)
    requires Linked(s) && Enabled(s, step) && !CallStep(step) && !WorkerStep(step)
    requires s.phase == Serving && Next(s, step).phase != Serving
    ensures Next(s, step).queue == Call(s.queue, Q.CloseStep)
  {
    match step
    case ImmediateFiresStep => ShutdownShape(s.(timing := s.timing.(immediates := s.timing.immediates - 1)));
    case StartupTimerFiresStep => ShutdownShape(s.(timing := s.timing.(startupTimer := false)));
    case WorkerFailsStep => ShutdownShape(s);
    case ReceiveStep => ReceiveKeepsPhase(s);
    case _ =>
  }

  /** Once shutdown has begun no analysis is started or posted, and no settled outcome changes. */
  lemma NothingStartsAfterShutdown(s: Server, step: Step)
    requires Core(s) && Enabled(s, step) && s.phase != Serving
    ensures var s' := Next(s, step);
            && s'.phase != Serving && s'.queue.started == s.queue.started
            && (forall e | 0 <= e < |s.queue.entries| :: |s'.queue.entries| == |s.queue.entries|
                  && s'.queue.entries[e].settlements == s.queue.entries[e].settlements)
            && (|s'.posted| > |s.posted| ==> !s'.posted[|s.posted|].Analyze?)
  {
    StepShutsDownOnce(s, step);
    StepCore(s, step);
    var s' := Next(s, step);
    forall e | 0 <= e < |s.queue.entries|
      ensures s'.queue.entries[e].settlements == s.queue.entries[e].settlements
    {
      ClosedIsSettled(s.queue, e);
      ClosedIsSettled(s'.queue, e);
    }
    if CallStep(step) {
      CallStepPosts(s, step);
    } else if WorkerStep(step) {
      WorkerLeavesParent(s, step);
    } else {
      ParentStepPosts(s, step);
    }
  }

  // ----- After shutdown a stream may be written to after its error -----

  function RaceSteps(): seq<Step> {
    [CallArrivesStep(Stream, false), DeliverStep(NoCache), EmitEventStep(1), StartupTimerFiresStep, CallContinuesStep(0), ReceiveStep]
  }

  function StartedQueue(): Q.Queue {
    Q.Queue(4, false, Some(0), [], [Q.Entry(Q.Active, [], None)], [], {0}, [], [0], {})
  }

  function ClosedQueue(): Q.Queue {
    StartedQueue().(closed := true, active := None, entries := [Q.Entry(Q.Settled, [Q.Rejected(Q.QueueClosed)], None)])
  }

  /** The states of that run; the stream's own call is the last thing to change. */
  function RaceState(k: nat): Server
    requires k <= 6
  {
    var idle := Worker(None, {}, map[], None, false, false, {});
    var outputs := if k < 5 then [] else if k == 5 then [Error(Unavailable)] else [Error(Unavailable), Write(0)];
    var call := ClientCall(Stream, Some(0), false, k >= 5, outputs);
    if k == 0 then New(4, true)
    else
      Server(if k < 4 then StartedQueue() else ClosedQueue(), if k < 4 then 1 else 2, map[0 := 1], map[1 := RunOf(0)],
             map[], map[], [call], [0], if k < 4 then [Analyze(1, 0)] else [Analyze(1, 0), Cancel(2, 1)],
             if k < 2 then 0 else 1, if k < 3 then [] else [Event(1, 0)], if k < 6 then 0 else 1,
             if k < 2 then idle else idle.(status := Some(1), handlers := map[1 := Running(false)]), true,
             if k < 4 then Serving else Cancelling, if k < 4 then 0 else 1, 0, Timing(None, 0, k < 4, 0))
  }

  function StartingQueue(): Q.Queue {
    StartedQueue().(executions := {}, stack := [Q.RunFrame(0, None)])
  }

  lemma RaceReturns()
    ensures Returned(StartingQueue()) == StartedQueue()
  {
    var q := StartingQueue();
    assert q.stack[..0] == [] && q.executions + {0} == {0};
    assert Q.RunReturns(q) == q.(stack := [], executions := {0});
  }

  lemma RaceStarts()
    ensures Q.Enqueue(Q.New(4)) == StartingQueue()
  {
    var q := Q.Enqueue(Q.New(4));
    assert q.entries == [Q.Entry(Q.Active, [], None)] && q.stack == [Q.RunFrame(0, None)] && q.started == [0];
  }

  lemma RaceEnqueues()
    ensures Q.Inv(Q.New(4)) && Call(Q.New(4), Q.EnqueueStep) == StartedQueue()
  {
    Q.NewInv(4);
    RaceStarts();
    RaceReturns();
  }

  lemma RaceCloses()
    requires Q.Inv(StartedQueue())
    ensures Call(StartedQueue(), Q.CloseStep) == ClosedQueue()
  {
    Q.StepInv(StartedQueue(), Q.CloseStep);
    assert 0 in Q.ClosingEntries(StartedQueue());
    assert [] + [Q.Rejected(Q.QueueClosed)] == [Q.Rejected(Q.QueueClosed)];
    assert Q.Close(StartedQueue()).entries == ClosedQueue().entries;
    assert Q.Close(StartedQueue()).dropped == {};
  }

  lemma RaceStep1()
    requires Linked(RaceState(0))
    ensures StepsTo(RaceState(0), RaceSteps()[0], RaceState(1))
  {
    hide Linked;
    RaceEnqueues();
    assert CallArrives(RaceState(0), Stream, false) == RaceState(1);
  }

  lemma RaceStep2()
    requires Linked(RaceState(1))
    ensures StepsTo(RaceState(1), RaceSteps()[1], RaceState(2))
  {
    assert Deliver(RaceState(1), NoCache) == RaceState(2);
  }

  lemma RaceStep3()
    requires Linked(RaceState(2))
    ensures StepsTo(RaceState(2), RaceSteps()[2], RaceState(3))
  {
    assert EmitEvent(RaceState(2), 1) == RaceState(3);
  }

  lemma RaceStep4()
    requires Linked(RaceState(3))
    ensures StepsTo(RaceState(3), RaceSteps()[3], RaceState(4))
  {
    RaceCloses();
    assert Shutdown(RaceState(3).(timing := Timing(None, 0, false, 0))) == RaceState(4);
  }

  lemma RaceStep5()
    requires Linked(RaceState(4))
    ensures StepsTo(RaceState(4), RaceSteps()[4], RaceState(5))
  {
    var s := RaceState(4);
    assert s.calls[0].outputs + [Error(Unavailable)] == [Error(Unavailable)];
    assert CallContinues(s, 0).calls == [s.calls[0].(done := true, outputs := [Error(Unavailable)])];
    CallContinuesShape(s, 0);
    assert CallContinues(s, 0) == RaceState(5);
  }

  lemma RaceStep6()
    requires Linked(RaceState(5))
    ensures StepsTo(RaceState(5), RaceSteps()[5], RaceState(6))
  {
    hide Linked;
    var s := RaceState(5);
    assert s.calls[0].outputs + [Write(0)] == [Error(Unavailable), Write(0)];
    assert Receive(s).calls == [s.calls[0].(outputs := [Error(Unavailable), Write(0)])];
    assert Receive(s) == s.(received := 1, calls := Receive(s).calls);
    assert Receive(s) == RaceState(6);
  }

  lemma RaceStep(k: nat)
    requires k < 6 && Linked(RaceState(k))
    ensures StepsTo(RaceState(k), RaceSteps()[k], RaceState(k + 1))
  {
    if k < 3 {
      EarlyRaceStep(k);
    } else {
      LateRaceStep(k);
    }
  }

  lemma EarlyRaceStep(k: nat)
    requires k < 3 && Linked(RaceState(k))
    ensures StepsTo(RaceState(k), RaceSteps()[k], RaceState(k + 1))
  {
    match k
    case 0 => RaceStep1();
    case 1 => RaceStep2();
    case 2 => RaceStep3();
  }

  lemma LateRaceStep(k: nat)
    requires 3 <= k < 6 && Linked(RaceState(k))
    ensures StepsTo(RaceState(k), RaceSteps()[k], RaceState(k + 1))
  {
    match k
    case 3 => RaceStep4();
    case 4 => RaceStep5();
    case 5 => RaceStep6();
  }

  lemma {:induction false} RaceReaches(k: nat)
    requires k <= 6
    ensures Core(RaceState(k))
  {
    hide Linked, Protocol, Enabled, Next, New;
    if k == 0 {
      NewCore(4, true);
    } else {
      RaceReaches(k - 1);
      RaceStep(k - 1);
      StepCore(RaceState(k - 1), RaceSteps()[k - 1]);
    }
  }

  /**
    There is a run in which a stream is failed by shutdown and then still written to: the order of one
    reply per call holds only while the server is serving.
   */
  lemma StreamMayBeWrittenAfterItsError() returns (ss: seq<Server>)
    ensures IsRun(4, true, ss, RaceSteps())
    ensures |ss| == 7 && ss[6].phase != Serving && |ss[6].calls| == 1
    ensures ss[6].calls[0].outputs == [Error(Unavailable), Write(0)]
  {
    ss := seq(7, k requires 0 <= k < 7 => RaceState(k));
    forall k | 0 <= k < 6
      ensures StepAt(ss, RaceSteps(), k)
    {
      RaceReaches(k);
      RaceStep(k);
    }
  }
}
