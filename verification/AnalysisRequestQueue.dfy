/**
  The queue class of packages/grpc/src/analyze-project-server-queue.ts, updated in place and proved
  to move exactly as the machine of module AnalysisQueue.

  A method returns at the point where the source calls `run()` or `requestCancellation()`; a second
  method continues the call once that callback is over, and takes the suspended call's locals.
 */
module AnalysisRequestQueues {
  import opened Options
  import Q = AnalysisQueue

  class QueueEntry {
    ghost const id: nat
    var state: Q.EntryState
    var cancellationResult: Option<nat>
    var settlements: seq<Q.Settlement>

    constructor (ghost id: nat, state: Q.EntryState)
      ensures this.id == id && this.state == state && cancellationResult == None && settlements == []
    {
      this.id := id;
      this.state := state;
      cancellationResult := None;
      settlements := [];
    }

    ghost function View(): Q.Entry
      reads this
    {
      Q.Entry(state, settlements, cancellationResult)
    }
  }

  /** What `cancelEntry` answers at once, or that it is asking `requestCancellation` first. */
  datatype CancelAnswer = NotActive | Shared(promise: nat) | Asking(promise: nat)

  class AnalysisRequestQueue {
    const maxPending: nat
    var active: QueueEntry?
    var closed: bool
    var pending: seq<QueueEntry>
    var nextPromise: nat
    ghost var entries: seq<QueueEntry>
    ghost var model: Q.Queue

    /** The fields show exactly the model's state. */
    ghost predicate Agrees()
      reads this, entries
    {
      && model.maxPending == maxPending && model.closed == closed && |model.attempts| == nextPromise
      && |entries| == |model.entries|
      && (forall i | 0 <= i < |entries| :: entries[i].id == i && entries[i].View() == model.entries[i])
      && (active == null <==> model.active.None?)
      && (active != null ==> Known(active) && model.active == Some(active.id))
      && |pending| == |model.pending|
      && (forall k | 0 <= k < |pending| :: Known(pending[k]) && pending[k].id == model.pending[k])
    }

    ghost predicate Known(entry: QueueEntry)
      reads this
    {
      entry.id < |entries| && entries[entry.id] == entry
    }

    ghost predicate Valid()
      reads this, entries
    {
      Agrees() && Q.Inv(model)
    }

    constructor (maxPending: nat)
      ensures Valid() && model == Q.New(maxPending) && entries == []
    {
      this.maxPending := maxPending;
      active := null;
      closed := false;
      pending := [];
      nextPromise := 0;
      entries := [];
      model := Q.New(maxPending);
    }

    method Enqueue() returns (refusal: Option<Q.RefusalReason>, entry: QueueEntry?)
      requires Valid()
      modifies this
      ensures Valid() && model == Q.Next(old(model), Q.EnqueueStep)
      ensures refusal == if old(closed) then Some(Q.Closed)
                         else if old(active) != null && |old(pending)| >= maxPending then Some(Q.Full)
                         else None
      ensures refusal.Some? ==> entry == null && entries == old(entries) && pending == old(pending) && active == old(active)
      ensures refusal.None? ==> entry != null && fresh(entry) && entries == old(entries) + [entry]
      ensures refusal.None? && old(active) == null ==> active == entry && entry.state == Q.Active && pending == old(pending)
      ensures refusal.None? && old(active) != null ==>
                active == old(active) && entry.state == Q.Pending && pending == old(pending) + [entry]
    {
      if closed {
        return Some(Q.Closed), null;
      }
      if active != null && |pending| >= maxPending {
        return Some(Q.Full), null;
      }
      Q.StepInv(model, Q.EnqueueStep);
      refusal := None;
      entry := Accept();
    }

    /** The accepted entry waits, or is started at once. */
    method Accept() returns (entry: QueueEntry)
      requires Agrees() && Q.Admit(model).Accepted?
      modifies this
      ensures Agrees() && model == Q.Enqueue(old(model))
      ensures fresh(entry) && entry.id == |old(entries)| && entries == old(entries) + [entry]
      ensures if old(active) == null then active == entry && entry.state == Q.Active && pending == old(pending)
              else active == old(active) && entry.state == Q.Pending && pending == old(pending) + [entry]
    {
      entry := new QueueEntry(|entries|, if active != null then Q.Pending else Q.Active);
      entries := entries + [entry];
      if active != null {
        pending := pending + [entry];
        model := Q.Enqueue(model);
      } else {
        model := model.(entries := model.entries + [Q.Entry(Q.Active, [], None)]);
        Start(entry, None);
      }
    }

    /** `start(entry)` up to the call of `entry.run()`. */
    method Start(entry: QueueEntry, ghost owed: Option<Q.Owed>)
      requires Agrees() && Known(entry)
      modifies this`active, this`model, entry`state
      ensures Agrees() && model == Q.Start(old(model), entry.id, owed) && active == entry && entry.state == Q.Active
    {
      entry.state := Q.Active;
      active := entry;
      model := Q.Start(model, entry.id, owed);
    }

    method Settle(entry: QueueEntry, settlement: Q.Settlement)
      requires Agrees() && Known(entry)
      modifies this`model, entry`settlements
      ensures Agrees() && model == Q.Settle(old(model), entry.id, settlement)
      ensures entry.settlements == old(entry.settlements) + [settlement]
    {
      entry.settlements := entry.settlements + [settlement];
      model := Q.Settle(model, entry.id, settlement);
    }

    /** `entry.run()` has returned: the rest of `start`, and of `complete` when that was the caller. */
    method RunReturned(entry: QueueEntry, finished: QueueEntry?, settlement: Q.Settlement)
      requires Valid() && Known(entry) && (finished != null ==> Known(finished)) && model.stack != []
      requires model.stack[|model.stack| - 1]
               == Q.RunFrame(entry.id, if finished == null then None else Some(Q.Owed(finished.id, settlement)))
      modifies this`model, finished
      ensures Valid() && model == Q.Next(old(model), Q.RunReturnsStep)
      ensures finished != null ==> finished.settlements == old(finished.settlements) + [settlement]
    {
      Q.StepInv(model, Q.RunReturnsStep);
      model := model.(stack := model.stack[..|model.stack| - 1], executions := model.executions + {entry.id});
      if finished != null {
        Settle(finished, settlement);
      }
    }

    /** The active entry is settled and leaves the queue idle. */
    method Retire(entry: QueueEntry)
      requires Agrees() && Known(entry)
      modifies this`active, this`model, entry`state
      ensures Agrees() && active == null && entry.state == Q.Settled
      ensures model == old(model).(entries := old(model).entries[entry.id := old(model).entries[entry.id].(state := Q.Settled)],
                                   active := None)
    {
      entry.state := Q.Settled;
      active := null;
      model := model.(entries := model.entries[entry.id := model.entries[entry.id].(state := Q.Settled)], active := None);
    }

    /** The first pending entry leaves the queue and is started. */
    method StartNext(ghost owed: Option<Q.Owed>)
      requires Agrees() && pending != []
      modifies this`pending, this`active, this`model, entries
      ensures Agrees() && entries == old(entries)
      ensures active == old(pending)[0] && active.state == Q.Active && pending == old(pending)[1..]
      ensures forall e | e in entries && e != active :: e.state == old(e.state)
      ensures forall e | e in entries :: e.settlements == old(e.settlements)
      ensures model == Q.Start(old(model).(pending := old(model).pending[1..]), old(model).pending[0], owed)
    {
      var next := pending[0];
      pending := pending[1..];
      model := model.(pending := model.pending[1..]);
      Start(next, owed);
    }

    method Complete(entry: QueueEntry, settlement: Q.Settlement)
      requires Valid() && Known(entry) && Q.Enabled(model, Q.RunCompletesStep(entry.id, settlement))
      modifies this, entries
      ensures Valid() && entries == old(entries)
      ensures model == Q.Next(old(model), Q.RunCompletesStep(entry.id, settlement))
      ensures if old(active) != entry || old(entry.state) != Q.Active then
                active == old(active) && pending == old(pending) && entry.settlements == old(entry.settlements)
              else if old(pending) == [] then
                active == null && pending == [] && entry.settlements == old(entry.settlements) + [settlement]
              else
                active == old(pending)[0] && active.state == Q.Active && pending == old(pending)[1..]
                && entry.settlements == old(entry.settlements)
    {
      Q.StepInv(model, Q.RunCompletesStep(entry.id, settlement));
      FinishEntry(entry, settlement);
    }

    /** The body of `complete`, for which the queue's invariant does not matter. */
    method FinishEntry(entry: QueueEntry, settlement: Q.Settlement)
      requires Agrees() && Known(entry) && Q.InRange(model) && Q.Enabled(model, Q.RunCompletesStep(entry.id, settlement))
      modifies this, entries
      ensures Agrees() && entries == old(entries)
      ensures model == Q.Next(old(model), Q.RunCompletesStep(entry.id, settlement))
      ensures if old(active) != entry || old(entry.state) != Q.Active then
                active == old(active) && pending == old(pending) && entry.settlements == old(entry.settlements)
              else if old(pending) == [] then
                active == null && pending == [] && entry.settlements == old(entry.settlements) + [settlement]
              else
                active == old(pending)[0] && active.state == Q.Active && pending == old(pending)[1..]
                && entry.settlements == old(entry.settlements)
    {
      model := model.(executions := model.executions - {entry.id});
      if entry.state != Q.Active || active != entry {
        return;
      }
      Retire(entry);
      if pending != [] {
        StartNext(Some(Q.Owed(entry.id, settlement)));
      } else {
        Settle(entry, settlement);
      }
    }

    /** `pending.indexOf(entry)`, which the caller knows to be present. */
    method IndexOf(entry: QueueEntry) returns (index: nat)
      requires Agrees() && Known(entry) && entry.id in model.pending
      ensures index == Q.IndexOf(model.pending, entry.id) && index < |pending|
    {
      index := 0;
      var i := Q.IndexOf(model.pending, entry.id);
      while pending[index] != entry
        invariant index <= i
        decreases i - index
      {
        index := index + 1;
      }
      assert model.pending[index] == entry.id;
      assert forall j | 0 <= j < i :: model.pending[..i][j] != entry.id;
    }
  
    /** Takes a pending entry out of the queue and marks it settled. */
    method RemovePending(entry: QueueEntry)
      requires Agrees() && Known(entry) && entry.id in model.pending
      modifies this`pending, this`model, entry`state
      ensures Agrees() && entry.state == Q.Settled
      ensures exists i | 0 <= i < |old(pending)| ::
                old(pending)[i] == entry && pending == old(pending)[..i] + old(pending)[i + 1..]
      ensures model == old(model).(pending := Q.Spliced(old(model).pending, entry.id),
                                   entries := old(model).entries[entry.id := old(model).entries[entry.id].(state := Q.Settled)],
                                   dropped := old(model).dropped + {entry.id})
    {
      var index := IndexOf(entry);
      pending := pending[..index] + pending[index + 1..];
      entry.state := Q.Settled;
      model := model.(pending := Q.Spliced(model.pending, entry.id),
                      entries := model.entries[entry.id := model.entries[entry.id].(state := Q.Settled)],
                      dropped := model.dropped + {entry.id});
    }

    method CancelEntry(entry: QueueEntry) returns (answer: CancelAnswer)
      requires Valid() && Known(entry)
      modifies this, entries
      ensures Valid() && entries == old(entries)
      ensures model == Q.Next(old(model), Q.CancelStep(entry.id))
      ensures answer.Asking? <==> |model.attempts| > |old(model).attempts|
      ensures answer.Asking? ==> model.stack == old(model).stack + [Q.CancelFrame(entry.id, answer.promise)]
      ensures answer.NotActive? <==> old(model).active != Some(entry.id)
      ensures answer.Shared? ==> Some(answer.promise) == old(model).entries[entry.id].cancellation
      ensures old(entry.state) == Q.Pending ==>
                && entry.state == Q.Settled && entry.settlements == old(entry.settlements) + [Q.Rejected(Q.TransportCancelled)]
                && active == old(active)
                && exists i | 0 <= i < |old(pending)| ::
                     old(pending)[i] == entry && pending == old(pending)[..i] + old(pending)[i + 1..]
      ensures old(entry.state) != Q.Pending ==>
                pending == old(pending) && active == old(active) && entry.settlements == old(entry.settlements)
    {
      Q.StepInv(model, Q.CancelStep(entry.id));
      answer := AskEntry(entry);
    }

    /** The body of `cancelEntry`, for which only the agreement of states matters. */
    method AskEntry(entry: QueueEntry) returns (answer: CancelAnswer)
      requires Agrees() && Q.InRange(model) && Q.StatesAgree(model) && Known(entry)
      modifies this, entries
      ensures Agrees() && entries == old(entries)
      ensures model == Q.Next(old(model), Q.CancelStep(entry.id))
      ensures answer.Asking? <==> |model.attempts| > |old(model).attempts|
      ensures answer.Asking? ==> model.stack == old(model).stack + [Q.CancelFrame(entry.id, answer.promise)]
      ensures answer.NotActive? <==> old(model).active != Some(entry.id)
      ensures answer.Shared? ==> Some(answer.promise) == old(model).entries[entry.id].cancellation
      ensures old(entry.state) == Q.Pending ==>
                && entry.state == Q.Settled && entry.settlements == old(entry.settlements) + [Q.Rejected(Q.TransportCancelled)]
                && active == old(active)
                && exists i | 0 <= i < |old(pending)| ::
                     old(pending)[i] == entry && pending == old(pending)[..i] + old(pending)[i + 1..]
      ensures old(entry.state) != Q.Pending ==>
                pending == old(pending) && active == old(active) && entry.settlements == old(entry.settlements)
    {
      if entry.state == Q.Pending {
        RemovePending(entry);
        Settle(entry, Q.Rejected(Q.TransportCancelled));
        return NotActive;
      }
      if entry.state != Q.Active || active != entry {
        return NotActive;
      }
      if entry.cancellationResult.None? {
        answer := Asking(nextPromise);
        nextPromise := nextPromise + 1;
        model := Q.CancelEntry(model, entry.id);
      } else {
        answer := Shared(entry.cancellationResult.value);
      }
    }

    method CancelActiveAnalysis() returns (answer: CancelAnswer)
      requires Valid()
      modifies this, entries
      ensures Valid() && entries == old(entries)
      ensures model == Q.Next(old(model), Q.CancelActiveStep)
      ensures answer.NotActive? <==> old(model).active.None?
    {
      if active != null {
        answer := CancelEntry(active);
      } else {
        answer := NotActive;
      }
    }

    /** `entry.requestCancellation()` has returned: `cancelEntry` stores its promise. */
    method CancellationReturned(entry: QueueEntry, promise: nat)
      requires Valid() && Known(entry) && model.stack != []
      requires model.stack[|model.stack| - 1] == Q.CancelFrame(entry.id, promise)
      modifies this`model, entry`cancellationResult
      ensures Valid() && model == Q.Next(old(model), Q.CancelReturnsStep)
      ensures entry.cancellationResult == Some(promise)
    {
      Q.StepInv(model, Q.CancelReturnsStep);
      StorePromise(entry, promise);
    }

    method StorePromise(entry: QueueEntry, promise: nat)
      requires Agrees() && Q.InRange(model) && Known(entry) && model.stack != []
      requires model.stack[|model.stack| - 1] == Q.CancelFrame(entry.id, promise)
      modifies this`model, entry`cancellationResult
      ensures Agrees() && model == Q.Next(old(model), Q.CancelReturnsStep)
      ensures entry.cancellationResult == Some(promise)
    {
      entry.cancellationResult := Some(promise);
      model := Q.CancelReturns(model);
    }

    method CancellationSettled(entry: QueueEntry, promise: nat, acknowledged: bool)
      requires Valid() && Known(entry) && Q.Enabled(model, Q.AttemptSettlesStep(promise, acknowledged))
      requires model.attempts[promise].entry == entry.id
      modifies this`model, entry`cancellationResult
      ensures Valid() && model == Q.Next(old(model), Q.AttemptSettlesStep(promise, acknowledged))
      ensures entry.cancellationResult
              == if !acknowledged && old(entry.cancellationResult) == Some(promise) then None else old(entry.cancellationResult)
    {
      Q.StepInv(model, Q.AttemptSettlesStep(promise, acknowledged));
      ForgetRefusal(entry, promise, acknowledged);
    }

    /** A refused attempt is forgotten, unless another one has been stored since. */
    method ForgetRefusal(entry: QueueEntry, promise: nat, acknowledged: bool)
      requires Agrees() && Q.InRange(model) && Known(entry) && Q.Enabled(model, Q.AttemptSettlesStep(promise, acknowledged))
      requires model.attempts[promise].entry == entry.id
      modifies this`model, entry`cancellationResult
      ensures Agrees() && model == Q.Next(old(model), Q.AttemptSettlesStep(promise, acknowledged))
      ensures entry.cancellationResult
              == if !acknowledged && old(entry.cancellationResult) == Some(promise) then None else old(entry.cancellationResult)
    {
      if !acknowledged && entry.cancellationResult == Some(promise) {
        entry.cancellationResult := None;
      }
      model := Q.AttemptSettles(model, promise, acknowledged);
    }

    method Close()
      requires Valid()
      modifies this, entries
      ensures Valid() && entries == old(entries) && closed
      ensures model == Q.Next(old(model), Q.CloseStep)
      ensures !old(closed) ==> active == null && pending == []
      ensures !old(closed) ==> forall e | e in entries ::
                e.settlements == old(e.settlements)
                                 + if e == old(active) || e in old(pending) then [Q.Rejected(Q.QueueClosed)] else []
    {
      Q.StepInv(model, Q.CloseStep);
      if closed {
        return;
      }
      ClosingAreDistinct();
      CloseEntries();
    }

    ghost predicate DistinctEntries()
      reads this
    {
      && (forall k | 0 <= k < |pending| :: pending[k] != active)
      && (forall j, k | 0 <= j < k < |pending| :: pending[j] != pending[k])
    }

    method CloseEntries()
      requires Agrees() && !closed && DistinctEntries()
      modifies this, entries
      ensures Agrees() && entries == old(entries) && model == Q.Close(old(model)) && closed && active == null && pending == []
      ensures forall e | e in entries ::
                e.settlements == old(e.settlements)
                                 + if e == old(active) || e in old(pending) then [Q.Rejected(Q.QueueClosed)] else []
    {
      var closing := if active != null then [active] + pending else pending;
      ClosingViews(closing);
      closed := true;
      active := null;
      pending := [];
      RejectAll(closing);
      ShowClosed();
    }

    /** The model follows once every entry shows what `close` makes of it. */
    ghost method ShowClosed()
      requires active == null && pending == [] && closed && !model.closed && maxPending == model.maxPending
      requires |model.attempts| == nextPromise && |entries| == |model.entries|
      requires |Q.Close(model).entries| == |entries|
      requires forall i | 0 <= i < |entries| :: entries[i].id == i && entries[i].View() == Q.Close(model).entries[i]
      modifies this`model
      ensures Agrees() && model == Q.Close(old(model))
    {
      model := Q.Close(model);
    }

    /** What `close` makes of each entry, seen from the entries. */
    lemma ClosingViews(closing: seq<QueueEntry>)
      requires Agrees() && !closed && DistinctEntries()
      requires closing == if active != null then [active] + pending else pending
      ensures |Q.Close(model).entries| == |entries|
      ensures forall i | 0 <= i < |entries| ::
                Q.Close(model).entries[i] == if entries[i] in closing then ClosedView(entries[i].View()) else entries[i].View()
      ensures forall k | 0 <= k < |closing| :: Known(closing[k])
      ensures forall j, k | 0 <= j < k < |closing| :: closing[j] != closing[k]
    {
      ClosingMembers(closing);
      Q.CloseEntry(model);
    }

    lemma ClosingMembers(closing: seq<QueueEntry>)
      requires Agrees()
      requires closing == if active != null then [active] + pending else pending
      ensures forall i | 0 <= i < |entries| :: i in Q.ClosingEntries(model) <==> entries[i] in closing
    {
      forall i | 0 <= i < |entries|
        ensures i in Q.ClosingEntries(model) <==> entries[i] in closing
      {
        if i in model.pending {
          var k :| 0 <= k < |model.pending| && model.pending[k] == i;
          assert pending[k] == entries[i];
        }
      }
    }

    /** The loop of `close`: every closing entry is settled and rejected, the others are untouched. */
    method RejectAll(closing: seq<QueueEntry>)
      requires forall i | 0 <= i < |entries| :: entries[i].id == i
      requires forall k | 0 <= k < |closing| :: Known(closing[k])
      requires forall j, k | 0 <= j < k < |closing| :: closing[j] != closing[k]
      modifies closing
      ensures forall i | 0 <= i < |entries| ::
                entries[i].View() == if entries[i] in closing then ClosedView(old(entries[i].View())) else old(entries[i].View())
    {
      for i := 0 to |closing|
        invariant forall k | 0 <= k < |entries| ::
                    entries[k].View() == if entries[k] in closing[..i] then ClosedView(old(entries[k].View())) else old(entries[k].View())
      {
        assert closing[i] !in closing[..i];
        assert closing[i] in entries;
        closing[i].state := Q.Settled;
        closing[i].settlements := closing[i].settlements + [Q.Rejected(Q.QueueClosed)];
      }
      assert closing[..|closing|] == closing;
    }

    ghost function ClosedView(entry: Q.Entry): Q.Entry {
      Q.Entry(Q.Settled, entry.settlements + [Q.Rejected(Q.QueueClosed)], entry.cancellation)
    }

    lemma ClosingAreDistinct()
      requires Valid()
      ensures DistinctEntries()
    {
      Q.KeptIncreasing(|model.entries|, model.dropped);
      forall j, k | 0 <= j < k < |pending|
        ensures pending[j] != pending[k]
      {
        assert (model.started + model.pending)[|model.started| + j] < (model.started + model.pending)[|model.started| + k];
      }
      forall k | 0 <= k < |pending|
        ensures pending[k] != active
      {
        assert model.pending[k] in model.pending;
      }
    }
  }
}
