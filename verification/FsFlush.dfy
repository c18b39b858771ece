/**
  Concurrent flushes of several recorders into one archive file (`flush`, `acquireLock` and
  `removeStaleLock` in packages/shared/src/fs-cache/archive.ts), as a state machine over the steps
  between two filesystem calls.
 */
module FsFlush {
  import opened Options
  import opened FsNodes
  import opened FsArchive
  import opened FsSerialization
  import opened FsMerge

  const LOCK_RETRY_DELAY_MS: nat := 10
  const LOCK_RETRY_LIMIT: nat := 1000
  const LOCK_STALE_AGE_MS: nat := LOCK_RETRY_DELAY_MS * LOCK_RETRY_LIMIT

  /** Where a process stands inside `flush`; `since` is when it created the lock file. */
  datatype Phase =
    | Ready
    | Trying(attempt: nat)
    | Contended(attempt: nat)
    | Unlinking(attempt: nat)
    | Sleeping(attempt: nat, until: nat)
    | Locked(since: nat)
    | HasBase(since: nat, base: Archive)
    | Writing(since: nat, document: Document, offset: nat, length: nat)
    | Releasing(since: nat, renamed: bool)
    | Unlocking(since: nat, renamed: bool)
    | Finished(renamed: bool)

  /** A recorder process with its own, unflushed archive. */
  datatype Process = Process(own: Archive, phase: Phase)

  /** A file's first `offset` bytes of the `length` bytes of a document. */
  datatype FileContent = FileContent(document: Document, offset: nat, length: nat)

  datatype Lock = Lock(created: nat, owner: nat)

  /** `flushed` is history: the processes that renamed their file into place, in order. */
  datatype System = System(now: nat, file: Option<FileContent>, lock: Option<Lock>, procs: seq<Process>, flushed: seq<nat>)

  datatype Step =
    | Tick(milliseconds: nat)
    | Begin(p: nat)
    | CreateLock(p: nat)
    | InspectLock(p: nat)
    | UnlinkStale(p: nat)
    | Wake(p: nat)
    | Load(p: nat)
    | OpenTemporary(p: nat, length: nat)
    | WriteTemporary(p: nat, bytes: nat)
    | Rename(p: nat)
    | Fail(p: nat)
    | CheckLock(p: nat)
    | Unlock(p: nat)

  function Move(s: System, p: nat, phase: Phase): System
    requires p < |s.procs|
  {
    s.(procs := s.procs[p := s.procs[p].(phase := phase)])
  }

  /** The next round of the retry loop, or the error after the last one. */
  function Retry(attempt: nat): Phase {
    if attempt + 1 < LOCK_RETRY_LIMIT then Trying(attempt + 1) else Finished(false)
  }

  predicate Critical(phase: Phase) {
    phase.Locked? || phase.HasBase? || phase.Writing? || phase.Releasing? || phase.Unlocking?
  }

  function LoadedFile(file: Option<FileContent>): Archive {
    match file
    case None => EMPTY_ARCHIVE
    case Some(content) => Loaded(content.document)
  }

  predicate Complete(file: Option<FileContent>) {
    file.Some? ==> file.value.offset == file.value.length
  }

  predicate Enabled(s: System, step: Step) {
    (step.Tick? || step.p < |s.procs|)
    && match step
       case Tick(_) => true
       case Begin(p) => s.procs[p].phase.Ready?
       case CreateLock(p) => s.procs[p].phase.Trying?
       case InspectLock(p) => s.procs[p].phase.Contended?
       case UnlinkStale(p) => s.procs[p].phase.Unlinking?
       case Wake(p) => s.procs[p].phase.Sleeping? && s.procs[p].phase.until <= s.now
       case Load(p) => s.procs[p].phase.Locked?
       case OpenTemporary(p, _) => s.procs[p].phase.HasBase?
       case WriteTemporary(p, n) => s.procs[p].phase.Writing? && s.procs[p].phase.offset + n <= s.procs[p].phase.length
       case Rename(p) => s.procs[p].phase.Writing? && s.procs[p].phase.offset == s.procs[p].phase.length
       case Fail(p) => s.procs[p].phase.Locked? || s.procs[p].phase.HasBase? || s.procs[p].phase.Writing?
       case CheckLock(p) => s.procs[p].phase.Releasing?
       case Unlock(p) => s.procs[p].phase.Unlocking?
  }

  function Next(s: System, step: Step): System
    requires Enabled(s, step)
  {
    match step
    case Tick(n) => s.(now := s.now + n)
    case Begin(p) => Move(s, p, Trying(0))
    case CreateLock(p) =>
      if s.lock.None? then Move(s.(lock := Some(Lock(s.now, p))), p, Locked(s.now))
      else Move(s, p, Contended(s.procs[p].phase.attempt))
    case InspectLock(p) =>
      var attempt := s.procs[p].phase.attempt;
      if s.lock.None? then Move(s, p, Retry(attempt))
      else if s.now - s.lock.value.created < LOCK_STALE_AGE_MS then
        Move(s, p, if attempt == LOCK_RETRY_LIMIT - 1 then Finished(false) else Sleeping(attempt, s.now + LOCK_RETRY_DELAY_MS))
      else Move(s, p, Unlinking(attempt))
    case UnlinkStale(p) => Move(s.(lock := None), p, Retry(s.procs[p].phase.attempt))
    case Wake(p) => Move(s, p, Retry(s.procs[p].phase.attempt))
    case Load(p) =>
      if Complete(s.file) then Move(s, p, HasBase(s.procs[p].phase.since, LoadedFile(s.file)))
      else Move(s, p, Releasing(s.procs[p].phase.since, false))
    case OpenTemporary(p, length) =>
      var phase := s.procs[p].phase;
      Move(s, p, Writing(phase.since, Saved(MergeArchives(phase.base, s.procs[p].own)), 0, length))
    case WriteTemporary(p, n) => Move(s, p, s.procs[p].phase.(offset := s.procs[p].phase.offset + n))
    case Rename(p) =>
      var phase := s.procs[p].phase;
      Move(s.(file := Some(FileContent(phase.document, phase.offset, phase.length)), flushed := s.flushed + [p]),
           p, Releasing(phase.since, true))
    case Fail(p) => Move(s, p, Releasing(s.procs[p].phase.since, false))
    case CheckLock(p) =>
      var phase := s.procs[p].phase;
      Move(s, p, if s.lock.None? then Finished(phase.renamed) else Unlocking(phase.since, phase.renamed))
    case Unlock(p) => Move(s.(lock := None), p, Finished(s.procs[p].phase.renamed))
  }

  /** A start: an archive file or none, no lock, and recorders about to flush. */
  ghost predicate Start(s: System) {
    && s.lock.None? && s.flushed == [] && Complete(s.file) && Sound(LoadedFile(s.file))
    && forall p | 0 <= p < |s.procs| :: s.procs[p].phase.Ready? && OwnArchive(s.procs[p].own)
  }

  /** Every lock holder is within the stale age. */
  ghost predicate Timely(s: System) {
    forall p | 0 <= p < |s.procs| && Critical(s.procs[p].phase) :: s.now < s.procs[p].phase.since + LOCK_STALE_AGE_MS
  }

  /** Step number `k` of a sequence of states. */
  ghost predicate StepAt(ss: seq<System>, steps: seq<Step>, k: nat) {
    k < |steps| && k + 1 < |ss| && StepsTo(ss[k], steps[k], ss[k + 1])
  }

  ghost predicate StepsTo(s: System, step: Step, s': System) {
    Enabled(s, step) && s' == Next(s, step)
  }

  ghost predicate IsRun(ss: seq<System>, steps: seq<Step>) {
    |ss| == |steps| + 1 && Start(ss[0]) && forall k | 0 <= k < |steps| :: StepAt(ss, steps, k)
  }

  ghost predicate IsTimelyRun(ss: seq<System>, steps: seq<Step>) {
    IsRun(ss, steps) && forall k | 0 <= k < |ss| :: Timely(ss[k])
  }

  /** The test in `removeStaleLock` does not find a lock that is old enough to be removed. */
  predicate Fresh(s: System, step: Step) {
    step.InspectLock? && s.lock.Some? ==> s.now - s.lock.value.created < LOCK_STALE_AGE_MS
  }

  /** No inspection of a lock finds it stale; a holder may be late as long as nobody looks. */
  ghost predicate IsFreshRun(ss: seq<System>, steps: seq<Step>) {
    IsRun(ss, steps) && forall k | 0 <= k < |steps| :: Fresh(ss[k], steps[k])
  }

  // ----- Invariant -----

  /** The lock file belongs to the one process in its critical section, and nobody takes it for stale. */
  ghost predicate LockInv(s: System) {
    && (forall p | 0 <= p < |s.procs| && Critical(s.procs[p].phase) :: s.lock == Some(Lock(s.procs[p].phase.since, p)))
    && (s.lock.Some? ==> s.lock.value.owner < |s.procs| && Critical(s.procs[s.lock.value.owner].phase))
    && (forall p | 0 <= p < |s.procs| :: !s.procs[p].phase.Unlinking?)
  }

  function Owns(procs: seq<Process>, flushed: seq<nat>): seq<Archive>
    requires forall i | 0 <= i < |flushed| :: flushed[i] < |procs|
  {
    seq(|flushed|, i requires 0 <= i < |flushed| => procs[flushed[i]].own)
  }

  predicate Renamed(phase: Phase) {
    (phase.Releasing? || phase.Unlocking? || phase.Finished?) && phase.renamed
  }

  ghost predicate FlushedInRange(s: System) {
    && (forall i | 0 <= i < |s.flushed| :: s.flushed[i] < |s.procs| && Renamed(s.procs[s.flushed[i]].phase))
    && (forall p | 0 <= p < |s.procs| && Renamed(s.procs[p].phase) :: p in s.flushed)
    && (forall i, j | 0 <= i < j < |s.flushed| :: s.flushed[i] != s.flushed[j])
  }

  /** The file is whole and holds exactly the flushed recorders' archives, merged in flush order. */
  ghost predicate FileInv(s: System, initial: Archive) {
    && FlushedInRange(s)
    && Complete(s.file)
    && LoadedFile(s.file) == AfterFlushes(initial, Owns(s.procs, s.flushed))
    && (forall p | 0 <= p < |s.procs| && s.procs[p].phase.HasBase? :: s.procs[p].phase.base == LoadedFile(s.file))
    && (forall p | 0 <= p < |s.procs| && s.procs[p].phase.Writing? ::
          s.procs[p].phase.document == Saved(MergeArchives(LoadedFile(s.file), s.procs[p].own)))
  }

  /** A step keeps the lock with its holder exactly when it is not an inspection that finds the lock stale. */
  lemma StepKeepsLockExactly(s: System, step: Step)
    requires LockInv(s) && Enabled(s, step)
    ensures LockInv(Next(s, step)) <==> Fresh(s, step)
  {
    if !Fresh(s, step) {
      assert Next(s, step).procs[step.p].phase.Unlinking?;
    }
  }

  lemma OwnsUnchanged(procs: seq<Process>, procs': seq<Process>, flushed: seq<nat>)
    requires |procs'| == |procs| && forall p | 0 <= p < |procs| :: procs'[p].own == procs[p].own
    requires forall i | 0 <= i < |flushed| :: flushed[i] < |procs|
    ensures Owns(procs', flushed) == Owns(procs, flushed)
  {
  }

  lemma OwnsMore(procs: seq<Process>, flushed: seq<nat>, p: nat)
    requires p < |procs| && forall i | 0 <= i < |flushed| :: flushed[i] < |procs|
    ensures Owns(procs, flushed + [p]) == Owns(procs, flushed) + [procs[p].own]
  {
  }

  lemma RenamedFile(s: System, p: nat, initial: Archive)
    requires FileInv(s, initial) && Enabled(s, Rename(p))
    ensures var s' := Next(s, Rename(p));
            && (forall i | 0 <= i < |s'.flushed| :: s'.flushed[i] < |s'.procs|)
            && LoadedFile(s'.file) == AfterFlushes(initial, Owns(s'.procs, s'.flushed))
  {
    var s' := Next(s, Rename(p));
    var owns := Owns(s.procs, s.flushed);
    OwnsUnchanged(s.procs, s'.procs, s'.flushed);
    OwnsMore(s.procs, s.flushed, p);
    assert (owns + [s.procs[p].own])[..|owns|] == owns;
    assert LoadedFile(s'.file) == FileAfter(LoadedFile(s.file), s.procs[p].own);
  }

  lemma RenamedInRange(s: System, p: nat)
    requires FlushedInRange(s) && Enabled(s, Rename(p))
    ensures FlushedInRange(Next(s, Rename(p)))
  {
  }

  /** Only the rename changes the file, and it happens with the lock, so it writes over the base it loaded. */
  lemma RenameKeepsFile(s: System, p: nat, initial: Archive)
    requires LockInv(s) && FileInv(s, initial) && Enabled(s, Rename(p))
    ensures FileInv(Next(s, Rename(p)), initial)
  {
    RenamedFile(s, p, initial);
    RenamedInRange(s, p);
  }

  /** A process that keeps its base and document in step with the file, and its flush recorded. */
  ghost predicate Fits(s: System, p: nat, phase: Phase)
    requires p < |s.procs|
  {
    && (Renamed(phase) <==> Renamed(s.procs[p].phase))
    && (phase.HasBase? ==> phase.base == LoadedFile(s.file))
    && (phase.Writing? ==> phase.document == Saved(MergeArchives(LoadedFile(s.file), s.procs[p].own)))
  }

  lemma MoveKeepsFile(s: System, p: nat, phase: Phase, lock: Option<Lock>, initial: Archive)
    requires FileInv(s, initial) && p < |s.procs| && Fits(s, p, phase)
    ensures FileInv(Move(s.(lock := lock), p, phase), initial)
  {
    OwnsUnchanged(s.procs, Move(s, p, phase).procs, s.flushed);
  }

  lemma StepFits(s: System, step: Step, initial: Archive)
    requires FileInv(s, initial) && Enabled(s, step) && !step.Rename? && !step.Tick?
    ensures Fits(s, step.p, Next(s, step).procs[step.p].phase)
    ensures Next(s, step) == Move(s.(lock := Next(s, step).lock), step.p, Next(s, step).procs[step.p].phase)
  {
  }

  lemma OtherStepKeepsFile(s: System, step: Step, initial: Archive)
    requires FileInv(s, initial) && Enabled(s, step) && !step.Rename?
    ensures FileInv(Next(s, step), initial)
  {
    if step.Tick? {
      OwnsUnchanged(s.procs, s.procs, s.flushed);
    } else {
      StepFits(s, step, initial);
      MoveKeepsFile(s, step.p, Next(s, step).procs[step.p].phase, Next(s, step).lock, initial);
    }
  }

  lemma StartInv(s: System)
    requires Start(s)
    ensures LockInv(s) && FileInv(s, LoadedFile(s.file))
  {
    assert Owns(s.procs, []) == [];
  }

  lemma {:induction false} RunsKeepInv(ss: seq<System>, steps: seq<Step>, k: nat)
    requires IsFreshRun(ss, steps) && k < |ss|
    ensures LockInv(ss[k]) && FileInv(ss[k], LoadedFile(ss[0].file))
  {
    if k == 0 {
      StartInv(ss[0]);
    } else {
      RunsKeepInv(ss, steps, k - 1);
      assert StepAt(ss, steps, k - 1);
      StepKeepsLockExactly(ss[k - 1], steps[k - 1]);
      if steps[k - 1].Rename? {
        RenameKeepsFile(ss[k - 1], steps[k - 1].p, LoadedFile(ss[0].file));
      } else {
        OtherStepKeepsFile(ss[k - 1], steps[k - 1], LoadedFile(ss[0].file));
      }
    }
  }

  // ----- Main results -----

  lemma {:induction false} LockIsKeptUpTo(ss: seq<System>, steps: seq<Step>, n: nat)
    requires IsRun(ss, steps) && n <= |steps| && forall k | 0 <= k < n :: Fresh(ss[k], steps[k])
    ensures LockInv(ss[n])
  {
    if n == 0 {
      StartInv(ss[0]);
    } else {
      LockIsKeptUpTo(ss, steps, n - 1);
      assert StepAt(ss, steps, n - 1);
      StepKeepsLockExactly(ss[n - 1], steps[n - 1]);
    }
  }

  /** The lock stays with its holder throughout a run exactly when no inspection finds it stale. */
  lemma LockIsKeptExactly(ss: seq<System>, steps: seq<Step>)
    requires IsRun(ss, steps)
    ensures IsFreshRun(ss, steps) <==> forall k | 0 <= k < |ss| :: LockInv(ss[k])
  {
    if IsFreshRun(ss, steps) {
      forall k | 0 <= k < |ss|
        ensures LockInv(ss[k])
      {
        LockIsKeptUpTo(ss, steps, k);
      }
    }
    if forall k | 0 <= k < |ss| :: LockInv(ss[k]) {
      forall k | 0 <= k < |steps|
        ensures Fresh(ss[k], steps[k])
      {
        assert StepAt(ss, steps, k);
        StepKeepsLockExactly(ss[k], steps[k]);
      }
    }
  }

  /** In particular it does when every holder releases within the stale age. */
  lemma {:induction false} TimelyRunsAreFresh(ss: seq<System>, steps: seq<Step>, n: nat)
    requires IsTimelyRun(ss, steps) && n <= |steps|
    ensures forall k | 0 <= k < n :: Fresh(ss[k], steps[k])
    ensures n == |steps| ==> IsFreshRun(ss, steps)
  {
    if n > 0 {
      TimelyRunsAreFresh(ss, steps, n - 1);
      LockIsKeptUpTo(ss, steps, n - 1);
      assert Timely(ss[n - 1]);
    }
  }

  /** Where no inspection finds a lock stale, holders exclude each other. */
  lemma MutualExclusion(ss: seq<System>, steps: seq<Step>, k: nat, p: nat, q: nat)
    requires IsFreshRun(ss, steps) && k < |ss| && p < |ss[k].procs| && q < |ss[k].procs|
    ensures Critical(ss[k].procs[p].phase) && Critical(ss[k].procs[q].phase) ==> p == q
    ensures !ss[k].procs[p].phase.Unlinking?
  {
    RunsKeepInv(ss, steps, k);
  }

  lemma {:induction false} RunsKeepOwns(ss: seq<System>, steps: seq<Step>, k: nat)
    requires IsRun(ss, steps) && k < |ss|
    ensures |ss[k].procs| == |ss[0].procs|
    ensures forall p | 0 <= p < |ss[0].procs| :: ss[k].procs[p].own == ss[0].procs[p].own
  {
    if k > 0 {
      RunsKeepOwns(ss, steps, k - 1);
      assert StepAt(ss, steps, k - 1);
    }
  }

  /**
    Concurrent recorders lose nothing: at every moment of every interleaving the file is whole, and each
    of its (path, slot) pairs holds, in stored form, what the last flushed recorder with that pair says,
    or else what the file held at the start.
   */
  lemma FlushesLoseNothing(ss: seq<System>, steps: seq<Step>, k: nat, key: Key, slot: Slot)
    requires IsFreshRun(ss, steps) && k < |ss|
    ensures forall i | 0 <= i < |ss[k].flushed| :: ss[k].flushed[i] < |ss[k].procs|
    ensures Complete(ss[k].file)
    ensures var owns := Owns(ss[k].procs, ss[k].flushed);
            && NormalOption(SlotOf(LoadedFile(ss[k].file), key, slot)) == NormalOption(LastSlot(LoadedFile(ss[0].file), owns, key, slot))
            && (SlotOf(LoadedFile(ss[k].file), key, slot).Some?
                <==> SlotOf(LoadedFile(ss[0].file), key, slot).Some? || exists i | 0 <= i < |owns| :: SlotOf(owns[i], key, slot).Some?)
  {
    RunsKeepInv(ss, steps, k);
    RunsKeepOwns(ss, steps, k);
    var owns := Owns(ss[k].procs, ss[k].flushed);
    forall i | 0 <= i < |owns|
      ensures OwnArchive(owns[i])
    {
      assert owns[i] == ss[0].procs[ss[k].flushed[i]].own;
    }
    FlushesUniteSlots(LoadedFile(ss[0].file), owns, key, slot);
    LastSlotIsUnion(LoadedFile(ss[0].file), owns, key, slot);
  }

  /** A recorder whose flush succeeded is in the file, once. */
  lemma FinishedRecordersAreFlushed(ss: seq<System>, steps: seq<Step>, k: nat, p: nat)
    requires IsFreshRun(ss, steps) && k < |ss| && p < |ss[k].procs| && ss[k].procs[p].phase == Finished(true)
    ensures p in ss[k].flushed
    ensures forall i, j | 0 <= i < j < |ss[k].flushed| :: ss[k].flushed[i] != ss[k].flushed[j]
  {
    RunsKeepInv(ss, steps, k);
  }

  /** The same for holders that release within the stale age. */
  lemma TimelyFlushesLoseNothing(ss: seq<System>, steps: seq<Step>, k: nat, p: nat, key: Key, slot: Slot)
    requires IsTimelyRun(ss, steps) && k < |ss| && p < |ss[k].procs| && ss[k].procs[p].phase == Finished(true)
    requires SlotOf(ss[k].procs[p].own, key, slot).Some?
    ensures Complete(ss[k].file) && SlotOf(LoadedFile(ss[k].file), key, slot).Some?
  {
    TimelyRunsAreFresh(ss, steps, |steps|);
    FinishedRecordersAreFlushed(ss, steps, k, p);
    FlushesLoseNothing(ss, steps, k, key, slot);
    var i :| 0 <= i < |ss[k].flushed| && ss[k].flushed[i] == p;
    assert SlotOf(Owns(ss[k].procs, ss[k].flushed)[i], key, slot).Some?;
  }

  // ----- How flushes end -----

  /** How often a process has tried to create the lock file. */
  function Attempts(steps: seq<Step>, p: nat): nat {
    if steps == [] then 0 else Attempts(steps[..|steps| - 1], p) + if steps[|steps| - 1] == CreateLock(p) then 1 else 0
  }

  /** The processes that renamed, in order. */
  function Renames(steps: seq<Step>): seq<nat> {
    if steps == [] then []
    else Renames(steps[..|steps| - 1]) + if steps[|steps| - 1].Rename? then [steps[|steps| - 1].p] else []
  }

  /** How far a process is, told from its steps. */
  ghost predicate Accounted(steps: seq<Step>, p: nat, phase: Phase) {
    && (Rename(p) in steps <==> Renamed(phase))
    && match phase
       case Ready => Attempts(steps, p) == 0
       case Trying(attempt) => Attempts(steps, p) == attempt < 1000
       case Contended(attempt) => Attempts(steps, p) == attempt + 1 <= 1000
       case Unlinking(attempt) => Attempts(steps, p) == attempt + 1 <= 1000
       case Sleeping(attempt, _) => Attempts(steps, p) == attempt + 1 <= 1000
       case Releasing(_, renamed) => Attempts(steps, p) <= 1000 && (renamed || Fail(p) in steps)
       case Unlocking(_, renamed) => Attempts(steps, p) <= 1000 && (renamed || Fail(p) in steps)
       case Finished(renamed) => Attempts(steps, p) <= 1000 && (renamed || Fail(p) in steps || Attempts(steps, p) == 1000)
       case _ => Attempts(steps, p) <= 1000
  }

  lemma AccountedStep(before: seq<Step>, s: System, step: Step, p: nat)
    requires Enabled(s, step) && Complete(s.file) && p < |s.procs| && Accounted(before, p, s.procs[p].phase)
    ensures |Next(s, step).procs| == |s.procs| && Complete(Next(s, step).file)
    ensures Accounted(before + [step], p, Next(s, step).procs[p].phase)
  {
    hide Attempts, MergeArchives, Saved, LoadedFile;
    OneMoreStep(before, step, p);
  }

  lemma OneMoreStep(before: seq<Step>, step: Step, p: nat)
    ensures var steps := before + [step];
            && Attempts(steps, p) == Attempts(before, p) + (if step == CreateLock(p) then 1 else 0)
            && (Rename(p) in steps <==> Rename(p) in before || step == Rename(p))
            && (Fail(p) in steps <==> Fail(p) in before || step == Fail(p))
  {
    assert (before + [step])[..|before|] == before;
  }

  lemma {:induction false} RunsAreAccounted(ss: seq<System>, steps: seq<Step>, k: nat, p: nat)
    requires IsRun(ss, steps) && k < |ss| && p < |ss[0].procs|
    ensures p < |ss[k].procs| && Complete(ss[k].file) && Accounted(steps[..k], p, ss[k].procs[p].phase)
  {
    if k > 0 {
      RunsAreAccounted(ss, steps, k - 1, p);
      assert StepAt(ss, steps, k - 1);
      AccountedStep(steps[..k - 1], ss[k - 1], steps[k - 1], p);
      assert steps[..k - 1] + [steps[k - 1]] == steps[..k];
    }
  }

  /**
    How a flush ends, in every run, stale locks included: it succeeds exactly if the process renamed its
    file, and it fails only after an error between its steps, or after trying a thousand times to create the
    lock file, which is the most it ever does.
   */
  lemma FlushOutcomesExactly(ss: seq<System>, steps: seq<Step>, k: nat, p: nat)
    requires IsRun(ss, steps) && k < |ss| && p < |ss[0].procs|
    ensures p < |ss[k].procs| && Attempts(steps[..k], p) <= 1000
    ensures ss[k].procs[p].phase.Finished? ==> (ss[k].procs[p].phase.renamed <==> Rename(p) in steps[..k])
    ensures ss[k].procs[p].phase.Finished? ==>
              Rename(p) in steps[..k] || Fail(p) in steps[..k] || Attempts(steps[..k], p) == 1000
  {
    RunsAreAccounted(ss, steps, k, p);
  }

  /** The flushed recorders are those that renamed, in that order. */
  lemma {:induction false} FlushedAreRenamed(ss: seq<System>, steps: seq<Step>, k: nat)
    requires IsRun(ss, steps) && k < |ss|
    ensures ss[k].flushed == Renames(steps[..k])
  {
    if k > 0 {
      FlushedAreRenamed(ss, steps, k - 1);
      assert StepAt(ss, steps, k - 1);
      assert steps[..k][..k - 1] == steps[..k - 1];
    }
  }

  // ----- Without the assumption -----

  /** Process 0 outlives the stale age between loading and writing, and process 1 takes its lock away. */
  function TakeoverSteps(): seq<Step> {
    [Begin(0), CreateLock(0), Load(0), Tick(LOCK_STALE_AGE_MS),
     Begin(1), CreateLock(1), InspectLock(1), UnlinkStale(1), CreateLock(1), Load(1),
     OpenTemporary(0, 0), Rename(0), OpenTemporary(1, 0), Rename(1)]
  }

  function TakeoverPhase0(k: nat, own: Archive): Phase {
    if k < 1 then Ready else if k < 2 then Trying(0) else if k < 3 then Locked(0) else if k < 11 then HasBase(0, EMPTY_ARCHIVE)
    else if k < 12 then Writing(0, Saved(MergeArchives(EMPTY_ARCHIVE, own)), 0, 0) else Releasing(0, true)
  }

  function TakeoverPhase1(k: nat, own: Archive): Phase {
    if k < 5 then Ready else if k < 6 then Trying(0) else if k < 7 then Contended(0) else if k < 8 then Unlinking(0)
    else if k < 9 then Trying(1) else if k < 10 then Locked(LOCK_STALE_AGE_MS)
    else if k < 13 then HasBase(LOCK_STALE_AGE_MS, EMPTY_ARCHIVE)
    else if k < 14 then Writing(LOCK_STALE_AGE_MS, Saved(MergeArchives(EMPTY_ARCHIVE, own)), 0, 0)
    else Releasing(LOCK_STALE_AGE_MS, true)
  }

  function TakeoverState(own0: Archive, own1: Archive, k: nat): System {
    System(
      if k < 4 then 0 else LOCK_STALE_AGE_MS,
      if k < 12 then None
      else if k < 14 then Some(FileContent(Saved(MergeArchives(EMPTY_ARCHIVE, own0)), 0, 0))
      else Some(FileContent(Saved(MergeArchives(EMPTY_ARCHIVE, own1)), 0, 0)),
      if k < 2 then None else if k < 8 then Some(Lock(0, 0)) else if k < 9 then None else Some(Lock(LOCK_STALE_AGE_MS, 1)),
      [Process(own0, TakeoverPhase0(k, own0)), Process(own1, TakeoverPhase1(k, own1))],
      if k < 12 then [] else if k < 14 then [0] else [0, 1])
  }

  lemma TakeoverStep(own0: Archive, own1: Archive, k: nat)
    requires k < 14
    ensures StepsTo(TakeoverState(own0, own1, k), TakeoverSteps()[k], TakeoverState(own0, own1, k + 1))
  {
  }

  /**
    If a holder exceeds the stale age, its flush can be lost although it finished: the second process
    takes the lock over, and writes over the base it loaded before the first one's rename.
   */
  lemma StaleTakeoverLosesSlots(own0: Archive, own1: Archive, key: Key, slot: Slot) returns (ss: seq<System>)
    requires OwnArchive(own0) && OwnArchive(own1)
    requires SlotOf(own0, key, slot).Some? && SlotOf(own1, key, slot).None?
    ensures IsRun(ss, TakeoverSteps()) && |ss| == 15 && ss[14].flushed == [0, 1]
    ensures SlotOf(LoadedFile(ss[14].file), key, slot).None?
  {
    ss := seq(15, k requires 0 <= k < 15 => TakeoverState(own0, own1, k));
    forall k | 0 <= k < 14
      ensures StepAt(ss, TakeoverSteps(), k)
    {
      TakeoverStep(own0, own1, k);
    }
    FileAfterSlots(EMPTY_ARCHIVE, own1, key, slot);
  }
}
