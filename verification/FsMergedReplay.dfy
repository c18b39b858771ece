/**
  Several recorders of one filesystem, flushed into one file by interleaved processes: what any of them
  recorded replays natively from the merged file.
 */
module FsMergedReplay {
  import opened Options
  import opened FsNodes
  import opened FsArchive
  import opened FsWorld
  import opened FsTransparency
  import opened FsSessions
  import opened FsListings
  import opened FsSerialization
  import opened FsReload
  import opened FsMerge
  import opened FsFlush

  // ----- Merging and reloading keep the truth -----

  lemma MergedTruth(base: Node, update: Node, tree: Tree, r: Roots, key: Key)
    requires ValidRoots(r) && Truth(base, tree, r, key) && Truth(update, tree, r, key)
    ensures Truth(MergeNodes(base, update), tree, r, key) && NodeGrows(base, MergeNodes(base, update))
    ensures NodeGrows(update, MergeNodes(base, update))
  {
    var merged := MergeNodes(base, update);
    forall slot: Slot
      ensures ReadSlot(merged, slot).Some? ==> SlotTruth(tree, r, key, slot, ReadSlot(merged, slot).value)
      ensures ReadSlot(base, slot).Some? || ReadSlot(update, slot).Some? ==> ReadSlot(merged, slot).Some?
    {
      MergeIsRightBiased(base, update, slot);
      assert ReadSlot(update, slot).Some? ==> SlotTruth(tree, r, key, slot, ReadSlot(update, slot).value);
      assert ReadSlot(base, slot).Some? ==> SlotTruth(tree, r, key, slot, ReadSlot(base, slot).value);
    }
  }

  lemma NodeOfTruth(a: Archive, tree: Tree, r: Roots, key: Key)
    requires ValidRoots(r) && Truthful(a, tree, r)
    ensures Truth(NodeOf(a, key), tree, r, key)
  {
    assert forall slot: Slot :: ReadSlot(EMPTY, slot).None?;
  }

  lemma MergeTruthful(base: Archive, own: Archive, tree: Tree, r: Roots)
    requires ValidRoots(r) && Truthful(base, tree, r) && Truthful(own, tree, r) && own.missing == {}
    ensures Truthful(MergeArchives(base, own), tree, r)
  {
    var merged := MergeArchives(base, own);
    forall key | key in merged.entries
      ensures Truth(merged.entries[key], tree, r, key)
    {
      NodeOfTruth(base, tree, r, key);
      NodeOfTruth(own, tree, r, key);
      MergedNode(base, own, key);
      MergedTruth(NodeOf(base, key), NodeOf(own, key), tree, r, key);
    }
  }

  lemma NormalTruth(node: Node, tree: Tree, r: Roots, key: Key)
    requires ValidRoots(r) && Truth(node, tree, r, key)
    ensures Truth(NormalNode(node), tree, r, key)
  {
    forall slot: Slot | ReadSlot(NormalNode(node), slot).Some?
      ensures SlotTruth(tree, r, key, slot, ReadSlot(NormalNode(node), slot).value)
    {
      ReadNormal(node, slot);
      assert SlotTruth(tree, r, key, slot, ReadSlot(node, slot).value);
      NormalTwice(ReadSlot(node, slot).value);
    }
  }

  lemma ReloadTruthful(a: Archive, tree: Tree, r: Roots)
    requires ValidRoots(r) && Truthful(a, tree, r) && Sound(a)
    ensures Truthful(Loaded(Saved(a)), tree, r)
  {
    var b := Loaded(Saved(a));
    forall key | key in b.entries
      ensures Truth(b.entries[key], tree, r, key)
    {
      ReloadedEntries(a, key);
      NormalTruth(a.entries[key], tree, r, key);
    }
    forall key | key in b.missing
      ensures Follow(tree, key).None?
    {
      ReloadedEntries(a, key);
      assert key in a.entries ==> Truth(a.entries[key], tree, r, key);
    }
  }

  // ----- Answers survive merging and reloading -----

  /** The archive answers `op` by itself, and link facts come from the path's own node. */
  predicate Answers(a: Archive, key: Key, op: Operation) {
    Covered(a, key, op) && LinkFactsAreOwn(a, key, op)
  }

  function Single(key: Key, node: Node): Archive {
    Archive(map[key := node], {})
  }

  lemma CoveredByNode(a: Archive, key: Key, op: Operation)
    requires key in a.entries
    ensures Covered(a, key, op) <==> Covered(Single(key, a.entries[key]), key, op)
  {
  }

  /** A node that has grown answers what it answered. */
  lemma GrownNodeAnswers(a: Archive, a': Archive, tree: Tree, r: Roots, key: Key, op: Operation)
    requires ValidRoots(r) && key in a.entries && key in a'.entries && Covered(a, key, op)
    requires Truth(a.entries[key], tree, r, key) && Truth(a'.entries[key], tree, r, key)
    requires NodeGrows(a.entries[key], a'.entries[key])
    ensures Covered(a', key, op)
  {
    var s, s' := Single(key, a.entries[key]), Single(key, a'.entries[key]);
    CoveredByNode(a, key, op);
    CoveredByNode(a', key, op);
    assert Grows(s, s');
    CoverageIsKept(s, s', tree, r, key, op);
  }

  lemma OwnAnswersSurvive(base: Archive, own: Archive, tree: Tree, r: Roots, key: Key, op: Operation)
    requires ValidRoots(r) && Truthful(base, tree, r) && Truthful(own, tree, r) && own.missing == {}
    requires Covered(own, key, op)
    ensures Answers(MergeArchives(base, own), key, op)
  {
    assert key in own.entries;
    NodeOfTruth(base, tree, r, key);
    MergedNode(base, own, key);
    MergedTruth(NodeOf(base, key), own.entries[key], tree, r, key);
    GrownNodeAnswers(own, MergeArchives(base, own), tree, r, key, op);
  }

  /** A node that says the path does not exist answers every operation that follows links. */
  lemma MissingNodeAnswers(a: Archive, tree: Tree, r: Roots, key: Key, op: Operation)
    requires ValidRoots(r) && Truthful(a, tree, r) && key in a.entries && Fails(a.entries[key].pathExists) && !ObservesLink(op)
    ensures Covered(a, key, op)
  {
    LookupIsTrue(a, tree, r, key, op);
    assert Truth(a.entries[key], tree, r, key);
  }

  lemma FileAnswersSurvive(base: Archive, own: Archive, tree: Tree, r: Roots, key: Key, op: Operation)
    requires ValidRoots(r) && Truthful(base, tree, r) && Truthful(own, tree, r) && own.missing == {} && Disjoint(base)
    requires Answers(base, key, op) && !LosesExistence(base, own, key)
    ensures Answers(MergeArchives(base, own), key, op)
  {
    var merged := MergeArchives(base, own);
    MergedNode(base, own, key);
    MergeTruthful(base, own, tree, r);
    if key in base.entries {
      NodeOfTruth(own, tree, r, key);
      MergedTruth(base.entries[key], NodeOf(own, key), tree, r, key);
      GrownNodeAnswers(base, merged, tree, r, key, op);
    } else if key in own.entries {
      MergeWithEmpty(own.entries[key]);
      assert Truth(own.entries[key], tree, r, key);
      MissingNodeAnswers(merged, tree, r, key, op);
    }
  }

  lemma AnswersReload(a: Archive, key: Key, op: Operation)
    requires Sound(a) && Answers(a, key, op)
    ensures Answers(Loaded(Saved(a)), key, op)
  {
    hide Loaded, Saved, Sound, Normal, NormalNode, NodeLookup, NodeReplay;
    ReloadedEntries(a, key);
    if key in a.entries && OnlyMissing(a.entries[key]) {
      OnlyMissingReplay(a.entries[key], op);
      ReplayIsNodeReplay(a, key, op);
    }
    if op.Open? {
      LookupReloads(a, key, op);
      LookupReloads(a, key, ReadFile);
    } else {
      ReloadReplays(a, key, op);
    }
  }

  // ----- Sequences of flushes -----

  /** Recorders of one tree. */
  ghost predicate Recorders(owns: seq<Archive>, tree: Tree, r: Roots)
    requires ValidRoots(r)
  {
    forall j | 0 <= j < |owns| :: OwnArchive(owns[j]) && Truthful(owns[j], tree, r)
  }

  /** No flush from number `n` on meets a compressed path with a node that says nothing about existence. */
  ghost predicate KeepsExistence(base: Archive, owns: seq<Archive>, n: nat, key: Key) {
    forall j | n <= j < |owns| :: !LosesExistence(AfterFlushes(base, owns[..j]), owns[j], key)
  }

  lemma {:induction false} FlushesStayTrue(base: Archive, owns: seq<Archive>, tree: Tree, r: Roots)
    requires ValidRoots(r) && Truthful(base, tree, r) && Sound(base) && Recorders(owns, tree, r)
    ensures Truthful(AfterFlushes(base, owns), tree, r) && Sound(AfterFlushes(base, owns))
  {
    if owns != [] {
      var before, own := AfterFlushes(base, owns[..|owns| - 1]), owns[|owns| - 1];
      FlushesStayTrue(base, owns[..|owns| - 1], tree, r);
      MergeTruthful(before, own, tree, r);
      FileAfterIsSound(before, own);
      ReloadTruthful(MergeArchives(before, own), tree, r);
    }
  }

  /** The answer rests on knowing that the path does not exist, and on nothing else. */
  predicate RestsOnAbsence(tree: Tree, key: Key, op: Operation) {
    !ObservesLink(op) && Follow(tree, key).None?
  }

  /** A compressed path answers nothing else. */
  lemma CompressedAnswers(a: Archive, tree: Tree, r: Roots, key: Key, op: Operation)
    requires ValidRoots(r) && Truthful(a, tree, r) && Answers(a, key, op) && key in a.missing
    ensures RestsOnAbsence(tree, key, op)
  {
  }

  /**
    What recorder `n` could answer, the file answers after its flush and all later ones; only an answer
    that rests on the path's absence can be lost.
   */
  lemma {:induction false} FlushesKeepAnswers(base: Archive, owns: seq<Archive>, n: nat, tree: Tree, r: Roots, key: Key, op: Operation)
    requires ValidRoots(r) && Truthful(base, tree, r) && Sound(base) && Recorders(owns, tree, r)
    requires n < |owns| && Covered(owns[n], key, op)
    requires RestsOnAbsence(tree, key, op) ==> KeepsExistence(base, owns, n + 1, key)
    ensures Answers(AfterFlushes(base, owns), key, op)
  {
    hide Truthful, Covered, RestsOnAbsence, MergeArchives, Saved, Loaded;
    var m := |owns| - 1;
    var before, own := AfterFlushes(base, owns[..m]), owns[m];
    FlushesStayTrue(base, owns[..m], tree, r);
    FileAfterIsSound(before, own);
    if n == m {
      OwnAnswersSurvive(before, own, tree, r, key, op);
    } else {
      assert forall j | 0 <= j < m :: owns[..m][..j] == owns[..j];
      FlushesKeepAnswers(base, owns[..m], n, tree, r, key, op);
      if LosesExistence(before, own, key) {
        CompressedAnswers(before, tree, r, key, op);
        assert false;
      }
      FileAnswersSurvive(before, own, tree, r, key, op);
    }
    AnswersReload(MergeArchives(before, own), key, op);
  }

  // ----- Answers that rest on absence -----

  /** The recorder knows whether the path exists. */
  predicate Holds(own: Archive, key: Key) {
    key in own.entries && own.entries[key].pathExists.Some?
  }

  /** The number of flushes up to the last one whose recorder knows whether the path exists. */
  function UpToLastHolder(owns: seq<Archive>, key: Key): (n: nat)
    ensures n <= |owns|
  {
    if owns == [] then 0
    else if Holds(owns[|owns| - 1], key) then |owns|
    else UpToLastHolder(owns[..|owns| - 1], key)
  }

  lemma {:induction false} HoldersAreCounted(owns: seq<Archive>, n: nat, key: Key)
    requires n < |owns| && Holds(owns[n], key)
    ensures UpToLastHolder(owns, key) > n
  {
    if n < |owns| - 1 {
      HoldersAreCounted(owns[..|owns| - 1], n, key);
    }
  }

  lemma ReloadKeepsExistence(a: Archive, key: Key)
    requires Sound(a)
    ensures ExistsOf(Loaded(Saved(a)), key) == ExistsOf(a, key)
  {
    hide Loaded, Saved, Sound;
    ReloadedEntries(a, key);
  }

  /** One flush keeps what the file knows of the path's existence, or adds to it, unless it loses it. */
  lemma FlushExistence(before: Archive, own: Archive, key: Key)
    requires Sound(before) && OwnArchive(own)
    ensures ExistsOf(FileAfter(before, own), key).Some?
            <==> Holds(own, key) || (ExistsOf(before, key).Some? && !LosesExistence(before, own, key))
  {
    FileAfterIsSound(before, own);
    ReloadKeepsExistence(MergeArchives(before, own), key);
    MergedNode(before, own, key);
  }

  /** The file knows of the path's existence exactly if no flush after the last that knew it has lost it. */
  lemma {:induction false} ExistenceIsKnownExactly(base: Archive, owns: seq<Archive>, key: Key)
    requires Sound(base) && forall j | 0 <= j < |owns| :: OwnArchive(owns[j])
    ensures Sound(AfterFlushes(base, owns))
    ensures ExistsOf(AfterFlushes(base, owns), key).Some?
            <==> (UpToLastHolder(owns, key) > 0 || ExistsOf(base, key).Some?)
                 && KeepsExistence(base, owns, UpToLastHolder(owns, key), key)
  {
    hide Sound, OwnArchive, FileAfter, ExistsOf, Holds, LosesExistence;
    if owns != [] {
      var m := |owns| - 1;
      var before, own := AfterFlushes(base, owns[..m]), owns[m];
      ExistenceIsKnownExactly(base, owns[..m], key);
      FileAfterIsSound(before, own);
      FlushExistence(before, own, key);
      if !Holds(own, key) {
        KeepsOneMore(base, owns, UpToLastHolder(owns[..m], key), key);
      }
    }
  }

  lemma KeepsOneMore(base: Archive, owns: seq<Archive>, n: nat, key: Key)
    requires owns != [] && n < |owns|
    ensures var m := |owns| - 1;
            KeepsExistence(base, owns, n, key)
            <==> KeepsExistence(base, owns[..m], n, key) && !LosesExistence(AfterFlushes(base, owns[..m]), owns[m], key)
  {
    hide AfterFlushes, LosesExistence;
    assert forall j | 0 <= j < |owns| - 1 :: owns[..|owns| - 1][..j] == owns[..j];
  }

  lemma AbsenceLookup(a: Archive, tree: Tree, r: Roots, key: Key, op: Operation)
    requires ValidRoots(r) && Truthful(a, tree, r) && RestsOnAbsence(tree, key, op)
    ensures !op.Exists? ==> Get(a, key, op).Nothing?
    ensures GetExists(a, key, op) == ExistsOf(a, key)
    ensures ExistsOf(a, key).Some? ==> !ExistsOf(a, key).value
  {
    LookupIsTrue(a, tree, r, key, op);
    if key in a.entries {
      assert Truth(a.entries[key], tree, r, key);
    }
  }

  /** Nothing but the existence flag answers an operation on a path that is not there. */
  lemma AbsenceAnswer(a: Archive, tree: Tree, r: Roots, r2: Roots, key: Key, op: Operation)
    requires ValidRoots(r) && ValidRoots(r2) && Truthful(a, tree, r) && RestsOnAbsence(tree, key, op)
    ensures Covered(a, key, op) <==> ExistsOf(a, key).Some?
    ensures ReplayAnswer(a, r2, key, op)
            == if ExistsOf(a, key).Some? then Native(tree, r2, key, op)
               else if op.Exists? && key in a.entries then ArchiveError else CacheMiss
  {
    hide Truthful, Follow, NativeFollowed, NativeLink;
    AbsenceLookup(a, tree, r, key, op);
    if !op.Exists? {
      hide Get, GetExists;
      assert Native(tree, r2, key, op) == NativeMissing(op);
    }
  }

  /** The last flush that knew of the path's absence was followed by one that lost it. */
  ghost predicate AbsenceIsLost(base: Archive, owns: seq<Archive>, tree: Tree, key: Key, op: Operation) {
    RestsOnAbsence(tree, key, op) && !KeepsExistence(base, owns, UpToLastHolder(owns, key), key)
  }

  lemma {:induction false} FlushedStaysListed(base: Archive, owns: seq<Archive>, n: nat, key: Key)
    requires Sound(base) && forall j | 0 <= j < |owns| :: OwnArchive(owns[j])
    requires n < |owns| && key in owns[n].entries
    ensures Sound(AfterFlushes(base, owns))
    ensures key in AfterFlushes(base, owns).entries || key in AfterFlushes(base, owns).missing
  {
    var m := |owns| - 1;
    var before, own := AfterFlushes(base, owns[..m]), owns[m];
    if n < m {
      FlushedStaysListed(base, owns[..m], n, key);
    } else {
      ExistenceIsKnownExactly(base, owns[..m], key);
    }
    FileAfterIsSound(before, own);
    ReloadedEntries(MergeArchives(before, own), key);
  }

  /** What the file answers where recorder `n` knew that the path is not there. */
  lemma AbsenceReplays(base: Archive, owns: seq<Archive>, n: nat, tree: Tree, r: Roots, r2: Roots, key: Key, op: Operation)
    requires ValidRoots(r) && ValidRoots(r2) && Truthful(base, tree, r) && Sound(base) && Recorders(owns, tree, r)
    requires n < |owns| && Covered(owns[n], key, op) && RestsOnAbsence(tree, key, op)
    ensures ReplayAnswer(AfterFlushes(base, owns), r2, key, op)
            == if AbsenceIsLost(base, owns, tree, key, op) then if op.Exists? then ArchiveError else CacheMiss
               else Native(tree, r2, key, op)
  {
    hide Truthful, Sound, AfterFlushes, ReplayAnswer, Native, KeepsExistence, Follow;
    AbsenceAnswer(owns[n], tree, r, r2, key, op);
    HoldersAreCounted(owns, n, key);
    ExistenceIsKnownExactly(base, owns, key);
    FlushesStayTrue(base, owns, tree, r);
    FlushedStaysListed(base, owns, n, key);
    AbsenceAnswer(AfterFlushes(base, owns), tree, r, r2, key, op);
  }

  // ----- Listings of a file -----

  /** What the last recorder that has it says of a listing: under its own slot, else under the shared one. */
  function LastListing(base: Archive, owns: seq<Archive>, key: Key, op: Operation): Option<Outcome>
    requires op.Readdir? || op.Opendir?
  {
    var own := LastSlot(base, owns, key, OperationSlot(op).value);
    if own.Some? then own else LastSlot(base, owns, key, EntriesSlot(op.encoding))
  }

  lemma SharedListingIsError(a: Archive, tree: Tree, r: Roots, key: Key, op: Operation)
    requires ValidRoots(r) && Truthful(a, tree, r) && MayBorrow(tree, key, op)
    ensures var shared := SlotOf(a, key, EntriesSlot(op.encoding)); shared.Some? ==> shared.value.Err?
  {
    if key in a.entries {
      assert Truth(a.entries[key], tree, r, key);
    }
  }

  /** A truthful archive that answers a listing of a file gives the error that it holds. */
  lemma ListingAnswered(a: Archive, tree: Tree, r: Roots, r2: Roots, key: Key, op: Operation)
    requires ValidRoots(r) && ValidRoots(r2) && MayBorrow(tree, key, op) && Truthful(a, tree, r) && Covered(a, key, op)
    requires AnswerAgrees(tree, r2, key, op, ReplayAnswer(a, r2, key, op))
    ensures var own := SlotOf(a, key, OperationSlot(op).value);
            var listing := if own.Some? then own else SlotOf(a, key, EntriesSlot(op.encoding));
            && listing.Some? && listing.value.Err?
            && ReplayAnswer(a, r2, key, op) == Throws("ENOTDIR", listing.value.error.syscall)
  {
    hide Truthful, Replay, SlotOf, EncodeResult, Follow;
    ListingLookup(a, tree, r, key, op);
    SharedListingIsError(a, tree, r, key, op);
    NativeListing(tree, r2, key, op);
  }

  lemma SameError(stored: Option<Outcome>, last: Option<Outcome>)
    requires NormalOption(stored) == NormalOption(last)
    ensures stored.None? <==> last.None?
    ensures stored.Some? && stored.value.Err? ==> last == stored
  {
  }

  lemma FileListing(base: Archive, owns: seq<Archive>, tree: Tree, r: Roots, r2: Roots, key: Key, op: Operation)
    requires ValidRoots(r) && ValidRoots(r2) && MayBorrow(tree, key, op)
    requires Sound(base) && forall i | 0 <= i < |owns| :: OwnArchive(owns[i])
    requires Truthful(AfterFlushes(base, owns), tree, r)
    requires Covered(AfterFlushes(base, owns), key, op)
    requires AnswerAgrees(tree, r2, key, op, ReplayAnswer(AfterFlushes(base, owns), r2, key, op))
    ensures var listing, answer := LastListing(base, owns, key, op), ReplayAnswer(AfterFlushes(base, owns), r2, key, op);
            && listing.Some? && listing.value.Err? && answer == Throws("ENOTDIR", listing.value.error.syscall)
            && (answer == Native(tree, r2, key, op) <==> listing.value.error.syscall == Call(op))
  {
    hide AfterFlushes, LastSlot, Truthful, OwnArchive, Sound, ReplayAnswer, Native, SlotOf, NormalOption;
    var a, own := AfterFlushes(base, owns), OperationSlot(op).value;
    FlushesUniteSlots(base, owns, key, own);
    FlushesUniteSlots(base, owns, key, EntriesSlot(op.encoding));
    SameError(SlotOf(a, key, own), LastSlot(base, owns, key, own));
    SameError(SlotOf(a, key, EntriesSlot(op.encoding)), LastSlot(base, owns, key, EntriesSlot(op.encoding)));
    ListingAnswered(a, tree, r, r2, key, op);
    NativeListing(tree, r2, key, op);
  }

  lemma AgreesIsNative(tree: Tree, r: Roots, key: Key, op: Operation, answer: Answer)
    requires ValidRoots(r) && AnswerAgrees(tree, r, key, op, answer) && !MayBorrow(tree, key, op)
    ensures answer == Native(tree, r, key, op)
  {
  }

  lemma FlushedAnswerIsNative(base: Archive, owns: seq<Archive>, n: nat, tree: Tree, r: Roots, r2: Roots, key: Key, op: Operation)
    requires ValidRoots(r) && ValidRoots(r2) && ValidTree(tree, r)
    requires Truthful(base, tree, r) && Sound(base) && Recorders(owns, tree, r)
    requires n < |owns| && Covered(owns[n], key, op) && !RestsOnAbsence(tree, key, op)
    ensures var answer := ReplayAnswer(AfterFlushes(base, owns), r2, key, op);
            if MayBorrow(tree, key, op) then
              var listing := LastListing(base, owns, key, op);
              && listing.Some? && listing.value.Err? && answer == Throws("ENOTDIR", listing.value.error.syscall)
              && (answer == Native(tree, r2, key, op) <==> listing.value.error.syscall == Call(op))
            else answer == Native(tree, r2, key, op)
  {
    hide Truthful, ReplayAnswer, Native, AfterFlushes, Covered, AnswerAgrees, LastListing, Sound, MayBorrow;
    FlushesKeepAnswers(base, owns, n, tree, r, key, op);
    FlushesStayTrue(base, owns, tree, r);
    CoveredAnswerIsNative(AfterFlushes(base, owns), tree, r, r2, key, op);
    if MayBorrow(tree, key, op) {
      FileListing(base, owns, tree, r, r2, key, op);
    } else {
      AgreesIsNative(tree, r2, key, op, ReplayAnswer(AfterFlushes(base, owns), r2, key, op));
    }
  }

  /** The recorders in flush order, what the file held at first, and a position of recorder `p` in that order. */
  lemma FlushedRecorders(ss: seq<System>, steps: seq<Step>, k: nat, p: nat, tree: Tree, r: Roots) returns (n: nat)
    requires ValidRoots(r) && IsFreshRun(ss, steps) && k < |ss|
    requires forall q | 0 <= q < |ss[0].procs| :: Truthful(ss[0].procs[q].own, tree, r)
    requires p < |ss[k].procs| && ss[k].procs[p].phase == Finished(true)
    ensures forall j | 0 <= j < |ss[k].flushed| :: ss[k].flushed[j] < |ss[k].procs|
    ensures var owns := Owns(ss[k].procs, ss[k].flushed);
            && Sound(LoadedFile(ss[0].file)) && Recorders(owns, tree, r)
            && LoadedFile(ss[k].file) == AfterFlushes(LoadedFile(ss[0].file), owns)
            && n < |owns| && owns[n] == ss[k].procs[p].own
  {
    RunsKeepInv(ss, steps, k);
    RunsKeepOwns(ss, steps, k);
    FinishedRecordersAreFlushed(ss, steps, k, p);
    n :| 0 <= n < |ss[k].flushed| && ss[k].flushed[n] == p;
    var owns := Owns(ss[k].procs, ss[k].flushed);
    forall j | 0 <= j < |owns|
      ensures OwnArchive(owns[j]) && Truthful(owns[j], tree, r)
    {
      assert owns[j] == ss[0].procs[ss[k].flushed[j]].own;
    }
  }

  /**
    The whole cache together.  Processes record one tree and flush into one file, interleaved in any way in
    which no inspection finds a held lock stale.  Every unrefused request of a recorder that has finished
    replays from the file, under any root, as the tree answers there, with two exceptions: the error for a
    listed file is the last recorder's for its slot, and what rests on a path's absence is lost exactly if a
    flush lost it after the last that knew it.
   */
  lemma MergedReplayIsTransparent(tree: Tree, r: Roots, r2: Roots, ss: seq<System>, steps: seq<Step>, k: nat,
                                  p: nat, requests: seq<Request>, i: nat)
    requires ValidRoots(r) && ValidRoots(r2) && ValidTree(tree, r)
    requires IsFreshRun(ss, steps) && k < |ss| && Truthful(LoadedFile(ss[0].file), tree, r)
    requires forall q | 0 <= q < |ss[0].procs| :: Truthful(ss[0].procs[q].own, tree, r)
    requires p < |ss[k].procs| && ss[k].procs[p].phase == Finished(true) && ss[k].procs[p].own == Recorded(tree, r, requests)
    requires i < |requests| && !Refusal(tree, r, requests, i)
    ensures forall j | 0 <= j < |ss[k].flushed| :: ss[k].flushed[j] < |ss[k].procs|
    ensures var key, op := requests[i].key, requests[i].op;
            var initial, owns := LoadedFile(ss[0].file), Owns(ss[k].procs, ss[k].flushed);
            var answer := ReplayAnswer(LoadedFile(ss[k].file), r2, key, op);
            if MayBorrow(tree, key, op) then
              var listing := LastListing(initial, owns, key, op);
              && listing.Some? && listing.value.Err?
              && answer == Throws("ENOTDIR", listing.value.error.syscall)
              && (answer == Native(tree, r2, key, op) <==> listing.value.error.syscall == Call(op))
            else
              && answer == (if !AbsenceIsLost(initial, owns, tree, key, op) then Native(tree, r2, key, op)
                            else if op.Exists? then ArchiveError
                            else CacheMiss)
              && (answer == Native(tree, r2, key, op) <==> !AbsenceIsLost(initial, owns, tree, key, op))
  {
    hide Truthful, Recorded, ReplayAnswer, Native, Refusal, AfterFlushes, IsFreshRun, Covered, AnswerAgrees, Sound;
    var n := FlushedRecorders(ss, steps, k, p, tree, r);
    var initial, owns := LoadedFile(ss[0].file), Owns(ss[k].procs, ss[k].flushed);
    var key, op := requests[i].key, requests[i].op;
    RecordedStaysCovered(tree, r, requests, i);
    if RestsOnAbsence(tree, key, op) {
      AbsenceReplays(initial, owns, n, tree, r, r2, key, op);
      NativeIsNoFailure(tree, r2, key, op);
    } else {
      FlushedAnswerIsNative(initial, owns, n, tree, r, r2, key, op);
    }
  }
}
