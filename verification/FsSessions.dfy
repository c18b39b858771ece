/**
  Recording sessions and replays over a fixed filesystem: what a caller of the patched filesystem
  functions is answered, and that it is what the filesystem would have answered.
 */
module FsSessions {
  import opened Options
  import opened FsNodes
  import opened FsArchive
  import opened FsWorld
  import opened FsTransparency

  // ----- The executor -----

  /** `runSync` in record mode: replay if anything is known, else ask the filesystem and record. */
  function RecordSync(a: Archive, tree: Tree, r: Roots, key: Key, op: Operation): (Archive, Answer)
    requires ValidRoots(r)
  {
    match Replay(a, key, op)
    case Stored(outcome) => (a, Decode(r, outcome))
    case KnownMissing => (a, NativeMissing(op))
    case Refused => (a, ArchiveError)
    case NotRecorded => (Set(a, key, op, NativeOutcome(tree, r, key, op)), Native(tree, r, key, op))
  }

  /** Records `op` unless something is already known about it. */
  function Capture(a: Archive, tree: Tree, r: Roots, key: Key, op: Operation): Archive
    requires ValidRoots(r)
  {
    if Get(a, key, op).Nothing? then Set(a, key, op, NativeOutcome(tree, r, key, op)) else a
  }

  /** `captureOpenedFile`. */
  function CaptureOpened(a: Archive, tree: Tree, r: Roots, key: Key): Archive
    requires ValidRoots(r)
  {
    Capture(Capture(Capture(a, tree, r, key, ReadFile), tree, r, key, FStat(false)), tree, r, key, FStat(true))
  }

  /** `openSync` in record mode. */
  function RecordOpen(a: Archive, tree: Tree, r: Roots, key: Key, flags: string): (Archive, Answer)
    requires ValidRoots(r)
  {
    match ReplayOpen(a, key, flags)
    case OpenedFrom(content) => (a, Opened(Decode(r, content)))
    case OpenFailed(error) => (a, Throws(error.code, error.syscall))
    case OpenMissing => (a, NativeMissing(Open(flags)))
    case OpenNotRecorded =>
      var native := Native(tree, r, key, Open(flags));
      var a1 := Set(a, key, Open(flags), Encode(r, native));
      (if native.Opened? then CaptureOpened(a1, tree, r, key) else a1, native)
  }

  function Record(a: Archive, tree: Tree, r: Roots, key: Key, op: Operation): (Archive, Answer)
    requires ValidRoots(r)
  {
    if op.Open? then RecordOpen(a, tree, r, key, op.flags) else RecordSync(a, tree, r, key, op)
  }

  /** The answer in replay mode, where nothing native is consulted. */
  function ReplayAnswer(a: Archive, r: Roots, key: Key, op: Operation): Answer
    requires ValidRoots(r)
  {
    if op.Open? then
      match ReplayOpen(a, key, op.flags)
      case OpenedFrom(content) => Opened(Decode(r, content))
      case OpenFailed(error) => Throws(error.code, error.syscall)
      case OpenMissing => NativeMissing(op)
      case OpenNotRecorded => CacheMiss
    else
      match Replay(a, key, op)
      case Stored(outcome) => Decode(r, outcome)
      case KnownMissing => NativeMissing(op)
      case Refused => ArchiveError
      case NotRecorded => CacheMiss
  }

  /** The archive answers `op` by itself. */
  predicate Covered(a: Archive, key: Key, op: Operation) {
    if op.Open? then !ReplayOpen(a, key, op.flags).OpenNotRecorded?
    else !Replay(a, key, op).NotRecorded? && !Replay(a, key, op).Refused?
  }

  /** Known link facts about a path come from its own node. */
  predicate LinkFactsAreOwn(a: Archive, key: Key, op: Operation) {
    ObservesLink(op) ==> key !in a.missing
  }

  /** The archive after an open: as before, or with the failure or success recorded, or also the capture. */
  lemma OpenLeaves(a: Archive, tree: Tree, r: Roots, key: Key, flags: string)
    requires ValidRoots(r)
    ensures var a1 := Set(a, key, Open(flags), NativeOutcome(tree, r, key, Open(flags)));
            var after := RecordOpen(a, tree, r, key, flags).0;
            after == a || after == a1 || after == CaptureOpened(a1, tree, r, key)
  {
  }

  // ----- Answers are true -----

  lemma DecodedAnswer(tree: Tree, r: Roots, r2: Roots, key: Key, op: Operation, outcome: Outcome)
    requires ValidRoots(r) && ValidRoots(r2) && ValidTree(tree, r) && !op.Open?
    requires OutcomeAgrees(tree, r, key, op, outcome)
    ensures AnswerAgrees(tree, r2, key, op, Decode(r2, outcome))
  {
    EncodingRelocates(tree, r, r2, key, op);
    NormalDecodesAlike(r2, outcome);
    NormalDecodesAlike(r2, NativeOutcome(tree, r, key, op));
  }

  lemma SyncAnswerIsNative(a: Archive, tree: Tree, r: Roots, r2: Roots, key: Key, op: Operation)
    requires ValidRoots(r) && ValidRoots(r2) && ValidTree(tree, r) && Truthful(a, tree, r)
    requires !op.Open? && Covered(a, key, op) && LinkFactsAreOwn(a, key, op)
    ensures AnswerAgrees(tree, r2, key, op, ReplayAnswer(a, r2, key, op))
  {
    LookupIsTrue(a, tree, r, key, op);
    if Get(a, key, op).Found? {
      DecodedAnswer(tree, r, r2, key, op, Get(a, key, op).outcome);
    } else {
      MissingIsTrue(a, tree, r, key, op);
    }
  }

  lemma OpenReads(tree: Tree, r: Roots, key: Key, flags: string)
    requires ValidRoots(r) && !IsMissing(tree, key, Open(flags))
    ensures Native(tree, r, key, Open(flags)) == Opened(Native(tree, r, key, ReadFile))
  {
  }

  lemma OpenedIsNative(a: Archive, tree: Tree, r: Roots, r2: Roots, key: Key, flags: string, content: Outcome)
    requires ValidRoots(r) && ValidRoots(r2) && ValidTree(tree, r) && Truthful(a, tree, r)
    requires ReplayOpen(a, key, flags) == OpenedFrom(content)
    ensures Opened(Decode(r2, content)) == Native(tree, r2, key, Open(flags))
  {
    LookupIsTrue(a, tree, r, key, Open(flags));
    LookupIsTrue(a, tree, r, key, ReadFile);
    OpenReads(tree, r2, key, flags);
    DecodedAnswer(tree, r, r2, key, ReadFile, content);
  }

  lemma OpenFailureIsNative(a: Archive, tree: Tree, r: Roots, key: Key, flags: string)
    requires ValidRoots(r) && Truthful(a, tree, r)
    ensures !ReplayOpen(a, key, flags).OpenFailed?
    ensures ReplayOpen(a, key, flags).OpenMissing? ==> IsMissing(tree, key, Open(flags))
  {
    LookupIsTrue(a, tree, r, key, Open(flags));
    if ReplayOpen(a, key, flags).OpenMissing? {
      MissingIsTrue(a, tree, r, key, Open(flags));
    }
  }

  /** Whatever a truthful archive covers, it answers as the filesystem would, under any root. */
  lemma CoveredAnswerIsNative(a: Archive, tree: Tree, r: Roots, r2: Roots, key: Key, op: Operation)
    requires ValidRoots(r) && ValidRoots(r2) && ValidTree(tree, r) && Truthful(a, tree, r)
    requires Covered(a, key, op) && LinkFactsAreOwn(a, key, op)
    ensures AnswerAgrees(tree, r2, key, op, ReplayAnswer(a, r2, key, op))
  {
    if op.Open? {
      OpenFailureIsNative(a, tree, r, key, op.flags);
      if ReplayOpen(a, key, op.flags).OpenedFrom? {
        OpenedIsNative(a, tree, r, r2, key, op.flags, ReplayOpen(a, key, op.flags).content);
      }
    } else {
      SyncAnswerIsNative(a, tree, r, r2, key, op);
    }
  }

  // ----- Coverage grows -----

  /** Everything known about a path stays known. */
  ghost predicate NodeGrows(node: Node, node': Node) {
    && (node.pathExists.Some? ==> node'.pathExists.Some?)
    && (node.linkExists.Some? ==> node'.linkExists.Some?)
    && forall slot: Slot :: ReadSlot(node, slot).Some? ==> ReadSlot(node', slot).Some?
  }

  ghost predicate Grows(a: Archive, a': Archive) {
    && a.missing == a'.missing == {}
    && forall key | key in a.entries :: key in a'.entries && NodeGrows(a.entries[key], a'.entries[key])
  }

  lemma ObservedGrows(node: Node, op: Operation, outcome: Outcome)
    ensures NodeGrows(node, Observed(node, op, outcome))
  {
    var node1 := UpdateExistence(node, op, outcome, IsMissingOutcome(op, outcome));
    forall slot: Slot | ReadSlot(node, slot).Some?
      ensures ReadSlot(Observed(node, op, outcome), slot).Some?
    {
      assert ReadSlot(node1, slot) == ReadSlot(node, slot);
      if OperationSlot(op).Some? {
        ReadWritten(node1, OperationSlot(op).value, outcome, slot);
      }
    }
  }

  lemma SetGrows(a: Archive, key: Key, op: Operation, outcome: Outcome)
    requires a.missing == {}
    ensures Grows(a, Set(a, key, op, outcome))
  {
    ObservedGrows(NodeFor(a, key), op, outcome);
  }

  lemma GrowsTransitive(a: Archive, b: Archive, c: Archive)
    requires Grows(a, b) && Grows(b, c)
    ensures Grows(a, c)
  {
    forall key | key in a.entries
      ensures key in c.entries && NodeGrows(a.entries[key], c.entries[key])
    {
      assert NodeGrows(a.entries[key], b.entries[key]) && NodeGrows(b.entries[key], c.entries[key]);
    }
  }

  lemma GrowsReflexive(a: Archive)
    requires a.missing == {}
    ensures Grows(a, a)
  {
  }

  /** Two truthful outcomes of one slot agree on success. */
  lemma SlotKeepsSuccess(node: Node, node': Node, tree: Tree, r: Roots, key: Key, slot: Slot)
    requires ValidRoots(r) && Truth(node, tree, r, key) && Truth(node', tree, r, key)
    requires ReadSlot(node, slot).Some? && ReadSlot(node', slot).Some?
    ensures ReadSlot(node, slot).value.Ok? == ReadSlot(node', slot).value.Ok?
  {
    assert SlotTruth(tree, r, key, slot, ReadSlot(node, slot).value);
    assert SlotTruth(tree, r, key, slot, ReadSlot(node', slot).value);
  }

  lemma LookupGrows(node: Node, node': Node, tree: Tree, r: Roots, key: Key, op: Operation)
    requires ValidRoots(r) && Truth(node, tree, r, key) && Truth(node', tree, r, key) && NodeGrows(node, node')
    requires NodeLookup(node, op).Found?
    ensures NodeLookup(node', op).Found?
  {
    if !op.Exists? && ReadSlot(node, OperationSlot(op).value).None? && op == Open("r") {
      assert ReadSlot(node, ContentSlot) == node.content && ReadSlot(node', ContentSlot) == node'.content;
      SlotKeepsSuccess(node, node', tree, r, key, ContentSlot);
      SlotKeepsSuccess(node, node', tree, r, key, STAT_NUMBER);
      SlotKeepsSuccess(node, node', tree, r, key, STAT_BIGINT);
    }
  }

  lemma FlagsStay(node: Node, node': Node, tree: Tree, r: Roots, key: Key, op: Operation)
    requires ValidRoots(r) && Truth(node, tree, r, key) && Truth(node', tree, r, key) && NodeGrows(node, node')
    ensures Fails(NodeExists(node, op)) ==> Fails(NodeExists(node', op))
  {
  }

  /** What the archive could answer it can still answer after recording more. */
  lemma CoverageIsKept(a: Archive, a': Archive, tree: Tree, r: Roots, key: Key, op: Operation)
    requires ValidRoots(r) && Truthful(a, tree, r) && Truthful(a', tree, r) && Grows(a, a') && Covered(a, key, op)
    ensures Covered(a', key, op)
  {
    var node, node' := a.entries[key], a'.entries[key];
    FlagsStay(node, node', tree, r, key, op);
    LookupIsTrue(a', tree, r, key, op);
    if NodeLookup(node, op).Found? {
      LookupGrows(node, node', tree, r, key, op);
      if op.Open? {
        OpenFailureIsNative(a, tree, r, key, op.flags);
        OpenFailureIsNative(a', tree, r, key, op.flags);
        LookupGrows(node, node', tree, r, key, ReadFile);
      }
    }
  }

  // ----- One request -----

  lemma CaptureKeeps(a: Archive, tree: Tree, r: Roots, key: Key, op: Operation)
    requires ValidRoots(r) && Truthful(a, tree, r) && a.missing == {}
    ensures Truthful(Capture(a, tree, r, key, op), tree, r) && Grows(a, Capture(a, tree, r, key, op))
  {
    if Get(a, key, op).Nothing? {
      SetTruthful(a, tree, r, key, op);
      SetGrows(a, key, op, NativeOutcome(tree, r, key, op));
    } else {
      GrowsReflexive(a);
    }
  }

  lemma CaptureOpenedKeeps(a: Archive, tree: Tree, r: Roots, key: Key)
    requires ValidRoots(r) && Truthful(a, tree, r) && a.missing == {}
    ensures Truthful(CaptureOpened(a, tree, r, key), tree, r) && Grows(a, CaptureOpened(a, tree, r, key))
  {
    var a1 := Capture(a, tree, r, key, ReadFile);
    var a2 := Capture(a1, tree, r, key, FStat(false));
    CaptureKeeps(a, tree, r, key, ReadFile);
    CaptureKeeps(a1, tree, r, key, FStat(false));
    CaptureKeeps(a2, tree, r, key, FStat(true));
    GrowsTransitive(a, a1, a2);
    GrowsTransitive(a, a2, CaptureOpened(a, tree, r, key));
  }

  lemma SetKeeps(a: Archive, tree: Tree, r: Roots, key: Key, op: Operation)
    requires ValidRoots(r) && Truthful(a, tree, r) && a.missing == {}
    ensures var a1 := Set(a, key, op, NativeOutcome(tree, r, key, op)); Truthful(a1, tree, r) && Grows(a, a1)
  {
    SetTruthful(a, tree, r, key, op);
    SetGrows(a, key, op, NativeOutcome(tree, r, key, op));
  }

  lemma RecordOpenKeeps(a: Archive, tree: Tree, r: Roots, key: Key, flags: string)
    requires ValidRoots(r) && Truthful(a, tree, r) && a.missing == {}
    ensures Truthful(RecordOpen(a, tree, r, key, flags).0, tree, r) && Grows(a, RecordOpen(a, tree, r, key, flags).0)
  {
    GrowsReflexive(a);
    if ReplayOpen(a, key, flags).OpenNotRecorded? {
      var a1 := Set(a, key, Open(flags), NativeOutcome(tree, r, key, Open(flags)));
      SetKeeps(a, tree, r, key, Open(flags));
      CaptureOpenedKeeps(a1, tree, r, key);
      GrowsTransitive(a, a1, CaptureOpened(a1, tree, r, key));
    }
  }

  /** Every request keeps the archive truthful and loses nothing it knew. */
  lemma RecordKeeps(a: Archive, tree: Tree, r: Roots, key: Key, op: Operation)
    requires ValidRoots(r) && Truthful(a, tree, r) && a.missing == {}
    ensures Truthful(Record(a, tree, r, key, op).0, tree, r) && Grows(a, Record(a, tree, r, key, op).0)
  {
    hide Truthful, Grows;
    if op.Open? {
      RecordOpenKeeps(a, tree, r, key, op.flags);
    } else {
      SetKeeps(a, tree, r, key, op);
      GrowsReflexive(a);
    }
  }

  /** Recording an operation makes the archive answer it. */
  lemma SetCovers(a: Archive, tree: Tree, r: Roots, key: Key, op: Operation)
    requires ValidRoots(r) && Truthful(a, tree, r)
    ensures var a' := Set(a, key, op, NativeOutcome(tree, r, key, op));
            && (IsMissing(tree, key, op) && !op.Exists? ==> Fails(GetExists(a', key, op)))
            && (!IsMissing(tree, key, op) || op.Exists? ==> Get(a', key, op).Found?)
  {
    var outcome := NativeOutcome(tree, r, key, op);
    if !op.Exists? {
      MissingIsRecognised(tree, r, key, op);
      var node1 := UpdateExistence(NodeFor(a, key), op, outcome, IsMissingOutcome(op, outcome));
      if !IsMissing(tree, key, op) {
        ReadWritten(node1, OperationSlot(op).value, outcome, OperationSlot(op).value);
      }
    }
  }

  lemma SyncIsCovered(a: Archive, tree: Tree, r: Roots, key: Key, op: Operation)
    requires ValidRoots(r) && Truthful(a, tree, r) && a.missing == {} && !op.Open? && !Flagless(a, key, op)
    ensures Covered(RecordSync(a, tree, r, key, op).0, key, op)
  {
    LookupIsTrue(a, tree, r, key, op);
    SetTruthful(a, tree, r, key, op);
    SetCovers(a, tree, r, key, op);
    LookupIsTrue(Set(a, key, op, NativeOutcome(tree, r, key, op)), tree, r, key, op);
  }

  /** What has just been set for an `open`: a known missing path, or a success to look up. */
  lemma OpenIsSet(a: Archive, tree: Tree, r: Roots, key: Key, flags: string)
    requires ValidRoots(r) && Truthful(a, tree, r)
    ensures var a1 := Set(a, key, Open(flags), NativeOutcome(tree, r, key, Open(flags)));
            if IsMissing(tree, key, Open(flags)) then ReplayOpen(a1, key, flags).OpenMissing?
            else Get(a1, key, Open(flags)).Found? && Native(tree, r, key, Open(flags)).Opened?
  {
    SetTruthful(a, tree, r, key, Open(flags));
    SetCovers(a, tree, r, key, Open(flags));
    LookupIsTrue(Set(a, key, Open(flags), NativeOutcome(tree, r, key, Open(flags))), tree, r, key, Open(flags));
  }

  lemma OpenIsCovered(a: Archive, tree: Tree, r: Roots, key: Key, flags: string)
    requires ValidRoots(r) && Truthful(a, tree, r) && a.missing == {}
    ensures Covered(RecordOpen(a, tree, r, key, flags).0, key, Open(flags))
  {
    if ReplayOpen(a, key, flags).OpenNotRecorded? {
      var a1 := Set(a, key, Open(flags), NativeOutcome(tree, r, key, Open(flags)));
      OpenIsSet(a, tree, r, key, flags);
      SetKeeps(a, tree, r, key, Open(flags));
      if !IsMissing(tree, key, Open(flags)) {
        CapturedOpenIsCovered(a1, tree, r, key, flags);
      }
    }
  }

  lemma CapturedOpenIsCovered(a: Archive, tree: Tree, r: Roots, key: Key, flags: string)
    requires ValidRoots(r) && Truthful(a, tree, r) && a.missing == {}
    requires Get(a, key, Open(flags)).Found?
    ensures Covered(CaptureOpened(a, tree, r, key), key, Open(flags))
  {
    hide NativeOutcome, Set, Grows;
    var a1 := Capture(a, tree, r, key, ReadFile);
    var a2 := Capture(a1, tree, r, key, FStat(false));
    var a3 := Capture(a2, tree, r, key, FStat(true));
    CaptureKeeps(a, tree, r, key, ReadFile);
    CaptureKeeps(a1, tree, r, key, FStat(false));
    CaptureKeeps(a2, tree, r, key, FStat(true));
    LookupIsTrue(a, tree, r, key, Open(flags));
    LookupIsTrue(a, tree, r, key, ReadFile);
    SetCovers(a, tree, r, key, ReadFile);
    LookupIsTrue(a1, tree, r, key, Open(flags));
    LookupGrows(a.entries[key], a1.entries[key], tree, r, key, Open(flags));
    assert Covered(a1, key, Open(flags));
    CoverageIsKept(a1, a2, tree, r, key, Open(flags));
    CoverageIsKept(a2, a3, tree, r, key, Open(flags));
  }

  lemma CoveredIsReplayed(a: Archive, tree: Tree, r: Roots, key: Key, op: Operation)
    requires ValidRoots(r) && Covered(a, key, op)
    ensures Record(a, tree, r, key, op).1 == ReplayAnswer(a, r, key, op)
  {
  }

  lemma UncoveredIsNative(a: Archive, tree: Tree, r: Roots, key: Key, op: Operation)
    requires ValidRoots(r) && !Covered(a, key, op)
    ensures if Flagless(a, key, op) then Record(a, tree, r, key, op) == (a, ArchiveError)
            else Record(a, tree, r, key, op).1 == Native(tree, r, key, op)
  {
    hide CaptureOpened, Set, Decode, Encode;
  }

  /** In record mode, one request answers as the filesystem does and is covered from then on. */
  lemma RequestIsTransparent(a: Archive, tree: Tree, r: Roots, key: Key, op: Operation)
    requires ValidRoots(r) && ValidTree(tree, r) && Truthful(a, tree, r) && a.missing == {}
    ensures Flagless(a, key, op) ==> Record(a, tree, r, key, op) == (a, ArchiveError)
    ensures !Flagless(a, key, op) ==> AnswerAgrees(tree, r, key, op, Record(a, tree, r, key, op).1)
    ensures !Flagless(a, key, op) ==> Covered(Record(a, tree, r, key, op).0, key, op)
  {
    if Covered(a, key, op) {
      CoveredIsReplayed(a, tree, r, key, op);
      CoveredAnswerIsNative(a, tree, r, r, key, op);
    } else {
      UncoveredIsNative(a, tree, r, key, op);
    }
    if !Flagless(a, key, op) {
      if op.Open? {
        OpenIsCovered(a, tree, r, key, op.flags);
      } else {
        SyncIsCovered(a, tree, r, key, op);
      }
    }
  }

  // ----- Sessions -----

  datatype Request = Request(key: Key, op: Operation)

  /** The archive after recording `requests`, in order, into a new archive. */
  function Recorded(tree: Tree, r: Roots, requests: seq<Request>): Archive
    requires ValidRoots(r)
  {
    if requests == [] then EMPTY_ARCHIVE
    else
      var last := requests[|requests| - 1];
      Record(Recorded(tree, r, requests[..|requests| - 1]), tree, r, last.key, last.op).0
  }

  /** The answer that request `i` got when it was recorded. */
  function RecordedAnswer(tree: Tree, r: Roots, requests: seq<Request>, i: nat): Answer
    requires ValidRoots(r) && i < |requests|
  {
    Record(Recorded(tree, r, requests[..i]), tree, r, requests[i].key, requests[i].op).1
  }

  /** Request `i` was an `exists` on a path of which only link facts or other errors were known. */
  predicate Refusal(tree: Tree, r: Roots, requests: seq<Request>, i: nat)
    requires ValidRoots(r) && i < |requests|
  {
    Flagless(Recorded(tree, r, requests[..i]), requests[i].key, requests[i].op)
  }

  lemma {:induction false} SessionsAreTruthful(tree: Tree, r: Roots, requests: seq<Request>)
    requires ValidRoots(r)
    ensures Truthful(Recorded(tree, r, requests), tree, r) && Recorded(tree, r, requests).missing == {}
  {
    if requests != [] {
      var before, last := requests[..|requests| - 1], requests[|requests| - 1];
      SessionsAreTruthful(tree, r, before);
      RecordKeeps(Recorded(tree, r, before), tree, r, last.key, last.op);
    }
  }

  /** Whatever was requested before, each request is answered as `AnswerAgrees` says, or refused. */
  lemma RecordingAgrees(tree: Tree, r: Roots, requests: seq<Request>, i: nat)
    requires ValidRoots(r) && ValidTree(tree, r) && i < |requests|
    ensures if Refusal(tree, r, requests, i) then RecordedAnswer(tree, r, requests, i) == ArchiveError
            else AnswerAgrees(tree, r, requests[i].key, requests[i].op, RecordedAnswer(tree, r, requests, i))
  {
    SessionsAreTruthful(tree, r, requests[..i]);
    RequestIsTransparent(Recorded(tree, r, requests[..i]), tree, r, requests[i].key, requests[i].op);
  }

  lemma {:induction false} RecordedStaysCovered(tree: Tree, r: Roots, requests: seq<Request>, i: nat)
    requires ValidRoots(r) && ValidTree(tree, r) && i < |requests| && !Refusal(tree, r, requests, i)
    ensures Covered(Recorded(tree, r, requests), requests[i].key, requests[i].op)
  {
    var before, last := requests[..|requests| - 1], requests[|requests| - 1];
    SessionsAreTruthful(tree, r, before);
    RequestIsTransparent(Recorded(tree, r, before), tree, r, last.key, last.op);
    if i < |requests| - 1 {
      assert before[..i] == requests[..i];
      RecordedStaysCovered(tree, r, before, i);
      RecordKeeps(Recorded(tree, r, before), tree, r, last.key, last.op);
      CoverageIsKept(Recorded(tree, r, before), Recorded(tree, r, requests), tree, r, requests[i].key, requests[i].op);
    } else {
      assert before == requests[..i];
    }
  }

  lemma CoveredIsNoMiss(a: Archive, r: Roots, key: Key, op: Operation)
    requires ValidRoots(r) && Covered(a, key, op)
    ensures ReplayAnswer(a, r, key, op) != CacheMiss
  {
  }

  /** Every recorded request is replayed as `AnswerAgrees` says, under any root, and never with a cache miss. */
  lemma ReplayAgrees(tree: Tree, r: Roots, r2: Roots, requests: seq<Request>, i: nat)
    requires ValidRoots(r) && ValidRoots(r2) && ValidTree(tree, r) && i < |requests|
    requires !Refusal(tree, r, requests, i)
    ensures var a, request := Recorded(tree, r, requests), requests[i];
            && AnswerAgrees(tree, r2, request.key, request.op, ReplayAnswer(a, r2, request.key, request.op))
            && ReplayAnswer(a, r2, request.key, request.op) != CacheMiss
  {
    hide Recorded, Truthful, AnswerAgrees, Refusal, ReplayAnswer, Covered;
    SessionsAreTruthful(tree, r, requests);
    RecordedStaysCovered(tree, r, requests, i);
    CoveredIsNoMiss(Recorded(tree, r, requests), r2, requests[i].key, requests[i].op);
    CoveredAnswerIsNative(Recorded(tree, r, requests), tree, r, r2, requests[i].key, requests[i].op);
  }

  // ----- Virtual descriptors have stats -----

  ghost predicate OpensComplete(a: Archive) {
    forall key, flags | key in a.entries && ReadSlot(a.entries[key], MapSlot(OpensField, FlagsKey(flags))).Some? ::
      OpenComplete(a.entries[key], flags)
  }

  /** A recorded success of `open` comes with what its descriptor can be asked for. */
  predicate OpenComplete(node: Node, flags: string) {
    Succeeded(ReadSlot(node, MapSlot(OpensField, FlagsKey(flags)))) ==>
      node.content.Some? && ReadSlot(node, STAT_NUMBER).Some? && ReadSlot(node, STAT_BIGINT).Some?
  }

  lemma SetKeepsOpens(a: Archive, tree: Tree, r: Roots, key: Key, op: Operation)
    requires ValidRoots(r) && OpensComplete(a) && !op.Open?
    ensures OpensComplete(Set(a, key, op, NativeOutcome(tree, r, key, op)))
  {
    var outcome := NativeOutcome(tree, r, key, op);
    var node, node' := NodeFor(a, key), Observed(NodeFor(a, key), op, outcome);
    ObservedGrows(node, op, outcome);
    assert ReadSlot(node, ContentSlot) == node.content && ReadSlot(node', ContentSlot) == node'.content;
    forall flags | ReadSlot(node', MapSlot(OpensField, FlagsKey(flags))).Some?
      ensures OpenComplete(node', flags)
    {
      ObservedElsewhere(node, op, outcome, MapSlot(OpensField, FlagsKey(flags)));
      assert key in a.entries && OpenComplete(a.entries[key], flags);
    }
  }

  lemma ObservedElsewhere(node: Node, op: Operation, outcome: Outcome, slot: Slot)
    requires OperationSlot(op) != Some(slot)
    ensures ReadSlot(Observed(node, op, outcome), slot) == ReadSlot(node, slot)
  {
    var node1 := UpdateExistence(node, op, outcome, IsMissingOutcome(op, outcome));
    assert ReadSlot(node1, slot) == ReadSlot(node, slot);
    if OperationSlot(op).Some? {
      ReadWritten(node1, OperationSlot(op).value, outcome, slot);
    }
  }

  /** After the capture, the node of a path that exists has its content and both stats. */
  lemma CaptureFills(a: Archive, tree: Tree, r: Roots, key: Key, op: Operation)
    requires ValidRoots(r) && Truthful(a, tree, r) && (op.ReadFile? || op.FStat?) && !IsMissing(tree, key, op)
    ensures key in Capture(a, tree, r, key, op).entries
    ensures ReadSlot(Capture(a, tree, r, key, op).entries[key], OperationSlot(op).value).Some?
  {
    SetTruthful(a, tree, r, key, op);
    SetCovers(a, tree, r, key, op);
  }

  lemma CaptureCompletes(a: Archive, tree: Tree, r: Roots, key: Key, flags: string)
    requires ValidRoots(r) && Truthful(a, tree, r) && a.missing == {} && !IsMissing(tree, key, ReadFile)
    ensures var a' := CaptureOpened(a, tree, r, key);
            key in a'.entries && OpenComplete(a'.entries[key], flags)
  {
    var a1 := Capture(a, tree, r, key, ReadFile);
    var a2 := Capture(a1, tree, r, key, FStat(false));
    var a3 := Capture(a2, tree, r, key, FStat(true));
    CaptureKeeps(a, tree, r, key, ReadFile);
    CaptureKeeps(a1, tree, r, key, FStat(false));
    CaptureKeeps(a2, tree, r, key, FStat(true));
    CaptureFills(a, tree, r, key, ReadFile);
    CaptureFills(a1, tree, r, key, FStat(false));
    CaptureFills(a2, tree, r, key, FStat(true));
    assert ReadSlot(a1.entries[key], ContentSlot).Some? && NodeGrows(a1.entries[key], a2.entries[key]);
    assert NodeGrows(a2.entries[key], a3.entries[key]);
    assert ReadSlot(a3.entries[key], ContentSlot).Some?;
  }

  /** All nodes but one are complete, and that one for all flags but `flags`. */
  ghost predicate OpensCompleteBut(a: Archive, key: Key, flags: string) {
    forall k, f | k in a.entries && (k != key || f != flags) && ReadSlot(a.entries[k], MapSlot(OpensField, FlagsKey(f))).Some? ::
      OpenComplete(a.entries[k], f)
  }

  lemma CaptureKeepsOpens(a: Archive, tree: Tree, r: Roots, key: Key, flags: string, op: Operation)
    requires ValidRoots(r) && OpensCompleteBut(a, key, flags) && !op.Open?
    ensures OpensCompleteBut(Capture(a, tree, r, key, op), key, flags)
  {
    var outcome := NativeOutcome(tree, r, key, op);
    var node, node' := NodeFor(a, key), Observed(NodeFor(a, key), op, outcome);
    ObservedGrows(node, op, outcome);
    assert ReadSlot(node, ContentSlot) == node.content && ReadSlot(node', ContentSlot) == node'.content;
    forall f | f != flags && ReadSlot(node', MapSlot(OpensField, FlagsKey(f))).Some?
      ensures OpenComplete(node', f)
    {
      ObservedElsewhere(node, op, outcome, MapSlot(OpensField, FlagsKey(f)));
      assert key in a.entries && OpenComplete(a.entries[key], f);
    }
  }

  lemma SetOpenKeepsOthers(a: Archive, tree: Tree, r: Roots, key: Key, flags: string)
    requires ValidRoots(r) && OpensComplete(a)
    ensures OpensCompleteBut(Set(a, key, Open(flags), NativeOutcome(tree, r, key, Open(flags))), key, flags)
  {
    var outcome := NativeOutcome(tree, r, key, Open(flags));
    var node, node' := NodeFor(a, key), Observed(NodeFor(a, key), Open(flags), outcome);
    ObservedGrows(node, Open(flags), outcome);
    assert ReadSlot(node, ContentSlot) == node.content && ReadSlot(node', ContentSlot) == node'.content;
    forall f | f != flags && ReadSlot(node', MapSlot(OpensField, FlagsKey(f))).Some?
      ensures OpenComplete(node', f)
    {
      ObservedElsewhere(node, Open(flags), outcome, MapSlot(OpensField, FlagsKey(f)));
      assert key in a.entries && OpenComplete(a.entries[key], f);
    }
  }

  lemma CaptureOpenedKeepsOpens(a: Archive, tree: Tree, r: Roots, key: Key, flags: string)
    requires ValidRoots(r) && Truthful(a, tree, r) && a.missing == {} && OpensCompleteBut(a, key, flags)
    requires !IsMissing(tree, key, Open(flags))
    ensures OpensComplete(CaptureOpened(a, tree, r, key))
  {
    var a1 := Capture(a, tree, r, key, ReadFile);
    var a2 := Capture(a1, tree, r, key, FStat(false));
    CaptureKeepsOpens(a, tree, r, key, flags, ReadFile);
    CaptureKeepsOpens(a1, tree, r, key, flags, FStat(false));
    CaptureKeepsOpens(a2, tree, r, key, flags, FStat(true));
    CaptureCompletes(a, tree, r, key, flags);
  }

  lemma RecordOpenKeepsOpens(a: Archive, tree: Tree, r: Roots, key: Key, flags: string)
    requires ValidRoots(r) && Truthful(a, tree, r) && a.missing == {} && OpensComplete(a)
    ensures OpensComplete(RecordOpen(a, tree, r, key, flags).0)
  {
    if ReplayOpen(a, key, flags).OpenNotRecorded? {
      var a1 := Set(a, key, Open(flags), NativeOutcome(tree, r, key, Open(flags)));
      SetKeeps(a, tree, r, key, Open(flags));
      SetOpenKeepsOthers(a, tree, r, key, flags);
      if IsMissing(tree, key, Open(flags)) {
        MissingOpenIsComplete(a1.entries[key], tree, r, key, flags);
      } else {
        OpenIsSet(a, tree, r, key, flags);
        CaptureOpenedKeepsOpens(a1, tree, r, key, flags);
      }
    }
  }

  lemma MissingOpenIsComplete(node: Node, tree: Tree, r: Roots, key: Key, flags: string)
    requires ValidRoots(r) && Truth(node, tree, r, key) && IsMissing(tree, key, Open(flags))
    ensures OpenComplete(node, flags)
  {
    var slot := MapSlot(OpensField, FlagsKey(flags));
    assert ReadSlot(node, slot).Some? ==> SlotTruth(tree, r, key, slot, ReadSlot(node, slot).value);
  }

  lemma RecordKeepsOpens(a: Archive, tree: Tree, r: Roots, key: Key, op: Operation)
    requires ValidRoots(r) && Truthful(a, tree, r) && a.missing == {} && OpensComplete(a)
    ensures OpensComplete(Record(a, tree, r, key, op).0)
  {
    if op.Open? {
      RecordOpenKeepsOpens(a, tree, r, key, op.flags);
    } else {
      SetKeepsOpens(a, tree, r, key, op);
    }
  }

  lemma {:induction false} SessionsCompleteOpens(tree: Tree, r: Roots, requests: seq<Request>)
    requires ValidRoots(r)
    ensures OpensComplete(Recorded(tree, r, requests))
  {
    if requests != [] {
      var before, last := requests[..|requests| - 1], requests[|requests| - 1];
      SessionsCompleteOpens(tree, r, before);
      SessionsAreTruthful(tree, r, before);
      RecordKeepsOpens(Recorded(tree, r, before), tree, r, last.key, last.op);
    }
  }

  lemma OpenedHasStats(a: Archive, tree: Tree, r: Roots, key: Key, flags: string, bigint: bool)
    requires ValidRoots(r) && Truthful(a, tree, r) && OpensComplete(a) && ReplayOpen(a, key, flags).OpenedFrom?
    ensures Get(a, key, FStat(bigint)).Found? && !IsMissing(tree, key, Open(flags))
  {
    LookupIsTrue(a, tree, r, key, Open(flags));
    assert ReadSlot(a.entries[key], MapSlot(OpensField, FlagsKey(flags))).Some? ==> OpenComplete(a.entries[key], flags);
  }

  lemma FstatReturns(tree: Tree, r: Roots, key: Key, bigint: bool)
    requires ValidRoots(r) && !IsMissing(tree, key, FStat(bigint))
    ensures Native(tree, r, key, FStat(bigint)).Returns? && !MayBorrow(tree, key, FStat(bigint))
  {
  }

  lemma FstatIsNative(a: Archive, tree: Tree, r: Roots, r2: Roots, key: Key, bigint: bool)
    requires ValidRoots(r) && ValidRoots(r2) && ValidTree(tree, r) && Truthful(a, tree, r)
    requires Get(a, key, FStat(bigint)).Found? && !IsMissing(tree, key, FStat(bigint))
    ensures Decode(r2, Get(a, key, FStat(bigint)).outcome) == Native(tree, r2, key, FStat(bigint))
    ensures Native(tree, r2, key, FStat(bigint)).Returns?
  {
    hide Truthful, Get, Native, MayBorrow;
    LookupIsTrue(a, tree, r, key, FStat(bigint));
    DecodedAnswer(tree, r, r2, key, FStat(bigint), Get(a, key, FStat(bigint)).outcome);
    FstatReturns(tree, r2, key, bigint);
  }

  /** `fstat` on a virtual descriptor never misses, and gives the file's native stat. */
  lemma VirtualFstatIsNative(tree: Tree, r: Roots, r2: Roots, requests: seq<Request>, key: Key, flags: string, bigint: bool)
    requires ValidRoots(r) && ValidRoots(r2) && ValidTree(tree, r)
    requires ReplayOpen(Recorded(tree, r, requests), key, flags).OpenedFrom?
    ensures var a := Recorded(tree, r, requests);
            && Get(a, key, FStat(bigint)).Found?
            && Decode(r2, Get(a, key, FStat(bigint)).outcome) == Native(tree, r2, key, FStat(bigint))
            && Native(tree, r2, key, FStat(bigint)).Returns?
  {
    SessionsAreTruthful(tree, r, requests);
    SessionsCompleteOpens(tree, r, requests);
    OpenedHasStats(Recorded(tree, r, requests), tree, r, key, flags, bigint);
    FstatIsNative(Recorded(tree, r, requests), tree, r, r2, key, bigint);
  }

  // ----- Where transparency fails -----

  lemma RecordedFirst(tree: Tree, r: Roots, first: Request)
    requires ValidRoots(r)
    ensures Recorded(tree, r, [first]) == Record(EMPTY_ARCHIVE, tree, r, first.key, first.op).0
  {
    assert Recorded(tree, r, [first][..0]) == EMPTY_ARCHIVE;
  }

  lemma FirstObservation(tree: Tree, r: Roots, key: Key, op: Operation)
    requires ValidRoots(r) && !op.Open?
    ensures Recorded(tree, r, [Request(key, op)])
            == Archive(map[key := Observed(EMPTY, op, NativeOutcome(tree, r, key, op))], {})
  {
    hide Observed, NativeOutcome;
    RecordedFirst(tree, r, Request(key, op));
    assert Replay(EMPTY_ARCHIVE, key, op) == NotRecorded;
  }

  lemma RecordedOne(tree: Tree, r: Roots, first: Request, second: Request)
    requires ValidRoots(r)
    ensures RecordedAnswer(tree, r, [first, second], 1)
            == Record(Record(EMPTY_ARCHIVE, tree, r, first.key, first.op).0, tree, r, second.key, second.op).1
  {
    assert [first, second][..1] == [first];
    RecordedFirst(tree, r, first);
  }

  /** After only an `lstat` of a path that is there, `exists` is refused although the native call succeeds. */
  lemma ExistsAfterLstatIsRefused(tree: Tree, r: Roots, key: Key, bigint: bool)
    requires ValidRoots(r) && key in tree
    ensures RecordedAnswer(tree, r, [Request(key, LStat(bigint, false)), Request(key, Exists)], 1) == ArchiveError
    ensures Native(tree, r, key, Exists).Returns?
  {
    RecordedOne(tree, r, Request(key, LStat(bigint, false)), Request(key, Exists));
    assert Replay(EMPTY_ARCHIVE, key, LStat(bigint, false)) == NotRecorded;
  }

  /** A file opened as a directory: the shared slot gives `readdir` the error of `opendir`. */
  lemma SharedSlotNamesTheOtherCall(tree: Tree, r: Roots, key: Key, encoding: Encoding)
    requires ValidRoots(r) && Follow(tree, key).Some? && Follow(tree, key).value.body.FileBody?
    ensures var requests := [Request(key, Opendir(encoding, false)), Request(key, Readdir(encoding, true, false))];
            RecordedAnswer(tree, r, requests, 1) == Throws("ENOTDIR", "opendir")
    ensures Native(tree, r, key, Readdir(encoding, true, false)) == Throws("ENOTDIR", "scandir")
  {
    RecordedOne(tree, r, Request(key, Opendir(encoding, false)), Request(key, Readdir(encoding, true, false)));
    assert Replay(EMPTY_ARCHIVE, key, Opendir(encoding, false)) == NotRecorded;
    assert Native(tree, r, key, Opendir(encoding, false)) == Throws("ENOTDIR", "opendir");
  }
}
