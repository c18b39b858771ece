/**
  Record and replay agree with a fixed filesystem (packages/shared/src/fs-cache/hook.ts, archive.ts).

  A recording session gives the native answer to every operation, and its archive gives the native answer
  of the same tree under any root to every recorded operation.  Two answers that share a slot may differ
  in the system call their error names, and `exists` fails on a node that has no existence flag.
 */
module FsTransparency {
  import opened Options
  import opened FsPaths
  import opened FsNodes
  import opened FsArchive
  import opened FsWorld

  // ----- Relocation: decoding under any root gives that root's native answer -----

  lemma PathRelocates(r: Roots, r2: Roots, key: Key)
    requires ValidRoots(r) && ValidRoots(r2) && ValidKey(key)
    ensures DecodePath(EncodePath(r, AbsolutePathFor(key, r.rootDir)), r2.rootDir) == AbsolutePathFor(key, r2.rootDir)
    ensures EncodePath(r, AbsolutePathFor(key, r.physical)) == FsNodes.Relative(key)
  {
    var i :| 0 <= i < |r.known| && r.known[i] == r.rootDir;
    AliasRoundTrip(r.rootDir, r.known, i, key);
    var j :| 0 <= j < |r.known| && r.known[j] == r.physical;
    AliasRoundTrip(r.rootDir, r.known, j, key);
  }

  lemma StatRelocates(stat: NativeStat)
    requires ValidStat(stat)
    ensures RestoreStat(SnapshotStat(stat)) == stat
  {
    assert RestoreStat(SnapshotStat(stat)).fields == stat.fields;
  }

  lemma ListRelocates(r: Roots, r2: Roots, children: seq<Child>, encoding: Encoding, types: bool)
    requires ValidRoots(r) && ValidRoots(r2) && ValidChildren(children)
    ensures DecodeValue(r2, EncodeResult(r, Entries(List(children, encoding, types, r.rootDir))))
            == Entries(List(children, encoding, types, r2.rootDir))
  {
    var encoded := EncodeResult(r, Entries(List(children, encoding, types, r.rootDir))).entries;
    forall i | 0 <= i < |children|
      ensures DecodeEntry(encoded[i], r2.rootDir) == ListChild(children[i], encoding, types, r2.rootDir)
    {
      PathRelocates(r, r2, children[i].parent);
    }
    assert DecodeValue(r2, Listing(encoded)).entries == List(children, encoding, types, r2.rootDir);
  }

  lemma PlaceRelocates(r: Roots, r2: Roots, place: Place)
    requires ValidRoots(r) && ValidRoots(r2)
    requires place.Inside? ==> ValidKey(place.key)
    requires place.Outside? ==> OutsidePath(place.path, r)
    ensures DecodePath(EncodePath(r, PlaceText(place, r)), r2.physical) == PlaceText(place, r2)
  {
    if place.Inside? {
      PathRelocates(r, r2, place.key);
    }
  }

  lemma DirectoryRelocates(target: Target, r: Roots, r2: Roots, encoding: Encoding, types: bool, recursive: bool, syscall: string)
    requires ValidRoots(r) && ValidRoots(r2) && ValidTarget(target, r)
    ensures Decode(r2, Encode(r, NativeList(target, encoding, types, recursive, syscall, r.rootDir)))
            == NativeList(target, encoding, types, recursive, syscall, r2.rootDir)
  {
    if target.body.DirectoryBody? {
      ListRelocates(r, r2, if recursive then target.body.descendants else target.body.children, encoding, types);
    }
  }

  lemma StatAnswerRelocates(stat: NativeStat, r: Roots, r2: Roots)
    requires ValidRoots(r) && ValidRoots(r2) && ValidStat(stat)
    ensures Decode(r2, Encode(r, Returns(Stats(stat)))) == Returns(Stats(stat))
  {
    StatRelocates(stat);
  }

  lemma PlaceAnswerRelocates(place: Place, r: Roots, r2: Roots)
    requires ValidRoots(r) && ValidRoots(r2)
    requires place.Inside? ==> ValidKey(place.key)
    requires place.Outside? ==> OutsidePath(place.path, r)
    ensures Decode(r2, Encode(r, Returns(PathText(PlaceText(place, r))))) == Returns(PathText(PlaceText(place, r2)))
  {
    PlaceRelocates(r, r2, place);
  }

  lemma FollowedRelocates(target: Target, r: Roots, r2: Roots, op: Operation)
    requires ValidRoots(r) && ValidRoots(r2) && ValidTarget(target, r) && !ObservesLink(op) && !op.Open?
    ensures Decode(r2, Encode(r, NativeFollowed(target, r, op))) == NativeFollowed(target, r2, op)
  {
    match op
    case Stat(bigint, _) => StatAnswerRelocates(StatOf(target.metadata, bigint), r, r2);
    case FStat(bigint) => StatAnswerRelocates(StatOf(target.metadata, bigint), r, r2);
    case Readdir(encoding, types, recursive) => DirectoryRelocates(target, r, r2, encoding, types, recursive, "scandir");
    case Opendir(encoding, recursive) => DirectoryRelocates(target, r, r2, encoding, true, recursive, "opendir");
    case Realpath(_) => PlaceAnswerRelocates(target.place, r, r2);
    case Exists =>
    case ReadFile =>
    case Access(_) =>
  }

  lemma LinkRelocates(thing: Thing, r: Roots, r2: Roots, op: Operation)
    requires ValidRoots(r) && ValidRoots(r2) && ObservesLink(op)
    requires ValidMetadata(if thing.Link? then thing.metadata else thing.target.metadata)
    ensures Decode(r2, Encode(r, NativeLink(thing, op))) == NativeLink(thing, op)
  {
    if op.LStat? {
      StatRelocates(StatOf(if thing.Link? then thing.metadata else thing.target.metadata, op.bigint));
    }
  }

  /** What is stored for a native answer decodes, under any root, to the native answer there. */
  lemma EncodingRelocates(tree: Tree, r: Roots, r2: Roots, key: Key, op: Operation)
    requires ValidRoots(r) && ValidRoots(r2) && ValidTree(tree, r) && !op.Open?
    ensures Decode(r2, Encode(r, Native(tree, r, key, op))) == Native(tree, r2, key, op)
  {
    if IsMissing(tree, key, op) {
      assert Native(tree, r, key, op) == NativeMissing(op);
    } else if ObservesLink(op) {
      LinkRelocates(tree[key], r, r2, op);
    } else {
      FollowedRelocates(Follow(tree, key).value, r, r2, op);
    }
  }

  // ----- Operations that share a slot -----

  /** Equal up to undefined stat fields, which nobody sees. */
  predicate Alike(a: Outcome, b: Outcome) {
    NormalOutcome(a) == NormalOutcome(b)
  }

  /** The slot that `readdir` with file types and `opendir` share. */
  predicate SharedSlot(slot: Slot) {
    slot.MapSlot? && slot.key.DirectoryKey? && slot.key.scope.Flat? && slot.key.entries
  }

  /** A file listed as a directory, by an operation that can be answered from that slot. */
  predicate MayBorrow(tree: Tree, key: Key, op: Operation) {
    (op.Readdir? || op.Opendir?) && !op.recursive && Follow(tree, key).Some? && Follow(tree, key).value.body.FileBody?
  }

  /** The system call that the error of the other operation on the slot names. */
  function OtherCall(op: Operation): string {
    if op.Opendir? then "scandir" else "opendir"
  }

  /** One operation for each slot. */
  function CanonicalOp(slot: Slot): Operation {
    match slot
    case ContentSlot => ReadFile
    case MapSlot(_, key) =>
      match key
      case StatKey(link, bigint) => if link then LStat(bigint, false) else Stat(bigint, false)
      case DirectoryKey(scope, encoding, entries) =>
        if scope.OpendirRecursive? then Opendir(encoding, true) else Readdir(encoding, entries, scope.ReaddirRecursive?)
      case ModeKey(mode) => Access(mode)
      case RealpathKey(native) => Realpath(native)
      case EncodingKey(encoding) => Readlink(encoding)
      case FlagsKey(flags) => Open(flags)
  }

  function NativeOutcome(tree: Tree, r: Roots, key: Key, op: Operation): Outcome
    requires ValidRoots(r)
  {
    Encode(r, Native(tree, r, key, op))
  }

  /** What may be in a slot: what its operation observes, or in the shared slot what `opendir` does. */
  predicate SlotAgrees(tree: Tree, r: Roots, key: Key, slot: Slot, outcome: Outcome)
    requires ValidRoots(r)
  {
    || Alike(outcome, NativeOutcome(tree, r, key, CanonicalOp(slot)))
    || (SharedSlot(slot) && Alike(outcome, NativeOutcome(tree, r, key, Opendir(slot.key.encoding, false))))
  }

  /** What may be looked up for an operation: its own observation, or for a listed file the other call's error. */
  predicate OutcomeAgrees(tree: Tree, r: Roots, key: Key, op: Operation, outcome: Outcome)
    requires ValidRoots(r)
  {
    || Alike(outcome, NativeOutcome(tree, r, key, op))
    || (MayBorrow(tree, key, op) && outcome == Err(ErrorSnapshot("ENOTDIR", OtherCall(op))))
  }

  /** The same for the answer. */
  predicate AnswerAgrees(tree: Tree, r: Roots, key: Key, op: Operation, answer: Answer)
    requires ValidRoots(r)
  {
    || answer == Native(tree, r, key, op)
    || (MayBorrow(tree, key, op) && answer == Throws("ENOTDIR", OtherCall(op)))
  }

  /** Operations with one slot observe one thing, but for the system call an error on a listed file names. */
  lemma SlotIsSound(tree: Tree, r: Roots, key: Key, op: Operation)
    requires ValidRoots(r) && OperationSlot(op).Some? && !IsMissing(tree, key, op)
    ensures !IsMissing(tree, key, CanonicalOp(OperationSlot(op).value))
    ensures SlotAgrees(tree, r, key, OperationSlot(op).value, NativeOutcome(tree, r, key, op))
    ensures !MayBorrow(tree, key, op) ==>
              NativeOutcome(tree, r, key, op) == NativeOutcome(tree, r, key, CanonicalOp(OperationSlot(op).value))
  {
  }

  /** What may be in the shared slot of a listed file, and of a directory. */
  lemma ListingOutcomes(tree: Tree, r: Roots, key: Key, op: Operation)
    requires ValidRoots(r) && (op.Readdir? || op.Opendir?) && !op.recursive && !IsMissing(tree, key, op)
    ensures MayBorrow(tree, key, op) ==>
              NativeOutcome(tree, r, key, op) == Err(ErrorSnapshot("ENOTDIR", if op.Opendir? then "opendir" else "scandir"))
    ensures !MayBorrow(tree, key, op) ==>
              NativeOutcome(tree, r, key, Readdir(op.encoding, true, false)) == NativeOutcome(tree, r, key, Opendir(op.encoding, false))
  {
  }

  lemma AlikeError(outcome: Outcome, error: ErrorSnapshot)
    requires Alike(outcome, Err(error))
    ensures outcome == Err(error)
  {
  }

  /** The source's test for a missing path recognises exactly the missing ones. */
  lemma MissingIsRecognised(tree: Tree, r: Roots, key: Key, op: Operation)
    requires ValidRoots(r) && !op.Exists?
    ensures IsMissingOutcome(op, NativeOutcome(tree, r, key, op)) <==> IsMissing(tree, key, op)
  {
  }

  // ----- Truthful nodes -----

  ghost predicate SlotTruth(tree: Tree, r: Roots, key: Key, slot: Slot, outcome: Outcome)
    requires ValidRoots(r)
  {
    !IsMissing(tree, key, CanonicalOp(slot)) && SlotAgrees(tree, r, key, slot, outcome)
  }

  ghost predicate Truth(node: Node, tree: Tree, r: Roots, key: Key)
    requires ValidRoots(r)
  {
    && (node.pathExists.Some? ==> node.pathExists.value == Follow(tree, key).Some?)
    && (node.linkExists.Some? ==> node.linkExists.value == (key in tree))
    && forall slot: Slot :: ReadSlot(node, slot).Some? ==> SlotTruth(tree, r, key, slot, ReadSlot(node, slot).value)
  }

  ghost predicate Truthful(a: Archive, tree: Tree, r: Roots)
    requires ValidRoots(r)
  {
    && (forall key | key in a.entries :: Truth(a.entries[key], tree, r, key))
    && (forall key | key in a.missing :: Follow(tree, key).None?)
  }

  lemma ExistenceTruth(node: Node, tree: Tree, r: Roots, key: Key, op: Operation)
    requires ValidRoots(r) && Truth(node, tree, r, key)
    ensures var outcome := NativeOutcome(tree, r, key, op);
            Truth(UpdateExistence(node, op, outcome, IsMissingOutcome(op, outcome)), tree, r, key)
  {
    var outcome := NativeOutcome(tree, r, key, op);
    if !op.Exists? {
      MissingIsRecognised(tree, r, key, op);
    }
    var node' := UpdateExistence(node, op, outcome, IsMissingOutcome(op, outcome));
    forall slot: Slot | ReadSlot(node', slot).Some?
      ensures SlotTruth(tree, r, key, slot, ReadSlot(node', slot).value)
    {
      assert ReadSlot(node', slot) == ReadSlot(node, slot);
    }
  }

  lemma WriteTruth(node: Node, tree: Tree, r: Roots, key: Key, slot: Slot, outcome: Outcome)
    requires ValidRoots(r) && Truth(node, tree, r, key) && SlotTruth(tree, r, key, slot, outcome)
    ensures Truth(WriteSlot(node, slot, outcome), tree, r, key)
  {
    var node' := WriteSlot(node, slot, outcome);
    forall other: Slot | ReadSlot(node', other).Some?
      ensures SlotTruth(tree, r, key, other, ReadSlot(node', other).value)
    {
      ReadWritten(node, slot, outcome, other);
    }
  }

  /** Recording a native answer keeps a node truthful. */
  lemma ObservedTruth(node: Node, tree: Tree, r: Roots, key: Key, op: Operation)
    requires ValidRoots(r) && Truth(node, tree, r, key)
    ensures Truth(Observed(node, op, NativeOutcome(tree, r, key, op)), tree, r, key)
  {
    var outcome := NativeOutcome(tree, r, key, op);
    ExistenceTruth(node, tree, r, key, op);
    if OperationSlot(op).Some? && !IsMissingOutcome(op, outcome) {
      MissingIsRecognised(tree, r, key, op);
      SlotIsSound(tree, r, key, op);
      WriteTruth(UpdateExistence(node, op, outcome, false), tree, r, key, OperationSlot(op).value, outcome);
    }
  }

  lemma SetTruthful(a: Archive, tree: Tree, r: Roots, key: Key, op: Operation)
    requires ValidRoots(r) && Truthful(a, tree, r)
    ensures Truthful(Set(a, key, op, NativeOutcome(tree, r, key, op)), tree, r)
  {
    assert Truth(NodeFor(a, key), tree, r, key) by {
      assert key in a.entries ==> Truth(a.entries[key], tree, r, key);
      assert forall slot: Slot :: ReadSlot(EMPTY, slot).None? && ReadSlot(EMPTY.(pathExists := Some(false)), slot).None?;
    }
    ObservedTruth(NodeFor(a, key), tree, r, key, op);
  }

  // ----- Truthful replay -----

  /** `exists` on a node without an existence flag, where the source throws. */
  predicate Flagless(a: Archive, key: Key, op: Operation) {
    op.Exists? && key in a.entries && a.entries[key].pathExists.None?
  }

  lemma NamesAgree(tree: Tree, r: Roots, key: Key, encoding: Encoding)
    requires ValidRoots(r) && !IsMissing(tree, key, Readdir(encoding, true, false))
    ensures NamesFromEntries(Some(NativeOutcome(tree, r, key, Readdir(encoding, true, false))))
            == Some(NativeOutcome(tree, r, key, Readdir(encoding, false, false)))
  {
    var target := Follow(tree, key).value;
    if target.body.DirectoryBody? {
      var full := NativeOutcome(tree, r, key, Readdir(encoding, true, false)).value.entries;
      var names := NativeOutcome(tree, r, key, Readdir(encoding, false, false)).value.entries;
      assert Names(full) == names;
    }
  }

  /** What a truthful archive replays is what the filesystem answers. */
  lemma LookupIsTrue(a: Archive, tree: Tree, r: Roots, key: Key, op: Operation)
    requires ValidRoots(r) && Truthful(a, tree, r)
    ensures Get(a, key, op).Found? ==> OutcomeAgrees(tree, r, key, op, Get(a, key, op).outcome)
    ensures Get(a, key, op).Found? && !op.Exists? ==> !IsMissing(tree, key, op)
    ensures Get(a, key, op).Unsupported? <==> Flagless(a, key, op)
  {
    if key in a.entries && !op.Exists? {
      NodeLookupIsTrue(a.entries[key], tree, r, key, op);
    }
  }

  lemma NodeLookupIsTrue(node: Node, tree: Tree, r: Roots, key: Key, op: Operation)
    requires ValidRoots(r) && Truth(node, tree, r, key) && !op.Exists?
    ensures NodeLookup(node, op).Found? ==> OutcomeAgrees(tree, r, key, op, NodeLookup(node, op).outcome)
    ensures NodeLookup(node, op).Found? ==> !IsMissing(tree, key, op)
    ensures !NodeLookup(node, op).Unsupported?
  {
    var slot := OperationSlot(op).value;
    if ReadSlot(node, slot).Some? {
      SlotLookupIsTrue(node, tree, r, key, op);
    } else if op == Open("r") {
      InferredOpenIsTrue(node, tree, r, key);
    } else if op.Readdir? && !op.withFileTypes && !op.recursive {
      InferredNamesAreTrue(node, tree, r, key, op.encoding);
    }
  }

  lemma SlotLookupIsTrue(node: Node, tree: Tree, r: Roots, key: Key, op: Operation)
    requires ValidRoots(r) && Truth(node, tree, r, key) && !op.Exists? && ReadSlot(node, OperationSlot(op).value).Some?
    ensures !IsMissing(tree, key, op)
    ensures OutcomeAgrees(tree, r, key, op, ReadSlot(node, OperationSlot(op).value).value)
  {
    var slot := OperationSlot(op).value;
    var outcome := ReadSlot(node, slot).value;
    assert SlotTruth(tree, r, key, slot, outcome);
    assert IsMissing(tree, key, op) == IsMissing(tree, key, CanonicalOp(slot));
    SlotOutcomeAgrees(tree, r, key, op, outcome);
  }

  lemma SlotOutcomeAgrees(tree: Tree, r: Roots, key: Key, op: Operation, outcome: Outcome)
    requires ValidRoots(r) && OperationSlot(op).Some? && !IsMissing(tree, key, op)
    requires SlotAgrees(tree, r, key, OperationSlot(op).value, outcome)
    ensures OutcomeAgrees(tree, r, key, op, outcome)
  {
    var slot := OperationSlot(op).value;
    SlotIsSound(tree, r, key, op);
    if SharedSlot(slot) {
      SharedOutcome(tree, r, key, op.encoding, outcome);
      ListingOutcomes(tree, r, key, op);
    }
  }

  /** The shared slot holds the listing of a directory, or one of the two errors for a file. */
  lemma SharedOutcome(tree: Tree, r: Roots, key: Key, encoding: Encoding, outcome: Outcome)
    requires ValidRoots(r) && Follow(tree, key).Some? && SlotAgrees(tree, r, key, EntriesSlot(encoding), outcome)
    ensures Follow(tree, key).value.body.FileBody? ==>
              outcome == Err(ErrorSnapshot("ENOTDIR", "scandir")) || outcome == Err(ErrorSnapshot("ENOTDIR", "opendir"))
    ensures Follow(tree, key).value.body.DirectoryBody? ==>
              Alike(outcome, NativeOutcome(tree, r, key, Readdir(encoding, true, false)))
              && NativeOutcome(tree, r, key, Readdir(encoding, true, false)) == NativeOutcome(tree, r, key, Opendir(encoding, false))
              && outcome.Ok? && outcome.value.Listing?
  {
    ListingOutcomes(tree, r, key, Readdir(encoding, true, false));
    ListingOutcomes(tree, r, key, Opendir(encoding, false));
    if Follow(tree, key).value.body.FileBody? {
      if Alike(outcome, NativeOutcome(tree, r, key, Readdir(encoding, true, false))) {
        AlikeError(outcome, ErrorSnapshot("ENOTDIR", "scandir"));
      } else {
        AlikeError(outcome, ErrorSnapshot("ENOTDIR", "opendir"));
      }
    }
  }

  lemma InferredOpenIsTrue(node: Node, tree: Tree, r: Roots, key: Key)
    requires ValidRoots(r) && Truth(node, tree, r, key)
    ensures Succeeded(node.content) ==>
              !IsMissing(tree, key, Open("r")) && NativeOutcome(tree, r, key, Open("r")) == Ok(Null)
  {
    if Succeeded(node.content) {
      assert ReadSlot(node, ContentSlot) == node.content;
      assert SlotTruth(tree, r, key, ContentSlot, node.content.value);
    }
  }

  lemma InferredNamesAreTrue(node: Node, tree: Tree, r: Roots, key: Key, encoding: Encoding)
    requires ValidRoots(r) && Truth(node, tree, r, key)
    ensures var names := NamesFromEntries(ReadSlot(node, EntriesSlot(encoding)));
            names.Some? ==> !IsMissing(tree, key, Readdir(encoding, false, false))
                            && OutcomeAgrees(tree, r, key, Readdir(encoding, false, false), names.value)
  {
    var outcome := ReadSlot(node, EntriesSlot(encoding));
    if outcome.Some? {
      assert SlotTruth(tree, r, key, EntriesSlot(encoding), outcome.value);
      SharedOutcome(tree, r, key, encoding, outcome.value);
      NamesAgree(tree, r, key, encoding);
      ListingOutcomes(tree, r, key, Readdir(encoding, false, false));
    }
  }

  /** A path that is replayed as known to be missing is missing. */
  lemma MissingIsTrue(a: Archive, tree: Tree, r: Roots, key: Key, op: Operation)
    requires ValidRoots(r) && Truthful(a, tree, r) && Fails(GetExists(a, key, op))
    requires key in a.entries || !ObservesLink(op)
    ensures IsMissing(tree, key, op)
  {
    assert key in a.entries ==> Truth(a.entries[key], tree, r, key);
  }
}
