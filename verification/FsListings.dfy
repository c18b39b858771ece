/**
  Exactly what a recording session and its replay answer.  The one answer that depends on what was
  requested before is the error for a file listed as a directory: `readdir` with file types and `opendir`
  share a slot, so the first of them decides which system call the error names.
 */
module FsListings {
  import opened Options
  import opened FsNodes
  import opened FsArchive
  import opened FsWorld
  import opened FsTransparency
  import opened FsSessions

  // ----- Who decides -----

  /** Writes the shared slot of `encoding`. */
  predicate ListsEntries(op: Operation, encoding: Encoding) {
    || (op.Readdir? && op.withFileTypes && !op.recursive && op.encoding == encoding)
    || (op.Opendir? && !op.recursive && op.encoding == encoding)
  }

  predicate ListsNames(op: Operation, encoding: Encoding) {
    op.Readdir? && !op.withFileTypes && !op.recursive && op.encoding == encoding
  }

  /** Whether a request for `other` can decide what error `op` gets. */
  predicate Decides(op: Operation, other: Operation) {
    && (op.Readdir? || op.Opendir?) && !op.recursive
    && (ListsEntries(other, op.encoding) || (ListsNames(op, op.encoding) && ListsNames(other, op.encoding)))
  }

  /** The first request that decides. */
  function Decider(requests: seq<Request>, key: Key, op: Operation): Option<Operation> {
    if requests == [] then None
    else
      var before, last := Decider(requests[..|requests| - 1], key, op), requests[|requests| - 1];
      if before.Some? then before
      else if last.key == key && Decides(op, last.op) then Some(last.op)
      else None
  }

  /** The system call that a native listing error names. */
  function Call(op: Operation): string {
    if op.Opendir? then "opendir" else "scandir"
  }

  /**
    The requests make `op` answer with the other operation's error: the path leads to a file, and the
    first listing of it that decides was made by the other system call.
   */
  predicate Borrows(tree: Tree, requests: seq<Request>, key: Key, op: Operation) {
    && MayBorrow(tree, key, op)
    && var decider := Decider(requests, key, op); decider.Some? && Call(decider.value) != Call(op)
  }

  function Error(op: Operation): Outcome {
    Err(ErrorSnapshot("ENOTDIR", Call(op)))
  }

  const ENTRIES: bool := true
  const NAMES: bool := false

  function Listed(encoding: Encoding, entries: bool): Operation {
    Readdir(encoding, entries, false)
  }

  function ListingSlot(encoding: Encoding, entries: bool): Slot {
    MapSlot(DirectoriesField, DirectoryKey(Flat, encoding, entries))
  }

  /** What the two slots of an encoding hold for a file, by who asked first. */
  ghost predicate Origin(a: Archive, requests: seq<Request>, key: Key, encoding: Encoding) {
    var entries, names := Decider(requests, key, Listed(encoding, ENTRIES)), Decider(requests, key, Listed(encoding, NAMES));
    && SlotOf(a, key, ListingSlot(encoding, ENTRIES)) == (if entries.Some? then Some(Error(entries.value)) else None)
    && SlotOf(a, key, ListingSlot(encoding, NAMES))
       == (if names.Some? && ListsNames(names.value, encoding) then Some(Error(names.value)) else None)
  }

  lemma {:induction false} DecidersRelate(requests: seq<Request>, key: Key, encoding: Encoding)
    ensures var entries, names := Decider(requests, key, Listed(encoding, ENTRIES)), Decider(requests, key, Listed(encoding, NAMES));
            && (entries.Some? ==> names.Some? && ListsEntries(entries.value, encoding))
            && (names.Some? ==> ListsNames(names.value, encoding) || (ListsEntries(names.value, encoding) && names == entries))
  {
    if requests != [] {
      DecidersRelate(requests[..|requests| - 1], key, encoding);
    }
  }

  lemma {:induction false} OpendirDecider(requests: seq<Request>, key: Key, encoding: Encoding)
    ensures Decider(requests, key, Opendir(encoding, false)) == Decider(requests, key, Listed(encoding, ENTRIES))
  {
    if requests != [] {
      OpendirDecider(requests[..|requests| - 1], key, encoding);
    }
  }

  // ----- Requests keep the origin -----

  lemma SetElsewhere(a: Archive, k: Key, op: Operation, outcome: Outcome, key: Key, slot: Slot)
    requires k != key || OperationSlot(op) != Some(slot)
    requires a.missing == {}
    ensures SlotOf(Set(a, k, op, outcome), key, slot) == SlotOf(a, key, slot)
  {
    if k == key {
      ObservedElsewhere(NodeFor(a, k), op, outcome, slot);
    }
  }

  lemma CaptureElsewhere(a: Archive, tree: Tree, r: Roots, k: Key, op: Operation, key: Key, slot: Slot)
    requires ValidRoots(r) && a.missing == {} && OperationSlot(op) != Some(slot)
    ensures SlotOf(Capture(a, tree, r, k, op), key, slot) == SlotOf(a, key, slot) && Capture(a, tree, r, k, op).missing == {}
  {
    SetElsewhere(a, k, op, NativeOutcome(tree, r, k, op), key, slot);
  }

  lemma CaptureOpenedElsewhere(a: Archive, tree: Tree, r: Roots, k: Key, key: Key, encoding: Encoding, entries: bool)
    requires ValidRoots(r) && a.missing == {}
    ensures SlotOf(CaptureOpened(a, tree, r, k), key, ListingSlot(encoding, entries)) == SlotOf(a, key, ListingSlot(encoding, entries))
  {
    var slot := ListingSlot(encoding, entries);
    var a1 := Capture(a, tree, r, k, ReadFile);
    var a2 := Capture(a1, tree, r, k, FStat(false));
    CaptureElsewhere(a, tree, r, k, ReadFile, key, slot);
    CaptureElsewhere(a1, tree, r, k, FStat(false), key, slot);
    CaptureElsewhere(a2, tree, r, k, FStat(true), key, slot);
  }

  /** A request touches a listing slot only through the operation that the slot belongs to. */
  lemma RecordElsewhere(a: Archive, tree: Tree, r: Roots, k: Key, op: Operation, key: Key, encoding: Encoding, entries: bool)
    requires ValidRoots(r) && a.missing == {}
    requires k != key || OperationSlot(op) != Some(ListingSlot(encoding, entries))
    ensures SlotOf(Record(a, tree, r, k, op).0, key, ListingSlot(encoding, entries)) == SlotOf(a, key, ListingSlot(encoding, entries))
  {
    var a1 := Set(a, k, op, NativeOutcome(tree, r, k, op));
    SetElsewhere(a, k, op, NativeOutcome(tree, r, k, op), key, ListingSlot(encoding, entries));
    if op.Open? {
      CaptureOpenedElsewhere(a1, tree, r, k, key, encoding, entries);
      OpenLeaves(a, tree, r, k, op.flags);
    }
  }

  ghost predicate ListedFile(tree: Tree, key: Key) {
    Follow(tree, key).Some? && Follow(tree, key).value.body.FileBody?
  }

  /** What is looked up for a listing of a file: its slot, else for names the shared slot. */
  lemma ListingLookup(a: Archive, tree: Tree, r: Roots, key: Key, op: Operation)
    requires ValidRoots(r) && Truthful(a, tree, r) && MayBorrow(tree, key, op)
    ensures var own := SlotOf(a, key, OperationSlot(op).value);
            var shared := SlotOf(a, key, EntriesSlot(op.encoding));
            && (own.Some? ==> Replay(a, key, op) == Stored(own.value))
            && (own.None? && shared.Some? && ListsNames(op, op.encoding) && shared.value.Err? ==>
                  Replay(a, key, op) == Stored(shared.value))
            && (own.None? && (shared.None? || !ListsNames(op, op.encoding)) ==> Replay(a, key, op) == NotRecorded)
  {
    if key in a.entries {
      assert Truth(a.entries[key], tree, r, key);
    }
  }

  /** The first listing writes its own error, and later ones change nothing. */
  lemma RecordListing(a: Archive, tree: Tree, r: Roots, key: Key, op: Operation)
    requires ValidRoots(r) && Truthful(a, tree, r) && a.missing == {} && MayBorrow(tree, key, op)
    ensures var a' := Record(a, tree, r, key, op).0;
            && (Replay(a, key, op).NotRecorded? ==> SlotOf(a', key, OperationSlot(op).value) == Some(Error(op)))
            && (!Replay(a, key, op).NotRecorded? ==> a' == a)
  {
    if Replay(a, key, op).NotRecorded? {
      var outcome := NativeOutcome(tree, r, key, op);
      ListingOutcomes(tree, r, key, op);
      var node1 := UpdateExistence(NodeFor(a, key), op, outcome, false);
      ReadWritten(node1, OperationSlot(op).value, outcome, OperationSlot(op).value);
    }
  }

  /** A listing of this file and encoding. */
  lemma OwnOriginStep(a: Archive, tree: Tree, r: Roots, requests: seq<Request>, key: Key, op: Operation, encoding: Encoding)
    requires ValidRoots(r) && Truthful(a, tree, r) && a.missing == {} && ListedFile(tree, key)
    requires Origin(a, requests, key, encoding) && (ListsEntries(op, encoding) || ListsNames(op, encoding))
    ensures Origin(Record(a, tree, r, key, op).0, requests + [Request(key, op)], key, encoding)
  {
    assert (requests + [Request(key, op)])[..|requests|] == requests;
    DecidersRelate(requests, key, encoding);
    ListingLookup(a, tree, r, key, op);
    RecordListing(a, tree, r, key, op);
    RecordElsewhere(a, tree, r, key, op, key, encoding, ListsNames(op, encoding));
  }

  lemma OriginStep(a: Archive, tree: Tree, r: Roots, requests: seq<Request>, last: Request, key: Key, encoding: Encoding)
    requires ValidRoots(r) && Truthful(a, tree, r) && a.missing == {} && ListedFile(tree, key)
    requires Origin(a, requests, key, encoding)
    ensures Origin(Record(a, tree, r, last.key, last.op).0, requests + [last], key, encoding)
  {
    if last.key == key && (ListsEntries(last.op, encoding) || ListsNames(last.op, encoding)) {
      OwnOriginStep(a, tree, r, requests, key, last.op, encoding);
    } else {
      assert (requests + [last])[..|requests|] == requests;
      RecordElsewhere(a, tree, r, last.key, last.op, key, encoding, ENTRIES);
      RecordElsewhere(a, tree, r, last.key, last.op, key, encoding, NAMES);
    }
  }

  lemma {:induction false} SessionsHaveOrigin(tree: Tree, r: Roots, requests: seq<Request>, key: Key, encoding: Encoding)
    requires ValidRoots(r) && ListedFile(tree, key)
    ensures Origin(Recorded(tree, r, requests), requests, key, encoding)
  {
    if requests != [] {
      var before, last := requests[..|requests| - 1], requests[|requests| - 1];
      SessionsHaveOrigin(tree, r, before, key, encoding);
      SessionsAreTruthful(tree, r, before);
      OriginStep(Recorded(tree, r, before), tree, r, before, last, key, encoding);
      assert before + [last] == requests;
    }
  }

  // ----- Exact answers -----

  /** What a session's archive replays for a listing of a file. */
  lemma ListingReplay(tree: Tree, r: Roots, requests: seq<Request>, key: Key, op: Operation)
    requires ValidRoots(r) && MayBorrow(tree, key, op)
    ensures var decider := Decider(requests, key, op);
            Replay(Recorded(tree, r, requests), key, op) == if decider.Some? then Stored(Error(decider.value)) else NotRecorded
  {
    hide Recorded, Replay, Truthful, SlotOf, Decider, Follow;
    SessionsAreTruthful(tree, r, requests);
    SessionsHaveOrigin(tree, r, requests, key, op.encoding);
    DecidersRelate(requests, key, op.encoding);
    OpendirDecider(requests, key, op.encoding);
    ListingLookup(Recorded(tree, r, requests), tree, r, key, op);
  }

  lemma NativeListing(tree: Tree, r: Roots, key: Key, op: Operation)
    requires ValidRoots(r) && MayBorrow(tree, key, op)
    ensures Native(tree, r, key, op) == Throws("ENOTDIR", Call(op))
  {
  }

  /** The answer that the requests determine: the native one, or the other call's error. */
  function Expected(tree: Tree, r: Roots, requests: seq<Request>, key: Key, op: Operation): Answer
    requires ValidRoots(r)
  {
    if Borrows(tree, requests, key, op) then Throws("ENOTDIR", OtherCall(op)) else Native(tree, r, key, op)
  }

  /** It is the native one exactly when nothing is borrowed. */
  lemma BorrowedIsNotNative(tree: Tree, r: Roots, requests: seq<Request>, key: Key, op: Operation)
    requires ValidRoots(r)
    ensures Expected(tree, r, requests, key, op) == Native(tree, r, key, op) <==> !Borrows(tree, requests, key, op)
  {
    if MayBorrow(tree, key, op) {
      NativeListing(tree, r, key, op);
    }
  }

  lemma NativeIsNoFailure(tree: Tree, r: Roots, key: Key, op: Operation)
    requires ValidRoots(r)
    ensures Native(tree, r, key, op) != ArchiveError && Native(tree, r, key, op) != CacheMiss
  {
  }

  lemma ExpectedIsNative(tree: Tree, r: Roots, requests: seq<Request>, key: Key, op: Operation)
    requires ValidRoots(r) && !MayBorrow(tree, key, op)
    ensures Expected(tree, r, requests, key, op) == Native(tree, r, key, op)
  {
  }

  lemma RecordedListing(tree: Tree, r: Roots, requests: seq<Request>, i: nat)
    requires ValidRoots(r) && i < |requests| && MayBorrow(tree, requests[i].key, requests[i].op)
    ensures !Refusal(tree, r, requests, i)
    ensures RecordedAnswer(tree, r, requests, i) == Expected(tree, r, requests[..i], requests[i].key, requests[i].op)
  {
    hide Recorded;
    ListingReplay(tree, r, requests[..i], requests[i].key, requests[i].op);
    NativeListing(tree, r, requests[i].key, requests[i].op);
  }

  /** What a listing of a file is answered that is not a cache miss, whether it was requested or not. */
  lemma ReplayedListing(tree: Tree, r: Roots, r2: Roots, requests: seq<Request>, key: Key, op: Operation)
    requires ValidRoots(r) && ValidRoots(r2) && ValidTree(tree, r) && MayBorrow(tree, key, op)
    requires ReplayAnswer(Recorded(tree, r, requests), r2, key, op) != CacheMiss
    ensures ReplayAnswer(Recorded(tree, r, requests), r2, key, op) == Expected(tree, r2, requests, key, op)
  {
    hide Recorded, Replay, Native, Follow;
    ListingReplay(tree, r, requests, key, op);
    NativeListing(tree, r2, key, op);
  }

  /**
    Recording is transparent: each request is answered as the filesystem would have answered it if and only
    if it is not the refused `exists` and borrows no error; and these two answers are given exactly too.
   */
  lemma RecordingIsTransparent(tree: Tree, r: Roots, requests: seq<Request>, i: nat)
    requires ValidRoots(r) && ValidTree(tree, r) && i < |requests|
    ensures var key, op, answer := requests[i].key, requests[i].op, RecordedAnswer(tree, r, requests, i);
            && answer == (if Refusal(tree, r, requests, i) then ArchiveError else Expected(tree, r, requests[..i], key, op))
            && (answer == Native(tree, r, key, op)
                <==> !Refusal(tree, r, requests, i) && !Borrows(tree, requests[..i], key, op))
  {
    hide Recorded, RecordedAnswer, Refusal, Native, Decider, Expected;
    var key, op := requests[i].key, requests[i].op;
    BorrowedIsNotNative(tree, r, requests[..i], key, op);
    NativeIsNoFailure(tree, r, key, op);
    if MayBorrow(tree, key, op) {
      RecordedListing(tree, r, requests, i);
    } else {
      RecordingAgrees(tree, r, requests, i);
      ExpectedIsNative(tree, r, requests[..i], key, op);
    }
  }

  /**
    Replay is transparent: every recorded request, in whatever order and under whatever root it is
    replayed, is answered as the same tree would answer natively there if and only if it borrows no
    error.  Replaying changes nothing in the archive, so the requests do not affect each other, and there
    is never a cache miss.
   */
  lemma ReplayIsTransparent(tree: Tree, r: Roots, r2: Roots, requests: seq<Request>, i: nat)
    requires ValidRoots(r) && ValidRoots(r2) && ValidTree(tree, r) && i < |requests|
    requires !Refusal(tree, r, requests, i)
    ensures var key, op := requests[i].key, requests[i].op;
            var answer := ReplayAnswer(Recorded(tree, r, requests), r2, key, op);
            && answer == Expected(tree, r2, requests, key, op) && answer != CacheMiss
            && (answer == Native(tree, r2, key, op) <==> !Borrows(tree, requests, key, op))
  {
    hide Recorded, ReplayAnswer, Refusal, Native, Decider, Expected;
    var key, op := requests[i].key, requests[i].op;
    ReplayAgrees(tree, r, r2, requests, i);
    BorrowedIsNotNative(tree, r2, requests, key, op);
    if MayBorrow(tree, key, op) {
      ReplayedListing(tree, r, r2, requests, key, op);
    } else {
      ExpectedIsNative(tree, r2, requests, key, op);
    }
  }
}
