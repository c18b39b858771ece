/**
  What a recording session can answer, told from its requests alone: which observations were made of a path,
  and what the cache infers from them for operations that were never requested.
 */
module FsKnowledge {
  import opened Options
  import opened FsNodes
  import opened FsArchive
  import opened FsWorld
  import opened FsTransparency
  import opened FsSessions
  import opened FsListings

  // ----- What the requests have shown -----

  const OPEN_READ: Operation := Open("r")

  /** The operation observes what the slot is for; opening a file captures its content and both its stats. */
  predicate Shows(op: Operation, slot: Slot) {
    OperationSlot(op) == Some(slot) || (op.Open? && slot in {ContentSlot, STAT_NUMBER, STAT_BIGINT})
  }

  predicate Touched(requests: seq<Request>, key: Key) {
    requests != [] && (requests[|requests| - 1].key == key || Touched(requests[..|requests| - 1], key))
  }

  predicate Shown(requests: seq<Request>, key: Key, slot: Slot) {
    requests != []
    && (Shown(requests[..|requests| - 1], key, slot)
        || (requests[|requests| - 1].key == key && Shows(requests[|requests| - 1].op, slot)))
  }

  predicate LinkShown(requests: seq<Request>, key: Key) {
    requests != []
    && (LinkShown(requests[..|requests| - 1], key)
        || (requests[|requests| - 1].key == key && ObservesLink(requests[|requests| - 1].op)))
  }

  /** The operation succeeds on what the path leads to. */
  predicate Succeeds(target: Target, op: Operation) {
    match op
    case ReadFile => target.body.FileBody?
    case Readdir(_, _, _) => target.body.DirectoryBody?
    case Opendir(_, _) => target.body.DirectoryBody?
    case Access(mode) => mode !in target.denied
    case _ => true
  }

  /** The operation tells whether the path exists. */
  predicate TellsExistence(tree: Tree, key: Key, op: Operation) {
    if ObservesLink(op) then key !in tree
    else Follow(tree, key).None? || Succeeds(Follow(tree, key).value, op)
  }

  /** Some request told whether the path exists; `exists` itself only while nothing was recorded of the path. */
  predicate PathKnown(tree: Tree, requests: seq<Request>, key: Key) {
    requests != []
    && (PathKnown(tree, requests[..|requests| - 1], key)
        || (requests[|requests| - 1].key == key
            && if requests[|requests| - 1].op.Exists? then !Touched(requests[..|requests| - 1], key)
               else TellsExistence(tree, key, requests[|requests| - 1].op)))
  }

  /** Whether the requests let the cache answer `op`, requested or not. */
  predicate Known(tree: Tree, requests: seq<Request>, key: Key, op: Operation) {
    if op.Exists? then PathKnown(tree, requests, key)
    else if ObservesLink(op) && key !in tree then LinkShown(requests, key)
    else if !ObservesLink(op) && Follow(tree, key).None? then PathKnown(tree, requests, key)
    else
      || Shown(requests, key, OperationSlot(op).value)
      || (op.Readdir? && ListsNames(op, op.encoding) && Shown(requests, key, EntriesSlot(op.encoding)))
      || (op == OPEN_READ && Follow(tree, key).value.body.FileBody? && Shown(requests, key, ContentSlot)
          && Shown(requests, key, STAT_NUMBER) && Shown(requests, key, STAT_BIGINT))
  }

  // ----- What a node has -----

  ghost predicate Has(node: Node, slot: Slot) {
    ReadSlot(node, slot).Some?
  }

  predicate Observable(tree: Tree, key: Key, slot: Slot) {
    !IsMissing(tree, key, CanonicalOp(slot))
  }

  /** The node answers the slot's operations, from the slot or by inference. */
  ghost predicate Answers(node: Node, tree: Tree, key: Key, slot: Slot) {
    || Has(node, slot)
    || (exists encoding :: OperationSlot(Readdir(encoding, false, false)) == Some(slot) && Has(node, EntriesSlot(encoding)))
    || (OperationSlot(OPEN_READ) == Some(slot) && Follow(tree, key).Some? && Follow(tree, key).value.body.FileBody?
        && Has(node, ContentSlot) && Has(node, STAT_NUMBER) && Has(node, STAT_BIGINT))
  }

  ghost predicate SlotFact(node: Node, tree: Tree, requests: seq<Request>, key: Key, slot: Slot) {
    && (Has(node, slot) ==> Shown(requests, key, slot))
    && (Shown(requests, key, slot) && Observable(tree, key, slot) ==> Answers(node, tree, key, slot))
  }

  ghost predicate SlotFacts(node: Node, tree: Tree, requests: seq<Request>, key: Key) {
    forall slot: Slot :: SlotFact(node, tree, requests, key, slot)
  }

  ghost predicate Facts(a: Archive, tree: Tree, requests: seq<Request>, key: Key) {
    && (key in a.entries <==> Touched(requests, key))
    && (NodeFor(a, key).pathExists.Some? <==> PathKnown(tree, requests, key))
    && (Fails(NodeFor(a, key).linkExists) <==> key !in tree && LinkShown(requests, key))
    && SlotFacts(NodeFor(a, key), tree, requests, key)
  }

  // ----- Node facts -----

  lemma SucceedsIsOk(tree: Tree, r: Roots, key: Key, op: Operation)
    requires ValidRoots(r) && !op.Exists? && !ObservesLink(op) && Follow(tree, key).Some?
    ensures NativeOutcome(tree, r, key, op).Ok? <==> Succeeds(Follow(tree, key).value, op)
  {
  }

  lemma ObservedFlags(node: Node, tree: Tree, r: Roots, key: Key, op: Operation)
    requires ValidRoots(r) && Truth(node, tree, r, key)
    ensures var node' := Observed(node, op, NativeOutcome(tree, r, key, op));
            && (node'.pathExists.Some? <==> node.pathExists.Some? || op.Exists? || TellsExistence(tree, key, op))
            && (Fails(node'.linkExists) <==> Fails(node.linkExists) || (ObservesLink(op) && key !in tree))
  {
    var outcome := NativeOutcome(tree, r, key, op);
    if !op.Exists? {
      MissingIsRecognised(tree, r, key, op);
      if !ObservesLink(op) && Follow(tree, key).Some? {
        SucceedsIsOk(tree, r, key, op);
      }
    }
  }

  /**
    What one observation of a path records of its existence: that it leads somewhere or not, and that its
    directory entry is there or not, as far as the outcome tells; else what was known stays.
   */
  lemma ObservationTellsExactly(node: Node, tree: Tree, r: Roots, key: Key, op: Operation)
    requires ValidRoots(r)
    ensures var node', there := Observed(node, op, NativeOutcome(tree, r, key, op)), Follow(tree, key).Some?;
            if op.Exists? then
              node'.pathExists == Some(there) && node'.linkExists == if there then Some(true) else node.linkExists
            else if ObservesLink(op) then
              && node'.pathExists == (if key !in tree then Some(false) else node.pathExists)
              && node'.linkExists
                 == if key !in tree then Some(false)
                    else if op.Readlink? && tree[key].Direct? then node.linkExists else Some(true)
            else
              && node'.pathExists == (if !there || Succeeds(Follow(tree, key).value, op) then Some(there) else node.pathExists)
              && node'.linkExists == if there && Succeeds(Follow(tree, key).value, op) then Some(true) else node.linkExists
  {
    if !op.Exists? {
      MissingIsRecognised(tree, r, key, op);
      if !ObservesLink(op) && Follow(tree, key).Some? {
        SucceedsIsOk(tree, r, key, op);
      }
    }
  }

  lemma ObservedSlots(node: Node, tree: Tree, r: Roots, key: Key, op: Operation, slot: Slot)
    requires ValidRoots(r)
    ensures Has(Observed(node, op, NativeOutcome(tree, r, key, op)), slot)
            <==> Has(node, slot) || (OperationSlot(op) == Some(slot) && !IsMissing(tree, key, op))
  {
    var outcome := NativeOutcome(tree, r, key, op);
    if !op.Exists? {
      MissingIsRecognised(tree, r, key, op);
      var node1 := UpdateExistence(node, op, outcome, IsMissingOutcome(op, outcome));
      assert ReadSlot(node1, slot) == ReadSlot(node, slot);
      ReadWritten(node1, OperationSlot(op).value, outcome, slot);
    }
  }

  lemma SlotOfOperation(tree: Tree, key: Key, op: Operation)
    requires !op.Exists?
    ensures Observable(tree, key, OperationSlot(op).value) <==> !IsMissing(tree, key, op)
  {
  }

  /** A listed file's content and stats are what the inference of an open needs. */
  lemma InferredOutcomes(node: Node, tree: Tree, r: Roots, key: Key)
    requires ValidRoots(r) && Truth(node, tree, r, key) && Follow(tree, key).Some?
    ensures Has(node, ContentSlot) ==> (Succeeded(node.content) <==> Follow(tree, key).value.body.FileBody?)
    ensures Has(node, STAT_NUMBER) ==> Succeeded(ReadSlot(node, STAT_NUMBER))
    ensures Has(node, STAT_BIGINT) ==> Succeeded(ReadSlot(node, STAT_BIGINT))
  {
    SucceedsIsOk(tree, r, key, ReadFile);
    SucceedsIsOk(tree, r, key, Stat(false, false));
    SucceedsIsOk(tree, r, key, Stat(true, false));
    assert Has(node, ContentSlot) ==> SlotTruth(tree, r, key, ContentSlot, ReadSlot(node, ContentSlot).value);
    assert Has(node, STAT_NUMBER) ==> SlotTruth(tree, r, key, STAT_NUMBER, ReadSlot(node, STAT_NUMBER).value);
    assert Has(node, STAT_BIGINT) ==> SlotTruth(tree, r, key, STAT_BIGINT, ReadSlot(node, STAT_BIGINT).value);
  }

  lemma OpenIsFound(node: Node, tree: Tree, r: Roots, key: Key)
    requires ValidRoots(r) && Truth(node, tree, r, key) && Follow(tree, key).Some?
    ensures NodeLookup(node, OPEN_READ).Found? <==> Answers(node, tree, key, OperationSlot(OPEN_READ).value)
  {
    InferredOutcomes(node, tree, r, key);
    assert ReadSlot(node, ContentSlot) == node.content;
    hide Truth, Follow;
  }

  lemma ListingIsFound(node: Node, tree: Tree, key: Key, encoding: Encoding, types: bool, recursive: bool)
    ensures var op := Readdir(encoding, types, recursive);
            NodeLookup(node, op).Found? <==> Answers(node, tree, key, OperationSlot(op).value)
  {
    hide Follow;
    var op := Readdir(encoding, types, recursive);
    if !types && !recursive {
      assert OperationSlot(Readdir(encoding, false, false)) == OperationSlot(op);
    }
  }

  lemma SlotIsFound(node: Node, tree: Tree, key: Key, op: Operation)
    requires !op.Exists? && !op.Readdir? && op != OPEN_READ
    ensures NodeLookup(node, op).Found? <==> Answers(node, tree, key, OperationSlot(op).value)
  {
    hide Follow;
  }

  /** Looking up an operation on what is there gives something exactly if the node answers its slot. */
  lemma FoundIsAnswered(node: Node, tree: Tree, r: Roots, key: Key, op: Operation)
    requires ValidRoots(r) && Truth(node, tree, r, key) && !op.Exists? && !IsMissing(tree, key, op)
    ensures NodeLookup(node, op).Found? <==> Answers(node, tree, key, OperationSlot(op).value)
  {
    hide Truth, NodeLookup, Answers;
    if op == OPEN_READ {
      OpenIsFound(node, tree, r, key);
    } else if op.Readdir? {
      ListingIsFound(node, tree, key, op.encoding, op.withFileTypes, op.recursive);
    } else {
      SlotIsFound(node, tree, key, op);
    }
  }

  // ----- One more request -----

  lemma OneMore(tree: Tree, requests: seq<Request>, last: Request, key: Key, slot: Slot)
    ensures var more := requests + [last];
            && (Touched(more, key) <==> Touched(requests, key) || last.key == key)
            && (Shown(more, key, slot) <==> Shown(requests, key, slot) || (last.key == key && Shows(last.op, slot)))
            && (LinkShown(more, key) <==> LinkShown(requests, key) || (last.key == key && ObservesLink(last.op)))
            && (PathKnown(tree, more, key) <==>
                  PathKnown(tree, requests, key)
                  || (last.key == key && if last.op.Exists? then !Touched(requests, key) else TellsExistence(tree, key, last.op)))
  {
    assert (requests + [last])[..|requests|] == requests;
  }

  /** What was shown of a path that is not there, or successfully, told that it exists or not. */
  lemma {:induction false} ShownTells(tree: Tree, requests: seq<Request>, key: Key, slot: Slot)
    requires Shown(requests, key, slot) && !ObservesLink(CanonicalOp(slot)) && TellsExistence(tree, key, CanonicalOp(slot))
    ensures PathKnown(tree, requests, key)
  {
    if Shown(requests[..|requests| - 1], key, slot) {
      ShownTells(tree, requests[..|requests| - 1], key, slot);
    }
  }

  /** Who opened a path has captured what the slot is for. */
  lemma {:induction false} ShownOpen(requests: seq<Request>, key: Key, flags: string, slot: Slot)
    requires Shown(requests, key, MapSlot(OpensField, FlagsKey(flags))) && slot in {ContentSlot, STAT_NUMBER, STAT_BIGINT}
    ensures Shown(requests, key, slot)
  {
    if Shown(requests[..|requests| - 1], key, MapSlot(OpensField, FlagsKey(flags))) {
      ShownOpen(requests[..|requests| - 1], key, flags, slot);
    }
  }

  /** What a looked up answer rests on. */
  lemma CoveredIsFound(a: Archive, tree: Tree, r: Roots, key: Key, op: Operation)
    requires ValidRoots(r) && Truthful(a, tree, r) && a.missing == {} && !op.Exists? && !IsMissing(tree, key, op)
    ensures key in a.entries ==> Truth(a.entries[key], tree, r, key)
    ensures Covered(a, key, op) ==> key in a.entries && Answers(a.entries[key], tree, key, OperationSlot(op).value)
    ensures Covered(a, key, op) && op.Open? ==> Has(a.entries[key], ContentSlot)
    ensures (key in a.entries && Answers(a.entries[key], tree, key, OperationSlot(op).value)
             && (op.Open? ==> Has(a.entries[key], ContentSlot))) ==> Covered(a, key, op)
  {
    if Fails(GetExists(a, key, op)) {
      MissingIsTrue(a, tree, r, key, op);
    }
    if key in a.entries {
      FoundIsAnswered(a.entries[key], tree, r, key, op);
      if op.Open? {
        FoundIsAnswered(a.entries[key], tree, r, key, ReadFile);
        OpenFailureIsNative(a, tree, r, key, op.flags);
      }
    }
  }

  /** What answers an operation on something that is there told that it is there. */
  lemma AnsweredTells(node: Node, tree: Tree, requests: seq<Request>, key: Key, op: Operation)
    requires SlotFacts(node, tree, requests, key) && !op.Exists? && !IsMissing(tree, key, op)
    requires Answers(node, tree, key, OperationSlot(op).value) && TellsExistence(tree, key, op)
    ensures PathKnown(tree, requests, key)
  {
    hide Shown, PathKnown, Has;
    var slot := OperationSlot(op).value;
    if Has(node, slot) {
      assert SlotFact(node, tree, requests, key, slot);
      SlotTells(tree, key, op);
      ShownTells(tree, requests, key, slot);
    } else if encoding :| OperationSlot(Readdir(encoding, false, false)) == Some(slot) && Has(node, EntriesSlot(encoding)) {
      assert SlotFact(node, tree, requests, key, EntriesSlot(encoding));
      ShownTells(tree, requests, key, EntriesSlot(encoding));
    } else {
      assert SlotFact(node, tree, requests, key, ContentSlot);
      ShownTells(tree, requests, key, ContentSlot);
    }
  }

  lemma SlotTells(tree: Tree, key: Key, op: Operation)
    requires !op.Exists? && !IsMissing(tree, key, op) && TellsExistence(tree, key, op)
    ensures !ObservesLink(CanonicalOp(OperationSlot(op).value)) && TellsExistence(tree, key, CanonicalOp(OperationSlot(op).value))
  {
  }

  /** A request that is answered already tells nothing new of the path's existence. */
  lemma CoveredTells(a: Archive, tree: Tree, r: Roots, requests: seq<Request>, key: Key, op: Operation)
    requires ValidRoots(r) && Truthful(a, tree, r) && a.missing == {} && Facts(a, tree, requests, key) && Covered(a, key, op)
    requires !op.Exists? && TellsExistence(tree, key, op)
    ensures PathKnown(tree, requests, key)
  {
    hide Truthful, Covered, Answers, SlotFacts, TellsExistence;
    if !IsMissing(tree, key, op) {
      CoveredIsFound(a, tree, r, key, op);
      AnsweredTells(NodeFor(a, key), tree, requests, key, op);
    } else {
      MissingTells(a, tree, r, requests, key, op);
    }
  }

  lemma MissingTells(a: Archive, tree: Tree, r: Roots, requests: seq<Request>, key: Key, op: Operation)
    requires ValidRoots(r) && Truthful(a, tree, r) && a.missing == {} && Facts(a, tree, requests, key) && Covered(a, key, op)
    requires !op.Exists? && IsMissing(tree, key, op)
    ensures PathKnown(tree, requests, key)
  {
    hide SlotFacts;
    LookupIsTrue(a, tree, r, key, op);
    if ObservesLink(op) {
      LinkTells(tree, requests, key);
    }
  }

  lemma {:induction false} LinkTells(tree: Tree, requests: seq<Request>, key: Key)
    requires LinkShown(requests, key) && key !in tree
    ensures PathKnown(tree, requests, key)
  {
    if LinkShown(requests[..|requests| - 1], key) {
      LinkTells(tree, requests[..|requests| - 1], key);
    }
  }

  /** A captured slot of a file that can be opened already. */
  lemma CoveredOpenHas(a: Archive, tree: Tree, r: Roots, requests: seq<Request>, key: Key, op: Operation, slot: Slot)
    requires ValidRoots(r) && Truthful(a, tree, r) && a.missing == {} && Facts(a, tree, requests, key) && Covered(a, key, op)
    requires op.Open? && !IsMissing(tree, key, op) && slot in {ContentSlot, STAT_NUMBER, STAT_BIGINT}
    ensures Has(NodeFor(a, key), slot)
  {
    var node, own := NodeFor(a, key), OperationSlot(op).value;
    CoveredIsFound(a, tree, r, key, op);
    if Has(node, own) {
      assert SlotFact(node, tree, requests, key, own);
      ShownOpen(requests, key, op.flags, slot);
      assert SlotFact(node, tree, requests, key, slot);
      NoInference(node, tree, key, slot);
    }
  }

  /** The captured slots are answered by themselves only. */
  lemma NoInference(node: Node, tree: Tree, key: Key, slot: Slot)
    requires slot in {ContentSlot, STAT_NUMBER, STAT_BIGINT} && Answers(node, tree, key, slot)
    ensures Has(node, slot)
  {
  }

  lemma CoveredSlot(a: Archive, tree: Tree, r: Roots, requests: seq<Request>, key: Key, op: Operation, slot: Slot)
    requires ValidRoots(r) && Truthful(a, tree, r) && a.missing == {} && Facts(a, tree, requests, key) && Covered(a, key, op)
    requires !op.Exists? && Shows(op, slot) && Observable(tree, key, slot)
    ensures Answers(NodeFor(a, key), tree, key, slot)
  {
    SlotOfOperation(tree, key, op);
    if OperationSlot(op) == Some(slot) {
      CoveredIsFound(a, tree, r, key, op);
    } else {
      CoveredOpenHas(a, tree, r, requests, key, op, slot);
    }
  }

  lemma CoveredFacts(a: Archive, tree: Tree, r: Roots, requests: seq<Request>, key: Key, op: Operation)
    requires ValidRoots(r) && Truthful(a, tree, r) && a.missing == {} && Facts(a, tree, requests, key)
    requires Covered(a, key, op) || Flagless(a, key, op)
    ensures Facts(a, tree, requests + [Request(key, op)], key)
  {
    hide Truthful, Covered, Answers, Has;
    var more := requests + [Request(key, op)];
    CoveredIsTouched(a, key, op);
    OneMore(tree, requests, Request(key, op), key, ContentSlot);
    if !op.Exists? && TellsExistence(tree, key, op) {
      CoveredTells(a, tree, r, requests, key, op);
    }
    if ObservesLink(op) && key !in tree {
      CoveredLink(a, tree, r, key, op);
    }
    forall slot: Slot
      ensures SlotFact(NodeFor(a, key), tree, more, key, slot)
    {
      OneMore(tree, requests, Request(key, op), key, slot);
      assert SlotFact(NodeFor(a, key), tree, requests, key, slot);
      if !op.Exists? && Shows(op, slot) && Observable(tree, key, slot) {
        CoveredSlot(a, tree, r, requests, key, op, slot);
      }
    }
  }

  lemma CoveredIsTouched(a: Archive, key: Key, op: Operation)
    requires a.missing == {} && (Covered(a, key, op) || Flagless(a, key, op))
    ensures key in a.entries
  {
  }

  lemma CoveredLink(a: Archive, tree: Tree, r: Roots, key: Key, op: Operation)
    requires ValidRoots(r) && Truthful(a, tree, r) && a.missing == {} && Covered(a, key, op) && ObservesLink(op) && key !in tree
    ensures Fails(NodeFor(a, key).linkExists)
  {
    LookupIsTrue(a, tree, r, key, op);
  }

  lemma MoreIsAnswered(node: Node, node': Node, tree: Tree, key: Key, slot: Slot)
    requires Answers(node, tree, key, slot) && forall s: Slot :: Has(node, s) ==> Has(node', s)
    ensures Answers(node', tree, key, slot)
  {
    if encoding :| OperationSlot(Readdir(encoding, false, false)) == Some(slot) && Has(node, EntriesSlot(encoding)) {
      assert Has(node', EntriesSlot(encoding));
    }
  }

  /** A node that has what it had and what the operation shows, if that is there. */
  lemma SlotFactsGrow(node: Node, node': Node, tree: Tree, requests: seq<Request>, key: Key, op: Operation)
    requires SlotFacts(node, tree, requests, key)
    requires forall slot: Slot :: Has(node', slot) <==> Has(node, slot) || (Shows(op, slot) && Observable(tree, key, slot))
    ensures SlotFacts(node', tree, requests + [Request(key, op)], key)
  {
    hide Answers, Has, Shows, Observable;
    forall slot: Slot
      ensures SlotFact(node', tree, requests + [Request(key, op)], key, slot)
    {
      assert SlotFact(node, tree, requests, key, slot);
      OneMore(tree, requests, Request(key, op), key, slot);
      if Shown(requests, key, slot) && Observable(tree, key, slot) {
        MoreIsAnswered(node, node', tree, key, slot);
      } else if Shows(op, slot) && Observable(tree, key, slot) {
        HasAnswers(node', tree, key, slot);
      }
    }
  }

  lemma HasAnswers(node: Node, tree: Tree, key: Key, slot: Slot)
    requires Has(node, slot)
    ensures Answers(node, tree, key, slot)
  {
  }

  /** One observation of a path, for an operation other than an open. */
  lemma SetFacts(a: Archive, tree: Tree, r: Roots, requests: seq<Request>, key: Key, op: Operation)
    requires ValidRoots(r) && Truthful(a, tree, r) && a.missing == {} && Facts(a, tree, requests, key)
    requires !op.Open? && !Covered(a, key, op) && !Flagless(a, key, op)
    ensures Facts(Set(a, key, op, NativeOutcome(tree, r, key, op)), tree, requests + [Request(key, op)], key)
  {
    hide SlotFacts, Answers, Has, NativeOutcome, Observed;
    var node, node' := NodeFor(a, key), Observed(NodeFor(a, key), op, NativeOutcome(tree, r, key, op));
    TruthFor(a, tree, r, key);
    ObservedFlags(node, tree, r, key, op);
    OneMore(tree, requests, Request(key, op), key, ContentSlot);
    if op.Exists? {
      UncoveredExists(a, key);
    }
    forall slot: Slot
      ensures Has(node', slot) <==> Has(node, slot) || (Shows(op, slot) && Observable(tree, key, slot))
    {
      ObservedSlots(node, tree, r, key, op, slot);
      if !op.Exists? {
        SlotOfOperation(tree, key, op);
      }
    }
    SlotFactsGrow(node, node', tree, requests, key, op);
  }

  lemma TruthFor(a: Archive, tree: Tree, r: Roots, key: Key)
    requires ValidRoots(r) && Truthful(a, tree, r) && a.missing == {}
    ensures Truth(NodeFor(a, key), tree, r, key)
  {
    assert forall slot: Slot :: ReadSlot(EMPTY, slot).None?;
  }

  lemma UncoveredExists(a: Archive, key: Key)
    requires !Covered(a, key, Exists) && !Flagless(a, key, Exists)
    ensures key !in a.entries
  {
  }

  // ----- Opens -----

  /** What a capture adds to a node that is there. */
  lemma CapturedNode(a: Archive, tree: Tree, r: Roots, key: Key, op: Operation)
    requires ValidRoots(r) && Truthful(a, tree, r) && a.missing == {} && key in a.entries && Follow(tree, key).Some?
    requires op.ReadFile? || op.FStat?
    ensures var a' := Capture(a, tree, r, key, op);
            && key in a'.entries && a'.missing == {} && Truthful(a', tree, r)
            && (a.entries[key].pathExists.Some? ==> a'.entries[key].pathExists.Some?)
            && (Fails(a'.entries[key].linkExists) <==> Fails(a.entries[key].linkExists))
            && forall slot: Slot :: Has(a'.entries[key], slot) <==> Has(a.entries[key], slot) || OperationSlot(op) == Some(slot)
  {
    var node := a.entries[key];
    CaptureKeeps(a, tree, r, key, op);
    ObservedFlags(node, tree, r, key, op);
    forall slot: Slot
      ensures Has(Observed(node, op, NativeOutcome(tree, r, key, op)), slot) <==> Has(node, slot) || OperationSlot(op) == Some(slot)
    {
      ObservedSlots(node, tree, r, key, op, slot);
    }
  }

  lemma CapturedOpenNode(a: Archive, tree: Tree, r: Roots, key: Key)
    requires ValidRoots(r) && Truthful(a, tree, r) && a.missing == {} && key in a.entries && Follow(tree, key).Some?
    ensures var a' := CaptureOpened(a, tree, r, key);
            && key in a'.entries && a'.missing == {}
            && (a.entries[key].pathExists.Some? ==> a'.entries[key].pathExists.Some?)
            && (Fails(a'.entries[key].linkExists) <==> Fails(a.entries[key].linkExists))
            && forall slot: Slot :: Has(a'.entries[key], slot)
                 <==> Has(a.entries[key], slot) || slot in {ContentSlot, STAT_NUMBER, STAT_BIGINT}
  {
    hide Truthful, Capture, Has, Follow;
    var a1 := Capture(a, tree, r, key, ReadFile);
    var a2 := Capture(a1, tree, r, key, FStat(false));
    CapturedNode(a, tree, r, key, ReadFile);
    CapturedNode(a1, tree, r, key, FStat(false));
    CapturedNode(a2, tree, r, key, FStat(true));
  }

  lemma OpenSlots(tree: Tree, key: Key, flags: string, slot: Slot)
    ensures Shows(Open(flags), slot) && Observable(tree, key, slot)
            <==> Follow(tree, key).Some? && (OperationSlot(Open(flags)) == Some(slot) || slot in {ContentSlot, STAT_NUMBER, STAT_BIGINT})
  {
  }

  lemma OpenFacts(a: Archive, tree: Tree, r: Roots, requests: seq<Request>, key: Key, flags: string)
    requires ValidRoots(r) && Truthful(a, tree, r) && a.missing == {} && Facts(a, tree, requests, key)
    requires !Covered(a, key, Open(flags))
    ensures Facts(RecordOpen(a, tree, r, key, flags).0, tree, requests + [Request(key, Open(flags))], key)
  {
    hide SlotFacts, Answers, Has, Truthful, CaptureOpened, Shows, Observable, Observed;
    var op := Open(flags);
    var a1, node := Set(a, key, op, NativeOutcome(tree, r, key, op)), NodeFor(a, key);
    TruthFor(a, tree, r, key);
    SetTruthful(a, tree, r, key, op);
    ObservedFlags(node, tree, r, key, op);
    OpenIsNative(tree, r, key, flags);
    OneMore(tree, requests, Request(key, op), key, ContentSlot);
    if Follow(tree, key).Some? {
      CapturedOpenNode(a1, tree, r, key);
    }
    var node' := NodeFor(RecordOpen(a, tree, r, key, flags).0, key);
    forall slot: Slot
      ensures Has(node', slot) <==> Has(node, slot) || (Shows(op, slot) && Observable(tree, key, slot))
    {
      ObservedSlots(node, tree, r, key, op, slot);
      OpenSlots(tree, key, flags, slot);
    }
    SlotFactsGrow(node, node', tree, requests, key, op);
  }

  lemma OpenIsNative(tree: Tree, r: Roots, key: Key, flags: string)
    requires ValidRoots(r)
    ensures Native(tree, r, key, Open(flags)).Opened? <==> Follow(tree, key).Some?
    ensures TellsExistence(tree, key, Open(flags))
  {
  }

  // ----- Sessions -----

  lemma OwnRequestFacts(a: Archive, tree: Tree, r: Roots, requests: seq<Request>, key: Key, op: Operation)
    requires ValidRoots(r) && Truthful(a, tree, r) && a.missing == {} && Facts(a, tree, requests, key)
    ensures Facts(Record(a, tree, r, key, op).0, tree, requests + [Request(key, op)], key)
  {
    if Covered(a, key, op) || Flagless(a, key, op) {
      CoveredFacts(a, tree, r, requests, key, op);
      CoveredIsLeft(a, tree, r, key, op);
    } else if op.Open? {
      OpenFacts(a, tree, r, requests, key, op.flags);
    } else {
      SetFacts(a, tree, r, requests, key, op);
      UncoveredIsSet(a, tree, r, key, op);
    }
  }

  lemma CoveredIsLeft(a: Archive, tree: Tree, r: Roots, key: Key, op: Operation)
    requires ValidRoots(r) && (Covered(a, key, op) || Flagless(a, key, op))
    ensures Record(a, tree, r, key, op).0 == a
  {
  }

  lemma UncoveredIsSet(a: Archive, tree: Tree, r: Roots, key: Key, op: Operation)
    requires ValidRoots(r) && !op.Open? && !Covered(a, key, op) && !Flagless(a, key, op)
    ensures Record(a, tree, r, key, op).0 == Set(a, key, op, NativeOutcome(tree, r, key, op))
  {
  }

  lemma OtherNodeIsLeft(a: Archive, tree: Tree, r: Roots, key: Key, op: Operation, other: Key)
    requires ValidRoots(r) && a.missing == {} && other != key
    ensures var a' := Record(a, tree, r, key, op).0;
            (other in a'.entries <==> other in a.entries) && NodeFor(a', other) == NodeFor(a, other)
  {
    if op.Open? {
      OpenLeaves(a, tree, r, key, op.flags);
      SetLeaves(a, key, op, NativeOutcome(tree, r, key, op), other);
      CaptureLeaves(Set(a, key, op, NativeOutcome(tree, r, key, op)), tree, r, key, other);
      hide RecordOpen, CaptureOpened, Set, NativeOutcome;
    }
  }

  lemma SetLeaves(a: Archive, key: Key, op: Operation, outcome: Outcome, other: Key)
    requires a.missing == {} && other != key
    ensures var a' := Set(a, key, op, outcome);
            (other in a'.entries <==> other in a.entries) && NodeFor(a', other) == NodeFor(a, other) && a'.missing == {}
  {
  }

  lemma CaptureLeaves(a: Archive, tree: Tree, r: Roots, key: Key, other: Key)
    requires ValidRoots(r) && a.missing == {} && other != key
    ensures var a' := CaptureOpened(a, tree, r, key);
            (other in a'.entries <==> other in a.entries) && NodeFor(a', other) == NodeFor(a, other)
  {
    hide Observed, NativeOutcome, Get;
  }

  lemma OtherRequestFacts(a: Archive, tree: Tree, r: Roots, requests: seq<Request>, last: Request, key: Key)
    requires ValidRoots(r) && a.missing == {} && Facts(a, tree, requests, key) && last.key != key
    ensures Facts(Record(a, tree, r, last.key, last.op).0, tree, requests + [last], key)
  {
    hide Answers, Has, Record;
    OtherNodeIsLeft(a, tree, r, last.key, last.op, key);
    OneMore(tree, requests, last, key, ContentSlot);
    forall slot: Slot
      ensures SlotFact(NodeFor(a, key), tree, requests + [last], key, slot)
    {
      assert SlotFact(NodeFor(a, key), tree, requests, key, slot);
      OneMore(tree, requests, last, key, slot);
    }
  }

  lemma {:induction false} SessionFacts(tree: Tree, r: Roots, requests: seq<Request>, key: Key)
    requires ValidRoots(r)
    ensures Facts(Recorded(tree, r, requests), tree, requests, key)
  {
    hide Facts, Record, Truthful;
    if requests == [] {
      NothingShown(tree, key);
    } else {
      var before, last := requests[..|requests| - 1], requests[|requests| - 1];
      SessionFacts(tree, r, before, key);
      SessionsAreTruthful(tree, r, before);
      assert before + [last] == requests;
      if last.key == key {
        OwnRequestFacts(Recorded(tree, r, before), tree, r, before, key, last.op);
        assert last == Request(key, last.op);
      } else {
        OtherRequestFacts(Recorded(tree, r, before), tree, r, before, last, key);
      }
    }
  }

  lemma NothingShown(tree: Tree, key: Key)
    ensures Facts(EMPTY_ARCHIVE, tree, [], key)
  {
    assert forall slot: Slot :: !Has(EMPTY, slot);
  }

  // ----- What a replay answers, from the requests alone -----

  lemma MissingIsKnown(a: Archive, tree: Tree, r: Roots, requests: seq<Request>, key: Key, op: Operation)
    requires ValidRoots(r) && Truthful(a, tree, r) && a.missing == {} && Facts(a, tree, requests, key)
    requires IsMissing(tree, key, op) && !op.Exists?
    ensures Covered(a, key, op) <==> Known(tree, requests, key, op)
  {
    LookupIsTrue(a, tree, r, key, op);
    if op.Open? {
      OpenFailureIsNative(a, tree, r, key, op.flags);
    }
    if key in a.entries {
      assert Truth(a.entries[key], tree, r, key);
    }
  }

  lemma ExistenceIsKnown(a: Archive, tree: Tree, requests: seq<Request>, key: Key)
    requires a.missing == {} && Facts(a, tree, requests, key)
    ensures Covered(a, key, Exists) <==> PathKnown(tree, requests, key)
    ensures Flagless(a, key, Exists) <==> Touched(requests, key) && !PathKnown(tree, requests, key)
  {
  }

  /** Who answers a slot has been shown what its answer rests on. */
  lemma AnsweredIsKnown(node: Node, tree: Tree, requests: seq<Request>, key: Key, op: Operation)
    requires SlotFacts(node, tree, requests, key) && !op.Exists? && !IsMissing(tree, key, op)
    requires Answers(node, tree, key, OperationSlot(op).value)
    ensures Known(tree, requests, key, op)
  {
    var slot := OperationSlot(op).value;
    if Has(node, slot) {
      assert SlotFact(node, tree, requests, key, slot);
    } else if encoding :| OperationSlot(Readdir(encoding, false, false)) == Some(slot) && Has(node, EntriesSlot(encoding)) {
      assert SlotFact(node, tree, requests, key, EntriesSlot(encoding));
    } else {
      assert SlotFact(node, tree, requests, key, ContentSlot);
      assert SlotFact(node, tree, requests, key, STAT_NUMBER);
      assert SlotFact(node, tree, requests, key, STAT_BIGINT);
    }
  }

  /** And the other way round: what was shown of something that is there is answered. */
  lemma KnownIsAnswered(node: Node, tree: Tree, requests: seq<Request>, key: Key, op: Operation)
    requires SlotFacts(node, tree, requests, key) && !op.Exists? && !IsMissing(tree, key, op)
    requires Known(tree, requests, key, op)
    ensures Answers(node, tree, key, OperationSlot(op).value)
    ensures op.Open? ==> Has(node, ContentSlot)
  {
    hide Has, Shown;
    var slot := OperationSlot(op).value;
    SlotOfOperation(tree, key, op);
    assert SlotFact(node, tree, requests, key, slot);
    if op.Open? {
      OpenIsAnswered(node, tree, requests, key, op.flags);
    } else if !Shown(requests, key, slot) {
      assert SlotFact(node, tree, requests, key, EntriesSlot(op.encoding));
      NoNamesInference(node, tree, key, op.encoding);
      assert OperationSlot(Readdir(op.encoding, false, false)) == Some(slot);
    }
  }

  /** Nothing answers the entries of a directory but their own slot. */
  lemma NoNamesInference(node: Node, tree: Tree, key: Key, encoding: Encoding)
    requires Answers(node, tree, key, EntriesSlot(encoding))
    ensures Has(node, EntriesSlot(encoding))
  {
  }

  lemma CaptureIsAnswered(node: Node, tree: Tree, requests: seq<Request>, key: Key, slot: Slot)
    requires SlotFacts(node, tree, requests, key) && Follow(tree, key).Some? && Shown(requests, key, slot)
    requires slot in {ContentSlot, STAT_NUMBER, STAT_BIGINT}
    ensures Has(node, slot)
  {
    assert SlotFact(node, tree, requests, key, slot);
    NoInference(node, tree, key, slot);
  }

  lemma OpenIsAnswered(node: Node, tree: Tree, requests: seq<Request>, key: Key, flags: string)
    requires SlotFacts(node, tree, requests, key) && Follow(tree, key).Some? && Known(tree, requests, key, Open(flags))
    ensures Answers(node, tree, key, OperationSlot(Open(flags)).value) && Has(node, ContentSlot)
  {
    hide Has, Shown;
    if Shown(requests, key, OperationSlot(Open(flags)).value) {
      assert SlotFact(node, tree, requests, key, OperationSlot(Open(flags)).value);
      ShownOpen(requests, key, flags, ContentSlot);
    } else {
      CaptureIsAnswered(node, tree, requests, key, STAT_NUMBER);
      CaptureIsAnswered(node, tree, requests, key, STAT_BIGINT);
    }
    CaptureIsAnswered(node, tree, requests, key, ContentSlot);
  }

  lemma CoveredIsKnown(a: Archive, tree: Tree, r: Roots, requests: seq<Request>, key: Key, op: Operation)
    requires ValidRoots(r) && Truthful(a, tree, r) && a.missing == {} && Facts(a, tree, requests, key)
    ensures Covered(a, key, op) <==> Known(tree, requests, key, op)
  {
    hide Answers, Truthful, Covered, Shown, SlotFacts;
    if op.Exists? {
      ExistenceIsKnown(a, tree, requests, key);
    } else if IsMissing(tree, key, op) {
      MissingIsKnown(a, tree, r, requests, key, op);
    } else {
      CoveredIsFound(a, tree, r, key, op);
      if Covered(a, key, op) {
        AnsweredIsKnown(a.entries[key], tree, requests, key, op);
      } else if Known(tree, requests, key, op) {
        KnownIsAnswered(NodeFor(a, key), tree, requests, key, op);
        NothingAnswers(tree, key, op);
      }
    }
  }

  lemma NothingAnswers(tree: Tree, key: Key, op: Operation)
    requires !op.Exists?
    ensures !Answers(EMPTY, tree, key, OperationSlot(op).value)
  {
  }

  /** A session's archive answers an operation by itself exactly if the requests let it, whatever was requested. */
  lemma SessionsKnowExactly(tree: Tree, r: Roots, requests: seq<Request>, key: Key, op: Operation)
    requires ValidRoots(r)
    ensures Covered(Recorded(tree, r, requests), key, op) <==> Known(tree, requests, key, op)
    ensures Flagless(Recorded(tree, r, requests), key, op)
            <==> op.Exists? && Touched(requests, key) && !PathKnown(tree, requests, key)
  {
    hide Recorded, Truthful, Facts, Known, PathKnown, Touched;
    SessionFacts(tree, r, requests, key);
    SessionsAreTruthful(tree, r, requests);
    CoveredIsKnown(Recorded(tree, r, requests), tree, r, requests, key, op);
    ExistenceIsKnown(Recorded(tree, r, requests), tree, requests, key);
  }

  lemma UncoveredIsMissed(a: Archive, r: Roots, key: Key, op: Operation)
    requires ValidRoots(r) && !Covered(a, key, op) && a.missing == {}
    ensures ReplayAnswer(a, r, key, op) == if Flagless(a, key, op) then ArchiveError else CacheMiss
  {
  }

  /**
    What a replay answers for any operation, requested or not: what the filesystem would there, but for a
    borrowed error, if the requests let the cache know; otherwise a cache miss, or for `exists` on a path
    of which something else is known the archive's error.
   */
  lemma SessionAnswersExactly(tree: Tree, r: Roots, r2: Roots, requests: seq<Request>, key: Key, op: Operation)
    requires ValidRoots(r) && ValidRoots(r2) && ValidTree(tree, r)
    ensures ReplayAnswer(Recorded(tree, r, requests), r2, key, op)
            == if Known(tree, requests, key, op) then Expected(tree, r2, requests, key, op)
               else if op.Exists? && Touched(requests, key) then ArchiveError
               else CacheMiss
  {
    hide Recorded, Truthful, ReplayAnswer, Covered, Native, Decider, Flagless, Known, Expected, PathKnown, Touched;
    var a := Recorded(tree, r, requests);
    SessionsAreTruthful(tree, r, requests);
    SessionsKnowExactly(tree, r, requests, key, op);
    if Covered(a, key, op) {
      CoveredAnswerIsNative(a, tree, r, r2, key, op);
      CoveredIsNoMiss(a, r2, key, op);
      if MayBorrow(tree, key, op) {
        ReplayedListing(tree, r, r2, requests, key, op);
      } else {
        ExpectedIsNative(tree, r2, requests, key, op);
      }
    } else {
      UncoveredIsMissed(a, r2, key, op);
      ExistsIsKnown(tree, requests, key);
    }
  }

  lemma ExistsIsKnown(tree: Tree, requests: seq<Request>, key: Key)
    ensures Known(tree, requests, key, Exists) <==> PathKnown(tree, requests, key)
  {
  }

  /** When the archive refuses a recorded `exists`, told from the requests before it. */
  lemma RefusalExactly(tree: Tree, r: Roots, requests: seq<Request>, i: nat)
    requires ValidRoots(r) && i < |requests|
    ensures Refusal(tree, r, requests, i)
            <==> requests[i].op.Exists? && Touched(requests[..i], requests[i].key) && !PathKnown(tree, requests[..i], requests[i].key)
  {
    hide Recorded, Flagless, Known, PathKnown, Touched;
    SessionsKnowExactly(tree, r, requests[..i], requests[i].key, requests[i].op);
  }

  // ----- What is inferred -----

  lemma {:induction false} RequestShows(requests: seq<Request>, key: Key, op: Operation, slot: Slot)
    requires Request(key, op) in requests && Shows(op, slot)
    ensures Shown(requests, key, slot)
  {
    if requests[|requests| - 1] != Request(key, op) {
      RequestShows(requests[..|requests| - 1], key, op, slot);
    }
  }

  lemma {:induction false} RequestTells(tree: Tree, requests: seq<Request>, key: Key, op: Operation)
    requires Request(key, op) in requests
    ensures !op.Exists? && TellsExistence(tree, key, op) ==> PathKnown(tree, requests, key)
    ensures ObservesLink(op) ==> LinkShown(requests, key)
  {
    if requests[|requests| - 1] != Request(key, op) {
      RequestTells(tree, requests[..|requests| - 1], key, op);
    }
  }

  /** A file that was read and whose stats were both asked for can be opened for reading, though nobody opened it. */
  lemma OpenIsInferred(tree: Tree, r: Roots, r2: Roots, requests: seq<Request>, key: Key, number: bool, bigint: bool)
    requires ValidRoots(r) && ValidRoots(r2) && ValidTree(tree, r)
    requires Follow(tree, key).Some? && Follow(tree, key).value.body.FileBody?
    requires Request(key, ReadFile) in requests
    requires Request(key, Stat(false, number)) in requests && Request(key, Stat(true, bigint)) in requests
    ensures ReplayAnswer(Recorded(tree, r, requests), r2, key, Open("r")) == Native(tree, r2, key, Open("r"))
    ensures Native(tree, r2, key, Open("r")) == Opened(Returns(Buffer(Follow(tree, key).value.body.bytes)))
  {
    hide Recorded, ReplayAnswer, Shown, ValidTree, Decider;
    RequestShows(requests, key, ReadFile, ContentSlot);
    RequestShows(requests, key, Stat(false, number), STAT_NUMBER);
    RequestShows(requests, key, Stat(true, bigint), STAT_BIGINT);
    SessionAnswersExactly(tree, r, r2, requests, key, Open("r"));
  }

  lemma DirectoryNames(tree: Tree, r: Roots, key: Key, encoding: Encoding)
    requires ValidRoots(r) && Follow(tree, key).Some? && Follow(tree, key).value.body.DirectoryBody?
    ensures Native(tree, r, key, Readdir(encoding, false, false))
            == Returns(Entries(List(Follow(tree, key).value.body.children, encoding, false, r.rootDir)))
  {
  }

  /** A directory that was listed with file types, or by `opendir`, can be listed without, though nobody did. */
  lemma NamesAreInferred(tree: Tree, r: Roots, r2: Roots, requests: seq<Request>, key: Key, encoding: Encoding)
    requires ValidRoots(r) && ValidRoots(r2) && ValidTree(tree, r)
    requires Follow(tree, key).Some? && Follow(tree, key).value.body.DirectoryBody?
    requires Request(key, Readdir(encoding, true, false)) in requests || Request(key, Opendir(encoding, false)) in requests
    ensures ReplayAnswer(Recorded(tree, r, requests), r2, key, Readdir(encoding, false, false))
            == Native(tree, r2, key, Readdir(encoding, false, false))
    ensures Native(tree, r2, key, Readdir(encoding, false, false))
            == Returns(Entries(List(Follow(tree, key).value.body.children, encoding, false, r2.rootDir)))
  {
    hide Recorded, ReplayAnswer, Shown, Native, ValidTree, Decider;
    DirectoryNames(tree, r2, key, encoding);
    var op := if Request(key, Opendir(encoding, false)) in requests then Opendir(encoding, false) else Readdir(encoding, true, false);
    RequestShows(requests, key, op, EntriesSlot(encoding));
    SessionAnswersExactly(tree, r, r2, requests, key, Readdir(encoding, false, false));
  }

  /** Once anything has shown that a path leads nowhere, every operation that follows links is told so. */
  lemma AbsenceIsInferred(tree: Tree, r: Roots, r2: Roots, requests: seq<Request>, key: Key, seen: Operation, op: Operation)
    requires ValidRoots(r) && ValidRoots(r2) && ValidTree(tree, r)
    requires Request(key, seen) in requests && !seen.Exists? && IsMissing(tree, key, seen)
    requires Follow(tree, key).None? && !ObservesLink(op)
    ensures ReplayAnswer(Recorded(tree, r, requests), r2, key, op) == Native(tree, r2, key, op)
    ensures Native(tree, r2, key, op)
            == match op
               case Exists => Returns(Boolean(false))
               case Stat(_, soft) => if soft then Returns(Undefined) else Throws("ENOENT", "stat")
               case _ => Throws("ENOENT", Syscall(op))
  {
    hide Recorded, ReplayAnswer, PathKnown;
    RequestTells(tree, requests, key, seen);
    SessionAnswersExactly(tree, r, r2, requests, key, op);
  }

  /** Once `lstat` or `readlink` has shown that there is no such entry, both are told so. */
  lemma LinkAbsenceIsInferred(tree: Tree, r: Roots, r2: Roots, requests: seq<Request>, key: Key, seen: Operation, op: Operation)
    requires ValidRoots(r) && ValidRoots(r2) && ValidTree(tree, r)
    requires Request(key, seen) in requests && ObservesLink(seen) && key !in tree && ObservesLink(op)
    ensures ReplayAnswer(Recorded(tree, r, requests), r2, key, op) == Native(tree, r2, key, op)
  {
    hide Recorded, ReplayAnswer, LinkShown;
    RequestTells(tree, requests, key, seen);
    SessionAnswersExactly(tree, r, r2, requests, key, op);
  }

  /** What succeeded tells `exists`, which nobody asked. */
  lemma PresenceIsInferred(tree: Tree, r: Roots, r2: Roots, requests: seq<Request>, key: Key, seen: Operation)
    requires ValidRoots(r) && ValidRoots(r2) && ValidTree(tree, r) && Follow(tree, key).Some?
    requires Request(key, seen) in requests && !seen.Exists? && !ObservesLink(seen) && !Native(tree, r, key, seen).Throws?
    ensures ReplayAnswer(Recorded(tree, r, requests), r2, key, Exists) == Returns(Boolean(true))
  {
    hide Recorded, ReplayAnswer, PathKnown;
    RequestTells(tree, requests, key, seen);
    SessionAnswersExactly(tree, r, r2, requests, key, Exists);
  }
}
