/**
  Saving, loading and replaying together: which answers survive the stored form of an archive, and that
  those of a recording session all do.
 */
module FsReload {
  import opened FsNodes
  import opened FsArchive
  import opened FsWorld
  import opened FsTransparency
  import opened FsSessions
  import opened FsListings
  import opened FsSerialization

  lemma SyncAnswerReloads(a: Archive, r: Roots, key: Key, op: Operation)
    requires Sound(a) && ValidRoots(r) && !op.Open?
    ensures ReplayAnswer(Loaded(Saved(a)), r, key, op)
            == if BecomesMissing(a, key, op) then NativeMissing(op) else ReplayAnswer(a, r, key, op)
  {
    hide Loaded, Saved, Sound, Normal, Replay, NodeReplay, OnlyMissing;
    ReloadReplays(a, key, op);
    if Replay(a, key, op).Stored? {
      NormalDecodesAlike(r, Replay(a, key, op).outcome);
    }
    if key in a.entries && OnlyMissing(a.entries[key]) {
      OnlyMissingReplay(a.entries[key], op);
      ReplayIsNodeReplay(a, key, op);
    }
  }

  lemma NormalLookup(node: Node, op: Operation)
    requires !op.Exists?
    ensures NodeLookup(NormalNode(node), op)
            == if NodeLookup(node, op).Found? then Found(NormalOutcome(NodeLookup(node, op).outcome)) else Nothing
  {
    NormalNodeReplay(node, op);
  }

  lemma LookupReloads(a: Archive, key: Key, op: Operation)
    requires Sound(a) && !op.Exists?
    ensures Get(Loaded(Saved(a)), key, op)
            == if Get(a, key, op).Found? then Found(NormalOutcome(Get(a, key, op).outcome)) else Nothing
    ensures !ObservesLink(op) ==> Fails(GetExists(Loaded(Saved(a)), key, op)) == Fails(GetExists(a, key, op))
  {
    ReloadedEntries(a, key);
    if key in a.entries && OnlyMissing(a.entries[key]) {
      OnlyMissingReplay(a.entries[key], op);
    } else if key in a.entries {
      NormalLookup(a.entries[key], op);
    }
  }

  lemma OpenAnswerReloads(a: Archive, r: Roots, key: Key, flags: string)
    requires Sound(a) && ValidRoots(r)
    ensures ReplayAnswer(Loaded(Saved(a)), r, key, Open(flags)) == ReplayAnswer(a, r, key, Open(flags))
  {
    hide Loaded, Saved, Sound, Normal, Decode;
    LookupReloads(a, key, Open(flags));
    LookupReloads(a, key, ReadFile);
    if Get(a, key, ReadFile).Found? {
      NormalDecodesAlike(r, Get(a, key, ReadFile).outcome);
    }
  }

  /**
    The stored form refines the archive: every (path, operation) answers after a reload as it did before,
    except that a link operation on a path known only not to exist, which was a cache miss, is then
    answered as missing.
   */
  lemma ReloadRefinesAnswers(a: Archive, r: Roots, key: Key, op: Operation)
    requires Sound(a) && ValidRoots(r)
    ensures ReplayAnswer(Loaded(Saved(a)), r, key, op)
            == if BecomesMissing(a, key, op) then NativeMissing(op) else ReplayAnswer(a, r, key, op)
    ensures BecomesMissing(a, key, op) ==> ReplayAnswer(a, r, key, op) == CacheMiss
  {
    if op.Open? {
      OpenAnswerReloads(a, r, key, op.flags);
    } else {
      SyncAnswerReloads(a, r, key, op);
      if BecomesMissing(a, key, op) {
        OnlyMissingReplay(a.entries[key], op);
        ReplayIsNodeReplay(a, key, op);
      }
    }
  }

  // ----- Sessions are sound -----

  lemma ListIsStorable(target: Target, r: Roots, encoding: Encoding, types: bool, recursive: bool, syscall: string)
    requires ValidRoots(r) && ValidTarget(target, r)
    ensures StorableOutcome(Encode(r, NativeList(target, encoding, types, recursive, syscall, r.rootDir)))
  {
  }

  lemma FollowedIsStorable(target: Target, r: Roots, op: Operation)
    requires ValidRoots(r) && ValidTarget(target, r) && !op.Exists? && !ObservesLink(op)
    ensures StorableOutcome(Encode(r, NativeFollowed(target, r, op)))
  {
    hide NativeList, PlaceText, EncodePath;
    match op
    case Readdir(encoding, types, recursive) => ListIsStorable(target, r, encoding, types, recursive, "scandir");
    case Opendir(encoding, recursive) => ListIsStorable(target, r, encoding, true, recursive, "opendir");
    case _ =>
  }

  lemma LinkIsStorable(thing: Thing, r: Roots, op: Operation)
    requires ValidRoots(r) && ObservesLink(op)
    requires ValidMetadata(if thing.Link? then thing.metadata else thing.target.metadata)
    ensures StorableOutcome(Encode(r, NativeLink(thing, op)))
  {
  }

  lemma NativeIsStorable(tree: Tree, r: Roots, key: Key, op: Operation)
    requires ValidRoots(r) && ValidTree(tree, r) && !op.Exists?
    ensures StorableOutcome(NativeOutcome(tree, r, key, op))
  {
    if IsMissing(tree, key, op) {
      assert Native(tree, r, key, op) == NativeMissing(op);
    } else if ObservesLink(op) {
      LinkIsStorable(tree[key], r, op);
    } else {
      FollowedIsStorable(Follow(tree, key).value, r, op);
    }
  }

  lemma NativeSetIsSound(a: Archive, tree: Tree, r: Roots, key: Key, op: Operation)
    requires ValidRoots(r) && ValidTree(tree, r) && Sound(a)
    ensures Sound(Set(a, key, op, NativeOutcome(tree, r, key, op)))
  {
    if !op.Exists? {
      NativeIsStorable(tree, r, key, op);
    }
    SetIsSound(a, key, op, NativeOutcome(tree, r, key, op));
  }

  lemma CaptureOpenedIsSound(a: Archive, tree: Tree, r: Roots, key: Key)
    requires ValidRoots(r) && ValidTree(tree, r) && Sound(a)
    ensures Sound(CaptureOpened(a, tree, r, key))
  {
    var a1 := Capture(a, tree, r, key, ReadFile);
    var a2 := Capture(a1, tree, r, key, FStat(false));
    NativeSetIsSound(a, tree, r, key, ReadFile);
    NativeSetIsSound(a1, tree, r, key, FStat(false));
    NativeSetIsSound(a2, tree, r, key, FStat(true));
  }

  lemma RecordOpenIsSound(a: Archive, tree: Tree, r: Roots, key: Key, flags: string)
    requires ValidRoots(r) && ValidTree(tree, r) && Sound(a)
    ensures Sound(RecordOpen(a, tree, r, key, flags).0)
  {
    var a1 := Set(a, key, Open(flags), NativeOutcome(tree, r, key, Open(flags)));
    OpenLeaves(a, tree, r, key, flags);
    NativeSetIsSound(a, tree, r, key, Open(flags));
    CaptureOpenedIsSound(a1, tree, r, key);
  }

  lemma RecordIsSound(a: Archive, tree: Tree, r: Roots, key: Key, op: Operation)
    requires ValidRoots(r) && ValidTree(tree, r) && Sound(a)
    ensures Sound(Record(a, tree, r, key, op).0)
  {
    if op.Open? {
      RecordOpenIsSound(a, tree, r, key, op.flags);
    } else {
      NativeSetIsSound(a, tree, r, key, op);
    }
  }

  lemma {:induction false} SessionsAreSound(tree: Tree, r: Roots, requests: seq<Request>)
    requires ValidRoots(r) && ValidTree(tree, r)
    ensures Sound(Recorded(tree, r, requests))
  {
    if requests != [] {
      var before, last := requests[..|requests| - 1], requests[|requests| - 1];
      SessionsAreSound(tree, r, before);
      RecordIsSound(Recorded(tree, r, before), tree, r, last.key, last.op);
    }
  }

  /**
    Record, save, load under another root, replay: every recorded request is answered as the same tree
    would answer natively there, in any order and without a cache miss, if and only if it borrows no error.
   */
  lemma StoredReplayIsTransparent(tree: Tree, r: Roots, r2: Roots, requests: seq<Request>, i: nat)
    requires ValidRoots(r) && ValidRoots(r2) && ValidTree(tree, r) && i < |requests|
    requires !Refusal(tree, r, requests, i)
    ensures var key, op := requests[i].key, requests[i].op;
            var answer := ReplayAnswer(Loaded(Saved(Recorded(tree, r, requests))), r2, key, op);
            && answer == Expected(tree, r2, requests, key, op) && answer != CacheMiss
            && (answer == Native(tree, r2, key, op) <==> !Borrows(tree, requests, key, op))
  {
    SessionsAreSound(tree, r, requests);
    ReplayIsTransparent(tree, r, r2, requests, i);
    ReloadRefinesAnswers(Recorded(tree, r, requests), r2, requests[i].key, requests[i].op);
  }

  lemma DanglingStatRecorded(tree: Tree, r: Roots, key: Key, bigint: bool)
    requires ValidRoots(r) && ValidTree(tree, r) && key in tree && Follow(tree, key).None?
    ensures var a := Recorded(tree, r, [Request(key, Stat(bigint, false))]);
            key in a.entries && OnlyMissing(a.entries[key]) && Sound(a)
  {
    hide Recorded, Sound;
    var op := Stat(bigint, false);
    FirstObservation(tree, r, key, op);
    SessionsAreSound(tree, r, [Request(key, op)]);
    assert Native(tree, r, key, op) == Throws("ENOENT", "stat");
  }

  lemma LinkAnswerIsNotMissing(tree: Tree, r: Roots, key: Key, op: Operation)
    requires ValidRoots(r) && ObservesLink(op)
    ensures Native(tree, r, key, op) == NativeMissing(op) <==> key !in tree
  {
  }

  /**
    Exactly when an answer that a reload adds to a session is wrong: when the link is there, its target
    being all that is known not to exist.
   */
  lemma AddedAnswerIsTrueExactly(tree: Tree, r: Roots, r2: Roots, requests: seq<Request>, key: Key, op: Operation)
    requires ValidRoots(r) && ValidRoots(r2) && ValidTree(tree, r)
    requires BecomesMissing(Recorded(tree, r, requests), key, op)
    ensures ReplayAnswer(Recorded(tree, r, requests), r2, key, op) == CacheMiss
    ensures var answer := ReplayAnswer(Loaded(Saved(Recorded(tree, r, requests))), r2, key, op);
            answer == NativeMissing(op) && (answer == Native(tree, r2, key, op) <==> key !in tree)
  {
    hide Loaded, Saved, Sound, Recorded, ReplayAnswer, Native;
    SessionsAreSound(tree, r, requests);
    ReloadRefinesAnswers(Recorded(tree, r, requests), r2, key, op);
    LinkAnswerIsNotMissing(tree, r2, key, op);
  }

  /**
    An operation that was never recorded can be answered wrongly after a reload: a `stat` of a dangling
    link makes a later `lstat` report the link itself as missing.
   */
  lemma DanglingLinkIsLost(tree: Tree, r: Roots, key: Key, bigint: bool)
    requires ValidRoots(r) && ValidTree(tree, r) && key in tree && Follow(tree, key).None?
    ensures var a := Recorded(tree, r, [Request(key, Stat(bigint, false))]);
            && ReplayAnswer(a, r, key, LStat(bigint, false)) == CacheMiss
            && ReplayAnswer(Loaded(Saved(a)), r, key, LStat(bigint, false)) == Throws("ENOENT", "lstat")
            && Native(tree, r, key, LStat(bigint, false)).Returns?
  {
    hide Loaded, Saved, Sound, Recorded, ReplayAnswer, OnlyMissing;
    DanglingStatRecorded(tree, r, key, bigint);
    ReloadRefinesAnswers(Recorded(tree, r, [Request(key, Stat(bigint, false))]), r, key, LStat(bigint, false));
  }
}
