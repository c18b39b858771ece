/**
  Merging archives (`flush` in packages/shared/src/fs-cache/archive.ts): what the file holds after one
  recorder's observations are merged over what was there.
 */
module FsMerge {
  import opened Options
  import opened FsNodes
  import opened FsArchive
  import opened FsWorld
  import opened FsTransparency
  import opened FsSessions
  import opened FsSerialization
  import opened FsReload

  /** The archive that `flush` writes: the loaded one with this recorder's own observations over it. */
  function MergeArchives(base: Archive, own: Archive): Archive {
    Archive(
      map key | key in (base.entries.Keys - own.missing) + own.entries.Keys ::
        if key !in own.entries then base.entries[key]
        else MergeNodes(if key in base.entries && key !in own.missing then base.entries[key] else EMPTY, own.entries[key]),
      (base.missing + own.missing) - own.entries.Keys)
  }

  function ExistsOf(a: Archive, key: Key): Option<bool> {
    GetExists(a, key, Exists)
  }

  function LinkOf(a: Archive, key: Key): Option<bool> {
    if key in a.entries then a.entries[key].linkExists else None
  }

  function Over<T>(base: Option<T>, update: Option<T>): Option<T> {
    if update.Some? then update else base
  }

  /** A recorder's own archive: built by `set` alone, so without compressed paths. */
  ghost predicate OwnArchive(own: Archive) {
    own.missing == {} && Sound(own)
  }

  /** Merging keeps entries and missing paths apart, and keeps the flags of every node in agreement. */
  lemma MergeKeepsShape(base: Archive, own: Archive)
    requires Disjoint(base) && Disjoint(own) && ArchiveFlags(base) && ArchiveFlags(own)
    ensures Disjoint(MergeArchives(base, own)) && ArchiveFlags(MergeArchives(base, own))
  {
    var merged := MergeArchives(base, own);
    forall key | key in merged.entries
      ensures FlagsAgree(merged.entries[key])
    {
      if key in own.entries {
        MergeKeepsFlags(if key in base.entries && key !in own.missing then base.entries[key] else EMPTY, own.entries[key]);
      }
    }
  }

  /** Nothing recorded is lost: each slot is the recorder's own if it has one, else the file's. */
  lemma MergeUnitesSlots(base: Archive, own: Archive, key: Key, slot: Slot)
    requires own.missing == {}
    ensures SlotOf(MergeArchives(base, own), key, slot) == Over(SlotOf(base, key, slot), SlotOf(own, key, slot))
    ensures LinkOf(MergeArchives(base, own), key) == Over(LinkOf(base, key), LinkOf(own, key))
  {
    if key in own.entries {
      MergeIsRightBiased(if key in base.entries then base.entries[key] else EMPTY, own.entries[key], slot);
    }
  }

  /** A compressed path of the file meets a node that says nothing about existence. */
  predicate LosesExistence(base: Archive, own: Archive, key: Key) {
    key in base.missing && key in own.entries && own.entries[key].pathExists.None?
  }

  /**
    Existence is united too, exactly when no compressed path meets such a node: `flush` deletes the path
    from the compressed set and merges the node over nothing, where `set` would have started from
    "does not exist".
   */
  lemma MergeUnitesExistenceExactly(base: Archive, own: Archive, key: Key)
    requires own.missing == {} && Disjoint(base)
    ensures ExistsOf(MergeArchives(base, own), key) == Over(ExistsOf(base, key), ExistsOf(own, key))
            <==> !LosesExistence(base, own, key)
  {
  }

  function NodeOf(a: Archive, key: Key): Node {
    if key in a.entries then a.entries[key] else EMPTY
  }

  lemma MergedNode(base: Archive, own: Archive, key: Key)
    requires own.missing == {}
    ensures NodeOf(MergeArchives(base, own), key) == MergeNodes(NodeOf(base, key), NodeOf(own, key))
    ensures key in MergeArchives(base, own).entries <==> key in base.entries || key in own.entries
  {
    MergeWithEmpty(NodeOf(base, key));
  }

  lemma SameArchive(a: Archive, b: Archive)
    requires a.missing == b.missing
    requires forall key :: (key in a.entries <==> key in b.entries) && NodeOf(a, key) == NodeOf(b, key)
    ensures a == b
  {
    assert a.entries == b.entries by {
      forall key | key in a.entries
        ensures a.entries[key] == b.entries[key]
      {
        assert NodeOf(a, key) == NodeOf(b, key);
      }
    }
  }

  /** Merging is associative over recorders' own archives: only the order of flushes matters, not their grouping. */
  lemma MergeArchivesIsAssociative(a: Archive, b: Archive, c: Archive)
    requires b.missing == {} && c.missing == {}
    ensures MergeArchives(MergeArchives(a, b), c) == MergeArchives(a, MergeArchives(b, c))
  {
    var l, r := MergeArchives(MergeArchives(a, b), c), MergeArchives(a, MergeArchives(b, c));
    assert MergeArchives(b, c).missing == {};
    assert l.missing == r.missing;
    forall key: Key
      ensures (key in l.entries <==> key in r.entries) && NodeOf(l, key) == NodeOf(r, key)
    {
      MergedNode(MergeArchives(a, b), c, key);
      MergedNode(a, b, key);
      MergedNode(a, MergeArchives(b, c), key);
      MergedNode(b, c, key);
      MergeIsAssociative(NodeOf(a, key), NodeOf(b, key), NodeOf(c, key));
    }
    SameArchive(l, r);
  }

  // ----- The file as the next recorder or replay loads it -----

  function FileAfter(base: Archive, own: Archive): Archive {
    Loaded(Saved(MergeArchives(base, own)))
  }

  function AfterFlushes(base: Archive, owns: seq<Archive>): Archive {
    if owns == [] then base else FileAfter(AfterFlushes(base, owns[..|owns| - 1]), owns[|owns| - 1])
  }

  function NormalOption(outcome: Option<Outcome>): Option<Outcome> {
    if outcome.Some? then Some(NormalOutcome(outcome.value)) else None
  }

  /** What the last flush that has the slot says about it. */
  function LastSlot(base: Archive, owns: seq<Archive>, key: Key, slot: Slot): Option<Outcome> {
    if owns == [] then SlotOf(base, key, slot)
    else Over(LastSlot(base, owns[..|owns| - 1], key, slot), SlotOf(owns[|owns| - 1], key, slot))
  }

  lemma NormalTwice(outcome: Outcome)
    ensures NormalOutcome(NormalOutcome(outcome)) == NormalOutcome(outcome)
  {
    if outcome.Ok? && outcome.value.StatValue? {
      var fields := outcome.value.stat.fields;
      assert WithSome(DefinedFields(WithSome(DefinedFields(fields)))) == WithSome(DefinedFields(fields));
    }
  }

  lemma NormalIsSound(node: Node)
    requires SoundNode(node)
    ensures SoundNode(NormalNode(node))
  {
    forall field | field in node.fields
      ensures NormalSlots(node.fields[field]) != map[] && StorableSlots(NormalSlots(node.fields[field]))
    {
      var key :| key in node.fields[field];
      assert key in NormalSlots(node.fields[field]);
    }
  }

  lemma FileAfterIsSound(base: Archive, own: Archive)
    requires Sound(base) && OwnArchive(own)
    ensures Sound(MergeArchives(base, own)) && Sound(FileAfter(base, own))
  {
    var merged := MergeArchives(base, own);
    forall key | key in merged.entries
      ensures SoundNode(merged.entries[key])
    {
      if key in own.entries {
        MergedIsSound(NodeOf(base, key), own.entries[key]);
      }
    }
    forall key | key in FileAfter(base, own).entries
      ensures SoundNode(FileAfter(base, own).entries[key])
    {
      ReloadedEntries(merged, key);
      NormalIsSound(merged.entries[key]);
    }
  }

  lemma FileAfterSlots(base: Archive, own: Archive, key: Key, slot: Slot)
    requires Sound(base) && OwnArchive(own)
    ensures SlotOf(FileAfter(base, own), key, slot) == NormalOption(Over(SlotOf(base, key, slot), SlotOf(own, key, slot)))
  {
    var merged := MergeArchives(base, own);
    FileAfterIsSound(base, own);
    MergeUnitesSlots(base, own, key, slot);
    ReloadedEntries(merged, key);
    if key in merged.entries {
      ReadNormal(merged.entries[key], slot);
    }
  }

  /** After any sequence of flushes each slot holds, in stored form, what the last recorder that has it says. */
  lemma {:induction false} FlushesUniteSlots(base: Archive, owns: seq<Archive>, key: Key, slot: Slot)
    requires Sound(base) && forall i | 0 <= i < |owns| :: OwnArchive(owns[i])
    ensures Sound(AfterFlushes(base, owns))
    ensures NormalOption(SlotOf(AfterFlushes(base, owns), key, slot)) == NormalOption(LastSlot(base, owns, key, slot))
  {
    if owns != [] {
      var before, own := owns[..|owns| - 1], owns[|owns| - 1];
      FlushesUniteSlots(base, before, key, slot);
      FileAfterIsSound(AfterFlushes(base, before), own);
      FileAfterSlots(AfterFlushes(base, before), own, key, slot);
      var last := LastSlot(base, owns, key, slot);
      if last.Some? {
        NormalTwice(last.value);
      }
      var kept := SlotOf(AfterFlushes(base, before), key, slot);
      if kept.Some? {
        NormalTwice(kept.value);
      }
    }
  }

  /** The set of recorded (path, slot) pairs is the union over the file and all recorders. */
  lemma {:induction false} LastSlotIsUnion(base: Archive, owns: seq<Archive>, key: Key, slot: Slot)
    ensures LastSlot(base, owns, key, slot).Some?
            <==> SlotOf(base, key, slot).Some? || exists i | 0 <= i < |owns| :: SlotOf(owns[i], key, slot).Some?
  {
    if owns != [] {
      var n := |owns| - 1;
      LastSlotIsUnion(base, owns[..n], key, slot);
      assert forall i | 0 <= i < n :: owns[..n][i] == owns[i];
      assert SlotOf(owns[n], key, slot).Some? ==> LastSlot(base, owns, key, slot).Some?;
    }
  }

  lemma DanglingStatRecording(tree: Tree, r: Roots, key: Key, bigint: bool)
    requires ValidRoots(r) && ValidTree(tree, r) && key in tree && Follow(tree, key).None?
    ensures var one := Recorded(tree, r, [Request(key, Stat(bigint, false))]);
            OwnArchive(one) && one.entries == map[key := EMPTY.(pathExists := Some(false))]
  {
    hide Recorded, Sound;
    FirstObservation(tree, r, key, Stat(bigint, false));
    assert Native(tree, r, key, Stat(bigint, false)) == Throws("ENOENT", "stat");
    SessionsAreSound(tree, r, [Request(key, Stat(bigint, false))]);
  }

  lemma LinkStatObserved(outcome: Outcome, bigint: bool)
    requires outcome.Ok? && outcome.value.StatValue?
    ensures var node := Observed(EMPTY, LStat(bigint, false), outcome);
            && node.pathExists.None?
            && ReadSlot(node, MapSlot(StatsField, StatKey(true, bigint))).Some?
            && ReadSlot(node, MapSlot(StatsField, StatKey(false, bigint))).None?
  {
  }

  lemma LinkStatSucceeds(tree: Tree, r: Roots, key: Key, bigint: bool)
    requires ValidRoots(r) && key in tree
    ensures NativeOutcome(tree, r, key, LStat(bigint, false)).Ok?
    ensures NativeOutcome(tree, r, key, LStat(bigint, false)).value.StatValue?
  {
  }

  lemma LinkStatRecording(tree: Tree, r: Roots, key: Key, bigint: bool)
    requires ValidRoots(r) && ValidTree(tree, r) && key in tree
    ensures var two := Recorded(tree, r, [Request(key, LStat(bigint, false))]);
            OwnArchive(two) && two.entries.Keys == {key} && two.entries[key].pathExists.None?
            && ReadSlot(two.entries[key], MapSlot(StatsField, StatKey(true, bigint))).Some?
            && ReadSlot(two.entries[key], MapSlot(StatsField, StatKey(false, bigint))).None?
  {
    hide Recorded, Sound, Observed, ReadSlot, NativeOutcome;
    FirstObservation(tree, r, key, LStat(bigint, false));
    LinkStatSucceeds(tree, r, key, bigint);
    LinkStatObserved(NativeOutcome(tree, r, key, LStat(bigint, false)), bigint);
    SessionsAreSound(tree, r, [Request(key, LStat(bigint, false))]);
  }

  lemma FileReplay(base: Archive, own: Archive, key: Key, node: Node, op: Operation)
    requires Sound(base) && OwnArchive(own) && key in MergeArchives(base, own).entries
    requires MergeArchives(base, own).entries[key] == node && !OnlyMissing(node)
    ensures Replay(FileAfter(base, own), key, op) == NormalReplayed(NodeReplay(node, op))
  {
    var merged := MergeArchives(base, own);
    FileAfterIsSound(base, own);
    ReloadReplays(merged, key, op);
    ReplayIsNodeReplay(merged, key, op);
  }

  lemma StatWithoutSlot(node: Node, bigint: bool)
    requires ReadSlot(node, MapSlot(StatsField, StatKey(false, bigint))).None?
    ensures NodeReplay(node, Stat(bigint, false)) == if Fails(node.pathExists) then KnownMissing else NotRecorded
  {
    assert OperationSlot(Stat(bigint, false)) == Some(MapSlot(StatsField, StatKey(false, bigint)));
  }

  /** A missing path of the file under a node without existence: the file then knows nothing of its existence. */
  lemma ExistenceIsForgotten(base: Archive, own: Archive, key: Key, bigint: bool)
    requires Sound(base) && OwnArchive(own) && LosesExistence(base, own, key)
    requires ReadSlot(own.entries[key], MapSlot(StatsField, StatKey(false, bigint))).None?
    ensures Replay(FileAfter(base, own), key, Stat(bigint, false)) == NotRecorded
  {
    MergeWithEmpty(own.entries[key]);
    StatWithoutSlot(own.entries[key], bigint);
    FileReplay(base, own, key, own.entries[key], Stat(bigint, false));
  }

  lemma ExistenceIsKept(base: Archive, own: Archive, key: Key, bigint: bool)
    requires Sound(base) && OwnArchive(own) && key in base.entries && key in own.entries
    requires own.entries[key] == EMPTY.(pathExists := Some(false))
    requires ReadSlot(base.entries[key], MapSlot(StatsField, StatKey(false, bigint))).None?
    requires ReadSlot(base.entries[key], MapSlot(StatsField, StatKey(true, bigint))).Some?
    ensures Replay(FileAfter(base, own), key, Stat(bigint, false)) == KnownMissing
  {
    var node := MergeNodes(base.entries[key], own.entries[key]);
    MergeIsRightBiased(base.entries[key], own.entries[key], MapSlot(StatsField, StatKey(false, bigint)));
    MergeIsRightBiased(base.entries[key], own.entries[key], MapSlot(StatsField, StatKey(true, bigint)));
    StatWithoutSlot(node, bigint);
    FileReplay(base, own, key, node, Stat(bigint, false));
  }

  /**
    The lost existence is reachable on one fixed filesystem: recorder one sees that a dangling link's
    target is missing, recorder two only looks at the link.  Flushed in that order, the first
    observation is gone; in the other order it is kept.
   */
  lemma FlushOrderLosesDanglingStat(tree: Tree, r: Roots, key: Key, bigint: bool)
    requires ValidRoots(r) && ValidTree(tree, r) && key in tree && Follow(tree, key).None?
    ensures var one := Recorded(tree, r, [Request(key, Stat(bigint, false))]);
            var two := Recorded(tree, r, [Request(key, LStat(bigint, false))]);
            && Replay(FileAfter(FileAfter(EMPTY_ARCHIVE, one), two), key, Stat(bigint, false)) == NotRecorded
            && Replay(FileAfter(FileAfter(EMPTY_ARCHIVE, two), one), key, Stat(bigint, false)) == KnownMissing
  {
    var one, two := Recorded(tree, r, [Request(key, Stat(bigint, false))]), Recorded(tree, r, [Request(key, LStat(bigint, false))]);
    DanglingStatRecording(tree, r, key, bigint);
    LinkStatRecording(tree, r, key, bigint);
    MergedNode(EMPTY_ARCHIVE, one, key);
    MergedNode(EMPTY_ARCHIVE, two, key);
    MergeWithEmpty(one.entries[key]);
    MergeWithEmpty(two.entries[key]);
    FileAfterIsSound(EMPTY_ARCHIVE, one);
    FileAfterIsSound(EMPTY_ARCHIVE, two);
    ReloadedEntries(MergeArchives(EMPTY_ARCHIVE, one), key);
    ReloadedEntries(MergeArchives(EMPTY_ARCHIVE, two), key);
    ReadNormal(two.entries[key], MapSlot(StatsField, StatKey(false, bigint)));
    ReadNormal(two.entries[key], MapSlot(StatsField, StatKey(true, bigint)));
    ExistenceIsForgotten(FileAfter(EMPTY_ARCHIVE, one), two, key, bigint);
    ExistenceIsKept(FileAfter(EMPTY_ARCHIVE, two), one, key, bigint);
  }
}
