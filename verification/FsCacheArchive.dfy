/**
  `FsCacheArchive` of packages/shared/src/fs-cache/archive.ts as it is used: fields updated in place, a memo
  of path keys, and the executor and descriptor opening of hook.ts on top of it.  Each method is proved
  against the archive values of FsArchive and the sessions of FsSessions.
 */
module FsCacheArchives {
  import opened Options
  import opened FsPaths
  import opened FsNodes
  import opened FsArchive
  import opened FsWorld
  import opened FsTransparency
  import opened FsSessions
  import opened FsMerge

  datatype Mode = RecordMode | ReplayMode

  predicate AbsolutePath(path: string) {
    path != "" && path[0] == '/'
  }

  // ----- What one call does, given the original filesystem functions -----

  /** `native` stands for the original filesystem functions on the path in question. */
  function SyncStep(a: Archive, r: Roots, mode: Mode, key: Key, op: Operation, native: Operation -> Answer): (Archive, Answer)
    requires ValidRoots(r)
  {
    match Replay(a, key, op)
    case Stored(outcome) => (a, Decode(r, outcome))
    case KnownMissing => (a, NativeMissing(op))
    case Refused => (a, ArchiveError)
    case NotRecorded =>
      if mode.ReplayMode? then (a, CacheMiss) else (Set(a, key, op, Encode(r, native(op))), native(op))
  }

  function CaptureStep(a: Archive, r: Roots, key: Key, op: Operation, native: Operation -> Answer): Archive
    requires ValidRoots(r)
  {
    if Get(a, key, op).Nothing? then Set(a, key, op, Encode(r, native(op))) else a
  }

  /** A failing `fstat` ends the capture, and is not recorded. */
  function CaptureStats(a: Archive, r: Roots, key: Key, native: Operation -> Answer): Archive
    requires ValidRoots(r)
  {
    if Get(a, key, FStat(false)).Nothing? && native(FStat(false)).Throws? then a
    else
      var a1 := CaptureStep(a, r, key, FStat(false), native);
      if Get(a1, key, FStat(true)).Nothing? && native(FStat(true)).Throws? then a1
      else CaptureStep(a1, r, key, FStat(true), native)
  }

  function OpenStep(a: Archive, r: Roots, mode: Mode, key: Key, flags: string, native: Operation -> Answer): (Archive, Answer)
    requires ValidRoots(r)
  {
    match ReplayOpen(a, key, flags)
    case OpenedFrom(content) => (a, Opened(Decode(r, content)))
    case OpenFailed(error) => (a, Throws(error.code, error.syscall))
    case OpenMissing => (a, NativeMissing(Open(flags)))
    case OpenNotRecorded =>
      if mode.ReplayMode? then (a, CacheMiss)
      else
        var a1 := Set(a, key, Open(flags), Encode(r, native(Open(flags))));
        (if native(Open(flags)).Throws? then a1 else CaptureStats(CaptureStep(a1, r, key, ReadFile, native), r, key, native),
         native(Open(flags)))
  }

  /**
    What one open adds to the hits and the misses.  A recorded open counts as a hit even when its content
    is not there and the open has to be made after all.
   */
  function OpenCounts(a: Archive, key: Key, flags: string): (nat, nat) {
    if Get(a, key, Open(flags)).Found? || ReplayOpen(a, key, flags).OpenMissing? then (1, 0) else (0, 1)
  }

  /** On a fixed filesystem these are the steps of a recording session, and of a replay. */
  lemma SyncStepIsSession(a: Archive, tree: Tree, r: Roots, key: Key, op: Operation, native: Operation -> Answer)
    requires ValidRoots(r) && !op.Open? && forall o :: native(o) == Native(tree, r, key, o)
    ensures SyncStep(a, r, RecordMode, key, op, native) == Record(a, tree, r, key, op)
    ensures SyncStep(a, r, ReplayMode, key, op, native) == (a, ReplayAnswer(a, r, key, op))
  {
  }

  lemma StatsAreCaptured(a: Archive, tree: Tree, r: Roots, key: Key, native: Operation -> Answer)
    requires ValidRoots(r) && !IsMissing(tree, key, ReadFile) && forall o :: native(o) == Native(tree, r, key, o)
    ensures CaptureStats(a, r, key, native)
            == Capture(Capture(a, tree, r, key, FStat(false)), tree, r, key, FStat(true))
  {
    assert !native(FStat(false)).Throws? && !native(FStat(true)).Throws?;
  }

  lemma OpenStepIsSession(a: Archive, tree: Tree, r: Roots, key: Key, flags: string, native: Operation -> Answer)
    requires ValidRoots(r) && forall o :: native(o) == Native(tree, r, key, o)
    ensures OpenStep(a, r, RecordMode, key, flags, native) == Record(a, tree, r, key, Open(flags))
    ensures OpenStep(a, r, ReplayMode, key, flags, native) == (a, ReplayAnswer(a, r, key, Open(flags)))
  {
    var a1 := Set(a, key, Open(flags), NativeOutcome(tree, r, key, Open(flags)));
    if !IsMissing(tree, key, Open(flags)) {
      assert Native(tree, r, key, Open(flags)).Opened?;
      StatsAreCaptured(Capture(a1, tree, r, key, ReadFile), tree, r, key, native);
    } else {
      assert Native(tree, r, key, Open(flags)).Throws?;
    }
  }

  // ----- The class -----

  class FsCacheArchive {
    const roots: Roots
    const mode: Mode
    var entries: map<Key, Node>
    var missingPaths: set<Key>
    var pathKeys: map<string, string>
    var dirty: bool
    var cacheHits: nat
    var cacheMisses: nat

    /** The roots are usable, and the memo never disagrees with the computation it saves. */
    ghost predicate Valid()
      reads this
    {
      && ValidRoots(roots)
      && forall path | path in pathKeys :: AbsolutePath(path) && KeyFor(roots.rootDir, roots.known, path) == Some(pathKeys[path])
    }

    function Contents(): Archive
      reads this
    {
      Archive(entries, missingPaths)
    }

    constructor (roots: Roots, mode: Mode)
      requires ValidRoots(roots)
      ensures Valid() && this.roots == roots && this.mode == mode
      ensures Contents() == EMPTY_ARCHIVE && !dirty && cacheHits == 0 && cacheMisses == 0
    {
      this.roots, this.mode := roots, mode;
      entries, missingPaths, pathKeys := map[], {}, map[];
      dirty, cacheHits, cacheMisses := false, 0, 0;
    }

    /** The first known root that contains `path`. */
    method SearchRoot(path: string) returns (found: Option<string>)
      ensures found == FindRoot(roots.known, path)
    {
      var i := 0;
      found := None;
      while i < |roots.known|
        invariant i <= |roots.known|
        invariant FindRoot(roots.known, path) == FindRoot(roots.known[i..], path)
        invariant found.None?
      {
        if InRoot(path, roots.known[i]) {
          return Some(roots.known[i]);
        }
        assert roots.known[i..][1..] == roots.known[i + 1..];
        i := i + 1;
      }
    }

    /** `keyFor`: the memo first, then the fast or the slow branch; only keys are remembered. */
    method KeyOf(path: string) returns (key: Option<string>)
      requires Valid() && AbsolutePath(path)
      modifies this`pathKeys
      ensures Valid()
      ensures key == KeyFor(roots.rootDir, roots.known, path)
    {
      if path in pathKeys {
        return Some(pathKeys[path]);
      }
      var relative: string;
      if NeedsNormalization(path) {
        relative := SlowRelative(roots.rootDir, path);
      } else {
        var root := SearchRoot(path);
        if root.None? {
          return None;
        }
        relative := if path == root.value then "" else path[|RootPrefix(root.value)|..];
      }
      if Escapes(relative) {
        return None;
      }
      var text := if relative == "" then "." else relative;
      pathKeys := pathKeys[path := text];
      return Some(text);
    }

    method SetOutcome(key: Key, op: Operation, outcome: Outcome)
      requires Valid()
      modifies this`entries, this`missingPaths, this`dirty
      ensures Valid() && dirty
      ensures Contents() == Set(old(Contents()), key, op, outcome)
    {
      var node: Node;
      if key in entries {
        node := entries[key];
      } else if key in missingPaths {
        missingPaths := missingPaths - {key};
        node := EMPTY.(pathExists := Some(false));
      } else {
        node := EMPTY;
      }
      var missing := IsMissingOutcome(op, outcome);
      node := UpdateExistence(node, op, outcome, missing);
      if !op.Exists? && !missing {
        node := WriteSlot(node, OperationSlot(op).value, outcome);
      }
      entries := entries[key := node];
      missingPaths := missingPaths - {key};
      dirty := true;
    }

    /** `replay`: an answer, or nothing when the original function is to be called. */
    method ReplayKey(key: Key, op: Operation) returns (answer: Option<Answer>)
      requires Valid() && !op.Open?
      modifies this`cacheHits, this`cacheMisses
      ensures Valid()
      ensures var replayed := Replay(Contents(), key, op);
              && cacheHits == old(cacheHits) + (if replayed.Stored? || replayed.KnownMissing? then 1 else 0)
              && cacheMisses == old(cacheMisses) + (if replayed.NotRecorded? then 1 else 0)
              && (replayed.NotRecorded? && mode.RecordMode? ==> answer == None)
              && (!replayed.NotRecorded? || mode.ReplayMode? ==> answer == Some(ReplayAnswer(Contents(), roots, key, op)))
    {
      match Get(Contents(), key, op)
      case Unsupported => return Some(ArchiveError);
      case Found(outcome) =>
        cacheHits := cacheHits + 1;
        return Some(Decode(roots, outcome));
      case Nothing =>
        if Fails(GetExists(Contents(), key, op)) {
          cacheHits := cacheHits + 1;
          return Some(NativeMissing(op));
        }
        cacheMisses := cacheMisses + 1;
        return if mode.ReplayMode? then Some(CacheMiss) else None;
    }

    /** `runSync` for a path; outside every root the original function is called and nothing is recorded. */
    method RunSync(path: string, op: Operation, native: Operation -> Answer) returns (answer: Answer)
      requires Valid() && AbsolutePath(path) && !op.Open?
      modifies this
      ensures Valid()
      ensures var key := KeyFor(roots.rootDir, roots.known, path);
              if key.None? then Contents() == old(Contents()) && answer == native(op)
              else (Contents(), answer) == SyncStep(old(Contents()), roots, mode, key.value, op, native)
      ensures var key := KeyFor(roots.rootDir, roots.known, path);
              if key.None? then cacheHits == old(cacheHits) && cacheMisses == old(cacheMisses)
              else
                var replayed := Replay(old(Contents()), key.value, op);
                && cacheHits == old(cacheHits) + (if replayed.Stored? || replayed.KnownMissing? then 1 else 0)
                && cacheMisses == old(cacheMisses) + (if replayed.NotRecorded? then 1 else 0)
    {
      var key := KeyOf(path);
      if key.None? {
        return native(op);
      }
      var replayed := ReplayKey(key.value, op);
      if replayed.Some? {
        return replayed.value;
      }
      answer := native(op);
      SetOutcome(key.value, op, Encode(roots, answer));
    }

    method CaptureOpenedFile(key: Key, native: Operation -> Answer)
      requires Valid()
      modifies this`entries, this`missingPaths, this`dirty
      ensures Valid()
      ensures Contents() == CaptureStats(CaptureStep(old(Contents()), roots, key, ReadFile, native), roots, key, native)
    {
      if Get(Contents(), key, ReadFile).Nothing? {
        SetOutcome(key, ReadFile, Encode(roots, native(ReadFile)));
      }
      if Get(Contents(), key, FStat(false)).Nothing? {
        if native(FStat(false)).Throws? {
          return;
        }
        SetOutcome(key, FStat(false), Encode(roots, native(FStat(false))));
      }
      if Get(Contents(), key, FStat(true)).Nothing? {
        if native(FStat(true)).Throws? {
          return;
        }
        SetOutcome(key, FStat(true), Encode(roots, native(FStat(true))));
      }
    }

    /** `replayOpen`: an answer, or nothing when the file is really to be opened. */
    method ReplayOpenKey(key: Key, flags: string) returns (answer: Option<Answer>)
      requires Valid()
      modifies this`cacheHits, this`cacheMisses
      ensures Valid()
      ensures var counted := OpenCounts(Contents(), key, flags);
              cacheHits == old(cacheHits) + counted.0 && cacheMisses == old(cacheMisses) + counted.1
      ensures answer == if ReplayOpen(Contents(), key, flags).OpenNotRecorded? && mode.RecordMode? then None
                        else Some(ReplayAnswer(Contents(), roots, key, Open(flags)))
    {
      var outcome := Get(Contents(), key, Open(flags));
      if !outcome.Found? {
        if Fails(GetExists(Contents(), key, Open(flags))) {
          cacheHits := cacheHits + 1;
          return Some(NativeMissing(Open(flags)));
        }
        cacheMisses := cacheMisses + 1;
        return if mode.ReplayMode? then Some(CacheMiss) else None;
      }
      cacheHits := cacheHits + 1;
      if outcome.outcome.Err? {
        return Some(Throws(outcome.outcome.error.code, outcome.outcome.error.syscall));
      }
      var file := Get(Contents(), key, ReadFile);
      if !file.Found? {
        return if mode.ReplayMode? then Some(CacheMiss) else None;
      }
      return Some(Opened(Decode(roots, file.outcome)));
    }

    /** `openSync` for a path with read-only flags. */
    method OpenSync(path: string, flags: string, native: Operation -> Answer) returns (answer: Answer)
      requires Valid() && AbsolutePath(path)
      modifies this
      ensures Valid()
      ensures var key := KeyFor(roots.rootDir, roots.known, path);
              if key.None? then Contents() == old(Contents()) && answer == native(Open(flags))
              else (Contents(), answer) == OpenStep(old(Contents()), roots, mode, key.value, flags, native)
      ensures var key := KeyFor(roots.rootDir, roots.known, path);
              var counted := if key.None? then (0, 0) else OpenCounts(old(Contents()), key.value, flags);
              cacheHits == old(cacheHits) + counted.0 && cacheMisses == old(cacheMisses) + counted.1
    {
      hide Decode, Encode, Set, CaptureStats, CaptureStep, Get;
      var key := KeyOf(path);
      if key.None? {
        return native(Open(flags));
      }
      var replayed := ReplayOpenKey(key.value, flags);
      if replayed.Some? {
        return replayed.value;
      }
      answer := native(Open(flags));
      SetOutcome(key.value, Open(flags), Encode(roots, answer));
      if !answer.Throws? {
        CaptureOpenedFile(key.value, native);
      }
    }

    /** The first merge loop of `flush`: paths this recorder found missing replace the file's nodes. */
    method MergeMissing(base: Archive) returns (merged: Archive)
      requires Valid()
      ensures merged == Dropped(base, missingPaths)
    {
      merged := base;
      var left := missingPaths;
      while left != {}
        invariant left <= missingPaths
        invariant merged == Dropped(base, missingPaths - left)
        decreases |left|
      {
        var path :| path in left;
        DropOneMore(base, missingPaths - left, path);
        merged := Archive(merged.entries - {path}, merged.missing + {path});
        assert missingPaths - (left - {path}) == (missingPaths - left) + {path};
        left := left - {path};
      }
      assert missingPaths - {} == missingPaths;
    }

    /** The merge loops of `flush` over what `load` found in the file. */
    method MergeOver(base: Archive) returns (merged: Archive)
      requires Valid()
      ensures merged == MergeArchives(base, Contents())
    {
      merged := MergeMissing(base);
      ghost var start := merged;
      var left := entries.Keys;
      while left != {}
        invariant left <= entries.Keys
        invariant MergedUpTo(start, entries, entries.Keys - left, merged)
        decreases |left|
      {
        var path :| path in left;
        var node := MergeNodes(NodeOf(merged, path), entries[path]);
        merged := Archive(merged.entries[path := node], merged.missing - {path});
        left := left - {path};
      }
      assert entries.Keys - {} == entries.Keys;
      MergedEverything(base, Contents(), start, merged);
    }
  }

  function Dropped(base: Archive, paths: set<Key>): Archive {
    Archive(base.entries - paths, base.missing + paths)
  }

  lemma DropOneMore(base: Archive, paths: set<Key>, path: Key)
    ensures Dropped(Dropped(base, paths), {path}) == Dropped(base, paths + {path})
  {
    assert base.entries - paths - {path} == base.entries - (paths + {path});
  }

  /** `merged` is `start` with the nodes of the paths in `done` merged over it. */
  ghost predicate MergedUpTo(start: Archive, own: map<Key, Node>, done: set<Key>, merged: Archive)
    requires done <= own.Keys
  {
    && merged.missing == start.missing - done
    && merged.entries.Keys == start.entries.Keys + done
    && (forall path | path in done :: merged.entries[path] == MergeNodes(NodeOf(start, path), own[path]))
    && (forall path | path in start.entries && path !in done :: merged.entries[path] == start.entries[path])
  }

  lemma MergedEverything(base: Archive, own: Archive, start: Archive, merged: Archive)
    requires start == Dropped(base, own.missing)
    requires MergedUpTo(start, own.entries, own.entries.Keys, merged)
    ensures merged == MergeArchives(base, own)
  {
    var expected := MergeArchives(base, own);
    assert merged.entries.Keys == expected.entries.Keys;
    assert merged.entries == expected.entries;
  }
}
