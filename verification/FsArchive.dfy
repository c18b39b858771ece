/**
  The archive state of packages/shared/src/fs-cache/archive.ts as values: `get`, `set`, `getExists`,
  and the replay half of the executor in hook.ts.
 */
module FsArchive {
  import opened Options
  import opened FsNodes

  /** `missing` is the compressed form of nodes that say only that the path does not exist. */
  datatype Archive = Archive(entries: map<Key, Node>, missing: set<Key>)

  const EMPTY_ARCHIVE: Archive := Archive(map[], {})

  /** What `get` gives: nothing, an outcome, or the error of an operation without a slot. */
  datatype Lookup = Nothing | Found(outcome: Outcome) | Unsupported

  function AsLookup(outcome: Option<Outcome>): Lookup {
    if outcome.Some? then Found(outcome.value) else Nothing
  }

  predicate Succeeded(outcome: Option<Outcome>) {
    outcome.Some? && outcome.value.Ok?
  }

  const STAT_NUMBER: Slot := MapSlot(StatsField, StatKey(false, false))
  const STAT_BIGINT: Slot := MapSlot(StatsField, StatKey(false, true))

  function EntriesSlot(encoding: Encoding): Slot {
    MapSlot(DirectoriesField, DirectoryKey(Flat, encoding, true))
  }

  /** `get` once the node is known: the slot, or for some operations an answer inferred from other slots. */
  function NodeLookup(node: Node, op: Operation): Lookup {
    if op.Exists? then
      if node.pathExists.Some? then Found(Ok(Flag(node.pathExists.value))) else Unsupported
    else
      var outcome := ReadSlot(node, OperationSlot(op).value);
      if outcome.Some? then Found(outcome.value)
      else if op == Open("r") && Succeeded(node.content)
              && Succeeded(ReadSlot(node, STAT_NUMBER)) && Succeeded(ReadSlot(node, STAT_BIGINT)) then
        Found(Ok(Null))
      else if op.Readdir? && !op.withFileTypes && !op.recursive then
        AsLookup(NamesFromEntries(ReadSlot(node, EntriesSlot(op.encoding))))
      else Nothing
  }

  function Get(a: Archive, key: Key, op: Operation): Lookup {
    if key in a.entries then NodeLookup(a.entries[key], op) else Nothing
  }

  function SlotOf(a: Archive, key: Key, slot: Slot): Option<Outcome> {
    if key in a.entries then ReadSlot(a.entries[key], slot) else None
  }

  function NodeFor(a: Archive, key: Key): Node {
    if key in a.entries then a.entries[key]
    else if key in a.missing then EMPTY.(pathExists := Some(false))
    else EMPTY
  }

  function Set(a: Archive, key: Key, op: Operation, outcome: Outcome): Archive {
    Archive(a.entries[key := Observed(NodeFor(a, key), op, outcome)], a.missing - {key})
  }

  function NodeExists(node: Node, op: Operation): Option<bool> {
    if ObservesLink(op) then node.linkExists else node.pathExists
  }

  function GetExists(a: Archive, key: Key, op: Operation): Option<bool> {
    if key in a.entries then NodeExists(a.entries[key], op)
    else if key in a.missing then Some(false)
    else None
  }

  // ----- What a replay sees -----

  /** The executor's answer for one key, before decoding. */
  datatype Replayed =
    | Stored(outcome: Outcome)
    | KnownMissing
    | NotRecorded
    | Refused

  function NodeReplay(node: Node, op: Operation): Replayed {
    match NodeLookup(node, op)
    case Unsupported => Refused
    case Found(outcome) => Stored(outcome)
    case Nothing => if Fails(NodeExists(node, op)) then KnownMissing else NotRecorded
  }

  /** `replay` in hook.ts: `get`, then the existence flags. */
  function Replay(a: Archive, key: Key, op: Operation): Replayed {
    match Get(a, key, op)
    case Unsupported => Refused
    case Found(outcome) => Stored(outcome)
    case Nothing => if Fails(GetExists(a, key, op)) then KnownMissing else NotRecorded
  }

  /** `replayOpen` also needs the content: the outcome of the open and of the read, or neither. */
  datatype ReplayedOpen =
    | OpenedFrom(content: Outcome)
    | OpenFailed(error: ErrorSnapshot)
    | OpenMissing
    | OpenNotRecorded

  function ReplayOpen(a: Archive, key: Key, flags: string): ReplayedOpen {
    match Get(a, key, Open(flags))
    case Found(Err(error)) => OpenFailed(error)
    case Found(Ok(_)) =>
      (match Get(a, key, ReadFile)
       case Found(content) => OpenedFrom(content)
       case _ => OpenNotRecorded)
    case _ => if Fails(GetExists(a, key, Open(flags))) then OpenMissing else OpenNotRecorded
  }

  // ----- Keeping entries and missing paths apart -----

  ghost predicate Disjoint(a: Archive) {
    a.entries.Keys !! a.missing
  }

  ghost predicate ArchiveFlags(a: Archive) {
    forall key | key in a.entries :: FlagsAgree(a.entries[key])
  }

  /** Every `set` keeps `entries` and `missingPaths` disjoint and every node's flags in agreement. */
  lemma SetKeepsShape(a: Archive, key: Key, op: Operation, outcome: Outcome)
    requires Disjoint(a) && ArchiveFlags(a)
    ensures Disjoint(Set(a, key, op, outcome)) && ArchiveFlags(Set(a, key, op, outcome))
  {
    ObservedKeepsFlags(NodeFor(a, key), op, outcome);
  }

  /** A path keeps its one node: replay does not depend on whether a missing path is compressed, except for links. */
  lemma ReplayIsNodeReplay(a: Archive, key: Key, op: Operation)
    ensures key in a.entries ==> Replay(a, key, op) == NodeReplay(a.entries[key], op)
    ensures key !in a.entries ==> Replay(a, key, op) == if key in a.missing then KnownMissing else NotRecorded
  {
  }
}
