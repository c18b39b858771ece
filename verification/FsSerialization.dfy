/**
  The stored form of an archive (packages/shared/src/fs-cache/archive-serialization.ts).

  The protobuf wire encoding, gzip and the byte conversions of names are total inverse pairs and are left
  out: a document here is the list of typed messages they carry.
 */
module FsSerialization {
  import opened Options
  import opened FsNodes
  import opened FsArchive

  // ----- Messages -----

  datatype PathMessage = PathMessage(relative: bool, path: string)
  datatype NameMessage = NameMessage(buffer: bool, value: string)
  datatype EntryMessage = EntryMessage(dirent: bool, name: NameMessage, kind: Option<int>, parentPath: Option<PathMessage>)

  /** `types` is a bit mask over the stat types; undefined stat fields are not written. */
  datatype Message =
    | VoidMessage
    | ContentMessage(bytes: Bytes)
    | StatMessage(fields: map<string, string>, types: bv32)
    | DirectoryMessage(entries: seq<EntryMessage>)
    | PathObservation(path: PathMessage)
    | NameObservation(name: NameMessage)

  datatype ResultMessage = ValueMessage(value: Message) | ErrorMessage(error: ErrorSnapshot)

  datatype NodeMessage = NodeMessage(
    pathExists: Option<bool>,
    linkExists: Option<bool>,
    content: Option<ResultMessage>,
    fields: map<MapField, map<SlotKey, ResultMessage>>)

  datatype Document = Document(missingPaths: set<Key>, entries: map<Key, NodeMessage>)

  // ----- Stat types as a bit mask -----

  const STAT_TYPE_ORDER: seq<FileType> := [BlockDevice, CharacterDevice, DirectoryKind, Fifo, FileKind, Socket, SymbolicLink]

  const DIRENT_TYPE_ORDER: seq<FileType> :=
    [UnknownType, FileKind, DirectoryKind, SymbolicLink, BlockDevice, CharacterDevice, Fifo, Socket]

  predicate IsType(types: map<FileType, bool>, t: FileType) {
    t in types && types[t]
  }

  function Bit(index: nat): bv32
    requires index < 7
  {
    (1 as bv32) << index
  }

  /** The `reduce` over the first `n` stat types. */
  function Mask(types: map<FileType, bool>, n: nat): bv32
    requires n <= 7
  {
    if n == 0 then 0 else Mask(types, n - 1) | (if IsType(types, STAT_TYPE_ORDER[n - 1]) then Bit(n - 1) else 0)
  }

  predicate HasBit(mask: bv32, index: nat)
    requires index < 7
  {
    mask & Bit(index) != 0
  }

  function IndexOf(t: FileType): (index: nat)
    ensures t in STAT_TYPES ==> index < 7 && STAT_TYPE_ORDER[index] == t
  {
    match t
    case BlockDevice => 0
    case CharacterDevice => 1
    case DirectoryKind => 2
    case Fifo => 3
    case FileKind => 4
    case Socket => 5
    case SymbolicLink => 6
    case UnknownType => 7
  }

  function Unmask(mask: bv32): map<FileType, bool> {
    map t | t in STAT_TYPES :: HasBit(mask, IndexOf(t))
  }

  lemma BitsAreSeparate(i: nat, j: nat)
    requires i < 7 && j < 7
    ensures Bit(i) & Bit(j) == if i == j then Bit(i) else 0
    ensures Bit(i) != 0
  {
  }

  lemma {:induction false} MaskBits(types: map<FileType, bool>, n: nat, i: nat)
    requires n <= 7 && i < 7
    ensures HasBit(Mask(types, n), i) <==> i < n && IsType(types, STAT_TYPE_ORDER[i])
  {
    if n > 0 {
      MaskBits(types, n - 1, i);
      BitsAreSeparate(n - 1, i);
      var before, b := Mask(types, n - 1), if IsType(types, STAT_TYPE_ORDER[n - 1]) then Bit(n - 1) else 0;
      assert (before | b) & Bit(i) == (before & Bit(i)) | (b & Bit(i));
    }
  }

  /** The bit mask loses nothing about the seven stat types. */
  lemma TypesRoundTrip(types: map<FileType, bool>)
    requires types.Keys == STAT_TYPES
    ensures Unmask(Mask(types, 7)) == types
  {
    forall t | t in STAT_TYPES
      ensures HasBit(Mask(types, 7), IndexOf(t)) == types[t]
    {
      MaskBits(types, 7, IndexOf(t));
    }
  }

  // ----- Directory entry types as indices -----

  /** `DIRENT_TYPES.indexOf(type)`. */
  function DirentIndex(t: FileType): (index: int)
    ensures 0 <= index < 8 && DIRENT_TYPE_ORDER[index] == t
    ensures t !in DIRENT_TYPE_ORDER[..index]
  {
    match t
    case UnknownType => 0
    case FileKind => 1
    case DirectoryKind => 2
    case SymbolicLink => 3
    case BlockDevice => 4
    case CharacterDevice => 5
    case Fifo => 6
    case Socket => 7
  }

  /** `DIRENT_TYPES[type ?? 0]`. */
  function DirentType(index: Option<int>): FileType
    requires index.Some? ==> 0 <= index.value < 8
  {
    DIRENT_TYPE_ORDER[if index.Some? then index.value else 0]
  }

  // ----- Typed and restored values -----

  function TypedName(name: CachedName): NameMessage {
    NameMessage(name.BufferName?, name.value)
  }

  function RestoredName(name: NameMessage): CachedName {
    if name.buffer then BufferName(name.value) else StringName(name.value)
  }

  function TypedPath(path: PortablePath): PathMessage {
    match path
    case Relative(key) => PathMessage(true, key)
    case Absolute(text) => PathMessage(false, text)
  }

  function RestoredPath(path: PathMessage): PortablePath {
    if path.relative then Relative(path.path) else Absolute(path.path)
  }

  function TypedEntry(entry: CachedEntry): EntryMessage {
    match entry
    case NameEntry(name) => EntryMessage(false, TypedName(name), None, None)
    case DirentEntry(name, kind, parentPath) =>
      EntryMessage(true, TypedName(name), Some(DirentIndex(kind)), Some(TypedPath(parentPath)))
  }

  predicate ValidEntry(entry: EntryMessage) {
    entry.dirent ==> (entry.kind.Some? ==> 0 <= entry.kind.value < 8) && entry.parentPath.Some?
  }

  function RestoredEntry(entry: EntryMessage): CachedEntry
    requires ValidEntry(entry)
  {
    if entry.dirent then DirentEntry(RestoredName(entry.name), DirentType(entry.kind), RestoredPath(entry.parentPath.value))
    else NameEntry(RestoredName(entry.name))
  }

  lemma EntryRoundTrip(entry: CachedEntry)
    ensures ValidEntry(TypedEntry(entry)) && RestoredEntry(TypedEntry(entry)) == entry
  {
  }

  function TypedValue(value: Value): Message {
    match value
    case Null => VoidMessage
    case Flag(_) => VoidMessage
    case Content(bytes) => ContentMessage(bytes)
    case StatValue(stat) => StatMessage(DefinedFields(stat.fields), Mask(stat.types, 7))
    case Listing(entries) => DirectoryMessage(seq(|entries|, i requires 0 <= i < |entries| => TypedEntry(entries[i])))
    case PathValue(path) => PathObservation(TypedPath(path))
    case NameValue(name) => NameObservation(TypedName(name))
  }

  predicate ValidMessage(message: Message) {
    message.DirectoryMessage? ==> forall i | 0 <= i < |message.entries| :: ValidEntry(message.entries[i])
  }

  function RestoredValue(message: Message): Value
    requires ValidMessage(message)
  {
    match message
    case VoidMessage => Null
    case ContentMessage(bytes) => Content(bytes)
    case StatMessage(fields, types) => StatValue(CachedStat(WithSome(fields), Unmask(types)))
    case DirectoryMessage(entries) =>
      Listing(seq(|entries|, i requires 0 <= i < |entries| && ValidEntry(entries[i]) => RestoredEntry(entries[i])))
    case PathObservation(path) => PathValue(RestoredPath(path))
    case NameObservation(name) => NameValue(RestoredName(name))
  }

  /** Values that `snapshotStat` and the other encoders produce. */
  predicate Storable(value: Value) {
    !value.Flag? && (value.StatValue? ==> value.stat.types.Keys == STAT_TYPES)
  }

  lemma ListingRoundTrip(entries: seq<CachedEntry>)
    requires Storable(Listing(entries))
    ensures ValidMessage(TypedValue(Listing(entries))) && RestoredValue(TypedValue(Listing(entries))) == Listing(entries)
  {
    forall i | 0 <= i < |entries|
      ensures ValidEntry(TypedEntry(entries[i])) && RestoredEntry(TypedEntry(entries[i])) == entries[i]
    {
      EntryRoundTrip(entries[i]);
    }
    assert RestoredValue(TypedValue(Listing(entries))).entries == entries;
  }

  lemma ValueRoundTrip(value: Value)
    requires Storable(value)
    ensures ValidMessage(TypedValue(value)) && RestoredValue(TypedValue(value)) == Normal(value)
  {
    match value
    case StatValue(stat) => TypesRoundTrip(stat.types);
    case Listing(entries) => ListingRoundTrip(entries);
    case _ =>
  }

  function TypedOutcome(outcome: Outcome): ResultMessage {
    match outcome
    case Ok(value) => ValueMessage(TypedValue(value))
    case Err(error) => ErrorMessage(error)
  }

  predicate ValidResult(message: ResultMessage) {
    message.ValueMessage? ==> ValidMessage(message.value)
  }

  function RestoredOutcome(message: ResultMessage): Outcome
    requires ValidResult(message)
  {
    match message
    case ValueMessage(value) => Ok(RestoredValue(value))
    case ErrorMessage(error) => Err(error)
  }

  predicate StorableOutcome(outcome: Outcome) {
    outcome.Ok? ==> Storable(outcome.value)
  }

  lemma OutcomeRoundTrip(outcome: Outcome)
    requires StorableOutcome(outcome)
    ensures ValidResult(TypedOutcome(outcome)) && RestoredOutcome(TypedOutcome(outcome)) == NormalOutcome(outcome)
  {
    if outcome.Ok? {
      ValueRoundTrip(outcome.value);
    }
  }

  // ----- Nodes -----

  function TypedSlots(slots: map<SlotKey, Outcome>): map<SlotKey, ResultMessage> {
    map key | key in slots :: TypedOutcome(slots[key])
  }

  function RestoredSlots(slots: map<SlotKey, ResultMessage>): map<SlotKey, Outcome> {
    map key | key in slots && ValidResult(slots[key]) :: RestoredOutcome(slots[key])
  }

  function NormalSlots(slots: map<SlotKey, Outcome>): map<SlotKey, Outcome> {
    map key | key in slots :: NormalOutcome(slots[key])
  }

  function TypedNode(node: Node): NodeMessage {
    NodeMessage(node.pathExists, node.linkExists,
                if node.content.Some? then Some(TypedOutcome(node.content.value)) else None,
                map field | field in node.fields :: TypedSlots(node.fields[field]))
  }

  predicate ValidContent(content: Option<ResultMessage>) {
    content.Some? ==> ValidResult(content.value)
  }

  /** A map field that arrives empty is not restored. */
  function RestoredNode(message: NodeMessage): Node {
    Node(message.pathExists, message.linkExists,
         if message.content.Some? && ValidContent(message.content) then Some(RestoredOutcome(message.content.value)) else None,
         map field | field in message.fields && message.fields[field] != map[] :: RestoredSlots(message.fields[field]))
  }

  function NormalNode(node: Node): Node {
    node.(content := if node.content.Some? then Some(NormalOutcome(node.content.value)) else None,
          fields := map field | field in node.fields :: NormalSlots(node.fields[field]))
  }

  predicate StorableSlots(slots: map<SlotKey, Outcome>) {
    forall key | key in slots :: StorableOutcome(slots[key])
  }

  /** Nodes that `set` builds: storable values, and no map field without a slot. */
  predicate SoundNode(node: Node) {
    && (node.content.Some? ==> StorableOutcome(node.content.value))
    && (forall field | field in node.fields :: node.fields[field] != map[] && StorableSlots(node.fields[field]))
  }

  lemma SlotsRoundTrip(slots: map<SlotKey, Outcome>)
    requires StorableSlots(slots)
    ensures RestoredSlots(TypedSlots(slots)) == NormalSlots(slots)
    ensures TypedSlots(slots) == map[] <==> slots == map[]
  {
    forall key | key in slots
      ensures ValidResult(TypedOutcome(slots[key])) && RestoredOutcome(TypedOutcome(slots[key])) == NormalOutcome(slots[key])
    {
      OutcomeRoundTrip(slots[key]);
    }
    assert slots != map[] ==> TypedSlots(slots) != map[] by {
      if slots != map[] {
        var key :| key in slots;
        assert key in TypedSlots(slots);
      }
    }
  }

  lemma NodeRoundTrip(node: Node)
    requires SoundNode(node)
    ensures RestoredNode(TypedNode(node)) == NormalNode(node)
  {
    if node.content.Some? {
      OutcomeRoundTrip(node.content.value);
    }
    forall field | field in node.fields
      ensures TypedNode(node).fields[field] != map[]
      ensures RestoredSlots(TypedNode(node).fields[field]) == NormalSlots(node.fields[field])
    {
      SlotsRoundTrip(node.fields[field]);
    }
    SameFields(RestoredNode(TypedNode(node)).fields, NormalNode(node).fields);
  }

  // ----- Documents -----

  /** A node that says only that the path does not exist, which is stored as its path alone. */
  predicate OnlyMissing(node: Node) {
    node == EMPTY.(pathExists := Some(false))
  }

  function Saved(a: Archive): Document {
    Document(a.missing + (set key | key in a.entries && OnlyMissing(a.entries[key])),
             map key | key in a.entries && !OnlyMissing(a.entries[key]) :: TypedNode(a.entries[key]))
  }

  /** `load` into an archive without entries; `createNode` copies. */
  function Loaded(document: Document): Archive {
    Archive(map key | key in document.entries :: RestoredNode(document.entries[key]), document.missingPaths)
  }

  predicate Sound(a: Archive) {
    a.entries.Keys !! a.missing && forall key | key in a.entries :: SoundNode(a.entries[key])
  }

  function NormalReplayed(replayed: Replayed): Replayed {
    if replayed.Stored? then Stored(NormalOutcome(replayed.outcome)) else replayed
  }

  lemma ReadNormal(node: Node, slot: Slot)
    ensures ReadSlot(NormalNode(node), slot)
            == if ReadSlot(node, slot).Some? then Some(NormalOutcome(ReadSlot(node, slot).value)) else None
  {
  }

  lemma NamesNormal(outcome: Option<Outcome>)
    ensures NamesFromEntries(if outcome.Some? then Some(NormalOutcome(outcome.value)) else None)
            == if NamesFromEntries(outcome).Some? then Some(NormalOutcome(NamesFromEntries(outcome).value)) else None
  {
  }

  lemma NormalNodeReplay(node: Node, op: Operation)
    ensures NodeReplay(NormalNode(node), op) == NormalReplayed(NodeReplay(node, op))
  {
    if !op.Exists? {
      ReadNormal(node, OperationSlot(op).value);
      if op == Open("r") {
        ReadNormal(node, STAT_NUMBER);
        ReadNormal(node, STAT_BIGINT);
      } else if op.Readdir? && !op.withFileTypes && !op.recursive {
        ReadNormal(node, EntriesSlot(op.encoding));
        NamesNormal(ReadSlot(node, EntriesSlot(op.encoding)));
      }
    }
  }

  lemma OnlyMissingReplay(node: Node, op: Operation)
    requires OnlyMissing(node)
    ensures NodeReplay(node, op)
            == if op.Exists? then Stored(Ok(Flag(false))) else if ObservesLink(op) then NotRecorded else KnownMissing
  {
  }

  /** The one answer a reload changes: a link operation where only "does not exist" was known. */
  predicate BecomesMissing(a: Archive, key: Key, op: Operation) {
    ObservesLink(op) && key in a.entries && OnlyMissing(a.entries[key])
  }

  /** `exists` on a compressed path is answered from the path set rather than from a node. */
  function Reloaded(a: Archive, key: Key, op: Operation): Replayed {
    if BecomesMissing(a, key, op) || (op.Exists? && key in a.entries && OnlyMissing(a.entries[key])) then KnownMissing
    else NormalReplayed(Replay(a, key, op))
  }

  /** What a reload keeps of each path. */
  lemma ReloadedEntries(a: Archive, key: Key)
    requires Sound(a)
    ensures var b := Loaded(Saved(a));
            && (key in b.entries <==> key in a.entries && !OnlyMissing(a.entries[key]))
            && (key in b.entries ==> b.entries[key] == NormalNode(a.entries[key]))
            && (key in b.missing <==> key in a.missing || (key in a.entries && OnlyMissing(a.entries[key])))
  {
    if key in a.entries && !OnlyMissing(a.entries[key]) {
      NodeRoundTrip(a.entries[key]);
    }
  }

  /** Saving and loading an archive leaves every replay as it was, but for those two cases. */
  lemma ReloadReplays(a: Archive, key: Key, op: Operation)
    requires Sound(a)
    ensures Replay(Loaded(Saved(a)), key, op) == Reloaded(a, key, op)
  {
    ReloadedEntries(a, key);
    ReplayIsNodeReplay(Loaded(Saved(a)), key, op);
    ReplayIsNodeReplay(a, key, op);
    if key in a.entries {
      if OnlyMissing(a.entries[key]) {
        OnlyMissingReplay(a.entries[key], op);
      } else {
        NormalNodeReplay(a.entries[key], op);
      }
    }
  }

  // ----- Reachable archives are sound -----

  lemma ObservedIsSound(node: Node, op: Operation, outcome: Outcome)
    requires SoundNode(node) && (op.Exists? || IsMissingOutcome(op, outcome) || StorableOutcome(outcome))
    ensures SoundNode(Observed(node, op, outcome))
  {
    var node1 := UpdateExistence(node, op, outcome, IsMissingOutcome(op, outcome));
    assert SoundNode(node1);
    if !op.Exists? && !IsMissingOutcome(op, outcome) && OperationSlot(op).value.MapSlot? {
      var slot := OperationSlot(op).value;
      var slots := Inner(node1, slot.field)[slot.key := outcome];
      assert slot.key in slots;
      assert StorableSlots(slots);
    }
  }

  lemma SetIsSound(a: Archive, key: Key, op: Operation, outcome: Outcome)
    requires Sound(a) && (op.Exists? || IsMissingOutcome(op, outcome) || StorableOutcome(outcome))
    ensures Sound(Set(a, key, op, outcome))
  {
    ObservedIsSound(NodeFor(a, key), op, outcome);
  }

  lemma MergedIsSound(base: Node, update: Node)
    requires SoundNode(base) && SoundNode(update)
    ensures SoundNode(MergeNodes(base, update))
  {
    forall field | field in MergeNodes(base, update).fields
      ensures MergeNodes(base, update).fields[field] != map[] && StorableSlots(MergeNodes(base, update).fields[field])
    {
      var b, u := Inner(base, field), Inner(update, field);
      assert b != map[] || u != map[];
      if u != map[] {
        var key :| key in u;
        assert key in b + u;
      } else {
        assert b + u == b;
      }
    }
  }
}
