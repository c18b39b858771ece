/**
  Cache nodes of packages/shared/src/fs-cache/archive-nodes.ts: operations, slots, existence flags, merge.

  An operation is the parsed form of the source's colon-separated operation text.
 */
module FsNodes {
  import opened Options

  type Bytes = seq<bv8>
  type Key = string

  datatype Encoding = Utf8 | BufferEncoding | OtherEncoding(name: string)

  datatype Operation =
    | Exists
    | ReadFile
    | Stat(bigint: bool, soft: bool)
    | LStat(bigint: bool, soft: bool)
    | FStat(bigint: bool)
    | Readdir(encoding: Encoding, withFileTypes: bool, recursive: bool)
    | Opendir(encoding: Encoding, recursive: bool)
    | Access(mode: int)
    | Realpath(native: bool)
    | Readlink(encoding: Encoding)
    | Open(flags: string)

  datatype MapField = AccessField | DirectoriesField | OpensField | ReadlinksField | RealpathsField | StatsField

  datatype Scope = Flat | ReaddirRecursive | OpendirRecursive

  datatype SlotKey =
    | StatKey(link: bool, bigint: bool)
    | DirectoryKey(scope: Scope, encoding: Encoding, entries: bool)
    | ModeKey(mode: int)
    | RealpathKey(native: bool)
    | EncodingKey(encoding: Encoding)
    | FlagsKey(flags: string)

  datatype Slot = ContentSlot | MapSlot(field: MapField, key: SlotKey)

  datatype FileType = UnknownType | FileKind | DirectoryKind | SymbolicLink | BlockDevice | CharacterDevice | Fifo | Socket

  const STAT_FIELDS: set<string> :=
    {"dev", "ino", "mode", "nlink", "uid", "gid", "rdev", "size", "blksize", "blocks",
     "atimeMs", "mtimeMs", "ctimeMs", "birthtimeMs", "atimeNs", "mtimeNs", "ctimeNs", "birthtimeNs"}

  const STAT_TYPES: set<FileType> := {BlockDevice, CharacterDevice, DirectoryKind, Fifo, FileKind, Socket, SymbolicLink}

  datatype PortablePath = Relative(key: Key) | Absolute(path: string)
  datatype CachedName = BufferName(value: string) | StringName(value: string)
  datatype CachedStat = CachedStat(fields: map<string, Option<string>>, types: map<FileType, bool>)
  datatype CachedEntry = NameEntry(name: CachedName) | DirentEntry(name: CachedName, kind: FileType, parentPath: PortablePath)

  /** Errors are kept by code and system call; the message is a template around the path. */
  datatype ErrorSnapshot = ErrorSnapshot(code: string, syscall: string)

  datatype Value =
    | Null
    | Flag(value: bool)
    | Content(bytes: Bytes)
    | StatValue(stat: CachedStat)
    | Listing(entries: seq<CachedEntry>)
    | PathValue(path: PortablePath)
    | NameValue(name: CachedName)

  datatype Outcome = Ok(value: Value) | Err(error: ErrorSnapshot)

  datatype Node = Node(
    pathExists: Option<bool>,
    linkExists: Option<bool>,
    content: Option<Outcome>,
    fields: map<MapField, map<SlotKey, Outcome>>)

  const EMPTY: Node := Node(None, None, None, map[])

  /** `operationSlot`; `exists` has no slot and makes the source throw. */
  function OperationSlot(op: Operation): Option<Slot> {
    match op
    case Exists => None
    case ReadFile => Some(ContentSlot)
    case Stat(bigint, _) => Some(MapSlot(StatsField, StatKey(false, bigint)))
    case LStat(bigint, _) => Some(MapSlot(StatsField, StatKey(true, bigint)))
    case FStat(bigint) => Some(MapSlot(StatsField, StatKey(false, bigint)))
    case Readdir(encoding, withFileTypes, recursive) =>
      Some(MapSlot(DirectoriesField, DirectoryKey(if recursive then ReaddirRecursive else Flat, encoding, withFileTypes)))
    case Opendir(encoding, recursive) =>
      Some(MapSlot(DirectoriesField, DirectoryKey(if recursive then OpendirRecursive else Flat, encoding, true)))
    case Access(mode) => Some(MapSlot(AccessField, ModeKey(mode)))
    case Realpath(native) => Some(MapSlot(RealpathsField, RealpathKey(native)))
    case Readlink(encoding) => Some(MapSlot(ReadlinksField, EncodingKey(encoding)))
    case Open(flags) => Some(MapSlot(OpensField, FlagsKey(flags)))
  }

  type FieldMap = map<MapField, map<SlotKey, Outcome>>

  function InnerOf(fields: FieldMap, field: MapField): map<SlotKey, Outcome> {
    if field in fields then fields[field] else map[]
  }

  function Inner(node: Node, field: MapField): map<SlotKey, Outcome> {
    InnerOf(node.fields, field)
  }

  function ReadSlot(node: Node, slot: Slot): Option<Outcome> {
    match slot
    case ContentSlot => node.content
    case MapSlot(field, key) => if key in Inner(node, field) then Some(Inner(node, field)[key]) else None
  }

  function WriteSlot(node: Node, slot: Slot, outcome: Outcome): Node {
    match slot
    case ContentSlot => node.(content := Some(outcome))
    case MapSlot(field, key) => node.(fields := node.fields[field := Inner(node, field)[key := outcome]])
  }

  predicate IsMissingOutcome(op: Operation, outcome: Outcome) {
    || (outcome.Err? && outcome.error.code == "ENOENT")
    || ((op.Stat? || op.LStat?) && outcome == Ok(Null))
  }

  predicate ObservesLink(op: Operation) {
    op.LStat? || op.Readlink?
  }

  /** JavaScript truthiness of an outcome's value, as `Boolean(outcome.value)` sees it. */
  predicate Truthy(value: Value) {
    !value.Null? && (value.Flag? ==> value.value)
  }

  function UpdateExistence(node: Node, op: Operation, outcome: Outcome, missing: bool): Node {
    if op.Exists? && outcome.Ok? then
      node.(pathExists := Some(Truthy(outcome.value)),
            linkExists := if Truthy(outcome.value) then Some(true) else node.linkExists)
    else if missing then
      node.(pathExists := Some(false), linkExists := if ObservesLink(op) then Some(false) else node.linkExists)
    else if outcome.Ok? then
      node.(linkExists := Some(true), pathExists := if ObservesLink(op) then node.pathExists else Some(true))
    else node
  }

  /** The effect of `FsCacheArchive.set` on the node of one path. */
  function Observed(node: Node, op: Operation, outcome: Outcome): Node {
    var missing := IsMissingOutcome(op, outcome);
    var node1 := UpdateExistence(node, op, outcome, missing);
    if OperationSlot(op).Some? && !missing then WriteSlot(node1, OperationSlot(op).value, outcome) else node1
  }

  function Names(entries: seq<CachedEntry>): seq<CachedEntry> {
    seq(|entries|, i requires 0 <= i < |entries| => NameEntry(entries[i].name))
  }

  function NamesFromEntries(outcome: Option<Outcome>): Option<Outcome> {
    if outcome.Some? && outcome.value.Ok? && outcome.value.value.Listing?
    then Some(Ok(Listing(Names(outcome.value.value.entries))))
    else outcome
  }

  /** `{ ...base, ...update }`, then each map field merged key by key. */
  function MergeNodes(base: Node, update: Node): Node {
    Node(if update.pathExists.Some? then update.pathExists else base.pathExists,
         if update.linkExists.Some? then update.linkExists else base.linkExists,
         if update.content.Some? then update.content else base.content,
         MergeFields(base.fields, update.fields))
  }

  function MergeFields(base: FieldMap, update: FieldMap): FieldMap {
    map field | field in base.Keys + update.Keys :: InnerOf(base, field) + InnerOf(update, field)
  }

  // ----- Undefined stat fields -----

  function DefinedFields(fields: map<string, Option<string>>): map<string, string> {
    map field | field in fields && fields[field].Some? :: fields[field].value
  }

  function WithSome(fields: map<string, string>): map<string, Option<string>> {
    map field | field in fields :: Some(fields[field])
  }

  /** A stored value without its undefined stat fields. */
  function Normal(value: Value): Value {
    if value.StatValue? then StatValue(CachedStat(WithSome(DefinedFields(value.stat.fields)), value.stat.types)) else value
  }

  function NormalOutcome(outcome: Outcome): Outcome {
    match outcome
    case Ok(value) => Ok(Normal(value))
    case Err(_) => outcome
  }

  // ----- Merge algebra -----

  lemma InnerMerged(base: FieldMap, update: FieldMap, field: MapField)
    ensures InnerOf(MergeFields(base, update), field) == InnerOf(base, field) + InnerOf(update, field)
  {
  }

  lemma PlusIsAssociative(a: map<SlotKey, Outcome>, b: map<SlotKey, Outcome>, c: map<SlotKey, Outcome>)
    ensures (a + b) + c == a + (b + c)
  {
  }

  lemma SameFields(a: FieldMap, b: FieldMap)
    requires a.Keys == b.Keys && forall field | field in a.Keys :: InnerOf(a, field) == InnerOf(b, field)
    ensures a == b
  {
    forall field | field in a.Keys
      ensures a[field] == b[field]
    {
      assert InnerOf(a, field) == InnerOf(b, field);
    }
  }

  lemma MergedFieldsAssociate(a: FieldMap, b: FieldMap, c: FieldMap)
    ensures MergeFields(MergeFields(a, b), c) == MergeFields(a, MergeFields(b, c))
  {
    var l, r := MergeFields(MergeFields(a, b), c), MergeFields(a, MergeFields(b, c));
    forall field | field in l.Keys
      ensures InnerOf(l, field) == InnerOf(r, field)
    {
      InnerMerged(MergeFields(a, b), c, field);
      InnerMerged(a, b, field);
      InnerMerged(a, MergeFields(b, c), field);
      InnerMerged(b, c, field);
      PlusIsAssociative(InnerOf(a, field), InnerOf(b, field), InnerOf(c, field));
    }
    assert l.Keys == r.Keys;
    SameFields(l, r);
  }

  lemma MergeIsAssociative(a: Node, b: Node, c: Node)
    ensures MergeNodes(MergeNodes(a, b), c) == MergeNodes(a, MergeNodes(b, c))
  {
    MergedFieldsAssociate(a.fields, b.fields, c.fields);
  }

  lemma MergeWithEmpty(node: Node)
    ensures MergeNodes(EMPTY, node) == node && MergeNodes(node, EMPTY) == node
  {
    forall field | field in node.fields.Keys
      ensures InnerOf(MergeNodes(EMPTY, node).fields, field) == InnerOf(node.fields, field)
      ensures InnerOf(MergeNodes(node, EMPTY).fields, field) == InnerOf(node.fields, field)
    {
    }
    SameFields(MergeNodes(EMPTY, node).fields, node.fields);
    SameFields(MergeNodes(node, EMPTY).fields, node.fields);
  }

  /** Per slot, the update wins where it has an observation and the base is kept where it has none. */
  lemma MergeIsRightBiased(base: Node, update: Node, slot: Slot)
    ensures ReadSlot(MergeNodes(base, update), slot)
            == if ReadSlot(update, slot).Some? then ReadSlot(update, slot) else ReadSlot(base, slot)
    ensures MergeNodes(base, update).pathExists == if update.pathExists.Some? then update.pathExists else base.pathExists
    ensures MergeNodes(base, update).linkExists == if update.linkExists.Some? then update.linkExists else base.linkExists
  {
  }

  /**
    Different operations share a slot exactly if they ask for one kind of stat of a path, by `stat` or `fstat`, or
    of its link, or list one directory with types.
   */
  lemma SlotsAreSharedExactly(a: Operation, b: Operation)
    requires !a.Exists? && !b.Exists?
    ensures OperationSlot(a) == OperationSlot(b) <==>
            || a == b
            || ((a.Stat? || a.FStat?) && (b.Stat? || b.FStat?) && a.bigint == b.bigint)
            || (a.LStat? && b.LStat? && a.bigint == b.bigint)
            || ((a.Opendir? || (a.Readdir? && a.withFileTypes)) && (b.Opendir? || (b.Readdir? && b.withFileTypes))
                && a.encoding == b.encoding && !a.recursive && !b.recursive)
  {
  }

  // ----- Existence flags -----

  /** Something that exists has a directory entry, and what has no directory entry does not exist. */
  predicate FlagsAgree(node: Node) {
    && (Holds(node.pathExists) ==> Holds(node.linkExists))
    && (Fails(node.linkExists) ==> Fails(node.pathExists))
  }

  predicate Holds(flag: Option<bool>) {
    flag.Some? && flag.value
  }

  predicate Fails(flag: Option<bool>) {
    flag.Some? && !flag.value
  }

  /** Every `set` keeps the flags in agreement, whatever it observes, in whatever order. */
  lemma ObservedKeepsFlags(node: Node, op: Operation, outcome: Outcome)
    requires FlagsAgree(node)
    ensures FlagsAgree(Observed(node, op, outcome))
  {
    var node1 := UpdateExistence(node, op, outcome, IsMissingOutcome(op, outcome));
    if OperationSlot(op).Some? {
      var written := WriteSlot(node1, OperationSlot(op).value, outcome);
      assert written.pathExists == node1.pathExists && written.linkExists == node1.linkExists;
    }
  }

  /** Merging keeps the flags in agreement, although it takes each flag from whichever node has it. */
  lemma MergeKeepsFlags(base: Node, update: Node)
    requires FlagsAgree(base) && FlagsAgree(update)
    ensures FlagsAgree(MergeNodes(base, update))
  {
  }

  lemma ReadWritten(node: Node, slot: Slot, outcome: Outcome, other: Slot)
    ensures ReadSlot(WriteSlot(node, slot, outcome), other) == if other == slot then Some(outcome) else ReadSlot(node, other)
  {
  }
}
