/**
  A fixed filesystem and what the native functions answer on it, and how the cache stores and restores
  those answers (packages/shared/src/fs-cache/hook.ts).

  Paths below the root are keys, so the same tree can be looked at from another root.
 */
module FsWorld {
  import opened Options
  import opened FsPaths
  import opened FsNodes

  // ----- The filesystem -----

  datatype Child = Child(name: string, kind: FileType, parent: Key)

  datatype Body =
    | FileBody(bytes: Bytes)
    | DirectoryBody(children: seq<Child>, descendants: seq<Child>)

  /** A native `Stats`: the defined fields as text, and what the type methods return. */
  datatype NativeStat = NativeStat(fields: map<string, string>, types: map<FileType, bool>)

  datatype Metadata = Metadata(number: NativeStat, bigint: NativeStat)

  /** Where a path really is: below the root, or elsewhere. */
  datatype Place = Inside(key: Key) | Outside(path: string)

  /** What a path leads to; `denied` are the access modes that are refused. */
  datatype Target = Target(body: Body, metadata: Metadata, place: Place, denied: set<int>)

  datatype Thing = Direct(target: Target) | Link(text: string, metadata: Metadata, resolved: Option<Target>)

  /** Paths that are absent from the map are missing. */
  type Tree = map<Key, Thing>

  /** The root as given, its physical location, and the roots that `keyFor` recognises. */
  datatype Roots = Roots(rootDir: string, physical: string, known: seq<string>)

  predicate ValidRoots(r: Roots) {
    ValidRoot(r.rootDir) && ValidRoot(r.physical) && Apart(r.known) && r.rootDir in r.known && r.physical in r.known
  }

  predicate ValidStat(stat: NativeStat) {
    stat.fields.Keys <= STAT_FIELDS && stat.types.Keys == STAT_TYPES
  }

  predicate ValidMetadata(metadata: Metadata) {
    ValidStat(metadata.number) && ValidStat(metadata.bigint)
  }

  /** Keys are keys, and a place outside is outside every root. */
  ghost predicate ValidTree(tree: Tree, r: Roots)
    requires ValidRoots(r)
  {
    forall key | key in tree ::
      && (tree[key].Link? ==> ValidMetadata(tree[key].metadata))
      && (Follow(tree, key).Some? ==> ValidTarget(Follow(tree, key).value, r))
  }

  ghost predicate ValidTarget(target: Target, r: Roots)
    requires ValidRoots(r)
  {
    && ValidMetadata(target.metadata)
    && (target.place.Inside? ==> ValidKey(target.place.key))
    && (target.place.Outside? ==> OutsidePath(target.place.path, r))
    && (target.body.DirectoryBody? ==> ValidChildren(target.body.children) && ValidChildren(target.body.descendants))
  }

  predicate OutsidePath(path: string, r: Roots)
    requires ValidRoots(r)
  {
    path != "" && path[0] == '/' && KeyFor(r.rootDir, r.known, path).None?
  }

  predicate ValidChildren(children: seq<Child>) {
    forall i | 0 <= i < |children| :: ValidKey(children[i].parent)
  }

  function Follow(tree: Tree, key: Key): Option<Target> {
    if key !in tree then None
    else match tree[key]
      case Direct(target) => Some(target)
      case Link(_, _, resolved) => resolved
  }

  // ----- Native answers -----

  datatype ListedEntry = ListedName(name: CachedName) | ListedDirent(name: CachedName, kind: FileType, parentPath: string)

  datatype Result =
    | Undefined
    | Boolean(value: bool)
    | Buffer(bytes: Bytes)
    | Stats(stat: NativeStat)
    | Entries(entries: seq<ListedEntry>)
    | PathText(path: string)
    | NameText(name: CachedName)

  /** `Opened` is a descriptor, described by what reading it gives. */
  datatype Answer =
    | Returns(result: Result)
    | Opened(read: Answer)
    | Throws(code: string, syscall: string)
    | CacheMiss
    | ArchiveError

  /** The system call that the source names in the error for a path known to be missing. */
  function Syscall(op: Operation): string {
    match op
    case Exists => "exists"
    case ReadFile => "open"
    case Stat(_, _) => "stat"
    case LStat(_, _) => "lstat"
    case FStat(_) => "fstat"
    case Readdir(_, _, _) => "scandir"
    case Opendir(_, _) => "opendir"
    case Access(_) => "access"
    case Realpath(native) => if native then "realpath" else "lstat"
    case Readlink(_) => "readlink"
    case Open(_) => "open"
  }

  function NameIn(name: string, encoding: Encoding): CachedName {
    if encoding.BufferEncoding? then BufferName(name) else StringName(name)
  }

  function StatOf(metadata: Metadata, bigint: bool): NativeStat {
    if bigint then metadata.bigint else metadata.number
  }

  function ListChild(child: Child, encoding: Encoding, withFileTypes: bool, rootDir: string): ListedEntry
    requires ValidRoot(rootDir)
  {
    if withFileTypes then ListedDirent(NameIn(child.name, encoding), child.kind, AbsolutePathFor(child.parent, rootDir))
    else ListedName(NameIn(child.name, encoding))
  }

  function List(children: seq<Child>, encoding: Encoding, withFileTypes: bool, rootDir: string): seq<ListedEntry>
    requires ValidRoot(rootDir)
  {
    seq(|children|, i requires 0 <= i < |children| => ListChild(children[i], encoding, withFileTypes, rootDir))
  }

  function NativeRead(target: Target): Answer {
    match target.body
    case FileBody(bytes) => Returns(Buffer(bytes))
    case DirectoryBody(_, _) => Throws("EISDIR", "read")
  }

  function NativeList(target: Target, encoding: Encoding, withFileTypes: bool, recursive: bool, syscall: string, rootDir: string): Answer
    requires ValidRoot(rootDir)
  {
    match target.body
    case FileBody(_) => Throws("ENOTDIR", syscall)
    case DirectoryBody(children, descendants) =>
      Returns(Entries(List(if recursive then descendants else children, encoding, withFileTypes, rootDir)))
  }

  function PlaceText(place: Place, r: Roots): string
    requires ValidRoots(r)
  {
    match place
    case Inside(key) => AbsolutePathFor(key, r.physical)
    case Outside(path) => path
  }

  /** The native answer on a target, for every operation that follows links. */
  function NativeFollowed(target: Target, r: Roots, op: Operation): Answer
    requires ValidRoots(r) && !ObservesLink(op)
  {
    match op
    case Exists => Returns(Boolean(true))
    case ReadFile => NativeRead(target)
    case Stat(bigint, _) => Returns(Stats(StatOf(target.metadata, bigint)))
    case FStat(bigint) => Returns(Stats(StatOf(target.metadata, bigint)))
    case Readdir(encoding, withFileTypes, recursive) =>
      NativeList(target, encoding, withFileTypes, recursive, "scandir", r.rootDir)
    case Opendir(encoding, recursive) => NativeList(target, encoding, true, recursive, "opendir", r.rootDir)
    case Access(mode) => if mode in target.denied then Throws("EACCES", "access") else Returns(Undefined)
    case Realpath(_) => Returns(PathText(PlaceText(target.place, r)))
    case Open(_) => Opened(NativeRead(target))
  }

  function NativeLink(thing: Thing, op: Operation): Answer
    requires ObservesLink(op)
  {
    match op
    case LStat(bigint, _) =>
      Returns(Stats(StatOf(if thing.Link? then thing.metadata else thing.target.metadata, bigint)))
    case Readlink(encoding) =>
      if thing.Link? then Returns(NameText(NameIn(thing.text, encoding))) else Throws("EINVAL", "readlink")
  }

  function NativeMissing(op: Operation): Answer {
    if op.Exists? then Returns(Boolean(false))
    else if (op.Stat? || op.LStat?) && op.soft then Returns(Undefined)
    else Throws("ENOENT", Syscall(op))
  }

  predicate IsMissing(tree: Tree, key: Key, op: Operation) {
    if ObservesLink(op) then key !in tree else Follow(tree, key).None?
  }

  function Native(tree: Tree, r: Roots, key: Key, op: Operation): Answer
    requires ValidRoots(r)
  {
    if IsMissing(tree, key, op) then NativeMissing(op)
    else if ObservesLink(op) then NativeLink(tree[key], op)
    else NativeFollowed(Follow(tree, key).value, r, op)
  }

  // ----- Encoding and decoding -----

  function EncodePath(r: Roots, path: string): PortablePath
    requires ValidRoots(r)
  {
    if path == "" || path[0] != '/' then Absolute(path)
    else
      match KeyFor(r.rootDir, r.known, path)
      case Some(key) => FsNodes.Relative(key)
      case None => Absolute(path)
  }

  function DecodePath(path: PortablePath, rootDir: string): string
    requires ValidRoot(rootDir)
  {
    match path
    case Relative(key) => AbsolutePathFor(key, rootDir)
    case Absolute(path) => path
  }

  function EncodeEntry(r: Roots, entry: ListedEntry): CachedEntry
    requires ValidRoots(r)
  {
    match entry
    case ListedName(name) => NameEntry(name)
    case ListedDirent(name, kind, parentPath) => DirentEntry(name, kind, EncodePath(r, parentPath))
  }

  function DecodeEntry(entry: CachedEntry, rootDir: string): ListedEntry
    requires ValidRoot(rootDir)
  {
    match entry
    case NameEntry(name) => ListedName(name)
    case DirentEntry(name, kind, parentPath) => ListedDirent(name, kind, DecodePath(parentPath, rootDir))
  }

  /** `snapshotStat` writes every field, `undefined` included; the strings stand for the numbers. */
  function SnapshotStat(stat: NativeStat): CachedStat {
    CachedStat(map field | field in STAT_FIELDS :: if field in stat.fields then Some(stat.fields[field]) else None, stat.types)
  }

  function RestoreStat(stat: CachedStat): NativeStat {
    NativeStat(map field | field in stat.fields && stat.fields[field].Some? :: stat.fields[field].value, stat.types)
  }

  function EncodeResult(r: Roots, result: Result): Value
    requires ValidRoots(r)
  {
    match result
    case Undefined => Null
    case Boolean(value) => Flag(value)
    case Buffer(bytes) => Content(bytes)
    case Stats(stat) => StatValue(SnapshotStat(stat))
    case Entries(entries) =>
      Listing(seq(|entries|, i requires 0 <= i < |entries| => EncodeEntry(r, entries[i])))
    case PathText(path) => PathValue(EncodePath(r, path))
    case NameText(name) => NameValue(name)
  }

  /** What `set` is given for a native answer; a descriptor is recorded as a success without a value. */
  function Encode(r: Roots, answer: Answer): Outcome
    requires ValidRoots(r)
  {
    match answer
    case Returns(result) => Ok(EncodeResult(r, result))
    case Opened(_) => Ok(Null)
    case Throws(code, syscall) => Err(ErrorSnapshot(code, syscall))
    case CacheMiss => Ok(Null)
    case ArchiveError => Ok(Null)
  }

  function DecodeValue(r: Roots, value: Value): Result
    requires ValidRoots(r)
  {
    match value
    case Null => Undefined
    case Flag(value) => Boolean(value)
    case Content(bytes) => Buffer(bytes)
    case StatValue(stat) => Stats(RestoreStat(stat))
    case Listing(entries) =>
      Entries(seq(|entries|, i requires 0 <= i < |entries| => DecodeEntry(entries[i], r.rootDir)))
    case PathValue(path) => PathText(DecodePath(path, r.physical))
    case NameValue(name) => NameText(name)
  }

  function Decode(r: Roots, outcome: Outcome): Answer
    requires ValidRoots(r)
  {
    match outcome
    case Ok(value) => Returns(DecodeValue(r, value))
    case Err(error) => Throws(error.code, error.syscall)
  }

  /** Nobody can see the undefined fields: a stored outcome and its normal form decode alike. */
  lemma NormalDecodesAlike(r: Roots, outcome: Outcome)
    requires ValidRoots(r)
    ensures Decode(r, NormalOutcome(outcome)) == Decode(r, outcome)
  {
    if outcome.Ok? && outcome.value.StatValue? {
      var stat := outcome.value.stat;
      assert RestoreStat(CachedStat(WithSome(DefinedFields(stat.fields)), stat.types)).fields == RestoreStat(stat).fields;
    }
  }
}
