/**
  Cache keys of packages/shared/src/fs-cache/archive.ts on POSIX paths.

  `keyFor` has a fast branch, a prefix test on the path as written, and a slow branch that resolves the
  path and takes it relative to the root.  Both are written here on strings and related to the list of
  path segments, which is what a path means.
 */
module FsPaths {
  import opened Options

  // ----- Segments -----

  /** `text.split('/')`. */
  function Split(text: string): (parts: seq<string>)
    ensures parts != []
  {
    if text == "" then [""] else Headed(text[0], Split(text[1..]))
  }

  /** The parts with one more character in front. */
  function Headed(c: char, parts: seq<string>): (headed: seq<string>)
    requires parts != []
    ensures headed != []
  {
    if c == '/' then [""] + parts else [[c] + parts[0]] + parts[1..]
  }

  /** `parts.join('/')`. */
  function Join(parts: seq<string>): string {
    if parts == [] then "" else if |parts| == 1 then parts[0] else parts[0] + "/" + Join(parts[1..])
  }

  predicate Plain(part: string) {
    '/' !in part
  }

  predicate AllPlain(parts: seq<string>) {
    forall i | 0 <= i < |parts| :: Plain(parts[i])
  }

  lemma {:induction false} SplitPlain(text: string)
    ensures AllPlain(Split(text))
  {
    if text != "" {
      SplitPlain(text[1..]);
    }
  }

  lemma {:induction false} JoinSplit(text: string)
    ensures Join(Split(text)) == text
  {
    if text != "" {
      JoinSplit(text[1..]);
      var rest := Split(text[1..]);
      assert text == [text[0]] + text[1..];
      if text[0] == '/' {
        assert ([""] + rest)[1..] == rest;
      } else {
        assert ([[text[0]] + rest[0]] + rest[1..])[1..] == rest[1..];
      }
    }
  }

  lemma {:induction false} SplitOfPlain(part: string)
    requires Plain(part)
    ensures Split(part) == [part]
  {
    if part != "" {
      SplitOfPlain(part[1..]);
      assert [part[0]] + part[1..] == part;
    }
  }

  /** Splitting distributes over a separator. */
  lemma {:induction false} SplitConcat(left: string, right: string)
    ensures Split(left + "/" + right) == Split(left) + Split(right)
  {
    if left == "" {
      assert left + "/" + right == ['/'] + right;
      assert (['/'] + right)[1..] == right;
    } else {
      var tail := left[1..] + "/" + right;
      SplitConcat(left[1..], right);
      assert left + "/" + right == [left[0]] + tail;
      assert ([left[0]] + tail)[1..] == tail;
      HeadedConcat(left[0], Split(left[1..]), Split(right));
    }
  }

  lemma HeadedConcat(c: char, a: seq<string>, b: seq<string>)
    requires a != []
    ensures Headed(c, a + b) == Headed(c, a) + b
  {
    Assoc([""], a, b);
    assert (a + b)[0] == a[0] && (a + b)[1..] == a[1..] + b;
    Assoc([[c] + a[0]], a[1..], b);
  }

  lemma Assoc<T>(a: seq<T>, b: seq<T>, c: seq<T>)
    ensures a + (b + c) == (a + b) + c
  {
  }

  lemma SplitAfterPlain(first: string, rest: string)
    requires Plain(first)
    ensures Split(first + "/" + rest) == [first] + Split(rest)
  {
    SplitConcat(first, rest);
    SplitOfPlain(first);
  }

  lemma {:induction false} SplitJoin(parts: seq<string>)
    requires parts != [] && AllPlain(parts)
    ensures Split(Join(parts)) == parts
  {
    if |parts| == 1 {
      SplitOfPlain(parts[0]);
    } else {
      SplitJoin(parts[1..]);
      SplitAfterPlain(parts[0], Join(parts[1..]));
      assert [parts[0]] + parts[1..] == parts;
    }
  }

  lemma {:induction false} JoinConcat(left: seq<string>, right: seq<string>)
    requires left != [] && right != []
    ensures Join(left + right) == Join(left) + "/" + Join(right)
  {
    if |left| == 1 {
      assert (left + right)[1..] == right;
    } else {
      assert (left + right)[1..] == left[1..] + right;
      JoinConcat(left[1..], right);
    }
  }

  // ----- path.resolve and path.relative on absolute paths -----

  predicate Named(part: string) {
    part != "" && part != "." && part != ".."
  }

  /** `path.resolve` of an absolute path, as segments: drops empty and '.' segments, and applies '..'. */
  function Resolved(parts: seq<string>): seq<string> {
    if parts == [] then []
    else
      var before, last := Resolved(parts[..|parts| - 1]), parts[|parts| - 1];
      if last == "" || last == "." then before
      else if last == ".." then (if before == [] then [] else before[..|before| - 1])
      else before + [last]
  }

  predicate Normal(parts: seq<string>) {
    forall i | 0 <= i < |parts| :: Named(parts[i]) && Plain(parts[i])
  }

  lemma {:induction false} ResolvedIsNormal(parts: seq<string>)
    requires AllPlain(parts)
    ensures Normal(Resolved(parts))
  {
    if parts != [] {
      ResolvedIsNormal(parts[..|parts| - 1]);
    }
  }

  lemma {:induction false} NormalIsResolved(parts: seq<string>)
    requires Normal(parts)
    ensures Resolved(parts) == parts
  {
    if parts != [] {
      NormalIsResolved(parts[..|parts| - 1]);
      assert parts == parts[..|parts| - 1] + [parts[|parts| - 1]];
    }
  }

  function CommonLength(a: seq<string>, b: seq<string>): (n: nat)
    ensures n <= |a| && n <= |b| && a[..n] == b[..n]
    ensures n < |a| && n < |b| ==> a[n] != b[n]
    ensures n == |a| ==> a <= b
  {
    if a == [] || b == [] || a[0] != b[0] then 0 else 1 + CommonLength(a[1..], b[1..])
  }

  function Ups(n: nat): seq<string> {
    seq(n, _ => "..")
  }

  /** `path.relative` between resolved paths. */
  function Relative(from: seq<string>, to: seq<string>): seq<string> {
    var n := CommonLength(from, to);
    Ups(|from| - n) + to[n..]
  }

  // ----- Archive keys -----

  function AbsoluteText(parts: seq<string>): string {
    "/" + Join(parts)
  }

  /** An absolute, normalised directory. */
  predicate ValidRoot(root: string) {
    root != "" && root[0] == '/' && (root == "/" || Normal(Split(root[1..])))
  }

  function RootParts(root: string): seq<string>
    requires ValidRoot(root)
  {
    if root == "/" then [] else Split(root[1..])
  }

  function KeyOfParts(parts: seq<string>): string {
    if parts == [] then "." else Join(parts)
  }

  /** A key that `keyFor` can produce for a normalised path. */
  predicate ValidKey(key: string) {
    key == "." || Normal(Split(key))
  }

  function KeyParts(key: string): seq<string> {
    if key == "." then [] else Split(key)
  }

  predicate EndsWith(text: string, suffix: string) {
    |suffix| <= |text| && text[|text| - |suffix|..] == suffix
  }

  predicate At(text: string, i: nat, part: string) {
    i + |part| <= |text| && text[i..i + |part|] == part
  }

  predicate Includes(text: string, part: string) {
    exists i | 0 <= i <= |text| :: At(text, i, part)
  }

  predicate NeedsNormalization(path: string) {
    Includes(path, "/./") || EndsWith(path, "/.") || Includes(path, "/../") || EndsWith(path, "/..") || Includes(path, "//")
  }

  function RootPrefix(root: string): string {
    if EndsWith(root, "/") then root else root + "/"
  }

  predicate InRoot(path: string, root: string) {
    path == root || RootPrefix(root) <= path
  }

  /** `comparisonRoots.find(...)`. */
  function FindRoot(roots: seq<string>, path: string): (found: Option<string>)
    ensures found.Some? ==> InRoot(path, found.value)
  {
    if roots == [] then None
    else if InRoot(path, roots[0]) then Some(roots[0])
    else FindRoot(roots[1..], path)
  }

  /** The relative path that the fast branch computes. */
  function FastRelative(roots: seq<string>, path: string): Option<string> {
    match FindRoot(roots, path)
    case None => None
    case Some(root) => Some(if path == root then "" else path[|RootPrefix(root)|..])
  }

  /** The relative path that the slow branch computes. */
  function SlowRelative(rootDir: string, path: string): string
    requires ValidRoot(rootDir) && path != "" && path[0] == '/'
  {
    Join(Relative(RootParts(rootDir), Resolved(Split(path[1..]))))
  }

  predicate Escapes(relative: string) {
    relative == ".." || "../" <= relative || (relative != "" && relative[0] == '/')
  }

  function KeyOfRelative(relative: string): Option<string> {
    if Escapes(relative) then None else if relative == "" then Some(".") else Some(relative)
  }

  /** `keyFor` without its memo, for an absolute POSIX path. */
  function KeyFor(rootDir: string, roots: seq<string>, path: string): Option<string>
    requires ValidRoot(rootDir) && path != "" && path[0] == '/'
  {
    if NeedsNormalization(path) then KeyOfRelative(SlowRelative(rootDir, path))
    else
      match FastRelative(roots, path)
      case None => None
      case Some(relative) => KeyOfRelative(relative)
  }

  /** `absolutePathFor`: `path.join(rootDir, ...key.split('/'))`. */
  function AbsolutePathFor(key: string, rootDir: string): string
    requires ValidRoot(rootDir)
  {
    if key == "." then rootDir else AbsoluteText(Resolved(RootParts(rootDir) + Split(key)))
  }

  // ----- Meaning of the slow branch -----

  lemma RootText(root: string)
    requires ValidRoot(root)
    ensures root == AbsoluteText(RootParts(root)) && Normal(RootParts(root))
  {
    if root != "/" {
      JoinSplit(root[1..]);
    }
  }

  lemma JoinStart(parts: seq<string>)
    requires Normal(parts) && parts != []
    ensures Join(parts) != "" && Join(parts)[0] == parts[0][0]
    ensures Join(parts) != "." && !Escapes(Join(parts))
  {
    var text := Join(parts);
    assert |parts| > 1 ==> text == parts[0] + "/" + Join(parts[1..]);
    assert text[..|parts[0]|] == parts[0];
    if text == "." || text == ".." {
      SplitOfPlain(text);
      SplitJoin(parts);
    } else if "../" <= text {
      assert text == ".." + "/" + text[3..];
      SplitConcat("..", text[3..]);
      SplitOfPlain("..");
      SplitJoin(parts);
    }
  }

  lemma {:induction false} CommonPrefix(a: seq<string>, b: seq<string>)
    requires a <= b
    ensures CommonLength(a, b) == |a|
  {
    if a != [] {
      CommonPrefix(a[1..], b[1..]);
    }
  }

  lemma JoinUps(n: nat, rest: seq<string>)
    requires n > 0
    ensures Escapes(Join(Ups(n) + rest))
  {
    var parts := Ups(n) + rest;
    assert parts[0] == "..";
    if |parts| > 1 {
      assert Join(parts) == ".." + "/" + Join(parts[1..]);
    }
  }

  /** The slow branch names exactly the paths that resolve to the root or below, by their remaining segments. */
  lemma SlowKeyIsSuffix(rootDir: string, path: string)
    requires ValidRoot(rootDir) && path != "" && path[0] == '/'
    ensures var parts := Resolved(Split(path[1..]));
            KeyOfRelative(SlowRelative(rootDir, path))
            == if RootParts(rootDir) <= parts then Some(KeyOfParts(parts[|RootParts(rootDir)|..])) else None
  {
    var root, parts := RootParts(rootDir), Resolved(Split(path[1..]));
    SplitPlain(path[1..]);
    ResolvedIsNormal(Split(path[1..]));
    if root <= parts {
      CommonPrefix(root, parts);
      assert Relative(root, parts) == parts[|root|..];
      if parts[|root|..] != [] {
        JoinStart(parts[|root|..]);
      }
    } else {
      var n := CommonLength(root, parts);
      JoinUps(|root| - n, parts[n..]);
    }
  }

  // ----- Meaning of the fast branch -----

  /** A segment inside a path stands between two separators, or after one at the end. */
  lemma SegmentInText(text: string, k: nat)
    requires k < |Split(text)|
    ensures k + 1 < |Split(text)| ==> Includes("/" + text, "/" + Split(text)[k] + "/")
    ensures k + 1 == |Split(text)| ==> EndsWith("/" + text, "/" + Split(text)[k])
  {
    var parts := Split(text);
    var left, part, right := parts[..k], parts[k], parts[k + 1..];
    var before := Before(left);
    TextAround(text, k);
    if right != [] {
      assert At("/" + text, |before|, "/" + part + "/");
    }
  }

  function Before(left: seq<string>): string {
    if left == [] then "" else "/" + Join(left)
  }

  lemma JoinAround(parts: seq<string>, k: nat)
    requires k < |parts|
    ensures "/" + Join(parts) == Before(parts[..k]) + "/" + Join(parts[k..])
  {
    assert parts == parts[..k] + parts[k..];
    if k > 0 {
      JoinConcat(parts[..k], parts[k..]);
    } else {
      assert parts[k..] == parts;
    }
  }

  lemma TextAround(text: string, k: nat)
    requires k < |Split(text)|
    ensures var parts := Split(text);
            "/" + text == Before(parts[..k]) + ("/" + parts[k])
                          + (if k + 1 == |parts| then "" else "/" + Join(parts[k + 1..]))
  {
    var parts := Split(text);
    JoinSplit(text);
    JoinAround(parts, k);
    JoinFrom(parts, k);
    var before, rest := Before(parts[..k]), if k + 1 == |parts| then "" else "/" + Join(parts[k + 1..]);
    Assoc(before, "/", parts[k] + rest);
    Assoc("/", parts[k], rest);
    Assoc(before, "/" + parts[k], rest);
  }

  lemma JoinFrom(parts: seq<string>, k: nat)
    requires k < |parts|
    ensures Join(parts[k..]) == parts[k] + (if k + 1 == |parts| then "" else "/" + Join(parts[k + 1..]))
  {
    if k + 1 < |parts| {
      assert parts[k..][1..] == parts[k + 1..];
      Assoc(parts[k], "/", Join(parts[k + 1..]));
    } else {
      assert parts[k..] == [parts[k]];
      assert parts[k] + "" == parts[k];
    }
  }

  /** No trailing separator, except for the root of the filesystem itself. */
  predicate NoTrailingSlash(path: string) {
    path == "/" || !EndsWith(path, "/")
  }

  /** A path that needs no normalisation has plain named segments, except for an empty one after a trailing slash. */
  lemma CleanSegments(path: string, k: nat)
    requires path != "" && path[0] == '/' && path != "/" && !NeedsNormalization(path) && k < |Split(path[1..])|
    ensures Named(Split(path[1..])[k]) || (Split(path[1..])[k] == "" && k + 1 == |Split(path[1..])|)
    ensures NoTrailingSlash(path) ==> Named(Split(path[1..])[k])
  {
    assert path == "/" + path[1..];
    SegmentInText(path[1..], k);
    PatternTexts();
  }

  /** The patterns of `NeedsNormalization` are the unnamed segments with their separators. */
  lemma PatternTexts()
    ensures "/" + "" + "/" == "//" && "/" + "." + "/" == "/./" && "/" + ".." + "/" == "/../"
    ensures "/" + "" == "/" && "/" + "." == "/." && "/" + ".." == "/.."
  {
  }

  lemma CleanIsNormal(path: string)
    requires path != "" && path[0] == '/' && path != "/" && !NeedsNormalization(path) && NoTrailingSlash(path)
    ensures Normal(Split(path[1..])) && Resolved(Split(path[1..])) == Split(path[1..])
  {
    SplitPlain(path[1..]);
    forall k | 0 <= k < |Split(path[1..])|
      ensures Named(Split(path[1..])[k])
    {
      CleanSegments(path, k);
    }
    NormalIsResolved(Split(path[1..]));
  }

  /** What the prefix test means, for a path with the given segments. */
  lemma PrefixIsSegments(root: string, path: string)
    requires ValidRoot(root) && root != "/" && path != "" && path[0] == '/'
    ensures RootPrefix(root) == root + "/"
    ensures RootPrefix(root) <= path <==> RootParts(root) <= Split(path[1..]) && |RootParts(root)| < |Split(path[1..])|
    ensures RootPrefix(root) <= path ==>
              path[|RootPrefix(root)|..] == Join(Split(path[1..])[|RootParts(root)|..])
  {
    RootHasNoTrailingSlash(root);
    if RootPrefix(root) <= path {
      PrefixToSegments(root, path);
    }
    if RootParts(root) <= Split(path[1..]) && |RootParts(root)| < |Split(path[1..])| {
      SegmentsToPrefix(root, path);
    }
  }

  lemma PrefixToSegments(root: string, path: string)
    requires ValidRoot(root) && root != "/" && root + "/" <= path
    ensures RootParts(root) <= Split(path[1..]) && |RootParts(root)| < |Split(path[1..])|
    ensures path[|root| + 1..] == Join(Split(path[1..])[|RootParts(root)|..])
  {
    var rest := path[|root| + 1..];
    assert path == root + "/" + rest;
    assert path[1..] == root[1..] + "/" + rest;
    SplitConcat(root[1..], rest);
    assert Split(path[1..])[|RootParts(root)|..] == Split(rest);
    JoinSplit(rest);
  }

  lemma SegmentsToPrefix(root: string, path: string)
    requires ValidRoot(root) && root != "/" && path != "" && path[0] == '/'
    requires RootParts(root) <= Split(path[1..]) && |RootParts(root)| < |Split(path[1..])|
    ensures root + "/" <= path
  {
    var rs, ps := RootParts(root), Split(path[1..]);
    RootText(root);
    JoinSplit(path[1..]);
    assert ps == rs + ps[|rs|..];
    var rest := Join(ps[|rs|..]);
    JoinConcat(rs, ps[|rs|..]);
    Assoc("/", Join(rs) + "/", rest);
    Assoc("/", Join(rs), "/");
    assert path == "/" + path[1..];
    assert path == (root + "/") + rest;
  }

  lemma {:induction false} TrailingSlashSplits(text: string)
    requires text != "" && text[|text| - 1] == '/'
    ensures Split(text)[|Split(text)| - 1] == "" && |Split(text)| > 1
  {
    var left := text[..|text| - 1];
    assert text == left + "/" + "";
    SplitConcat(left, "");
  }

  lemma RootHasNoTrailingSlash(root: string)
    requires ValidRoot(root) && root != "/"
    ensures !EndsWith(root, "/")
  {
    if EndsWith(root, "/") {
      TrailingSlashSplits(root[1..]);
    }
  }

  // ----- Main results -----

  /**
    The fast branch refines the slow one: on a clean absolute path without a trailing slash, the prefix
    test against the root alone yields exactly the key that resolving the path would.
   */
  lemma FastAgreesWithSlow(root: string, path: string)
    requires ValidRoot(root) && path != "" && path[0] == '/' && !NeedsNormalization(path) && NoTrailingSlash(path)
    ensures KeyFor(root, [root], path) == KeyOfRelative(SlowRelative(root, path))
  {
    SlowKeyIsSuffix(root, path);
    RootText(root);
    if path == "/" {
      assert Split("") == [""] && Resolved([""]) == [];
      assert RootParts(root) <= [] ==> root == "/";
      FastAtTop(root);
    } else if root == "/" {
      CleanIsNormal(path);
      JoinSplit(path[1..]);
      FastUnderTop(path);
      JoinStart(Split(path[1..]));
    } else {
      CleanIsNormal(path);
      FastUnderRoot(root, path);
    }
  }

  lemma FastAtTop(root: string)
    requires ValidRoot(root)
    ensures FastRelative([root], "/") == if root == "/" then Some("") else None
  {
    if root != "/" {
      assert |RootPrefix(root)| > 1 && !InRoot("/", root);
      assert FindRoot([root][1..], "/") == None;
    }
  }

  lemma FastUnderTop(path: string)
    requires path != "" && path[0] == '/' && path != "/"
    ensures FastRelative(["/"], path) == Some(path[1..])
  {
    assert "/" <= path;
  }

  lemma FastUnderRoot(root: string, path: string)
    requires ValidRoot(root) && root != "/" && path != "" && path[0] == '/' && path != "/"
    requires Normal(Split(path[1..]))
    ensures var rs, ps := RootParts(root), Split(path[1..]);
            match FastRelative([root], path)
            case None => !(rs <= ps)
            case Some(relative) => rs <= ps && KeyOfRelative(relative) == Some(KeyOfParts(ps[|rs|..]))
  {
    var rs, ps := RootParts(root), Split(path[1..]);
    PrefixIsSegments(root, path);
    RootText(root);
    JoinSplit(path[1..]);
    assert path == "/" + path[1..];
    assert FindRoot([root][1..], path) == None;
    if path == root {
      assert rs == ps && ps[|rs|..] == [];
    } else if rs <= ps {
      assert |rs| == |ps| ==> rs == ps;
      JoinStart(ps[|rs|..]);
    }
  }

  /**
    Exactly when the two branches agree on a path that needs no normalisation: with a trailing slash
    below the root, the fast branch keeps the slash in the key and the slow one does not.
   */
  lemma BranchesAgreeExactly(root: string, path: string)
    requires ValidRoot(root) && path != "" && path[0] == '/' && !NeedsNormalization(path)
    ensures KeyFor(root, [root], path) == KeyOfRelative(SlowRelative(root, path))
            <==> NoTrailingSlash(path) || path == root + "/" || !InRoot(path, root)
  {
    if NoTrailingSlash(path) {
      FastAgreesWithSlow(root, path);
    } else if root == "/" {
      TrailingSlashUnderTop(path);
    } else {
      TrailingSlashUnderRoot(root, path);
    }
  }

  lemma TrailingSlashUnderTop(path: string)
    requires path != "" && path[0] == '/' && !NeedsNormalization(path) && !NoTrailingSlash(path)
    ensures InRoot(path, "/") && path != "/" + "/"
    ensures KeyFor("/", ["/"], path) != KeyOfRelative(SlowRelative("/", path))
  {
    TrailingSlashSegments(path);
    SlowKeyIsSuffix("/", path);
    FastUnderTop(path);
    var ps := Split(path[1..]);
    var qs := ps[..|ps| - 1];
    JoinSplit(path[1..]);
    assert ps == qs + [""] && qs != [];
    JoinWithSlash(qs);
    assert RootParts("/") == [] && Resolved(ps)[0..] == qs;
  }

  /** A trailing slash is one more, empty, segment. */
  lemma TrailingSlashSegments(path: string)
    requires path != "" && path[0] == '/' && !NeedsNormalization(path) && !NoTrailingSlash(path)
    ensures var ps := Split(path[1..]);
            |ps| > 1 && ps[|ps| - 1] == "" && Normal(ps[..|ps| - 1]) && Resolved(ps) == ps[..|ps| - 1]
  {
    var ps := Split(path[1..]);
    TrailingSlashSplits(path[1..]);
    SplitPlain(path[1..]);
    forall k | 0 <= k < |ps| - 1
      ensures Named(ps[k])
    {
      CleanSegments(path, k);
    }
    NormalIsResolved(ps[..|ps| - 1]);
  }

  lemma JoinWithSlash(parts: seq<string>)
    requires Normal(parts) && parts != []
    ensures Join(parts + [""]) == Join(parts) + "/"
    ensures KeyOfRelative(Join(parts + [""])) == Some(Join(parts) + "/")
  {
    JoinConcat(parts, [""]);
    JoinStart(parts);
    assert Join(parts) == (Join(parts) + "/")[..|Join(parts)|];
  }

  lemma TrailingSlashUnderRoot(root: string, path: string)
    requires ValidRoot(root) && root != "/" && path != "" && path[0] == '/' && !NeedsNormalization(path) && !NoTrailingSlash(path)
    ensures KeyFor(root, [root], path) == KeyOfRelative(SlowRelative(root, path))
            <==> path == root + "/" || !InRoot(path, root)
  {
    TrailingSlashSegments(path);
    SlowKeyIsSuffix(root, path);
    RootText(root);
    RootHasNoTrailingSlash(root);
    FastWithSlash(root, path);
  }

  /** What the fast branch makes of a trailing slash, against the segments before it. */
  lemma FastWithSlash(root: string, path: string)
    requires ValidRoot(root) && root != "/" && path != root && path != "" && path[0] == '/' && Normal(RootParts(root))
    requires Split(path[1..])[|Split(path[1..])| - 1] == "" && Normal(Split(path[1..])[..|Split(path[1..])| - 1])
    ensures var rs, qs := RootParts(root), Split(path[1..])[..|Split(path[1..])| - 1];
            match FastRelative([root], path)
            case None => !(rs <= qs) && !InRoot(path, root)
            case Some(relative) =>
              && rs <= qs && InRoot(path, root)
              && (path == root + "/" <==> qs[|rs|..] == [])
              && KeyOfRelative(relative) == Some(if qs[|rs|..] == [] then "." else Join(qs[|rs|..]) + "/")
  {
    PrefixIsSegments(root, path);
    var rs, ps := RootParts(root), Split(path[1..]);
    var qs := ps[..|ps| - 1];
    assert FindRoot([root][1..], path) == None;
    assert ps == qs + [""];
    assert rs <= ps && |rs| < |ps| <==> rs <= qs;
    if rs <= qs {
      assert ps[|rs|..] == qs[|rs|..] + [""];
      RelativeWithSlash(path, root, qs[|rs|..]);
    }
  }

  lemma RelativeWithSlash(path: string, root: string, parts: seq<string>)
    requires root + "/" <= path && Normal(parts) && path[|root| + 1..] == Join(parts + [""])
    ensures path == root + "/" <==> parts == []
    ensures KeyOfRelative(path[|root| + 1..]) == Some(if parts == [] then "." else Join(parts) + "/")
  {
    if parts == [] {
      assert parts + [""] == [""] && Join([""]) == "";
    } else {
      JoinWithSlash(parts);
    }
  }

  /** Keys and paths below a root are the same thing: `absolutePathFor` inverts `keyFor` and is inverted by it. */
  lemma KeyRoundTrip(root: string, key: string)
    requires ValidRoot(root) && ValidKey(key)
    ensures AbsolutePathFor(key, root) != "" && AbsolutePathFor(key, root)[0] == '/'
    ensures KeyFor(root, [root], AbsolutePathFor(key, root)) == Some(key)
  {
    var rs, ks := RootParts(root), KeyParts(key);
    RootText(root);
    KeyText(key);
    var parts := rs + ks;
    NormalIsResolved(parts);
    var path := AbsolutePathFor(key, root);
    assert rs + [] == rs;
    assert path == AbsoluteText(parts);
    AbsoluteIsClean(parts);
    FastAgreesWithSlow(root, path);
    SlowKeyIsSuffix(root, path);
    AbsoluteSegments(parts);
    assert parts[|rs|..] == ks;
  }

  lemma KeyText(key: string)
    requires ValidKey(key)
    ensures Normal(KeyParts(key)) && KeyOfParts(KeyParts(key)) == key
  {
    if key != "." {
      JoinSplit(key);
    }
  }

  lemma AbsoluteSegments(parts: seq<string>)
    requires Normal(parts)
    ensures Resolved(Split(AbsoluteText(parts)[1..])) == parts
  {
    assert AbsoluteText(parts)[1..] == Join(parts);
    if parts == [] {
      assert Split("") == [""];
    } else {
      SplitJoin(parts);
      NormalIsResolved(parts);
    }
  }

  /** A segment-shaped pattern in a path is a segment of it. */
  lemma PatternIsSegment(text: string, part: string)
    requires Plain(part)
    ensures Includes("/" + text, "/" + part + "/") ==> part in Split(text)
    ensures EndsWith("/" + text, "/" + part) ==> part in Split(text)
  {
    if Includes("/" + text, "/" + part + "/") {
      var i :| 0 <= i <= |"/" + text| && At("/" + text, i, "/" + part + "/");
      InnerPattern(text, part, i);
    }
    if EndsWith("/" + text, "/" + part) {
      SplitOfPlain(part);
      var i := |"/" + text| - |"/" + part|;
      assert "/" + text == ("/" + text)[..i] + "/" + part;
      SegmentAt(("/" + text)[..i], text, part);
    }
  }

  lemma InnerPattern(text: string, part: string, i: nat)
    requires Plain(part) && At("/" + text, i, "/" + part + "/")
    ensures part in Split(text)
  {
    var whole := "/" + text;
    var rest := whole[i + |part| + 2..];
    SplitOfPlain(part);
    assert whole == whole[..i] + ("/" + part + "/") + rest;
    assert whole == whole[..i] + "/" + (part + "/" + rest);
    SegmentAt(whole[..i], text, part + "/" + rest);
    SplitConcat(part, rest);
  }

  lemma SegmentAt(before: string, text: string, after: string)
    requires "/" + text == before + "/" + after
    ensures forall part | part in Split(after) :: part in Split(text)
  {
    if before == "" {
      assert ("/" + text)[1..] == after;
    } else {
      assert before[0] == ("/" + text)[0];
      assert text == ("/" + text)[1..] && (before + "/" + after)[1..] == before[1..] + "/" + after;
      SplitConcat(before[1..], after);
    }
  }

  /** Text made of named segments contains none of the patterns that ask for normalisation. */
  lemma AbsoluteIsClean(parts: seq<string>)
    requires Normal(parts)
    ensures !NeedsNormalization(AbsoluteText(parts)) && NoTrailingSlash(AbsoluteText(parts))
  {
    var text := Join(parts);
    if parts == [] {
      assert AbsoluteText(parts) == "/";
    } else {
      SplitJoin(parts);
      PatternIsSegment(text, ".");
      PatternIsSegment(text, "..");
      PatternIsSegment(text, "");
      PatternTexts();
    }
  }

  /** No root lies inside another. */
  predicate Apart(roots: seq<string>) {
    && (forall i | 0 <= i < |roots| :: ValidRoot(roots[i]))
    && (forall i, j | 0 <= i < |roots| && 0 <= j < |roots| && i != j :: !(RootParts(roots[i]) <= RootParts(roots[j])))
  }

  lemma {:induction false} FindRootIsTheOne(roots: seq<string>, i: nat, path: string)
    requires i < |roots| && InRoot(path, roots[i])
    requires forall j | 0 <= j < |roots| && j != i :: !InRoot(path, roots[j])
    ensures FindRoot(roots, path) == Some(roots[i])
  {
    if i > 0 {
      assert !InRoot(path, roots[0]);
      FindRootIsTheOne(roots[1..], i - 1, path);
    }
  }

  /** Whichever of several separate roots a path is written under, its key is the same. */
  lemma AliasRoundTrip(rootDir: string, roots: seq<string>, i: nat, key: string)
    requires ValidRoot(rootDir) && Apart(roots) && i < |roots| && ValidKey(key)
    ensures AbsolutePathFor(key, roots[i]) != "" && AbsolutePathFor(key, roots[i])[0] == '/'
    ensures KeyFor(rootDir, roots, AbsolutePathFor(key, roots[i])) == Some(key)
  {
    var root, path := roots[i], AbsolutePathFor(key, roots[i]);
    KeyRoundTrip(root, key);
    PathParts(root, key);
    assert FindRoot([root][1..], path) == None;
    forall j | 0 <= j < |roots| && j != i
      ensures !InRoot(path, roots[j])
    {
      PathParts(root, key);
      if InRoot(path, roots[j]) {
        InRootIsPrefix(roots[j], path);
        assert RootParts(roots[j]) <= RootParts(root) + KeyParts(key) && RootParts(root) <= RootParts(root) + KeyParts(key);
        PrefixesNest(RootParts(roots[j]), RootParts(root), RootParts(root) + KeyParts(key));
      }
    }
    FindRootIsTheOne(roots, i, path);
  }

  lemma PrefixesNest(a: seq<string>, b: seq<string>, c: seq<string>)
    requires a <= c && b <= c
    ensures a <= b || b <= a
  {
    if |a| <= |b| {
      assert a == c[..|a|] && b[..|a|] == c[..|a|];
    } else {
      assert b == c[..|b|] && a[..|b|] == c[..|b|];
    }
  }

  /** The path of a key is clean, lies in the root, and resolves to the root's and the key's segments. */
  lemma PathParts(root: string, key: string)
    requires ValidRoot(root) && ValidKey(key)
    ensures var path := AbsolutePathFor(key, root);
            && path != "" && path[0] == '/' && !NeedsNormalization(path) && NoTrailingSlash(path)
            && Resolved(Split(path[1..])) == RootParts(root) + KeyParts(key)
            && InRoot(path, root)
  {
    var parts := RootParts(root) + KeyParts(key);
    RootText(root);
    KeyText(key);
    NormalIsResolved(parts);
    assert RootParts(root) + [] == RootParts(root);
    assert AbsolutePathFor(key, root) == AbsoluteText(parts);
    AbsoluteIsClean(parts);
    AbsoluteSegments(parts);
    KeyRoundTrip(root, key);
    assert FindRoot([root][1..], AbsolutePathFor(key, root)) == None;
  }

  lemma InRootIsPrefix(root: string, path: string)
    requires ValidRoot(root) && path != "" && path[0] == '/' && !NeedsNormalization(path) && NoTrailingSlash(path)
    requires InRoot(path, root)
    ensures RootParts(root) <= Resolved(Split(path[1..]))
  {
    FastAgreesWithSlow(root, path);
    SlowKeyIsSuffix(root, path);
    RootText(root);
    if root != "/" {
      PrefixIsSegments(root, path);
      assert |RootPrefix(root)| > 1;
      if path != "/" {
        CleanIsNormal(path);
      }
    }
  }
}
