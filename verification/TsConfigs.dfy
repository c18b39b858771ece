/**
  The tsconfigs of a project: the list that grows as references are discovered, and the search for the one
  closest to a file (packages/analysis/src/file-stores/tsconfigs.ts, analyzeWithProgram.ts,
  analyzeWithIncrementalProgram.ts).
 */
module TsConfigs {
  import opened Options

  type File = string
  type TsConfig = string

  /** A TypeScript program: its source files, and the root names and references of its options. */
  datatype Program = Program(sources: seq<File>, rootNames: seq<File>, references: seq<TsConfig>)

  /** A cached program that contains a file, if any, and whether the file's content is still the same. */
  datatype Cached = Absent | Unchanged | Changed

  /** TypeScript, the grouping by library, the program cache and the canceller, as they will behave. */
  datatype World = World(
    isJsTsFile: File -> bool,
    program: TsConfig -> Option<Program>,
    groups: seq<File> -> seq<seq<File>>,
    cached: File -> Cached,
    tsconfigs: set<TsConfig>,
    dirnameLength: TsConfig -> nat,
    cancelled: nat -> bool)

  datatype Configuration = Configuration(
    disableTypeChecking: bool,
    sonarlint: bool,
    hasRules: bool,
    createTSProgramForOrphanFiles: bool)

  /** What a file is analysed with: a tsconfig's program, one made of root names alone, a cached one, or none. */
  datatype How = WithTsConfig(tsconfig: TsConfig) | WithOrphans(rootNames: seq<File>) | WithCached | NoProgram

  datatype Message = FileResult(file: File, how: How) | Meta | Cancelled

  // ----- Sequences -----

  predicate Distinct<T(==)>(s: seq<T>) {
    forall i, j | 0 <= i < j < |s| :: s[i] != s[j]
  }

  ghost predicate SameFiles(a: seq<File>, b: seq<File>) {
    forall f :: f in a <==> f in b
  }

  function Flatten(groups: seq<seq<File>>): seq<File> {
    if groups == [] then [] else Flatten(groups[..|groups| - 1]) + groups[|groups| - 1]
  }

  function Elements<T>(s: seq<T>): set<T> {
    set x | x in s
  }

  function Filter<T>(s: seq<T>, keep: T -> bool): seq<T> {
    if s == [] then []
    else (if keep(s[0]) then [s[0]] else []) + Filter(s[1..], keep)
  }

  function Excluding<T(==)>(s: seq<T>, out: set<T>): seq<T> {
    Filter(s, x => x !in out)
  }

  /** The sources that are still pending, in the program's order. */
  function PendingOf(sources: seq<File>, pending: seq<File>): seq<File> {
    Filter(sources, f => f in pending)
  }

  ghost predicate Precedes<T>(s: seq<T>, x: T, y: T) {
    exists p, q | 0 <= p < q < |s| :: s[p] == x && s[q] == y
  }

  lemma {:induction false} FilterMembers<T>(s: seq<T>, keep: T -> bool)
    ensures forall x :: x in Filter(s, keep) <==> x in s && keep(x)
    ensures Distinct(s) ==> Distinct(Filter(s, keep))
  {
    if s != [] {
      FilterMembers(s[1..], keep);
      assert forall x :: x in s <==> x == s[0] || x in s[1..];
    }
  }

  lemma {:induction false} FilterKeeps<T>(s: seq<T>, keep: T -> bool, k: nat)
    requires k < |Filter(s, keep)|
    ensures Filter(s, keep)[k] in s
  {
    if !keep(s[0]) {
      FilterKeeps(s[1..], keep, k);
    } else if k > 0 {
      FilterKeeps(s[1..], keep, k - 1);
    }
  }

  /** What is kept stays in its order. */
  lemma {:induction false} FilterOrder<T>(s: seq<T>, keep: T -> bool, i: nat, j: nat)
    requires i < j < |Filter(s, keep)|
    ensures Precedes(s, Filter(s, keep)[i], Filter(s, keep)[j])
  {
    var rest := Filter(s[1..], keep);
    var shift := if keep(s[0]) then 1 else 0;
    if i >= shift {
      FilterOrder(s[1..], keep, i - shift, j - shift);
      var p, q :| 0 <= p < q < |s[1..]| && s[1..][p] == rest[i - shift] && s[1..][q] == rest[j - shift];
      assert s[p + 1] == rest[i - shift] && s[q + 1] == rest[j - shift];
    } else {
      FilterKeeps(s[1..], keep, j - 1);
      var q :| 0 <= q < |s[1..]| && s[1..][q] == rest[j - 1];
      assert s[0] == Filter(s, keep)[0] && s[q + 1] == rest[j - 1];
    }
  }

  lemma {:induction false} FilterTwice<T>(s: seq<T>, a: T -> bool, b: T -> bool, both: T -> bool)
    requires forall x | x in s :: both(x) == (a(x) && b(x))
    ensures Filter(Filter(s, a), b) == Filter(s, both)
  {
    if s != [] {
      var rest := Filter(s[1..], a);
      FilterTwice(s[1..], a, b, both);
      if a(s[0]) {
        assert Filter(s, a) == [s[0]] + rest && ([s[0]] + rest)[1..] == rest;
      } else {
        assert Filter(s, a) == [] + rest == rest;
      }
    }
  }

  lemma {:induction false} FilterAll<T>(s: seq<T>, keep: T -> bool)
    requires forall x | x in s :: keep(x)
    ensures Filter(s, keep) == s
  {
    if s != [] {
      FilterAll(s[1..], keep);
    }
  }

  lemma {:induction false} FilterNone<T>(s: seq<T>, keep: T -> bool)
    requires forall x | x in s :: !keep(x)
    ensures Filter(s, keep) == []
  {
    if s != [] {
      FilterNone(s[1..], keep);
    }
  }

  lemma ExcludingMembers<T>(s: seq<T>, out: set<T>)
    ensures forall x :: x in Excluding(s, out) <==> x in s && x !in out
    ensures Distinct(s) ==> Distinct(Excluding(s, out))
  {
    FilterMembers(s, x => x !in out);
  }

  lemma ExcludingNothing<T>(s: seq<T>, out: set<T>)
    requires forall x | x in s :: x !in out
    ensures Excluding(s, out) == s
  {
    FilterAll(s, x => x !in out);
  }

  lemma ExcludingOrder<T>(s: seq<T>, out: set<T>, i: nat, j: nat)
    requires i < j < |Excluding(s, out)|
    ensures Precedes(s, Excluding(s, out)[i], Excluding(s, out)[j])
  {
    FilterOrder(s, x => x !in out, i, j);
  }

  lemma PendingOfMembers(sources: seq<File>, pending: seq<File>)
    ensures forall f :: f in PendingOf(sources, pending) <==> f in sources && f in pending
    ensures Distinct(sources) ==> Distinct(PendingOf(sources, pending))
  {
    FilterMembers(sources, f => f in pending);
  }

  // ----- The world -----

  function Sources(w: World, tsconfig: TsConfig): seq<File> {
    if w.program(tsconfig).Some? then w.program(tsconfig).value.sources else []
  }

  function RootNames(w: World, tsconfig: TsConfig): seq<File> {
    if w.program(tsconfig).Some? then w.program(tsconfig).value.rootNames else []
  }

  function References(w: World, tsconfig: TsConfig): seq<TsConfig> {
    if w.program(tsconfig).Some? then w.program(tsconfig).value.references else []
  }

  /** References exist. */
  ghost predicate ReferencesExist(w: World) {
    forall t :: forall r | r in References(w, t) :: r in w.tsconfigs
  }

  /** The sources of a program are distinct. */
  ghost predicate SourcesAreDistinct(w: World) {
    forall t :: Distinct(Sources(w, t))
  }

  /** Groups partition what they are made of. */
  ghost predicate GroupsPartition(w: World) {
    forall names {:trigger w.groups(names)} | Distinct(names) ::
      Distinct(Flatten(w.groups(names))) && SameFiles(Flatten(w.groups(names)), names)
  }

  ghost predicate ValidWorld(w: World) {
    ReferencesExist(w) && SourcesAreDistinct(w) && GroupsPartition(w)
  }

  // ----- The list of tsconfigs -----

  /** `addDiscoveredTsConfig`: appended to the list in use if new; when both lists are empty neither is in use. */
  function AddNew(list: seq<TsConfig>, tsconfig: TsConfig): seq<TsConfig> {
    list + (if list == [] || tsconfig in list then [] else [tsconfig])
  }

  function Discover(list: seq<TsConfig>, references: seq<TsConfig>): seq<TsConfig> {
    if references == [] then list
    else AddNew(Discover(list, references[..|references| - 1]), references[|references| - 1])
  }

  /** The list after the references of its first `n` configs have been followed. */
  function Followed(w: World, list: seq<TsConfig>, n: nat): seq<TsConfig> {
    if n == 0 then list
    else
      var before := Followed(w, list, n - 1);
      if n - 1 < |before| then Discover(before, References(w, before[n - 1])) else before
  }

  /** `after` is `before` with configs of the project appended, each new to the list. */
  ghost predicate Grown(before: seq<TsConfig>, after: seq<TsConfig>, w: World) {
    && before <= after
    && (forall i | |before| <= i < |after| :: after[i] in w.tsconfigs && after[i] !in after[..i])
  }

  function Unlisted(w: World, list: seq<TsConfig>): set<TsConfig> {
    set t | t in w.tsconfigs && t !in list
  }

  /** A list that grows leaves fewer configs to be discovered, which is why following it ends. */
  lemma GrowingEnds(before: seq<TsConfig>, after: seq<TsConfig>, w: World)
    requires Grown(before, after, w)
    ensures Unlisted(w, after) <= Unlisted(w, before)
    ensures |after| > |before| ==> |Unlisted(w, after)| < |Unlisted(w, before)|
    ensures |after| <= |before| ==> after == before
  {
    assert forall t | t in before :: t in after;
    SubsetSize(Unlisted(w, after), Unlisted(w, before));
    if |after| > |before| {
      assert after[|before|] in Unlisted(w, before) by {
        assert after[..|before|] == before;
      }
      assert after[|before|] !in Unlisted(w, after);
      SubsetSize(Unlisted(w, after), Unlisted(w, before) - {after[|before|]});
    }
  }

  lemma {:induction false} SubsetSize(a: set<TsConfig>, b: set<TsConfig>)
    requires a <= b
    ensures |a| <= |b|
  {
    if a != {} {
      var t :| t in a;
      SubsetSize(a - {t}, b - {t});
    }
  }

  lemma GrownTransitive(a: seq<TsConfig>, b: seq<TsConfig>, c: seq<TsConfig>, w: World)
    requires Grown(a, b, w) && Grown(b, c, w)
    ensures Grown(a, c, w)
  {
    forall i | |a| <= i < |c|
      ensures c[i] in w.tsconfigs && c[i] !in c[..i]
    {
      if i < |b| {
        assert c[i] == b[i] && c[..i] == b[..i];
      }
    }
  }

  /** Discovery appends exactly the references that were not listed. */
  lemma {:induction false} DiscoverGrows(w: World, list: seq<TsConfig>, references: seq<TsConfig>)
    requires forall r | r in references :: r in w.tsconfigs
    ensures Grown(list, Discover(list, references), w)
    ensures list != [] ==> forall r :: r in Discover(list, references) <==> r in list || r in references
    ensures list == [] ==> Discover(list, references) == []
  {
    if references != [] {
      var n := |references| - 1;
      DiscoverGrows(w, list, references[..n]);
      GrownTransitive(list, Discover(list, references[..n]), Discover(list, references), w);
      assert forall r :: r in references <==> r in references[..n] || r == references[n];
    }
  }

  lemma {:induction false} FollowedGrows(w: World, list: seq<TsConfig>, n: nat)
    requires ReferencesExist(w)
    ensures Grown(list, Followed(w, list, n), w)
  {
    if n > 0 {
      FollowedGrows(w, list, n - 1);
      var before := Followed(w, list, n - 1);
      if n - 1 < |before| {
        DiscoverGrows(w, before, References(w, before[n - 1]));
        GrownTransitive(list, before, Followed(w, list, n), w);
      }
    }
  }

  /** What is followed is listed with all its references, and every config found on the way is a reference of an earlier one. */
  lemma {:induction false} FollowedIsClosed(w: World, list: seq<TsConfig>, n: nat)
    requires ReferencesExist(w) && n <= |Followed(w, list, n)|
    ensures var after := Followed(w, list, n);
            && (forall k, r | 0 <= k < n && r in References(w, after[k]) :: r in after)
            && (forall i | |list| <= i < |after| :: exists k | 0 <= k < n && k < i :: after[i] in References(w, after[k]))
  {
    if n > 0 {
      var before, after := Followed(w, list, n - 1), Followed(w, list, n);
      FollowedGrows(w, list, n - 1);
      if n - 1 < |before| {
        DiscoverGrows(w, before, References(w, before[n - 1]));
        FollowedIsClosed(w, list, n - 1);
        forall i | |list| <= i < |after|
          ensures exists k | 0 <= k < n && k < i :: after[i] in References(w, after[k])
        {
          if i < |before| {
            var k :| 0 <= k < n - 1 && k < i && before[i] in References(w, before[k]);
            assert after[k] == before[k];
          } else {
            assert after[i] !in before by {
              assert after[..|before|] == before;
            }
            assert after[n - 1] == before[n - 1];
          }
        }
      }
    }
  }

  // ----- The closest tsconfig -----

  predicate Contains(w: World, tsconfig: TsConfig, file: File) {
    file in RootNames(w, tsconfig)
  }

  /** The first of the deepest configs whose path starts the file's. */
  predicate BestMatchAt(w: World, tsconfigs: seq<TsConfig>, file: File, at: nat) {
    && at < |tsconfigs| && tsconfigs[at] <= file
    && (forall j | 0 <= j < |tsconfigs| && tsconfigs[j] <= file :: w.dirnameLength(tsconfigs[j]) <= w.dirnameLength(tsconfigs[at]))
    && (forall j | 0 <= j < at && tsconfigs[j] <= file :: w.dirnameLength(tsconfigs[j]) < w.dirnameLength(tsconfigs[at]))
  }

  /** The best match, or the first config when none starts the file's path. */
  ghost predicate IsBestMatch(w: World, tsconfigs: seq<TsConfig>, file: File, best: TsConfig) {
    if forall j | 0 <= j < |tsconfigs| :: !(tsconfigs[j] <= file) then tsconfigs != [] && best == tsconfigs[0]
    else exists at | 0 <= at < |tsconfigs| :: BestMatchAt(w, tsconfigs, file, at) && tsconfigs[at] == best
  }

  lemma {:induction false} BestMatchExists(w: World, tsconfigs: seq<TsConfig>, file: File)
    requires tsconfigs != []
    ensures exists best :: IsBestMatch(w, tsconfigs, file, best)
  {
    var n := |tsconfigs| - 1;
    if forall j | 0 <= j < |tsconfigs| :: !(tsconfigs[j] <= file) {
      assert IsBestMatch(w, tsconfigs, file, tsconfigs[0]);
    } else if forall j | 0 <= j < n :: !(tsconfigs[j] <= file) {
      assert BestMatchAt(w, tsconfigs, file, n);
      assert IsBestMatch(w, tsconfigs, file, tsconfigs[n]);
    } else {
      var init := tsconfigs[..n];
      assert exists j | 0 <= j < n :: init[j] <= file;
      BestMatchExists(w, init, file);
      var best :| IsBestMatch(w, init, file, best);
      var at :| 0 <= at < n && BestMatchAt(w, init, file, at);
      assert tsconfigs[at] == init[at];
      var deepest := if tsconfigs[n] <= file && w.dirnameLength(tsconfigs[at]) < w.dirnameLength(tsconfigs[n]) then n else at;
      assert forall j | 0 <= j < n :: tsconfigs[j] == init[j];
      assert BestMatchAt(w, tsconfigs, file, deepest);
      assert IsBestMatch(w, tsconfigs, file, tsconfigs[deepest]);
    }
  }

  lemma BestMatchIsUnique(w: World, tsconfigs: seq<TsConfig>, file: File, a: TsConfig, b: TsConfig)
    requires IsBestMatch(w, tsconfigs, file, a) && IsBestMatch(w, tsconfigs, file, b)
    ensures a == b && a in tsconfigs
  {
  }

  ghost function BestMatch(w: World, tsconfigs: seq<TsConfig>, file: File): (best: Option<TsConfig>)
    ensures best.None? <==> tsconfigs == []
    ensures best.Some? ==> IsBestMatch(w, tsconfigs, file, best.value)
  {
    if tsconfigs == [] then None
    else
      BestMatchExists(w, tsconfigs, file);
      var best :| IsBestMatch(w, tsconfigs, file, best);
      Some(best)
  }

  /** A search: what it found, the configs tried in order, the list before each try, and the list at the end. */
  datatype Search = Search(found: Option<TsConfig>, tried: seq<TsConfig>, lists: seq<seq<TsConfig>>, list: seq<TsConfig>)

  /** The rest of a search: tries the best match of what is listed and not tried, until one contains the file. */
  ghost function Closest(w: World, list: seq<TsConfig>, tried: seq<TsConfig>, lists: seq<seq<TsConfig>>, file: File): Search
    requires ReferencesExist(w)
    decreases |Unlisted(w, list)|, |Untried(list, tried)|
  {
    var best := BestMatch(w, Excluding(list, Elements(tried)), file);
    if best.None? then Search(None, tried, lists, list)
    else
      var next := Discover(list, References(w, best.value));
      OneTry(w, list, tried, file, best.value);
      if Contains(w, best.value, file) then Search(best, tried + [best.value], lists + [list], next)
      else Closest(w, next, tried + [best.value], lists + [list], file)
  }

  ghost function Untried(list: seq<TsConfig>, tried: seq<TsConfig>): set<TsConfig> {
    set t | t in list && t !in tried
  }

  lemma OneTry(w: World, list: seq<TsConfig>, tried: seq<TsConfig>, file: File, best: TsConfig)
    requires ReferencesExist(w) && IsBestMatch(w, Excluding(list, Elements(tried)), file, best)
    ensures best in list && best !in tried
    ensures var next := Discover(list, References(w, best));
            && Grown(list, next, w) && list <= next
            && (next == list || |Unlisted(w, next)| < |Unlisted(w, list)|)
    ensures |Untried(list, tried + [best])| < |Untried(list, tried)|
  {
    hide IsBestMatch, Excluding, Discover, References;
    ExcludingMembers(list, Elements(tried));
    BestMatchIsUnique(w, Excluding(list, Elements(tried)), file, best, best);
    DiscoverGrows(w, list, References(w, best));
    GrowingEnds(list, Discover(list, References(w, best)), w);
    assert Untried(list, tried + [best]) == Untried(list, tried) - {best};
    assert best in Untried(list, tried);
  }

  /** Each config tried is the best match among those of its list that were not tried before. */
  ghost predicate Trials(w: World, lists: seq<seq<TsConfig>>, tried: seq<TsConfig>, file: File) {
    && |lists| == |tried|
    && forall k | 0 <= k < |tried| :: IsBestMatch(w, Excluding(lists[k], Elements(tried[..k])), file, tried[k])
  }

  lemma TriedNext(w: World, list: seq<TsConfig>, tried: seq<TsConfig>, lists: seq<seq<TsConfig>>, file: File, next: TsConfig)
    requires IsBestMatch(w, Excluding(list, Elements(tried)), file, next) && Trials(w, lists, tried, file)
    ensures Trials(w, lists + [list], tried + [next], file)
  {
    forall k | 0 <= k < |tried| + 1
      ensures IsBestMatch(w, Excluding((lists + [list])[k], Elements((tried + [next])[..k])), file, (tried + [next])[k])
    {
      assert (tried + [next])[..k] == tried[..k];
      if k == |tried| {
        assert tried[..k] == tried;
      }
    }
  }

  /**
    The one found is the last tried and the first that contains the file; if none is found, every config of
    the list as it has grown was tried and none contains it.
   */
  ghost predicate FindsFirst(w: World, search: Search, file: File) {
    match search.found
    case Some(t) =>
      && search.tried != [] && search.tried[|search.tried| - 1] == t && Contains(w, t, file)
      && forall k | 0 <= k < |search.tried| - 1 :: !Contains(w, search.tried[k], file)
    case None =>
      forall t | t in search.list :: t in search.tried && !Contains(w, t, file)
  }

  ghost predicate TriedInVain(w: World, list: seq<TsConfig>, tried: seq<TsConfig>, file: File) {
    forall t | t in tried :: t in list && !Contains(w, t, file)
  }

  lemma TriedAgainInVain(w: World, list: seq<TsConfig>, next: seq<TsConfig>, tried: seq<TsConfig>, best: TsConfig, file: File)
    requires TriedInVain(w, list, tried, file) && list <= next && best in list
    ensures Contains(w, best, file) ==> FindsFirst(w, Search(Some(best), tried + [best], [], next), file)
    ensures !Contains(w, best, file) ==> TriedInVain(w, next, tried + [best], file)
    ensures forall t | t in tried + [best] :: t in next
  {
    assert forall k | 0 <= k < |tried| :: tried[k] in tried;
  }

  /** The configs are tried in the order `tried`, each the best match among those listed by then and not tried yet. */
  lemma {:induction false} ClosestIsFirst(w: World, list: seq<TsConfig>, tried: seq<TsConfig>, lists: seq<seq<TsConfig>>, file: File)
    requires ReferencesExist(w) && Trials(w, lists, tried, file) && TriedInVain(w, list, tried, file)
    ensures var search := Closest(w, list, tried, lists, file);
            && Grown(list, search.list, w) && Trials(w, search.lists, search.tried, file)
            && (forall t | t in search.tried :: t in search.list) && FindsFirst(w, search, file)
    decreases |Unlisted(w, list)|, |Untried(list, tried)|
  {
    hide Grown, Trials, Discover, Excluding, References, IsBestMatch, Contains;
    var best := BestMatch(w, Excluding(list, Elements(tried)), file);
    ExcludingMembers(list, Elements(tried));
    if best.Some? {
      var next := Discover(list, References(w, best.value));
      OneTry(w, list, tried, file, best.value);
      TriedNext(w, list, tried, lists, file, best.value);
      TriedAgainInVain(w, list, next, tried, best.value, file);
      if !Contains(w, best.value, file) {
        ClosestIsFirst(w, next, tried + [best.value], lists + [list], file);
        GrownTransitive(list, next, Closest(w, next, tried + [best.value], lists + [list], file).list, w);
      }
    } else {
      GrownReflexive(w, list);
      NothingUntried(w, list, tried, file);
    }
  }

  lemma GrownReflexive(w: World, list: seq<TsConfig>)
    ensures Grown(list, list, w)
  {
  }

  lemma NothingUntried(w: World, list: seq<TsConfig>, tried: seq<TsConfig>, file: File)
    requires TriedInVain(w, list, tried, file) && Excluding(list, Elements(tried)) == []
    ensures forall t | t in list :: t in tried && !Contains(w, t, file)
  {
    ExcludingMembers(list, Elements(tried));
  }
}
