/**
  What a project analysis emits: each file once, and the program each file is analysed with.
 */
module ProjectPlanTheorems {
  import opened TsConfigs
  import opened ProjectPlan

  // ----- One result for each file -----

  ghost predicate OncePerFile(plan: seq<Message>, files: set<File>) {
    && (forall i | 0 <= i < |plan| :: plan[i].FileResult?)
    && (forall i, j | 0 <= i < j < |plan| :: plan[i].file != plan[j].file)
    && FileSet(plan) == files
  }

  lemma OnceThen(a: seq<Message>, b: seq<Message>, filesA: set<File>, filesB: set<File>)
    requires OncePerFile(a, filesA) && OncePerFile(b, filesB) && filesA !! filesB
    ensures OncePerFile(a + b, filesA + filesB)
  {
    FileSetMore(a, b);
    forall i, j | 0 <= i < j < |a + b|
      ensures (a + b)[i].file != (a + b)[j].file
    {
      if i < |a| <= j {
        assert a[i] in a && b[j - |a|] in b;
        assert a[i].file in FileSet(a) && b[j - |a|].file in FileSet(b);
      }
    }
  }

  lemma OnceResults(files: seq<File>, how: How)
    requires Distinct(files)
    ensures OncePerFile(Results(files, how), Elements(files))
  {
    ResultsFiles(files, how);
  }

  lemma {:induction false} FromConfigsOnce(w: World, list: seq<TsConfig>, pending: seq<File>)
    requires SourcesAreDistinct(w)
    ensures var plan := FromConfigs(w, list, pending); OncePerFile(plan, FileSet(plan)) && FileSet(plan) <= Elements(pending)
  {
    if list != [] {
      var n := |list| - 1;
      var before := FromConfigs(w, list[..n], pending);
      var own := PendingOf(Sources(w, list[n]), Excluding(pending, FileSet(before)));
      FromConfigsOnce(w, list[..n], pending);
      ExcludingMembers(pending, FileSet(before));
      PendingOfMembers(Sources(w, list[n]), Excluding(pending, FileSet(before)));
      OnceResults(own, WithTsConfig(list[n]));
      OnceThen(before, Results(own, WithTsConfig(list[n])), FileSet(before), Elements(own));
    }
  }

  lemma {:induction false} FromGroupsOnce(groups: seq<seq<File>>)
    requires Distinct(Flatten(groups))
    ensures OncePerFile(FromGroups(groups), Elements(Flatten(groups)))
  {
    if groups != [] {
      var init, last := groups[..|groups| - 1], groups[|groups| - 1];
      FlattenParts(Flatten(init), last);
      FromGroupsOnce(init);
      OnceResults(last, WithOrphans(last));
      OnceThen(FromGroups(init), Results(last, WithOrphans(last)), Elements(Flatten(init)), Elements(last));
    }
  }

  lemma FlattenParts(init: seq<File>, last: seq<File>)
    requires Distinct(init + last)
    ensures Distinct(init) && Distinct(last) && Elements(init) !! Elements(last)
    ensures Elements(init + last) == Elements(init) + Elements(last)
  {
    assert forall i | 0 <= i < |init| :: (init + last)[i] == init[i];
    assert forall j | 0 <= j < |last| :: (init + last)[|init| + j] == last[j];
  }

  lemma FromOrphansOnce(w: World, pending: seq<File>)
    requires GroupsPartition(w) && Distinct(pending)
    ensures OncePerFile(FromOrphans(w, pending), Elements(Filter(pending, w.isJsTsFile)))
  {
    FilterMembers(pending, w.isJsTsFile);
    if Filter(pending, w.isJsTsFile) != [] {
      FromGroupsOnce(w.groups(Filter(pending, w.isJsTsFile)));
    }
  }

  lemma FromProgramsOnce(w: World, c: Configuration, list: seq<TsConfig>, pending: seq<File>)
    requires ValidWorld(w) && Distinct(pending)
    ensures var plan := FromPrograms(w, c, list, pending); OncePerFile(plan, FileSet(plan)) && FileSet(plan) <= Elements(pending)
  {
    hide FromConfigs, FromOrphans;
    var covered := FromConfigs(w, list, pending);
    var left := Excluding(pending, FileSet(covered));
    FromConfigsOnce(w, list, pending);
    ExcludingMembers(pending, FileSet(covered));
    FilterMembers(left, w.isJsTsFile);
    if c.createTSProgramForOrphanFiles {
      FromOrphansOnce(w, left);
      OnceThen(covered, FromOrphans(w, left), FileSet(covered), Elements(Filter(left, w.isJsTsFile)));
    } else {
      assert covered + [] == covered;
    }
  }

  lemma IncrementalOnce(w: World, c: Configuration, list: seq<TsConfig>, files: seq<File>)
    requires ReferencesExist(w) && Distinct(files)
    ensures var names := Filter(files, w.isJsTsFile);
            var plan := Incremental(w, c, list, files, names).results;
            OncePerFile(plan, Elements(names)) && Elements(names) <= Elements(files)
  {
    IncrementalFiles(w, c, list, files, Filter(files, w.isJsTsFile));
    FilterMembers(files, w.isJsTsFile);
  }

  /** A plan has one result for each file of the project. */
  lemma PlanIsOncePerFile(w: World, c: Configuration, list: seq<TsConfig>, found: seq<TsConfig>, files: seq<File>)
    requires ValidWorld(w) && Distinct(files)
    ensures OncePerFile(Plan(w, c, list, found, files), Elements(files))
  {
    hide FromPrograms, Incremental, OncePerFile, FileSet;
    var typed := Typed(w, c, list, found, files);
    assert OncePerFile(typed, FileSet(typed)) && FileSet(typed) <= Elements(files) by {
      NoResults();
      FromProgramsOnce(w, c, found, files);
      IncrementalOnce(w, c, list, files);
      OnceIsItsFiles(Incremental(w, c, list, files, Filter(files, w.isJsTsFile)).results, Elements(Filter(files, w.isJsTsFile)));
    }
    var left := Excluding(files, FileSet(typed));
    ExcludingMembers(files, FileSet(typed));
    OnceResults(left, NoProgram);
    OnceThen(typed, Results(left, NoProgram), FileSet(typed), Elements(left));
    assert FileSet(typed) + Elements(left) == Elements(files);
  }

  lemma NoResults()
    ensures OncePerFile([], FileSet([])) && FileSet([]) == {}
  {
  }

  lemma OnceIsItsFiles(plan: seq<Message>, files: set<File>)
    requires OncePerFile(plan, files)
    ensures FileSet(plan) == files
  {
  }

  /**
    What a run sends: a result for no file but those of the project, for each once at most, and with the flag
    down at the end for every one.  No file is started with the flag up, and a run that stops early stops
    because it is.
   */
  lemma RunIsExactlyOnce(w: World, c: Configuration, list: seq<TsConfig>, found: seq<TsConfig>, files: seq<File>,
                         results: seq<Message>, clock: nat)
    requires ValidWorld(w) && Distinct(files) && Emits(w, [], results, 0, clock, Plan(w, c, list, found, files))
    ensures |results| == clock <= |files| && OncePerFile(results, FileSet(results)) && FileSet(results) <= Elements(files)
    ensures !w.cancelled(clock) ==> clock == |files| && FileSet(results) == Elements(files)
    ensures (forall k: nat | k < clock :: !w.cancelled(k)) && (clock < |files| ==> w.cancelled(clock))
  {
    hide Plan;
    var plan := Plan(w, c, list, found, files);
    PlanIsOncePerFile(w, c, list, found, files);
    OnceIsAsMany(plan, files);
    assert results == plan[..clock];
    assert plan[..|plan|] == plan;
  }

  lemma OnceIsAsMany(plan: seq<Message>, files: seq<File>)
    requires OncePerFile(plan, Elements(files)) && Distinct(files)
    ensures |plan| == |files|
  {
    var names := seq(|plan|, i requires 0 <= i < |plan| => plan[i].file);
    assert Elements(names) == FileSet(plan) by {
      assert forall i | 0 <= i < |plan| :: names[i] == plan[i].file;
    }
    DistinctSize(names);
    DistinctSize(files);
  }

  lemma {:induction false} DistinctSize(s: seq<File>)
    requires Distinct(s)
    ensures |Elements(s)| == |s|
  {
    if s != [] {
      var n := |s| - 1;
      DistinctSize(s[..n]);
      assert Elements(s) == Elements(s[..n]) + {s[n]};
      assert s[n] !in s[..n];
    }
  }

  // ----- Without types -----

  /** With type checking off, or no rules, every file is analysed without a program, in the order of the files. */
  lemma PlanWithoutTypes(w: World, c: Configuration, list: seq<TsConfig>, found: seq<TsConfig>, files: seq<File>)
    requires ReferencesExist(w) && (c.disableTypeChecking || !c.hasRules)
    ensures var plan := Plan(w, c, list, found, files);
            |plan| == |files| && forall k | 0 <= k < |files| :: plan[k] == FileResult(files[k], NoProgram)
  {
    NoResults();
    ExcludingNothing(files, {});
  }

  // ----- With the programs of the tsconfigs -----

  /** The config at `k` is the first whose program has the file. */
  predicate First(w: World, list: seq<TsConfig>, k: nat, file: File) {
    k < |list| && file in Sources(w, list[k]) && forall j | 0 <= j < k :: file !in Sources(w, list[j])
  }

  /** The JS/TS files that no config's program has, in the order of the files. */
  function Orphans(w: World, list: seq<TsConfig>, files: seq<File>): seq<File> {
    Filter(files, f => w.isJsTsFile(f) && forall t | t in list :: f !in Sources(w, t))
  }

  lemma {:induction false} FromConfigsSound(w: World, list: seq<TsConfig>, pending: seq<File>, m: Message)
    requires m in FromConfigs(w, list, pending)
    ensures m.FileResult? && m.how.WithTsConfig? && m.how.tsconfig in list
            && m.file in Sources(w, m.how.tsconfig) && m.file in pending
  {
    var n := |list| - 1;
    var before := FromConfigs(w, list[..n], pending);
    if m in before {
      FromConfigsSound(w, list[..n], pending, m);
    } else {
      ExcludingMembers(pending, FileSet(before));
      PendingOfMembers(Sources(w, list[n]), Excluding(pending, FileSet(before)));
    }
  }

  lemma InResults(files: seq<File>, how: How, file: File)
    requires file in files
    ensures FileResult(file, how) in Results(files, how)
  {
    var k :| 0 <= k < |files| && files[k] == file;
    assert Results(files, how)[k] == FileResult(file, how);
  }

  lemma {:induction false} FirstConfigTakesIt(w: World, list: seq<TsConfig>, pending: seq<File>, k: nat, file: File)
    requires First(w, list, k, file) && file in pending
    ensures FileResult(file, WithTsConfig(list[k])) in FromConfigs(w, list, pending)
  {
    hide Excluding, PendingOf, FileSet, Results, Sources;
    var n := |list| - 1;
    var before := FromConfigs(w, list[..n], pending);
    if k < n {
      FirstConfigTakesIt(w, list[..n], pending, k, file);
    } else {
      NotTaken(w, list[..n], pending, file);
      ExcludingMembers(pending, FileSet(before));
      PendingOfMembers(Sources(w, list[n]), Excluding(pending, FileSet(before)));
      InResults(PendingOf(Sources(w, list[n]), Excluding(pending, FileSet(before))), WithTsConfig(list[n]), file);
    }
  }

  lemma NotTaken(w: World, list: seq<TsConfig>, pending: seq<File>, file: File)
    requires forall j | 0 <= j < |list| :: file !in Sources(w, list[j])
    ensures file !in FileSet(FromConfigs(w, list, pending))
  {
    var plan := FromConfigs(w, list, pending);
    forall m | m in plan && m.FileResult?
      ensures m.file != file
    {
      FromConfigsSound(w, list, pending, m);
    }
  }

  lemma TakenIsCovered(w: World, list: seq<TsConfig>, pending: seq<File>, file: File)
    requires file in pending
    ensures file in FileSet(FromConfigs(w, list, pending)) <==> exists t :: t in list && file in Sources(w, t)
  {
    var plan := FromConfigs(w, list, pending);
    if file in FileSet(plan) {
      var m :| m in plan && m.FileResult? && m.file == file;
      FromConfigsSound(w, list, pending, m);
    } else if exists t :: t in list && file in Sources(w, t) {
      var t :| t in list && file in Sources(w, t);
      FromConfigsCover(w, list, pending, t, file);
      ExcludingMembers(pending, FileSet(plan));
    }
  }

  lemma OrphansAreLeft(w: World, list: seq<TsConfig>, files: seq<File>, taken: set<File>)
    requires forall f | f in files :: f in taken <==> exists t :: t in list && f in Sources(w, t)
    ensures Filter(Excluding(files, taken), w.isJsTsFile) == Orphans(w, list, files)
  {
    FilterTwice(files, f => f !in taken, w.isJsTsFile, f => w.isJsTsFile(f) && forall t | t in list :: f !in Sources(w, t));
  }

  lemma {:induction false} GroupOf(groups: seq<seq<File>>, file: File)
    requires file in Flatten(groups)
    ensures exists k | 0 <= k < |groups| :: file in groups[k] && FileResult(file, WithOrphans(groups[k])) in FromGroups(groups)
  {
    var n := |groups| - 1;
    if file in Flatten(groups[..n]) {
      GroupOf(groups[..n], file);
      var k :| 0 <= k < n && file in groups[k] && FileResult(file, WithOrphans(groups[k])) in FromGroups(groups[..n]);
    } else {
      InResults(groups[n], WithOrphans(groups[n]), file);
    }
  }

  /**
    With rules and without SonarLint: a file that some listed config's program has is analysed with the
    program of the first such config; a JS/TS file that none has, with a program made of its group of such
    files if that is configured; and any other file without a program.
   */
  lemma PlanWithPrograms(w: World, c: Configuration, list: seq<TsConfig>, found: seq<TsConfig>, files: seq<File>, file: File)
    requires ValidWorld(w) && Distinct(files) && file in files && !c.disableTypeChecking && c.hasRules && !c.sonarlint
    ensures var plan := Plan(w, c, list, found, files);
            if exists t :: t in found && file in Sources(w, t) then
              exists k: nat | First(w, found, k, file) :: FileResult(file, WithTsConfig(found[k])) in plan
            else if w.isJsTsFile(file) && c.createTSProgramForOrphanFiles then
              exists g :: g in w.groups(Orphans(w, found, files)) && file in g && FileResult(file, WithOrphans(g)) in plan
            else FileResult(file, NoProgram) in plan
  {
    var covered := FromConfigs(w, found, files);
    TakenIsCovered(w, found, files, file);
    if exists t :: t in found && file in Sources(w, t) {
      FirstExists(w, found, file);
      var k: nat :| First(w, found, k, file);
      FirstConfigTakesIt(w, found, files, k, file);
    } else {
      LeftOver(w, c, found, files, file);
    }
  }

  lemma {:induction false} FirstExists(w: World, list: seq<TsConfig>, file: File)
    requires exists t :: t in list && file in Sources(w, t)
    ensures exists k: nat :: First(w, list, k, file)
  {
    var n := |list| - 1;
    if exists t :: t in list[..n] && file in Sources(w, t) {
      FirstExists(w, list[..n], file);
      var k: nat :| First(w, list[..n], k, file);
      assert First(w, list, k, file);
    } else {
      assert forall j | 0 <= j < n :: list[j] in list[..n];
      assert First(w, list, n, file);
    }
  }

  lemma LeftOver(w: World, c: Configuration, found: seq<TsConfig>, files: seq<File>, file: File)
    requires ValidWorld(w) && Distinct(files) && file in files && forall t | t in found :: file !in Sources(w, t)
    ensures var typed := FromPrograms(w, c, found, files);
            if w.isJsTsFile(file) && c.createTSProgramForOrphanFiles then
              exists g :: g in w.groups(Orphans(w, found, files)) && file in g && FileResult(file, WithOrphans(g)) in typed
            else FileResult(file, NoProgram) in Results(Excluding(files, FileSet(typed)), NoProgram)
  {
    var covered := FromConfigs(w, found, files);
    var left := Excluding(files, FileSet(covered));
    var orphans := Filter(left, w.isJsTsFile);
    TakenIsCovered(w, found, files, file);
    ExcludingMembers(files, FileSet(covered));
    FilterMembers(left, w.isJsTsFile);
    assert orphans == Orphans(w, found, files) by {
      forall f | f in files
        ensures f in FileSet(covered) <==> exists t :: t in found && f in Sources(w, t)
      {
        TakenIsCovered(w, found, files, f);
      }
      OrphansAreLeft(w, found, files, FileSet(covered));
    }
    FromOrphansOnce(w, left);
    if w.isJsTsFile(file) && c.createTSProgramForOrphanFiles {
      GroupOf(w.groups(orphans), file);
    } else {
      var typed := FromPrograms(w, c, found, files);
      FileSetMore(covered, if c.createTSProgramForOrphanFiles then FromOrphans(w, left) else []);
      NoResults();
      ExcludingMembers(files, FileSet(typed));
      InResults(Excluding(files, FileSet(typed)), NoProgram, file);
    }
  }

  // ----- In which order -----

  /** First the configs in the order of the list, each with its program's order; then the groups; then the rest. */
  ghost predicate Ordered(w: World, found: seq<TsConfig>, files: seq<File>, a: Message, b: Message)
    requires a.FileResult? && b.FileResult?
  {
    match a.how
    case WithTsConfig(s) =>
      b.how.WithTsConfig? ==>
        Precedes(found, s, b.how.tsconfig) || (s == b.how.tsconfig && Precedes(Sources(w, s), a.file, b.file))
    case WithOrphans(g) =>
      && !b.how.WithTsConfig?
      && (b.how.WithOrphans? ==>
            Precedes(w.groups(Orphans(w, found, files)), g, b.how.rootNames) || (g == b.how.rootNames && Precedes(g, a.file, b.file)))
    case WithCached => false
    case NoProgram => b.how.NoProgram? && Precedes(files, a.file, b.file)
  }

  lemma {:induction false} FromConfigsOrder(w: World, list: seq<TsConfig>, pending: seq<File>, i: nat, j: nat)
    requires i < j < |FromConfigs(w, list, pending)|
    ensures var plan := FromConfigs(w, list, pending);
            && plan[i].FileResult? && plan[j].FileResult? && plan[i].how.WithTsConfig? && plan[j].how.WithTsConfig?
            && var s, t := plan[i].how.tsconfig, plan[j].how.tsconfig;
               Precedes(list, s, t) || (s == t && Precedes(Sources(w, s), plan[i].file, plan[j].file))
  {
    var n := |list| - 1;
    var before := FromConfigs(w, list[..n], pending);
    var own := PendingOf(Sources(w, list[n]), Excluding(pending, FileSet(before)));
    if j < |before| {
      FromConfigsOrder(w, list[..n], pending, i, j);
      PrecedesInPrefix(list[..n], list, before[i].how.tsconfig, before[j].how.tsconfig);
    } else if i < |before| {
      FromConfigsSound(w, list[..n], pending, before[i]);
      var p :| 0 <= p < n && list[p] == before[i].how.tsconfig;
      assert list[n] == Results(own, WithTsConfig(list[n]))[j - |before|].how.tsconfig;
    } else {
      FilterOrder(Sources(w, list[n]), f => f in Excluding(pending, FileSet(before)), i - |before|, j - |before|);
    }
  }

  lemma PrecedesInPrefix<T>(prefix: seq<T>, s: seq<T>, x: T, y: T)
    requires prefix <= s
    ensures Precedes(prefix, x, y) ==> Precedes(s, x, y)
  {
    if Precedes(prefix, x, y) {
      var p, q :| 0 <= p < q < |prefix| && prefix[p] == x && prefix[q] == y;
      assert s[p] == x && s[q] == y;
    }
  }

  lemma {:induction false} FromGroupsSound(groups: seq<seq<File>>, i: nat)
    requires i < |FromGroups(groups)|
    ensures var m := FromGroups(groups)[i]; m.FileResult? && m.how.WithOrphans? && m.how.rootNames in groups
  {
    var n := |groups| - 1;
    if i < |FromGroups(groups[..n])| {
      FromGroupsSound(groups[..n], i);
    }
  }

  lemma {:induction false} FromGroupsOrder(groups: seq<seq<File>>, i: nat, j: nat)
    requires i < j < |FromGroups(groups)|
    ensures var plan := FromGroups(groups);
            && plan[i].FileResult? && plan[j].FileResult? && plan[i].how.WithOrphans? && plan[j].how.WithOrphans?
            && var g, h := plan[i].how.rootNames, plan[j].how.rootNames;
               Precedes(groups, g, h) || (g == h && Precedes(g, plan[i].file, plan[j].file))
  {
    var n := |groups| - 1;
    var before := FromGroups(groups[..n]);
    if j < |before| {
      FromGroupsOrder(groups[..n], i, j);
      PrecedesInPrefix(groups[..n], groups, before[i].how.rootNames, before[j].how.rootNames);
    } else if i < |before| {
      FromGroupsSound(groups[..n], i);
      var p :| 0 <= p < n && groups[p] == before[i].how.rootNames;
      assert groups[n] == Results(groups[n], WithOrphans(groups[n]))[j - |before|].how.rootNames;
    } else {
      assert groups[n][i - |before|] == FromGroups(groups)[i].file && groups[n][j - |before|] == FromGroups(groups)[j].file;
    }
  }

  /** With rules and without SonarLint the results come in that order. */
  lemma PlanWithProgramsInOrder(w: World, c: Configuration, list: seq<TsConfig>, found: seq<TsConfig>, files: seq<File>, i: nat, j: nat)
    requires ValidWorld(w) && Distinct(files) && !c.disableTypeChecking && c.hasRules && !c.sonarlint
    requires i < j < |Plan(w, c, list, found, files)|
    ensures var plan := Plan(w, c, list, found, files);
            plan[i].FileResult? && plan[j].FileResult? && Ordered(w, found, files, plan[i], plan[j])
  {
    hide FromConfigs, FromGroups, Ordered, Distinct, Excluding, Orphans, PendingOf;
    var plan, covered := Plan(w, c, list, found, files), FromConfigs(w, found, files);
    var typed := FromPrograms(w, c, found, files);
    OrphansOfPlan(w, c, found, files);
    if j < |typed| {
      TypedInOrder(w, found, files, typed, i, j);
    } else {
      var rest := Excluding(files, FileSet(typed));
      assert plan[j] == FileResult(rest[j - |typed|], NoProgram);
      if i < |typed| {
        TypedHow(w, found, files, typed, i);
        NoProgramIsLast(w, found, files, plan[i], plan[j]);
      } else {
        ExcludingOrder(files, FileSet(typed), i - |typed|, j - |typed|);
        RestInOrder(w, found, files, rest[i - |typed|], rest[j - |typed|]);
      }
    }
  }

  /** What the programs emit, with the groups of the orphans. */
  ghost predicate IsTyped(w: World, found: seq<TsConfig>, files: seq<File>, typed: seq<Message>) {
    || typed == FromConfigs(w, found, files)
    || typed == FromConfigs(w, found, files) + FromGroups(w.groups(Orphans(w, found, files)))
  }

  lemma OrphansOfPlan(w: World, c: Configuration, found: seq<TsConfig>, files: seq<File>)
    ensures IsTyped(w, found, files, FromPrograms(w, c, found, files))
  {
    hide FromConfigs, FromGroups, Orphans;
    var covered := FromConfigs(w, found, files);
    forall f | f in files
      ensures f in FileSet(covered) <==> exists t :: t in found && f in Sources(w, t)
    {
      TakenIsCovered(w, found, files, f);
    }
    OrphansAreLeft(w, found, files, FileSet(covered));
    assert covered + [] == covered;
  }

  lemma TypedHow(w: World, found: seq<TsConfig>, files: seq<File>, typed: seq<Message>, i: nat)
    requires IsTyped(w, found, files, typed) && i < |typed|
    ensures typed[i].FileResult?
    ensures if i < |FromConfigs(w, found, files)| then typed[i].how.WithTsConfig? else typed[i].how.WithOrphans?
  {
    var covered := FromConfigs(w, found, files);
    if i < |covered| {
      FromConfigsSound(w, found, files, covered[i]);
    } else {
      FromGroupsSound(w.groups(Orphans(w, found, files)), i - |covered|);
    }
  }

  lemma TypedInOrder(w: World, found: seq<TsConfig>, files: seq<File>, typed: seq<Message>, i: nat, j: nat)
    requires IsTyped(w, found, files, typed) && i < j < |typed|
    ensures typed[i].FileResult? && typed[j].FileResult? && Ordered(w, found, files, typed[i], typed[j])
  {
    hide FromConfigs, FromGroups, Orphans, Sources;
    var covered := FromConfigs(w, found, files);
    TypedHow(w, found, files, typed, i);
    TypedHow(w, found, files, typed, j);
    if j < |covered| {
      FromConfigsOrder(w, found, files, i, j);
    } else if |covered| <= i {
      FromGroupsOrder(w.groups(Orphans(w, found, files)), i - |covered|, j - |covered|);
    }
  }

  lemma NoProgramIsLast(w: World, found: seq<TsConfig>, files: seq<File>, a: Message, b: Message)
    requires a.FileResult? && b.FileResult? && (a.how.WithTsConfig? || a.how.WithOrphans?) && b.how.NoProgram?
    ensures Ordered(w, found, files, a, b)
  {
  }

  lemma RestInOrder(w: World, found: seq<TsConfig>, files: seq<File>, f: File, g: File)
    requires Precedes(files, f, g)
    ensures Ordered(w, found, files, FileResult(f, NoProgram), FileResult(g, NoProgram))
  {
  }

  // ----- With SonarLint -----

  ghost predicate Rooted(w: World, list: seq<TsConfig>, covered: set<File>) {
    forall f | f in covered :: exists t :: t in list && Contains(w, t, f)
  }

  lemma RootedGrows(w: World, before: Progress, search: Search)
    requires Rooted(w, before.list, before.covered) && before.list <= search.list && forall t | t in search.tried :: t in search.list
    ensures Rooted(w, search.list, before.covered + CoveredBy(w, search.tried))
  {
    forall f | f in before.covered + CoveredBy(w, search.tried)
      ensures exists t :: t in search.list && Contains(w, t, f)
    {
      if f in CoveredBy(w, search.tried) {
        var t :| t in search.tried && f in RootNames(w, t);
        assert Contains(w, t, f);
      } else {
        var t :| t in before.list && Contains(w, t, f);
        assert t in search.list;
      }
    }
  }

  lemma SearchIsRooted(w: World, before: Progress, file: File)
    requires ReferencesExist(w) && Rooted(w, before.list, before.covered)
    ensures var search := Closest(w, before.list, [], [], file);
            && Grown(before.list, search.list, w) && FindsFirst(w, search, file)
            && Rooted(w, search.list, before.covered + CoveredBy(w, search.tried))
            && (search.found.None? ==> file !in before.covered + CoveredBy(w, search.tried))
  {
    hide Closest, CoveredBy;
    ClosestIsFirst(w, before.list, [], [], file);
    RootedGrows(w, before, Closest(w, before.list, [], [], file));
  }

  lemma {:induction false} ProgressIsRooted(w: World, c: Configuration, list: seq<TsConfig>, pending: seq<File>, names: seq<File>)
    requires ReferencesExist(w)
    ensures var progress := Incremental(w, c, list, pending, names);
            Grown(list, progress.list, w) && Rooted(w, progress.list, progress.covered)
  {
    hide Closest, CoveredBy, Rooted, Grown;
    if names != [] {
      var n := |names| - 1;
      var before := Incremental(w, c, list, pending, names[..n]);
      ProgressIsRooted(w, c, list, pending, names[..n]);
      SearchIsRooted(w, before, names[n]);
      GrownTransitive(list, before.list, Closest(w, before.list, [], [], names[n]).list, w);
    } else {
      NothingRooted(w, list);
    }
  }

  lemma NothingRooted(w: World, list: seq<TsConfig>)
    ensures Grown(list, list, w) && Rooted(w, list, {})
  {
  }

  lemma {:induction false} GroupIsFound(groups: seq<seq<File>>, file: File)
    ensures GroupWith(groups, file).Some? <==> exists g :: g in groups && file in g
    ensures GroupWith(groups, file).Some? ==> GroupWith(groups, file).value in groups && file in GroupWith(groups, file).value
  {
    if groups != [] {
      GroupIsFound(groups[1..], file);
      assert forall g :: g in groups <==> g == groups[0] || g in groups[1..];
    }
  }

  lemma {:induction false} GroupsCover(groups: seq<seq<File>>, file: File)
    ensures file in Flatten(groups) <==> exists g :: g in groups && file in g
  {
    if groups != [] {
      var init := groups[..|groups| - 1];
      GroupsCover(init, file);
      assert forall g :: g in groups <==> g == groups[|groups| - 1] || g in init;
    }
  }

  /** The fallback of a pending JS/TS file that no config covers always has a group. */
  lemma FallbackHasGroup(w: World, c: Configuration, pending: seq<File>, covered: set<File>, file: File)
    requires GroupsPartition(w) && Distinct(pending) && file in pending && w.isJsTsFile(file) && file !in covered
    requires c.createTSProgramForOrphanFiles
    ensures var how := Fallback(w, c, pending, covered, file);
            && how.WithOrphans? && file in how.rootNames
            && forall f | f in how.rootNames :: f in pending && w.isJsTsFile(f) && f !in covered
  {
    var left := Excluding(pending, covered);
    var candidates := Filter(left, w.isJsTsFile);
    ExcludingMembers(pending, covered);
    FilterMembers(left, w.isJsTsFile);
    GroupsCover(w.groups(candidates), file);
    GroupIsFound(w.groups(candidates), file);
    var g := GroupWith(w.groups(candidates), file).value;
    forall f | f in g
      ensures f in candidates
    {
      GroupsCover(w.groups(candidates), f);
    }
  }

  /** With rules and SonarLint the JS/TS files come first, in the order of the files, and the rest after them in theirs. */
  lemma PlanWithSonarLint(w: World, c: Configuration, list: seq<TsConfig>, found: seq<TsConfig>, files: seq<File>)
    requires ValidWorld(w) && Distinct(files) && !c.disableTypeChecking && c.hasRules && c.sonarlint
    ensures var plan, names := Plan(w, c, list, found, files), Filter(files, w.isJsTsFile);
            && |names| <= |plan| == |files|
            && (forall k | 0 <= k < |names| :: plan[k].FileResult? && plan[k].file == names[k])
            && (forall k | |names| <= k < |plan| :: plan[k].FileResult? && plan[k].how == NoProgram)
            && (forall k | 0 <= k < |plan| :: w.isJsTsFile(plan[k].file) <==> k < |names|)
            && (forall i, j | 0 <= i < j < |plan| && (j < |names| || |names| <= i) :: Precedes(files, plan[i].file, plan[j].file))
  {
    hide Incremental, Excluding, Precedes, OncePerFile, FileSet;
    var names := Filter(files, w.isJsTsFile);
    var typed := Typed(w, c, list, found, files);
    IncrementalFiles(w, c, list, files, names);
    PlanIsOncePerFile(w, c, list, found, files);
    OnceIsAsMany(Plan(w, c, list, found, files), files);
    forall k | 0 <= k < |Plan(w, c, list, found, files)|
      ensures var m := Plan(w, c, list, found, files)[k];
              m.FileResult? && (k >= |names| ==> m.how == NoProgram) && (w.isJsTsFile(m.file) <==> k < |names|)
    {
      if k < |names| {
        FilterMembers(files, w.isJsTsFile);
        assert names[k] in names;
      } else {
        RestIsOther(w, files, typed, names, k - |names|);
      }
    }
    forall i, j | 0 <= i < j < |Plan(w, c, list, found, files)| && (j < |names| || |names| <= i)
      ensures Precedes(files, Plan(w, c, list, found, files)[i].file, Plan(w, c, list, found, files)[j].file)
    {
      if j < |names| {
        FilterOrder(files, w.isJsTsFile, i, j);
      } else {
        ExcludingOrder(files, FileSet(typed), i - |names|, j - |names|);
      }
    }
  }

  lemma RestIsOther(w: World, files: seq<File>, typed: seq<Message>, names: seq<File>, k: nat)
    requires NamesOf(typed, names) && names == Filter(files, w.isJsTsFile) && k < |Excluding(files, FileSet(typed))|
    ensures !w.isJsTsFile(Excluding(files, FileSet(typed))[k])
  {
    var rest := Excluding(files, FileSet(typed));
    FilterMembers(files, w.isJsTsFile);
    ExcludingMembers(files, FileSet(typed));
    assert rest[k] in rest;
  }

  /**
    The program of the `k`th JS/TS file with SonarLint: a cached one that is up to date; else that of the
    closest tsconfig, which is found if and only if a listed one contains the file by then; else one made of
    root names, the file's group of the JS/TS files that are pending and that no config found so far
    contains, if that is configured; else none.
   */
  lemma SonarLintProgram(w: World, c: Configuration, list: seq<TsConfig>, found: seq<TsConfig>, files: seq<File>, k: nat)
    requires ValidWorld(w) && Distinct(files) && !c.disableTypeChecking && c.hasRules && c.sonarlint
    requires k < |Filter(files, w.isJsTsFile)|
    ensures var names := Filter(files, w.isJsTsFile);
            var before, after := Incremental(w, c, list, files, names[..k]), Incremental(w, c, list, files, names[..k + 1]);
            var search := Closest(w, before.list, [], [], names[k]);
            var plan := Plan(w, c, list, found, files);
            && k < |plan| && plan[k].FileResult? && plan[k].file == names[k]
            && if w.cached(names[k]) == Unchanged then plan[k].how == WithCached && after.list == before.list
               else
                 && after.list == search.list && FindsFirst(w, search, names[k])
                 && (match search.found
                     case Some(t) => plan[k].how == WithTsConfig(t)
                     case None =>
                       if c.createTSProgramForOrphanFiles then
                         && plan[k].how.WithOrphans? && names[k] in plan[k].how.rootNames
                         && forall f | f in plan[k].how.rootNames :: f in names[k..] && f !in after.covered
                       else plan[k].how == NoProgram)
  {
    var names := Filter(files, w.isJsTsFile);
    var before := Incremental(w, c, list, files, names[..k]);
    FilterMembers(files, w.isJsTsFile);
    IncrementalFiles(w, c, list, files, names);
    IncrementalFiles(w, c, list, files, names[..k]);
    IncrementalFiles(w, c, list, files, names[..k + 1]);
    IncrementalPrefix(w, c, list, files, names, k + 1);
    IncrementalNext(w, c, list, files, names, k);
    ProgressIsRooted(w, c, list, files, names[..k]);
    NextProgram(w, c, files, names, before, k);
  }

  lemma NextProgram(w: World, c: Configuration, files: seq<File>, names: seq<File>, before: Progress, k: nat)
    requires ValidWorld(w) && Distinct(files) && names == Filter(files, w.isJsTsFile) && k < |names|
    requires Rooted(w, before.list, before.covered) && FileSet(before.results) == Elements(names[..k])
    ensures var after, search := NextFile(w, c, files, before, names[k]), Closest(w, before.list, [], [], names[k]);
            && |after.results| == |before.results| + 1
            && var m := after.results[|before.results|];
               && m.FileResult?
               && if w.cached(names[k]) == Unchanged then m.how == WithCached && after.list == before.list
                  else
                    && after.list == search.list && FindsFirst(w, search, names[k])
                    && (match search.found
                        case Some(t) => m.how == WithTsConfig(t)
                        case None =>
                          if c.createTSProgramForOrphanFiles then
                            && m.how.WithOrphans? && names[k] in m.how.rootNames
                            && forall f | f in m.how.rootNames :: f in names[k..] && f !in after.covered
                          else m.how == NoProgram)
  {
    hide Closest, CoveredBy, Rooted, FindsFirst, GroupsPartition, SourcesAreDistinct, ReferencesExist;
    var search := Closest(w, before.list, [], [], names[k]);
    var covered := before.covered + CoveredBy(w, search.tried);
    var left := Excluding(files, FileSet(before.results));
    SearchIsRooted(w, before, names[k]);
    FilterMembers(files, w.isJsTsFile);
    ExcludingMembers(files, FileSet(before.results));
    LeftNames(files, names, k);
    if search.found.None? && c.createTSProgramForOrphanFiles {
      FallbackHasGroup(w, c, left, covered, names[k]);
    }
  }

  lemma LeftNames(files: seq<File>, names: seq<File>, k: nat)
    requires Distinct(names) && k < |names|
    ensures names[k] !in Elements(names[..k])
    ensures forall f | f in names && f !in Elements(names[..k]) :: f in names[k..]
  {
    assert names == names[..k] + names[k..];
  }
}
