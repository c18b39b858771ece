/**
  What a project analysis is to emit, as a function of the project: which files, in which order, and with
  which program (packages/analysis/src/analyzeProject.ts, analyzeWithProgram.ts,
  analyzeWithIncrementalProgram.ts, analyzeWithoutProgram.ts).
 */
module ProjectPlan {
  import opened Options
  import opened TsConfigs

  // ----- The plan of a run -----

  function Results(files: seq<File>, how: How): seq<Message> {
    seq(|files|, i requires 0 <= i < |files| => FileResult(files[i], how))
  }

  function FileSet(messages: seq<Message>): set<File> {
    set m | m in messages && m.FileResult? :: m.file
  }

  /** Each config of the list takes those of its program's sources that the configs before it left pending. */
  function FromConfigs(w: World, list: seq<TsConfig>, pending: seq<File>): seq<Message> {
    if list == [] then []
    else
      var n := |list| - 1;
      var before := FromConfigs(w, list[..n], pending);
      before + Results(PendingOf(Sources(w, list[n]), Excluding(pending, FileSet(before))), WithTsConfig(list[n]))
  }

  function FromGroups(groups: seq<seq<File>>): seq<Message> {
    if groups == [] then []
    else FromGroups(groups[..|groups| - 1]) + Results(groups[|groups| - 1], WithOrphans(groups[|groups| - 1]))
  }

  function FromOrphans(w: World, pending: seq<File>): seq<Message> {
    var rootNames := Filter(pending, w.isJsTsFile);
    if rootNames == [] then [] else FromGroups(w.groups(rootNames))
  }

  /** `analyzeWithProgram`. */
  function FromPrograms(w: World, configuration: Configuration, list: seq<TsConfig>, pending: seq<File>): seq<Message> {
    var covered := FromConfigs(w, list, pending);
    covered + if configuration.createTSProgramForOrphanFiles then FromOrphans(w, Excluding(pending, FileSet(covered))) else []
  }

  function GroupWith(groups: seq<seq<File>>, file: File): Option<seq<File>> {
    if groups == [] then None
    else if file in groups[0] then Some(groups[0])
    else GroupWith(groups[1..], file)
  }

  /** The fallback of `programOptionsFromClosestTsconfig`; `covered` are the root names of the configs found so far. */
  function Fallback(w: World, configuration: Configuration, pending: seq<File>, covered: set<File>, file: File): How {
    if !configuration.createTSProgramForOrphanFiles then NoProgram
    else
      var group := GroupWith(w.groups(Filter(Excluding(pending, covered), w.isJsTsFile)), file);
      if group.Some? then WithOrphans(group.value) else NoProgram
  }

  function CoveredBy(w: World, tried: seq<TsConfig>): set<File> {
    set t, f | t in tried && f in RootNames(w, t) :: f
  }

  lemma NothingTried(w: World, list: seq<TsConfig>, file: File)
    ensures CoveredBy(w, []) == {} && TriedInVain(w, list, [], file) && Trials(w, [], [], file)
  {
  }

  lemma CoveredMore(w: World, tried: seq<TsConfig>, tsconfig: TsConfig)
    ensures CoveredBy(w, tried + [tsconfig]) == CoveredBy(w, tried) + Elements(RootNames(w, tsconfig))
  {
  }

  /** The state of `analyzeWithIncrementalProgram` between two files. */
  datatype Progress = Progress(results: seq<Message>, list: seq<TsConfig>, covered: set<File>)

  ghost function NextFile(w: World, configuration: Configuration, pending: seq<File>, before: Progress, file: File): Progress
    requires ReferencesExist(w)
  {
    if w.cached(file).Unchanged? then before.(results := before.results + [FileResult(file, WithCached)])
    else
      var search := Closest(w, before.list, [], [], file);
      var covered := before.covered + CoveredBy(w, search.tried);
      var left := Excluding(pending, FileSet(before.results));
      var how := if search.found.Some? then WithTsConfig(search.found.value) else Fallback(w, configuration, left, covered, file);
      Progress(before.results + [FileResult(file, how)], search.list, covered)
  }

  /** `analyzeWithIncrementalProgram` after `names`. */
  ghost function Incremental(w: World, configuration: Configuration, list: seq<TsConfig>, pending: seq<File>, names: seq<File>): Progress
    requires ReferencesExist(w)
  {
    if names == [] then Progress([], list, {})
    else
      var n := |names| - 1;
      NextFile(w, configuration, pending, Incremental(w, configuration, list, pending, names[..n]), names[n])
  }

  /** What the passes that use TypeScript emit; `list` are the tsconfigs at the start and `found` at the end. */
  ghost function Typed(w: World, c: Configuration, list: seq<TsConfig>, found: seq<TsConfig>, files: seq<File>): seq<Message>
    requires ReferencesExist(w)
  {
    if c.disableTypeChecking || !c.hasRules then []
    else if c.sonarlint then Incremental(w, c, list, files, Filter(files, w.isJsTsFile)).results
    else FromPrograms(w, c, found, files)
  }

  /** What a run emits before its last message, unless it is cancelled; what is left is analysed without a program. */
  ghost function Plan(w: World, c: Configuration, list: seq<TsConfig>, found: seq<TsConfig>, files: seq<File>): seq<Message>
    requires ReferencesExist(w)
  {
    var typed := Typed(w, c, list, found, files);
    typed + Results(Excluding(files, FileSet(typed)), NoProgram)
  }

  /** From `start` to `clock` the results of `plan` were emitted one by one, until its end or until the flag was up. */
  ghost predicate Emits(w: World, before: seq<Message>, after: seq<Message>, start: nat, clock: nat, plan: seq<Message>) {
    && start <= clock <= start + |plan|
    && after == before + plan[..clock - start]
    && (forall k: nat | start <= k < clock :: !w.cancelled(k))
    && (clock < start + |plan| ==> w.cancelled(clock))
  }

  /** What a pass reads and changes. */
  datatype Moment = Moment(messages: seq<Message>, pending: seq<File>, clock: nat)

  /** A pass emits `plan`, and what it emitted is not pending any more. */
  ghost predicate Ran(w: World, before: Moment, after: Moment, plan: seq<Message>) {
    && Emits(w, before.messages, after.messages, before.clock, after.clock, plan)
    && after.pending == Excluding(before.pending, FileSet(plan[..after.clock - before.clock]))
  }

  lemma EmitsThen(w: World, m0: seq<Message>, m1: seq<Message>, m2: seq<Message>, c0: nat, c1: nat, c2: nat,
                  first: seq<Message>, second: seq<Message>, plan: seq<Message>)
    requires Emits(w, m0, m1, c0, c1, first) && Emits(w, m1, m2, c1, c2, second)
    requires first <= plan && (c1 == c0 + |first| ==> plan == first + second)
    ensures Emits(w, m0, m2, c0, c2, plan)
    ensures plan[..c2 - c0] == first[..c1 - c0] + second[..c2 - c1]
  {
    if c1 < c0 + |first| {
      assert c2 == c1;
    }
  }

  /** A pass after a pass: what the second would emit matters only if the first ran to its end. */
  lemma RanThen(w: World, before: Moment, between: Moment, after: Moment, first: seq<Message>, second: seq<Message>, plan: seq<Message>)
    requires Ran(w, before, between, first) && Ran(w, between, after, second)
    requires first <= plan && (between.clock == before.clock + |first| ==> plan == first + second)
    ensures Ran(w, before, after, plan)
  {
    EmitsThen(w, before.messages, between.messages, after.messages, before.clock, between.clock, after.clock, first, second, plan);
    PendingThen(before.pending, first[..between.clock - before.clock], second[..after.clock - between.clock]);
  }

  lemma RanNothing(w: World, now: Moment)
    ensures Ran(w, now, now, [])
  {
    assert FileSet([]) == {};
    ExcludingNothing(now.pending, {});
  }

  /** With the flag up, nothing more is emitted of a longer plan. */
  lemma RanStopped(w: World, before: Moment, after: Moment, first: seq<Message>, plan: seq<Message>)
    requires Ran(w, before, after, first) && first <= plan && w.cancelled(after.clock)
    ensures Ran(w, before, after, plan)
  {
    assert plan[..after.clock - before.clock] == first[..after.clock - before.clock];
  }

  /** With the flag down, the plan was carried out. */
  lemma RanToItsEnd(w: World, before: Moment, after: Moment, plan: seq<Message>)
    requires Ran(w, before, after, plan) && !w.cancelled(after.clock)
    ensures after == Moment(before.messages + plan, Excluding(before.pending, FileSet(plan)), before.clock + |plan|)
  {
    assert plan[..|plan|] == plan;
  }

  lemma RanOnce(w: World, before: Moment, file: File, how: How)
    requires !w.cancelled(before.clock)
    ensures var next := FileResult(file, how);
            Ran(w, before, Moment(before.messages + [next], Excluding(before.pending, {file}), before.clock + 1), [next])
  {
    var next := [FileResult(file, how)];
    assert FileSet(next) == {file} && next[..1] == next;
  }

  /** Pending files after some results. */
  lemma PendingThen(pending: seq<File>, first: seq<Message>, second: seq<Message>)
    ensures Excluding(Excluding(pending, FileSet(first)), FileSet(second)) == Excluding(pending, FileSet(first + second))
  {
    FilterTwice(pending, f => f !in FileSet(first), f => f !in FileSet(second), f => f !in FileSet(first + second));
    assert FileSet(first) + FileSet(second) == FileSet(first + second);
  }

  /** The tsconfigs at the end of a run: untouched, those of the searches, or those followed to the end or until nothing was pending. */
  ghost predicate Lists(w: World, c: Configuration, list: seq<TsConfig>, found: seq<TsConfig>, files: seq<File>, followed: nat,
                        cancelled: bool)
    requires ReferencesExist(w)
  {
    if c.disableTypeChecking || !c.hasRules then found == list
    else if c.sonarlint then cancelled || found == Incremental(w, c, list, files, Filter(files, w.isJsTsFile)).list
    else
      && followed <= |found| && found == Followed(w, list, followed)
      && (cancelled || followed == |found| || Excluding(files, FileSet(FromPrograms(w, c, found, files))) == [])
  }

  // ----- How plans unfold -----

  lemma {:induction false} FromConfigsPrefix(w: World, list: seq<TsConfig>, n: nat, pending: seq<File>)
    requires n <= |list|
    ensures FromConfigs(w, list[..n], pending) <= FromConfigs(w, list, pending)
  {
    if n < |list| {
      assert list[..|list| - 1][..n] == list[..n];
      FromConfigsPrefix(w, list[..|list| - 1], n, pending);
    } else {
      assert list[..n] == list;
    }
  }

  lemma NoPendingOf(sources: seq<File>, pending: seq<File>)
    requires forall f | f in sources :: f !in pending
    ensures PendingOf(sources, pending) == []
  {
    FilterNone(sources, f => f in pending);
  }

  lemma {:induction false} NothingLeft(w: World, list: seq<TsConfig>, n: nat, pending: seq<File>)
    requires n <= |list| && Excluding(pending, FileSet(FromConfigs(w, list[..n], pending))) == []
    ensures FromConfigs(w, list, pending) == FromConfigs(w, list[..n], pending)
  {
    hide Excluding, FileSet, Sources;
    if n < |list| {
      var m := |list| - 1;
      assert list[..m][..n] == list[..n];
      NothingLeft(w, list[..m], n, pending);
      NoPendingOf(Sources(w, list[m]), []);
    } else {
      assert list[..n] == list;
    }
  }

  lemma ResultsFiles(files: seq<File>, how: How)
    ensures FileSet(Results(files, how)) == Elements(files)
  {
    assert forall k | 0 <= k < |files| :: Results(files, how)[k].file == files[k];
  }

  lemma FileSetMore(a: seq<Message>, b: seq<Message>)
    ensures FileSet(a + b) == FileSet(a) + FileSet(b)
  {
  }

  lemma TakesItsOwn(pending: seq<File>, before: seq<Message>, sources: seq<File>, how: How, file: File)
    ensures var own := Results(PendingOf(sources, Excluding(pending, FileSet(before))), how);
            file in Excluding(pending, FileSet(before + own)) ==> file in Excluding(pending, FileSet(before)) && file !in sources
  {
    var left := Excluding(pending, FileSet(before));
    var own := PendingOf(sources, left);
    ExcludingMembers(pending, FileSet(before));
    ExcludingMembers(pending, FileSet(before + Results(own, how)));
    PendingOfMembers(sources, left);
    ResultsFiles(own, how);
    FileSetMore(before, Results(own, how));
  }

  /** What a config's program has is not pending after it. */
  lemma {:induction false} FromConfigsCover(w: World, list: seq<TsConfig>, pending: seq<File>, tsconfig: TsConfig, file: File)
    requires tsconfig in list && file in Sources(w, tsconfig)
    ensures file !in Excluding(pending, FileSet(FromConfigs(w, list, pending)))
  {
    hide Excluding, PendingOf, FileSet, Results, Sources;
    var n := |list| - 1;
    TakesItsOwn(pending, FromConfigs(w, list[..n], pending), Sources(w, list[n]), WithTsConfig(list[n]), file);
    if tsconfig in list[..n] {
      FromConfigsCover(w, list[..n], pending, tsconfig, file);
    }
  }

  /** A config that is listed twice adds nothing the second time. */
  lemma SeenBefore(w: World, list0: seq<TsConfig>, n: nat, pending: seq<File>)
    requires ReferencesExist(w)
    requires var list := Followed(w, list0, n); n < |list| && list[n] in list[..n]
    ensures var list := Followed(w, list0, n);
            && Followed(w, list0, n + 1) == list
            && FromConfigs(w, list[..n + 1], pending) == FromConfigs(w, list[..n], pending)
  {
    var list := Followed(w, list0, n);
    FollowedIsClosed(w, list0, n);
    NothingNew(list, References(w, list[n]));
    var before := FromConfigs(w, list[..n], pending);
    assert list[..n + 1][..n] == list[..n];
    forall f | f in Sources(w, list[n])
      ensures f !in Excluding(pending, FileSet(before))
    {
      FromConfigsCover(w, list[..n], pending, list[n], f);
    }
    NoPendingOf(Sources(w, list[n]), Excluding(pending, FileSet(before)));
  }

  lemma {:induction false} NothingNew(list: seq<TsConfig>, references: seq<TsConfig>)
    requires forall r | r in references :: r in list
    ensures Discover(list, references) == list
  {
    if references != [] {
      NothingNew(list, references[..|references| - 1]);
    }
  }

  lemma {:induction false} FromGroupsPrefix(groups: seq<seq<File>>, n: nat)
    requires n <= |groups|
    ensures FromGroups(groups[..n]) <= FromGroups(groups)
  {
    if n < |groups| {
      assert groups[..|groups| - 1][..n] == groups[..n];
      FromGroupsPrefix(groups[..|groups| - 1], n);
    } else {
      assert groups[..n] == groups;
    }
  }

  lemma {:induction false} IncrementalPrefix(w: World, c: Configuration, list: seq<TsConfig>, pending: seq<File>, names: seq<File>, n: nat)
    requires ReferencesExist(w) && n <= |names|
    ensures Incremental(w, c, list, pending, names[..n]).results <= Incremental(w, c, list, pending, names).results
  {
    if n < |names| {
      assert names[..|names| - 1][..n] == names[..n];
      IncrementalPrefix(w, c, list, pending, names[..|names| - 1], n);
    } else {
      assert names[..n] == names;
    }
  }

  /** One result for each name, in order. */
  /** The results of the names, one each and in order. */
  ghost predicate NamesOf(results: seq<Message>, names: seq<File>) {
    && |results| == |names| && FileSet(results) == Elements(names)
    && forall k | 0 <= k < |names| :: results[k].FileResult? && results[k].file == names[k]
  }

  lemma NamesMore(results: seq<Message>, names: seq<File>, file: File, how: How)
    requires NamesOf(results, names)
    ensures NamesOf(results + [FileResult(file, how)], names + [file])
  {
    FileSetMore(results, [FileResult(file, how)]);
    assert FileSet([FileResult(file, how)]) == {file} by {
      assert [FileResult(file, how)][0].file == file;
    }
    assert Elements(names + [file]) == Elements(names) + {file};
  }

  lemma NextFileAdds(w: World, c: Configuration, pending: seq<File>, before: Progress, file: File)
    requires ReferencesExist(w)
    ensures exists how :: NextFile(w, c, pending, before, file).results == before.results + [FileResult(file, how)]
  {
  }

  /** One result for each name, in order. */
  lemma {:induction false} IncrementalFiles(w: World, c: Configuration, list: seq<TsConfig>, pending: seq<File>, names: seq<File>)
    requires ReferencesExist(w)
    ensures NamesOf(Incremental(w, c, list, pending, names).results, names)
  {
    if names != [] {
      var n := |names| - 1;
      var before := Incremental(w, c, list, pending, names[..n]);
      hide NextFile, NamesOf;
      IncrementalFiles(w, c, list, pending, names[..n]);
      NextFileAdds(w, c, pending, before, names[n]);
      var how :| NextFile(w, c, pending, before, names[n]).results == before.results + [FileResult(names[n], how)];
      NamesMore(before.results, names[..n], names[n], how);
      assert names == names[..n] + [names[n]];
    }
  }

  lemma NothingPlanned(w: World, c: Configuration, list: seq<TsConfig>)
    requires ReferencesExist(w)
    ensures Plan(w, c, list, list, []) == Results([], NoProgram)
    ensures forall cancelled :: Lists(w, c, list, list, [], 0, cancelled)
  {
    assert list[..0] == [];
    NothingLeft(w, list, 0, []);
  }

  lemma NothingLeftToDo(w: World, now: Moment)
    requires now.pending == []
    ensures Emits(w, now.messages, now.messages, now.clock, now.clock, Results(now.pending, NoProgram))
  {
  }

  lemma PendingShrinks(w: World, before: Moment, after: Moment, plan: seq<Message>)
    requires Ran(w, before, after, plan) && before.pending == []
    ensures after.pending == []
  {
  }

  lemma FollowedFirst(w: World, list: seq<TsConfig>, pending: seq<File>)
    ensures Followed(w, list, 0) == list && FromConfigs(w, list[..0], pending) == []
  {
  }

  lemma FollowedNext(w: World, list0: seq<TsConfig>, n: nat, pending: seq<File>)
    requires ReferencesExist(w) && n < |Followed(w, list0, n)|
    ensures var list, next := Followed(w, list0, n), Followed(w, list0, n + 1);
            var first := FromConfigs(w, list[..n], pending);
            && next == Discover(list, References(w, list[n])) && Grown(list, next, w) && list != []
            && (forall t | t in list :: t in next) && next[..n + 1] == list[..n + 1] == list[..n] + [list[n]]
            && FromConfigs(w, list[..n + 1], pending)
               == first + Results(PendingOf(Sources(w, list[n]), Excluding(pending, FileSet(first))), WithTsConfig(list[n]))
  {
    hide PendingOf, Excluding, FileSet, Sources, Discover, References;
    var list := Followed(w, list0, n);
    DiscoverGrows(w, list, References(w, list[n]));
    assert list[..n + 1][..n] == list[..n];
  }

  lemma IncrementalFirst(w: World, c: Configuration, list: seq<TsConfig>, pending: seq<File>, names: seq<File>)
    requires ReferencesExist(w)
    ensures Incremental(w, c, list, pending, names[..0]) == Progress([], list, {})
  {
  }

  lemma IncrementalNext(w: World, c: Configuration, list: seq<TsConfig>, pending: seq<File>, names: seq<File>, n: nat)
    requires ReferencesExist(w) && n < |names|
    ensures Incremental(w, c, list, pending, names[..n + 1])
            == NextFile(w, c, pending, Incremental(w, c, list, pending, names[..n]), names[n])
  {
    assert names[..n + 1][..n] == names[..n];
  }

  /** While there are names left, something is pending. */
  lemma NextIsPending(w: World, c: Configuration, list: seq<TsConfig>, begin: Moment, now: Moment, names: seq<File>, n: nat)
    requires ReferencesExist(w) && Distinct(begin.pending) && names == Filter(begin.pending, w.isJsTsFile) && n < |names|
    requires Ran(w, begin, now, Incremental(w, c, list, begin.pending, names[..n]).results)
    ensures names[n] in now.pending
  {
    var results := Incremental(w, c, list, begin.pending, names[..n]).results;
    var emitted := results[..now.clock - begin.clock];
    IncrementalFiles(w, c, list, begin.pending, names[..n]);
    FilterMembers(begin.pending, w.isJsTsFile);
    ExcludingMembers(begin.pending, FileSet(emitted));
    assert FileSet(emitted) <= FileSet(results);
    assert names[n] in begin.pending && names[n] !in names[..n];
  }

  /** What the passes that use TypeScript leave of the list. */
  lemma TypedLists(w: World, c: Configuration, list: seq<TsConfig>, found: seq<TsConfig>, begin: Moment, now: Moment, followed: nat)
    requires ReferencesExist(w) && Ran(w, begin, now, Typed(w, c, list, found, begin.pending))
    requires c.disableTypeChecking || !c.hasRules ==> found == list
    requires !c.disableTypeChecking && c.hasRules && c.sonarlint && !w.cancelled(now.clock) ==>
               found == Incremental(w, c, list, begin.pending, Filter(begin.pending, w.isJsTsFile)).list
    requires !c.disableTypeChecking && c.hasRules && !c.sonarlint ==>
               && followed <= |found| && found == Followed(w, list, followed)
               && (w.cancelled(now.clock) || followed == |found| || now.pending == [])
    ensures Lists(w, c, list, found, begin.pending, followed, w.cancelled(now.clock))
  {
    if !w.cancelled(now.clock) {
      RanToItsEnd(w, begin, now, Typed(w, c, list, found, begin.pending));
    }
  }

  lemma PlanRan(w: World, c: Configuration, list: seq<TsConfig>, found: seq<TsConfig>, begin: Moment, now: Moment,
                messages: seq<Message>, clock: nat, followed: nat)
    requires ReferencesExist(w) && Ran(w, begin, now, Typed(w, c, list, found, begin.pending))
    requires Emits(w, now.messages, messages, now.clock, clock, Results(now.pending, NoProgram))
    requires Lists(w, c, list, found, begin.pending, followed, w.cancelled(now.clock))
    ensures Emits(w, begin.messages, messages, begin.clock, clock, Plan(w, c, list, found, begin.pending))
    ensures |messages| - |begin.messages| == clock - begin.clock
    ensures Lists(w, c, list, found, begin.pending, followed, w.cancelled(clock))
  {
    hide Typed, Excluding, FileSet, ReferencesExist;
    var typed := Typed(w, c, list, found, begin.pending);
    assert typed[..|typed|] == typed;
    EmitsThen(w, begin.messages, now.messages, messages, begin.clock, now.clock, clock,
              typed, Results(now.pending, NoProgram), Plan(w, c, list, found, begin.pending));
  }
}
