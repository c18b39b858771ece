/**
  Project analysis: the passes over a shared set of pending files, the growing list of tsconfigs, and
  cancellation (packages/analysis/src/analyzeProject.ts, analyzeWithProgram.ts,
  analyzeWithIncrementalProgram.ts, analyzeWithoutProgram.ts and file-stores/tsconfigs.ts).

  The cancellation flag may be raised while a file is analysed, which is when other messages are handled;
  `clock` counts those moments and `world.cancelled` says at which of them the flag is up.
 */
module ProjectAnalysis {
  import opened Options
  import opened TsConfigs
  import opened ProjectPlan

  class TsConfigStore {
    var foundLookupTsConfigs: seq<TsConfig>
    var foundPropertyTsConfigs: seq<TsConfig>

    constructor (lookup: seq<TsConfig>, property: seq<TsConfig>)
      ensures foundLookupTsConfigs == lookup && foundPropertyTsConfigs == property
    {
      foundLookupTsConfigs, foundPropertyTsConfigs := lookup, property;
    }

    function GetTsConfigs(): seq<TsConfig>
      reads this
    {
      if foundPropertyTsConfigs != [] then foundPropertyTsConfigs else foundLookupTsConfigs
    }

    /** Appends to the list in use; when both are empty neither is in use. */
    method AddDiscoveredTsConfig(tsconfig: TsConfig)
      modifies this
      ensures GetTsConfigs() == old(GetTsConfigs())
                + (if old(GetTsConfigs()) == [] || tsconfig in old(GetTsConfigs()) then [] else [tsconfig])
    {
      if foundPropertyTsConfigs != [] {
        if tsconfig !in foundPropertyTsConfigs {
          foundPropertyTsConfigs := foundPropertyTsConfigs + [tsconfig];
        }
      } else if foundLookupTsConfigs != [] {
        if tsconfig !in foundLookupTsConfigs {
          foundLookupTsConfigs := foundLookupTsConfigs + [tsconfig];
        }
      }
    }
  }

  // ----- The passes -----

  class Analysis {
    const world: World
    const configuration: Configuration
    const store: TsConfigStore
    var pendingFiles: seq<File>
    var messages: seq<Message>
    var clock: nat

    predicate IsAnalysisCancelled()
      reads this
    {
      world.cancelled(clock)
    }

    function Now(): Moment
      reads this
    {
      Moment(messages, pendingFiles, clock)
    }

    constructor (files: seq<File>, world: World, configuration: Configuration, store: TsConfigStore)
      ensures pendingFiles == files && messages == [] && clock == 0
      ensures this.world == world && this.configuration == configuration && this.store == store
    {
      this.world, this.configuration, this.store := world, configuration, store;
      pendingFiles, messages, clock := files, [], 0;
    }

    /** `analyzeFile`: the file is started now; its result is emitted after the awaits inside. */
    method AnalyzeFile(file: File, how: How, tracked: bool)
      requires !IsAnalysisCancelled()
      modifies this
      ensures messages == old(messages) + [FileResult(file, how)] && clock == old(clock) + 1
      ensures pendingFiles == if tracked then Excluding(old(pendingFiles), {file}) else old(pendingFiles)
    {
      clock := clock + 1;
      if tracked {
        pendingFiles := Excluding(pendingFiles, {file});
      }
      messages := messages + [FileResult(file, how)];
    }

    /** Analyses a list of files with one program until it ends or the flag goes up. */
    method AnalyzeAll(list: seq<File>, how: How)
      modifies this
      ensures Ran(world, old(Now()), Now(), Results(list, how))
    {
      hide Ran, Excluding;
      ghost var plan := Results(list, how);
      RanNothing(world, Now());
      var i := 0;
      while i < |list|
        invariant i <= |list| && Ran(world, old(Now()), Now(), plan[..i])
      {
        if IsAnalysisCancelled() {
          RanStopped(world, old(Now()), Now(), plan[..i], plan);
          return;
        }
        ghost var now := Now();
        RanOnce(world, now, list[i], how);
        AnalyzeFile(list[i], how, true);
        assert plan[..i + 1] == plan[..i] + [FileResult(list[i], how)];
        RanThen(world, old(Now()), now, Now(), plan[..i], [FileResult(list[i], how)], plan[..i + 1]);
        i := i + 1;
      }
      assert plan[..i] == plan;
    }

    /** One tsconfig: its references are discovered, then its pending files are analysed with its program. */
    method AnalyzeFilesFromTsConfig(tsconfig: TsConfig, processed: set<TsConfig>)
      requires forall t | t in processed :: t in store.GetTsConfigs()
      modifies this, store
      ensures store.GetTsConfigs() == Discover(old(store.GetTsConfigs()), References(world, tsconfig))
      ensures Ran(world, old(Now()), Now(), Results(PendingOf(Sources(world, tsconfig), old(pendingFiles)), WithTsConfig(tsconfig)))
    {
      var program := world.program(tsconfig);
      if program.None? {
        RanNothing(world, Now());
        return;
      }
      var toAnalyze := PendingOf(program.value.sources, pendingFiles);
      var references := program.value.references;
      var i := 0;
      while i < |references|
        invariant i <= |references|
        invariant messages == old(messages) && pendingFiles == old(pendingFiles) && clock == old(clock)
        invariant store.GetTsConfigs() == Discover(old(store.GetTsConfigs()), references[..i])
        invariant forall t | t in processed :: t in store.GetTsConfigs()
        modifies store
      {
        if references[i] !in processed {
          store.AddDiscoveredTsConfig(references[i]);
        }
        assert references[..i + 1] == references[..i] + [references[i]];
        i := i + 1;
      }
      assert references[..i] == references;
      AnalyzeAll(toAnalyze, WithTsConfig(tsconfig));
    }

    /** Follows the list of tsconfigs while it grows, then analyses the JS/TS files that no tsconfig covered. */
    method AnalyzeWithProgram() returns (ghost followed: nat)
      requires ValidWorld(world)
      modifies this, store
      ensures followed <= |store.GetTsConfigs()| && store.GetTsConfigs() == Followed(world, old(store.GetTsConfigs()), followed)
      ensures Ran(world, old(Now()), Now(), FromPrograms(world, configuration, store.GetTsConfigs(), old(pendingFiles)))
      ensures !IsAnalysisCancelled() ==> followed == |store.GetTsConfigs()| || pendingFiles == []
    {
      hide Ran, FromConfigs, FromOrphans, Followed, GroupsPartition, SourcesAreDistinct;
      followed := FollowTsConfigs();
      ghost var now := Now();
      ghost var covered := FromConfigs(world, store.GetTsConfigs(), old(pendingFiles));
      if IsAnalysisCancelled() {
        RanStopped(world, old(Now()), now, covered, FromPrograms(world, configuration, store.GetTsConfigs(), old(pendingFiles)));
        return;
      }
      RanToItsEnd(world, old(Now()), now, covered);
      if configuration.createTSProgramForOrphanFiles {
        AnalyzeFilesFromEntryPoint();
        RanThen(world, old(Now()), now, Now(), covered, FromOrphans(world, now.pending), covered + FromOrphans(world, now.pending));
        if now.pending == [] {
          PendingShrinks(world, now, Now(), FromOrphans(world, now.pending));
        }
      } else {
        assert covered + [] == covered;
      }
    }

    /** The loop over the live list of tsconfigs; it ends with the list, or when nothing is pending. */
    method FollowTsConfigs() returns (ghost followed: nat)
      requires ValidWorld(world)
      modifies this, store
      ensures followed <= |store.GetTsConfigs()| && store.GetTsConfigs() == Followed(world, old(store.GetTsConfigs()), followed)
      ensures Ran(world, old(Now()), Now(), FromConfigs(world, store.GetTsConfigs(), old(pendingFiles)))
      ensures !IsAnalysisCancelled() ==> followed == |store.GetTsConfigs()| || pendingFiles == []
    {
      hide Ran, FromConfigs, Followed, Discover, Excluding;
      var processed: set<TsConfig> := {};
      var i := 0;
      RanNothing(world, Now());
      FollowedFirst(world, store.GetTsConfigs(), pendingFiles);
      while i < |store.GetTsConfigs()|
        invariant i <= |store.GetTsConfigs()| && store.GetTsConfigs() == Followed(world, old(store.GetTsConfigs()), i)
        invariant processed == Elements(store.GetTsConfigs()[..i])
        invariant Ran(world, old(Now()), Now(), FromConfigs(world, store.GetTsConfigs()[..i], old(pendingFiles)))
        decreases |Unlisted(world, store.GetTsConfigs())|, |store.GetTsConfigs()| - i
      {
        ghost var list, now := store.GetTsConfigs(), Now();
        ghost var first := FromConfigs(world, list[..i], old(pendingFiles));
        FromConfigsPrefix(world, list, i, old(pendingFiles));
        if IsAnalysisCancelled() {
          RanStopped(world, old(Now()), now, first, FromConfigs(world, list, old(pendingFiles)));
          return i;
        }
        RanToItsEnd(world, old(Now()), now, first);
        if pendingFiles == [] {
          NothingLeft(world, list, i, old(pendingFiles));
          return i;
        }
        var tsconfig := store.GetTsConfigs()[i];
        FollowedNext(world, old(store.GetTsConfigs()), i, old(pendingFiles));
        if tsconfig !in processed {
          processed := processed + {tsconfig};
          AnalyzeFilesFromTsConfig(tsconfig, processed);
          GrowingEnds(list, store.GetTsConfigs(), world);
          assert store.GetTsConfigs()[..i + 1] == list[..i + 1] == list[..i] + [tsconfig];
          RanThen(world, old(Now()), now, Now(), first, Results(PendingOf(Sources(world, tsconfig), now.pending), WithTsConfig(tsconfig)),
                  FromConfigs(world, list[..i + 1], old(pendingFiles)));
        } else {
          SeenBefore(world, old(store.GetTsConfigs()), i, old(pendingFiles));
          assert list[..i + 1] == list[..i] + [tsconfig];
        }
        i := i + 1;
      }
      assert store.GetTsConfigs()[..i] == store.GetTsConfigs();
      return i;
    }

    /** The pending JS/TS files, in groups of one library each, with one program for each group. */
    method AnalyzeFilesFromEntryPoint()
      modifies this
      ensures Ran(world, old(Now()), Now(), FromOrphans(world, old(pendingFiles)))
    {
      hide Ran, Results;
      RanNothing(world, Now());
      var rootNames := Filter(pendingFiles, world.isJsTsFile);
      if rootNames == [] {
        return;
      }
      var groups := world.groups(rootNames);
      var i := 0;
      while i < |groups|
        invariant i <= |groups| && Ran(world, old(Now()), Now(), FromGroups(groups[..i]))
      {
        ghost var now := Now();
        FromGroupsPrefix(groups, i);
        if IsAnalysisCancelled() {
          RanStopped(world, old(Now()), now, FromGroups(groups[..i]), FromGroups(groups));
          return;
        }
        AnalyzeAll(groups[i], WithOrphans(groups[i]));
        assert groups[..i + 1][..i] == groups[..i];
        RanThen(world, old(Now()), now, Now(), FromGroups(groups[..i]), Results(groups[i], WithOrphans(groups[i])),
                FromGroups(groups[..i + 1]));
        i := i + 1;
      }
      assert groups[..i] == groups;
    }

    /** The tsconfig to try next. */
    method PickBestMatchTsConfig(tsconfigs: seq<TsConfig>, file: File) returns (best: Option<TsConfig>)
      ensures best.None? <==> tsconfigs == []
      ensures best.Some? ==> IsBestMatch(world, tsconfigs, file, best.value)
    {
      best := None;
      ghost var at := 0;
      for i := 0 to |tsconfigs|
        invariant best.None? ==> forall j | 0 <= j < i :: !(tsconfigs[j] <= file)
        invariant best.Some? ==> at < i && tsconfigs[at] == best.value && BestMatchAt(world, tsconfigs[..i], file, at)
      {
        var tsconfig := tsconfigs[i];
        if tsconfig <= file && (best.None? || world.dirnameLength(best.value) < world.dirnameLength(tsconfig)) {
          best, at := Some(tsconfig), i;
        }
      }
      assert tsconfigs[..|tsconfigs|] == tsconfigs;
      if best.None? && tsconfigs != [] {
        best := Some(tsconfigs[0]);
      }
    }

    /** The search for a tsconfig that contains `file`, with the root names of the configs it tried. */
    method ClosestTsConfig(file: File) returns (found: Option<TsConfig>, rootNames: set<File>, ghost search: Search)
      requires ReferencesExist(world)
      modifies store
      ensures search == Closest(world, old(store.GetTsConfigs()), [], [], file)
      ensures found == search.found && store.GetTsConfigs() == search.list && rootNames == CoveredBy(world, search.tried)
      ensures Trials(world, search.lists, search.tried, file) && FindsFirst(world, search, file)
    {
      hide Trials, Grown, Discover, Excluding, IsBestMatch, FindsFirst, Contains, CoveredBy, References;
      var processed: set<TsConfig> := {};
      rootNames := {};
      NothingTried(world, store.GetTsConfigs(), file);
      ghost var tried: seq<TsConfig>, lists: seq<seq<TsConfig>> := [], [];
      search := Closest(world, store.GetTsConfigs(), [], [], file);
      ClosestIsFirst(world, store.GetTsConfigs(), [], [], file);
      while true
        invariant processed == Elements(tried) && rootNames == CoveredBy(world, tried)
        invariant search == Closest(world, store.GetTsConfigs(), tried, lists, file)
        decreases |Unlisted(world, store.GetTsConfigs())|, |Untried(store.GetTsConfigs(), tried)|
      {
        ghost var list := store.GetTsConfigs();
        var candidates := Excluding(store.GetTsConfigs(), processed);
        var tsconfig := PickBestMatchTsConfig(candidates, file);
        if tsconfig.None? {
          return None, rootNames, search;
        }
        BestMatchIsUnique(world, candidates, file, tsconfig.value, BestMatch(world, candidates, file).value);
        OneTry(world, list, tried, file, tsconfig.value);
        processed := processed + {tsconfig.value};
        var contains, names := TryTsConfig(tsconfig.value, file);
        rootNames := rootNames + names;
        CoveredMore(world, tried, tsconfig.value);
        tried, lists := tried + [tsconfig.value], lists + [list];
        if contains {
          return tsconfig, rootNames, search;
        }
      }
    }

    /** One config of the search: its references are discovered, and it may contain the file. */
    method TryTsConfig(tsconfig: TsConfig, file: File) returns (contains: bool, rootNames: set<File>)
      modifies store
      ensures store.GetTsConfigs() == Discover(old(store.GetTsConfigs()), References(world, tsconfig))
      ensures contains == Contains(world, tsconfig, file) && rootNames == Elements(RootNames(world, tsconfig))
    {
      var program := world.program(tsconfig);
      if program.None? {
        return false, {};
      }
      DiscoverAll(program.value.references);
      return file in program.value.rootNames, Elements(program.value.rootNames);
    }

    method DiscoverAll(references: seq<TsConfig>)
      modifies store
      ensures store.GetTsConfigs() == Discover(old(store.GetTsConfigs()), references)
    {
      for i := 0 to |references|
        invariant store.GetTsConfigs() == Discover(old(store.GetTsConfigs()), references[..i])
      {
        store.AddDiscoveredTsConfig(references[i]);
        assert references[..i + 1] == references[..i] + [references[i]];
      }
      assert references[..|references|] == references;
    }

    /** The JS/TS files one by one, each with a cached program, the closest tsconfig's, or that of its orphans. */
    method AnalyzeWithIncrementalProgram()
      requires ValidWorld(world) && Distinct(pendingFiles)
      modifies this, store
      ensures var progress := Incremental(world, configuration, old(store.GetTsConfigs()), old(pendingFiles),
                                          Filter(old(pendingFiles), world.isJsTsFile));
              && Ran(world, old(Now()), Now(), progress.results)
              && (!IsAnalysisCancelled() ==> store.GetTsConfigs() == progress.list)
    {
      hide Ran, Incremental, NextFile, Closest, CoveredBy, Fallback, Excluding, GroupsPartition, Distinct;
      ghost var list := store.GetTsConfigs();
      RanNothing(world, Now());
      var names := Filter(pendingFiles, world.isJsTsFile);
      var covered: set<File> := {};
      var i := 0;
      IncrementalFirst(world, configuration, list, pendingFiles, names);
      while i < |names|
        invariant i <= |names|
        invariant var progress := Incremental(world, configuration, list, old(pendingFiles), names[..i]);
                  && Ran(world, old(Now()), Now(), progress.results)
                  && store.GetTsConfigs() == progress.list && covered == progress.covered
      {
        ghost var now := Now();
        ghost var before := Incremental(world, configuration, list, old(pendingFiles), names[..i]);
        ghost var after := Incremental(world, configuration, list, old(pendingFiles), names[..i + 1]);
        if IsAnalysisCancelled() {
          IncrementalPrefix(world, configuration, list, old(pendingFiles), names, i);
          RanStopped(world, old(Now()), now, before.results, Incremental(world, configuration, list, old(pendingFiles), names).results);
          return;
        }
        RanToItsEnd(world, old(Now()), now, before.results);
        IncrementalNext(world, configuration, list, old(pendingFiles), names, i);
        var how;
        how, covered := ProgramFor(names[i], covered, before, old(pendingFiles));
        RanOnce(world, now, names[i], how);
        AnalyzeFile(names[i], how, true);
        RanThen(world, old(Now()), now, Now(), before.results, [FileResult(names[i], how)], after.results);
        i := i + 1;
        if i < |names| {
          NextIsPending(world, configuration, list, old(Now()), Now(), names, i);
        }
        if pendingFiles == [] {
          break;
        }
      }
      assert names[..i] == names || IsAnalysisCancelled();
    }

    /** The program for a file: a cached one that need not be updated, the closest tsconfig's, or that of its orphans. */
    method ProgramFor(file: File, covered: set<File>, ghost before: Progress, ghost pending: seq<File>)
      returns (how: How, covered': set<File>)
      requires ReferencesExist(world) && store.GetTsConfigs() == before.list && covered == before.covered
      requires pendingFiles == Excluding(pending, FileSet(before.results))
      modifies store
      ensures NextFile(world, configuration, pending, before, file)
              == Progress(before.results + [FileResult(file, how)], store.GetTsConfigs(), covered')
    {
      if world.cached(file).Unchanged? {
        return WithCached, covered;
      }
      var found, rootNames, search := ClosestTsConfig(file);
      covered' := covered + rootNames;
      how := if found.Some? then WithTsConfig(found.value)
             else Fallback(world, configuration, pendingFiles, covered', file);
    }

    /** What is left, without a program; the pending set is iterated and not changed. */
    method AnalyzeWithoutProgram()
      modifies this
      ensures Emits(world, old(messages), messages, old(clock), clock, Results(old(pendingFiles), NoProgram))
    {
      ghost var plan := Results(pendingFiles, NoProgram);
      var i := 0;
      while i < |pendingFiles|
        invariant i <= |pendingFiles| && pendingFiles == old(pendingFiles) && clock == old(clock) + i
        invariant Emits(world, old(messages), messages, old(clock), clock, plan[..i])
      {
        if IsAnalysisCancelled() {
          return;
        }
        AnalyzeFile(pendingFiles[i], NoProgram, false);
        assert plan[..i + 1] == plan[..i] + [FileResult(pendingFiles[i], NoProgram)];
        i := i + 1;
      }
      assert plan[..i] == plan;
    }

    /**
      A project analysis: its plan, carried out until it ends or the flag goes up at the start of a file, and
      then exactly one `meta` or `cancelled`.  The tsconfigs it lists at the end are those it followed.
     */
    method AnalyzeProject() returns (ghost followed: nat)
      requires ValidWorld(world) && messages == [] && clock == 0 && Distinct(pendingFiles)
      modifies this, store
      ensures var plan := Plan(world, configuration, old(store.GetTsConfigs()), store.GetTsConfigs(), old(pendingFiles));
              && |messages| == clock + 1 && Emits(world, [], messages[..clock], 0, clock, plan)
              && messages == messages[..clock] + [if IsAnalysisCancelled() then Cancelled else Meta]
      ensures Lists(world, configuration, old(store.GetTsConfigs()), store.GetTsConfigs(), old(pendingFiles), followed,
                    IsAnalysisCancelled())
    {
      hide Ran, Emits, Lists, Plan, Results, FromPrograms, Incremental, Followed, Excluding, Filter, GroupsPartition, SourcesAreDistinct;
      followed := 0;
      ghost var list, begin := store.GetTsConfigs(), Now();
      NothingPlanned(world, configuration, list);
      if pendingFiles != [] {
        RanNothing(world, begin);
        if configuration.disableTypeChecking {
        } else if configuration.sonarlint && configuration.hasRules {
          AnalyzeWithIncrementalProgram();
        } else if configuration.hasRules {
          followed := AnalyzeWithProgram();
        }
        ghost var now := Now();
        TypedLists(world, configuration, list, store.GetTsConfigs(), begin, now, followed);
        if pendingFiles != [] {
          AnalyzeWithoutProgram();
        } else {
          NothingLeftToDo(world, now);
        }
        PlanRan(world, configuration, list, store.GetTsConfigs(), begin, now, messages, clock, followed);
      } else {
        RanNothing(world, begin);
        NothingLeftToDo(world, begin);
      }
      ghost var results := messages;
      messages := messages + [if IsAnalysisCancelled() then Cancelled else Meta];
      assert messages[..clock] == results;
    }
  }
}
