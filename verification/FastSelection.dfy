/** Which tests an edit selects. */
module FastSelection {
  import opened ImportGraph

  /** How the selection classifies paths; the patterns themselves are parameters. */
  datatype Rules = Rules(
    isConfig: Path -> bool,
    isPackageJson: Path -> bool,
    inSourceRoot: Path -> bool,
    packageDir: Path -> Path        // the directory of a package.json, with its trailing slash
  )

  datatype Reason = Unmappable(path: Path) | NoTestReaches(path: Path)

  datatype Selection =
    | Fallback(reason: Reason)      // every test runs
    | Selected(tests: set<Path>)

  /** A changed path that cannot be mapped to tests. */
  predicate UnknownChange(repo: Repo, rules: Rules, path: Path) {
    || path !in repo.files
    || rules.isConfig(path)
    || !(rules.isPackageJson(path) || (repo.isSource(path) && rules.inSourceRoot(path)))
  }

  predicate InDir(path: Path, dir: Path) {
    dir <= path
  }

  /** What a changed source stands for: itself, or every module of its package. */
  predicate Touches(rules: Rules, source: Path, module_: Path) {
    if rules.isPackageJson(source) then InDir(module_, rules.packageDir(source)) else module_ == source
  }

  /** The test's forward import closure holds something the source stands for. */
  ghost predicate AffectedBy(repo: Repo, rules: Rules, test: Path, source: Path) {
    exists module_ :: Reaches(repo, test, module_) && Touches(rules, source, module_)
  }

  ghost predicate ReachesUncertain(repo: Repo, test: Path) {
    exists module_ :: Reaches(repo, test, module_) && Uncertain(repo, module_)
  }

  /** The tests one changed source reaches. */
  method TestsReaching(graph: Graph, rules: Rules, tests: set<Path>, source: Path) returns (reached: set<Path>)
    requires graph.Covers(tests) && Resolves(graph.repo) && tests <= Universe(graph.repo)
    ensures forall test :: test in reached <==> test in tests && AffectedBy(graph.repo, rules, test, source)
    ensures reached == {} <==> Unreached(graph.repo, rules, tests, source)
  {
    hide AffectedBy, Graph.Covers, Resolves;
    var seeds := if (rules.isPackageJson)(source)
                 then set node | node in graph.nodes && InDir(node, (rules.packageDir)(source))
                 else {source};
    var hits := graph.ImportersOf(seeds, tests);
    AffectedTests(graph, rules, tests, source, seeds, hits);
    reached := hits * tests;
    if reached == {} {
      assert forall test | test in tests :: test !in reached;
    } else {
      var test :| test in reached;
    }
  }

  /** The tests that reach one of the changed sources, or the first source that none reaches. */
  method MapSources(repo: Repo, rules: Rules, tests: set<Path>, sources: seq<Path>) returns (result: Selection)
    requires Resolves(repo) && tests <= Universe(repo)
    ensures result.Fallback? <==> exists source :: source in sources && Unreached(repo, rules, tests, source)
    ensures result.Fallback? ==> result.reason.NoTestReaches? && result.reason.path in sources
                                 && Unreached(repo, rules, tests, result.reason.path)
    ensures result.Selected? ==> forall test :: test in result.tests <==>
              test in tests && sources != [] &&
              (ReachesUncertain(repo, test) || AffectedBySome(repo, rules, test, sources))
  {
    hide AffectedBy, ReachesUncertain, Graph.Covers, Unreached, Resolves;
    if sources == [] {
      return Selected({});
    }
    var graph := BuildGraph(repo, tests);
    var uncertain := graph.ImportersOf(graph.uncertain, tests);
    UncertainTests(graph, tests, uncertain);
    var selected := uncertain * tests;
    for k := 0 to |sources|
      invariant graph.Covers(tests) && graph.repo == repo
      invariant forall j | 0 <= j < k :: !Unreached(repo, rules, tests, sources[j])
      invariant forall test :: test in selected <==>
                  test in tests && (ReachesUncertain(repo, test) || AffectedBySome(repo, rules, test, sources[..k]))
    {
      var reached := TestsReaching(graph, rules, tests, sources[k]);
      if reached == {} {
        return Fallback(NoTestReaches(sources[k]));
      }
      assert sources[..k + 1] == sources[..k] + [sources[k]];
      selected := selected + reached;
    }
    assert sources[..|sources|] == sources;
    result := Selected(selected);
  }

  ghost predicate AffectedBySome(repo: Repo, rules: Rules, test: Path, sources: seq<Path>) {
    exists source :: source in sources && AffectedBy(repo, rules, test, source)
  }

  ghost predicate Unreached(repo: Repo, rules: Rules, tests: set<Path>, source: Path) {
    forall test | test in tests :: !AffectedBy(repo, rules, test, source)
  }

  lemma TestIsNode(graph: Graph, tests: set<Path>, test: Path)
    requires graph.Covers(tests) && test in tests
    ensures test in graph.nodes
  {
    ReachesRefl(graph.repo, test);
    assert ReachedBy(graph.repo, tests, test);
  }

  lemma ReachedIsNode(graph: Graph, tests: set<Path>, test: Path, path: Path)
    requires graph.Covers(tests) && test in tests && Reaches(graph.repo, test, path)
    ensures path in graph.nodes
  {
    assert ReachedBy(graph.repo, tests, path);
  }

  lemma UncertainTests(graph: Graph, tests: set<Path>, all: set<Path>)
    requires graph.Covers(tests)
    requires forall path :: path in all <==>
               path in graph.uncertain || (path in graph.nodes && ReachesSome(graph.repo, path, graph.uncertain))
    ensures forall test | test in tests :: test in all <==> ReachesUncertain(graph.repo, test)
  {
    hide Reaches, ReachedBy;
    forall test | test in tests
      ensures test in all <==> ReachesUncertain(graph.repo, test)
    {
      TestIsNode(graph, tests, test);
      ReachesRefl(graph.repo, test);
      if ReachesUncertain(graph.repo, test) {
        var module_ :| Reaches(graph.repo, test, module_) && Uncertain(graph.repo, module_);
        ReachedIsNode(graph, tests, test, module_);
        assert module_ in graph.uncertain;
      }
    }
  }

  lemma AffectedTests(graph: Graph, rules: Rules, tests: set<Path>, source: Path, seeds: set<Path>, all: set<Path>)
    requires graph.Covers(tests)
    requires seeds == if rules.isPackageJson(source)
                      then set node | node in graph.nodes && InDir(node, rules.packageDir(source))
                      else {source}
    requires forall path :: path in all <==>
               path in seeds || (path in graph.nodes && ReachesSome(graph.repo, path, seeds))
    ensures forall test | test in tests :: test in all <==> AffectedBy(graph.repo, rules, test, source)
  {
    hide Reaches, ReachedBy, InDir;
    forall test | test in tests
      ensures test in all <==> AffectedBy(graph.repo, rules, test, source)
    {
      TestIsNode(graph, tests, test);
      ReachesRefl(graph.repo, test);
      if test in all && test !in seeds {
        var seed :| seed in seeds && Reaches(graph.repo, test, seed);
        assert Touches(rules, source, seed);
      }
      if AffectedBy(graph.repo, rules, test, source) {
        var module_ :| Reaches(graph.repo, test, module_) && Touches(rules, source, module_);
        ReachedIsNode(graph, tests, test, module_);
        assert module_ in seeds;
      }
    }
  }

  /** The changed paths that count: those that are not excluded. */
  ghost predicate Counts(changed: seq<Path>, excluded: set<Path>, path: Path) {
    path in changed && path !in excluded
  }

  /** A changed, counted path that is no test. */
  ghost predicate ChangedSource(changed: seq<Path>, excluded: set<Path>, tests: set<Path>, path: Path) {
    Counts(changed, excluded, path) && path !in tests
  }

  // ---- What the selection amounts to, by chains of imports ----

  /** A chain of imports that starts with the test: each module is a source that imports the next one. */
  ghost predicate Loads(repo: Repo, test: Path, chain: seq<Path>) {
    && |chain| > 0 && chain[0] == test
    && forall k {:trigger chain[k]} :: 0 <= k < |chain| - 1 ==>
         repo.isSource(chain[k]) && chain[k + 1] in repo.deps(chain[k])
  }

  /** The changed path is this module, or the package.json of the directory that holds it. */
  predicate Concerns(rules: Rules, path: Path, module_: Path) {
    (rules.isPackageJson(path) && rules.packageDir(path) <= module_)
    || (!rules.isPackageJson(path) && path == module_)
  }

  /** The test loads a module that the changed path concerns. */
  ghost predicate LoadsChange(repo: Repo, rules: Rules, test: Path, path: Path) {
    exists chain :: Loads(repo, test, chain) && Concerns(rules, path, chain[|chain| - 1])
  }

  /** The test loads a source with an import that cannot be named. */
  ghost predicate LoadsComputed(repo: Repo, test: Path) {
    exists chain :: Loads(repo, test, chain)
                    && repo.isSource(chain[|chain| - 1]) && repo.computed(chain[|chain| - 1])
  }

  /** The path is gone, configures everything, or is neither a package.json nor a source under a source root. */
  predicate Unsafe(repo: Repo, rules: Rules, path: Path) {
    || path !in repo.files
    || rules.isConfig(path)
    || (!rules.isPackageJson(path) && !repo.isSource(path))
    || (!rules.isPackageJson(path) && !rules.inSourceRoot(path))
  }

  /** Some change that counts is unsafe, or is a source that no test loads. */
  ghost predicate MustRunAll(repo: Repo, rules: Rules, tests: set<Path>, excluded: set<Path>, changed: seq<Path>) {
    exists path :: path in changed && path !in excluded
      && (Unsafe(repo, rules, path)
          || (path !in tests && forall test :: test in tests ==> !LoadsChange(repo, rules, test, path)))
  }

  /** The test changed, or some source changed and the test loads it or something that could load anything. */
  ghost predicate MustRun(repo: Repo, rules: Rules, tests: set<Path>, excluded: set<Path>, changed: seq<Path>,
                          test: Path) {
    || (test in changed && test !in excluded)
    || exists path :: path in changed && path !in excluded && path !in tests
         && (LoadsChange(repo, rules, test, path) || LoadsComputed(repo, test))
  }

  lemma LoadsIsImportChain(repo: Repo, test: Path, chain: seq<Path>)
    ensures Loads(repo, test, chain) <==> |chain| > 0 && ImportChain(repo, chain, test, chain[|chain| - 1])
  {
    if Loads(repo, test, chain) {
      forall k {:trigger chain[k]} | 0 <= k < |chain| - 1 ensures chain[k + 1] in Deps(repo, chain[k]) {
        assert repo.isSource(chain[k]);
      }
    }
    if |chain| > 0 && ImportChain(repo, chain, test, chain[|chain| - 1]) {
      forall k {:trigger chain[k]} | 0 <= k < |chain| - 1
        ensures repo.isSource(chain[k]) && chain[k + 1] in repo.deps(chain[k])
      {
        assert chain[k + 1] in Deps(repo, chain[k]);
      }
    }
  }

  lemma ConcernsIsTouches(rules: Rules, path: Path, module_: Path)
    ensures Concerns(rules, path, module_) <==> Touches(rules, path, module_)
  {
  }

  lemma LoadsChangeIsAffected(repo: Repo, rules: Rules, test: Path, path: Path)
    ensures LoadsChange(repo, rules, test, path) <==> AffectedBy(repo, rules, test, path)
  {
    hide Concerns, Touches, ImportChain;
    if LoadsChange(repo, rules, test, path) {
      var chain :| Loads(repo, test, chain) && Concerns(rules, path, chain[|chain| - 1]);
      LoadsIsImportChain(repo, test, chain);
      ConcernsIsTouches(rules, path, chain[|chain| - 1]);
      assert Reaches(repo, test, chain[|chain| - 1]);
    }
    if AffectedBy(repo, rules, test, path) {
      var module_ :| Reaches(repo, test, module_) && Touches(rules, path, module_);
      var chain :| ImportChain(repo, chain, test, module_);
      ChainEnds(repo, chain, test, module_);
      LoadsIsImportChain(repo, test, chain);
      ConcernsIsTouches(rules, path, module_);
    }
  }

  lemma LoadsComputedIsUncertain(repo: Repo, test: Path)
    ensures LoadsComputed(repo, test) <==> ReachesUncertain(repo, test)
  {
    hide ImportChain;
    if LoadsComputed(repo, test) {
      var chain :| Loads(repo, test, chain)
                   && repo.isSource(chain[|chain| - 1]) && repo.computed(chain[|chain| - 1]);
      LoadsIsImportChain(repo, test, chain);
      assert Reaches(repo, test, chain[|chain| - 1]);
    }
    if ReachesUncertain(repo, test) {
      var module_ :| Reaches(repo, test, module_) && Uncertain(repo, module_);
      var chain :| ImportChain(repo, chain, test, module_);
      ChainEnds(repo, chain, test, module_);
      LoadsIsImportChain(repo, test, chain);
    }
  }

  lemma ChainEnds(repo: Repo, chain: seq<Path>, a: Path, b: Path)
    requires ImportChain(repo, chain, a, b)
    ensures |chain| > 0 && chain[|chain| - 1] == b
  {
  }

  lemma UnsafeIsUnknown(repo: Repo, rules: Rules, path: Path)
    ensures Unsafe(repo, rules, path) <==> UnknownChange(repo, rules, path)
  {
  }

  lemma UnloadedIsUnreached(repo: Repo, rules: Rules, tests: set<Path>, path: Path)
    ensures Unreached(repo, rules, tests, path)
       <==> forall test :: test in tests ==> !LoadsChange(repo, rules, test, path)
  {
    hide LoadsChange, AffectedBy;
    forall test ensures LoadsChange(repo, rules, test, path) <==> AffectedBy(repo, rules, test, path) {
      LoadsChangeIsAffected(repo, rules, test, path);
    }
  }

  lemma RunAllMeans(repo: Repo, rules: Rules, tests: set<Path>, excluded: set<Path>, changed: seq<Path>)
    ensures MustRunAll(repo, rules, tests, excluded, changed) <==>
              (exists path :: Counts(changed, excluded, path) && UnknownChange(repo, rules, path)) ||
              (exists path :: ChangedSource(changed, excluded, tests, path) && Unreached(repo, rules, tests, path))
  {
    hide Unsafe, UnknownChange, LoadsChange, Unreached;
    forall path
      ensures Unsafe(repo, rules, path) <==> UnknownChange(repo, rules, path)
      ensures Unreached(repo, rules, tests, path)
         <==> forall test :: test in tests ==> !LoadsChange(repo, rules, test, path)
    {
      UnsafeIsUnknown(repo, rules, path);
      UnloadedIsUnreached(repo, rules, tests, path);
    }
    if path :| Counts(changed, excluded, path) && UnknownChange(repo, rules, path) {
      assert Unsafe(repo, rules, path);
    }
    if path :| ChangedSource(changed, excluded, tests, path) && Unreached(repo, rules, tests, path) {
      assert path in changed && path !in excluded;
    }
  }

  lemma RunMeans(repo: Repo, rules: Rules, tests: set<Path>, excluded: set<Path>, changed: seq<Path>, test: Path)
    ensures MustRun(repo, rules, tests, excluded, changed, test) <==>
              (Counts(changed, excluded, test) ||
               (exists path :: ChangedSource(changed, excluded, tests, path) && AffectedBy(repo, rules, test, path)) ||
               ((exists path :: ChangedSource(changed, excluded, tests, path)) && ReachesUncertain(repo, test)))
  {
    hide LoadsChange, AffectedBy, LoadsComputed, ReachesUncertain;
    forall path ensures LoadsChange(repo, rules, test, path) <==> AffectedBy(repo, rules, test, path) {
      LoadsChangeIsAffected(repo, rules, test, path);
    }
    LoadsComputedIsUncertain(repo, test);
    if path :| ChangedSource(changed, excluded, tests, path)
               && (AffectedBy(repo, rules, test, path) || ReachesUncertain(repo, test)) {
      assert path in changed && path !in excluded && path !in tests;
    }
  }

  /**
   Every test runs exactly when some change cannot be mapped safely: it is gone, configures everything, is of
   no known kind, or is a source that no test loads.  Otherwise a test is selected exactly when it changed
   itself or, given a changed source, it loads one, a module of a changed package, or something that could
   load anything.
   */
  method SelectFastTests(repo: Repo, rules: Rules, tests: set<Path>, excluded: set<Path>, changed: seq<Path>)
      returns (result: Selection)
    requires Resolves(repo) && tests <= repo.files
    ensures result.Fallback? <==> MustRunAll(repo, rules, tests, excluded, changed)
    ensures result.Fallback? ==> result.reason.path in changed && result.reason.path !in excluded
    ensures result.Fallback? && result.reason.Unmappable? ==> Unsafe(repo, rules, result.reason.path)
    ensures result.Fallback? && result.reason.NoTestReaches? ==>
              result.reason.path !in tests && !Unsafe(repo, rules, result.reason.path)
              && forall test :: test in tests ==> !LoadsChange(repo, rules, test, result.reason.path)
    ensures result.Selected? ==> forall test :: test in result.tests <==>
              test in tests && MustRun(repo, rules, tests, excluded, changed, test)
  {
    RunAllMeans(repo, rules, tests, excluded, changed);
    forall test { RunMeans(repo, rules, tests, excluded, changed, test); }
    hide MustRunAll, MustRun, Unsafe, LoadsChange, Resolves;
    hide AffectedBy, ReachesUncertain, Unreached, UnknownChange;
    var reasons, sources := {}, [];
    for k := 0 to |changed|
      invariant forall path | Counts(changed[..k], excluded, path) :: !UnknownChange(repo, rules, path)
      invariant forall path :: path in sources <==> ChangedSource(changed[..k], excluded, tests, path)
      invariant forall path :: path in reasons <==> Counts(changed[..k], excluded, path) && path in tests
    {
      assert changed[..k + 1] == changed[..k] + [changed[k]];
      var path := changed[k];
      if path !in excluded {
        if UnknownChange(repo, rules, path) {
          assert Counts(changed, excluded, path);
          UnsafeIsUnknown(repo, rules, path);
          return Fallback(Unmappable(path));
        }
        if path in tests {
          reasons := reasons + {path};
        } else {
          sources := sources + [path];
        }
      }
    }
    assert changed[..|changed|] == changed;
    result := MapSources(repo, rules, tests, sources);
    if result.Fallback? {
      UnsafeIsUnknown(repo, rules, result.reason.path);
      UnloadedIsUnreached(repo, rules, tests, result.reason.path);
      assert ChangedSource(changed, excluded, tests, result.reason.path);
    } else {
      assert sources != [] <==> exists path :: ChangedSource(changed, excluded, tests, path) by {
        if sources != [] {
          assert sources[0] in sources;
        }
      }
      result := Selected(result.tests + reasons);
    }
  }
}
