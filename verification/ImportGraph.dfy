/** The import graph of the selected tests, and the backward closure over it. */
module ImportGraph {

  type Path = string

  /**
   What the checkout holds: tracked files, and what scanning a module gives. `deps` are the paths its
   specifiers resolve to, `computed` says that some import of it cannot be named or parsed.
   */
  datatype Repo = Repo(
    files: set<Path>,
    markers: set<Path>,              // `<dir>/` for workspace imports that name no source file
    deps: Path -> seq<Path>,
    computed: Path -> bool,
    isSource: Path -> bool
  )

  function Universe(repo: Repo): set<Path> {
    repo.files + repo.markers
  }

  /** What a module imports; other files import nothing. */
  function Deps(repo: Repo, path: Path): seq<Path> {
    if repo.isSource(path) then repo.deps(path) else []
  }

  /** Every specifier resolves to a tracked file or a package marker. */
  ghost predicate Resolves(repo: Repo) {
    forall path, dep | path in Universe(repo) && dep in Deps(repo, path) :: dep in Universe(repo)
  }

  predicate Uncertain(repo: Repo, path: Path) {
    repo.isSource(path) && repo.computed(path)
  }

  // ---- Reachability, with no graph at all ----

  ghost predicate ImportChain(repo: Repo, chain: seq<Path>, a: Path, b: Path) {
    && chain != [] && chain[0] == a && chain[|chain| - 1] == b
    && (forall k {:trigger chain[k]} | 0 <= k < |chain| - 1 :: chain[k + 1] in Deps(repo, chain[k]))
  }

  /** `b` is in the import closure of `a`. */
  ghost predicate Reaches(repo: Repo, a: Path, b: Path) {
    exists chain :: ImportChain(repo, chain, a, b)
  }

  lemma ReachesRefl(repo: Repo, a: Path)
    ensures Reaches(repo, a, a)
  {
    assert ImportChain(repo, [a], a, a);
  }

  lemma ReachesFirst(repo: Repo, a: Path, b: Path, c: Path)
    requires b in Deps(repo, a) && Reaches(repo, b, c)
    ensures Reaches(repo, a, c)
  {
    var chain :| ImportChain(repo, chain, b, c);
    var longer := [a] + chain;
    forall k {:trigger longer[k]} | 0 <= k < |longer| - 1
      ensures longer[k + 1] in Deps(repo, longer[k])
    {
      if k > 0 {
        assert longer[k] == chain[k - 1] && longer[k + 1] == chain[k - 1 + 1];
      }
    }
    assert ImportChain(repo, longer, a, c);
  }

  lemma ReachesLast(repo: Repo, a: Path, b: Path, c: Path)
    requires Reaches(repo, a, b) && c in Deps(repo, b)
    ensures Reaches(repo, a, c)
  {
    var chain :| ImportChain(repo, chain, a, b);
    var longer := chain + [c];
    forall k {:trigger longer[k]} | 0 <= k < |longer| - 1
      ensures longer[k + 1] in Deps(repo, longer[k])
    {
      assert longer[k] == chain[k];
    }
    assert ImportChain(repo, longer, a, c);
  }

  /** A set that contains `a` and is closed under imports contains all that `a` reaches. */
  lemma {:induction false} ClosedHoldsReached(repo: Repo, closed: set<Path>, chain: seq<Path>, a: Path, b: Path)
    requires ImportChain(repo, chain, a, b) && a in closed
    requires forall path, dep | path in closed && dep in Deps(repo, path) :: dep in closed
    ensures b in closed
    decreases |chain|
  {
    if |chain| > 1 {
      var rest := chain[1..];
      forall k {:trigger rest[k]} | 0 <= k < |rest| - 1
        ensures rest[k + 1] in Deps(repo, rest[k])
      {
        assert rest[k] == chain[k + 1];
      }
      assert chain[0 + 1] in Deps(repo, chain[0]);
      ClosedHoldsReached(repo, closed, rest, chain[1], b);
    }
  }

  /** A set that contains `b` and every importer of its members contains all that reaches `b`, within `nodes`. */
  lemma {:induction false} BackwardHoldsReaching(repo: Repo, all: set<Path>, nodes: set<Path>,
                                                 chain: seq<Path>, a: Path, b: Path)
    requires ImportChain(repo, chain, a, b) && a in nodes && b in all
    requires forall path, dep | path in nodes && dep in Deps(repo, path) :: dep in nodes
    requires forall path, dep | path in nodes && dep in Deps(repo, path) && dep in all :: path in all
    ensures a in all
    decreases |chain|
  {
    if |chain| > 1 {
      var rest := chain[1..];
      forall k {:trigger rest[k]} | 0 <= k < |rest| - 1
        ensures rest[k + 1] in Deps(repo, rest[k])
      {
        assert rest[k] == chain[k + 1];
      }
      assert chain[0 + 1] in Deps(repo, chain[0]);
      BackwardHoldsReaching(repo, all, nodes, rest, chain[1], b);
    }
  }

  /** `path` is in the import closure of some test. */
  ghost predicate ReachedBy(repo: Repo, tests: set<Path>, path: Path) {
    exists test :: test in tests && Reaches(repo, test, path)
  }

  ghost predicate ReachedFrom(repo: Repo, path: Path, visited: set<Path>) {
    forall other | other in visited :: Reaches(repo, path, other)
  }

  /** Every import of `from` is in `nodes`. */
  ghost predicate ImportsWithin(repo: Repo, from: set<Path>, nodes: set<Path>) {
    forall path, dep | path in from && dep in Deps(repo, path) :: dep in nodes
  }

  // ---- The graph ----

  /** The import edges that leave `from`, importer first. */
  ghost function EdgesFrom(repo: Repo, from: set<Path>): set<(Path, Path)> {
    set path, dep | path in from && dep in Deps(repo, path) :: (path, dep)
  }

  ghost function EdgesTo(path: Path, deps: seq<Path>): set<(Path, Path)> {
    set dep | dep in deps :: (path, dep)
  }

  ghost function UncertainIn(repo: Repo, paths: set<Path>): set<Path> {
    set path | path in paths && Uncertain(repo, path)
  }

  class Graph {
    const repo: Repo
    var importers: map<Path, set<Path>>
    var nodes: set<Path>
    var uncertain: set<Path>

    ghost function Edges(): set<(Path, Path)>
      reads this
    {
      set dep, path | dep in importers && path in importers[dep] :: (path, dep)
    }

    constructor (repo: Repo)
      ensures this.repo == repo && Edges() == {} && nodes == {} && uncertain == {}
    {
      this.repo := repo;
      importers, nodes, uncertain := map[], {}, {};
    }

    method AddImporter(dep: Path, path: Path)
      modifies this`importers
      ensures Edges() == old(Edges()) + {(path, dep)}
    {
      var known := if dep in importers then importers[dep] else {};
      importers := importers[dep := known + {path}];
    }

    /** Depth-first: adds `path` and all it reaches, unless it is there already. */
    method Visit(path: Path) returns (ghost visited: set<Path>)
      requires Resolves(repo) && path in Universe(repo) && nodes <= Universe(repo)
      modifies this
      ensures nodes == old(nodes) + visited && visited !! old(nodes) && nodes <= Universe(repo) && path in nodes
      ensures Edges() == old(Edges()) + EdgesFrom(repo, visited)
      ensures uncertain == old(uncertain) + UncertainIn(repo, visited)
      ensures ReachedFrom(repo, path, visited) && ImportsWithin(repo, visited, nodes)
      decreases Universe(repo) - nodes, 0
    {
      hide Reaches;
      visited := {};
      if path in nodes {
        return;
      }
      nodes := nodes + {path};
      ReachesRefl(repo, path);
      if !(repo.isSource)(path) {
        visited := {path};
        return;
      }
      if (repo.computed)(path) {
        uncertain := uncertain + {path};
      }
      ghost var more := VisitImports(path, (repo.deps)(path));
      VisitEnds(repo, path, more, nodes);
      visited := more + {path};
    }

    /** Visits every import of a module that is in the graph already. */
    method VisitImports(path: Path, deps: seq<Path>) returns (ghost visited: set<Path>)
      requires Resolves(repo) && path in nodes && nodes <= Universe(repo)
      requires forall dep | dep in deps :: dep in Deps(repo, path) && dep in Universe(repo)
      modifies this
      ensures nodes == old(nodes) + visited && visited !! old(nodes) && nodes <= Universe(repo)
      ensures (set dep | dep in deps) <= nodes
      ensures Edges() == old(Edges()) + EdgesTo(path, deps) + EdgesFrom(repo, visited)
      ensures uncertain == old(uncertain) + UncertainIn(repo, visited)
      ensures ReachedFrom(repo, path, visited) && ImportsWithin(repo, visited, nodes)
      decreases Universe(repo) - nodes, 1
    {
      hide ReachedFrom, ImportsWithin, EdgesFrom, EdgesTo, UncertainIn, Graph.Edges, Resolves, Uncertain, Universe,
           Deps;
      visited := {};
      NoVisits(repo, path, nodes);
      assert deps[..0] == [];
      for k := 0 to |deps|
        invariant nodes == old(nodes) + visited && visited !! old(nodes) && nodes <= Universe(repo)
        invariant (set dep | dep in deps[..k]) <= nodes
        invariant Edges() == old(Edges()) + EdgesTo(path, deps[..k]) + EdgesFrom(repo, visited)
        invariant uncertain == old(uncertain) + UncertainIn(repo, visited)
        invariant ReachedFrom(repo, path, visited) && ImportsWithin(repo, visited, nodes)
      {
        AddImporter(deps[k], path);
        ghost var before := nodes;
        ghost var more := Visit(deps[k]);
        VisitsJoin(repo, path, deps[k], visited, more, before, nodes);
        EdgesJoin(path, deps[..k], deps[k]);
        assert deps[..k + 1] == deps[..k] + [deps[k]];
        visited := visited + more;
      }
      assert deps[..|deps|] == deps;
    }

    predicate Imports(importer: Path, dep: Path)
      reads this
    {
      dep in importers && importer in importers[dep]
    }

    /** The graph over everything the tests reach: forward reachability, and exactly its import edges. */
    ghost predicate Covers(tests: set<Path>)
      reads this
    {
      && (forall path :: path in nodes <==> ReachedBy(repo, tests, path))
      && Edges() == EdgesFrom(repo, nodes)
      && uncertain == UncertainIn(repo, nodes)
    }

    /** Adds the importers of `next` that are not known yet, and queues them. */
    method Enqueue(next: Path, all: set<Path>, queue: seq<Path>) returns (more: set<Path>, longer: seq<Path>)
      ensures forall path :: path in more <==> path in all || Imports(path, next)
      ensures forall path :: path in longer <==> path in queue || path in more - all
      ensures more == all ==> longer == queue
    {
      more, longer := all, queue;
      var left := if next in importers then importers[next] else {};
      while left != {}
        invariant forall path | path in left :: Imports(path, next)
        invariant all <= more && forall path | path in more :: path in all || Imports(path, next)
        invariant forall path | Imports(path, next) :: path in more || path in left
        invariant forall path :: path in longer <==> path in queue || path in more - all
        invariant more == all ==> longer == queue
        decreases |left|
      {
        var importer :| importer in left;
        left := left - {importer};
        if importer !in more {
          more := more + {importer};
          longer := longer + [importer];
        }
      }
    }

    /** All members reach a seed, and every importer of a member is a member or its import is queued. */
    ghost predicate Swept(seeds: set<Path>, all: set<Path>, queue: seq<Path>)
      reads this
    {
      && seeds <= all <= seeds + nodes
      && (forall path | path in queue :: path in all)
      && (forall path | path in all :: ReachesSome(repo, path, seeds))
      && (forall importer, dep | Imports(importer, dep) && dep in all && dep !in queue :: importer in all)
    }

    lemma SweepStep(seeds: set<Path>, all: set<Path>, queue: seq<Path>, next: Path,
                    more: set<Path>, longer: seq<Path>)
      requires Edges() == EdgesFrom(repo, nodes) && Swept(seeds, all, queue + [next])
      requires forall path :: path in more <==> path in all || Imports(path, next)
      requires forall path :: path in longer <==> path in queue || path in more - all
      ensures Swept(seeds, more, longer)
    {
      hide Reaches;
      forall path | path in more
        ensures path in seeds + nodes && ReachesSome(repo, path, seeds)
      {
        if path !in all {
          assert next in queue + [next];
          assert (path, next) in Edges();
          var seed :| seed in seeds && Reaches(repo, next, seed);
          ReachesFirst(repo, path, next, seed);
        }
      }
      forall importer, dep | Imports(importer, dep) && dep in more && dep !in longer
        ensures importer in more
      {
        if dep != next {
          assert dep !in queue + [next];
        }
      }
    }

    lemma CoversEdges(tests: set<Path>)
      requires Covers(tests)
      ensures Edges() == EdgesFrom(repo, nodes)
    {
    }

    lemma SweptStart(seeds: set<Path>, queue: seq<Path>)
      requires forall path :: path in queue <==> path in seeds
      ensures Swept(seeds, seeds, queue)
    {
      hide ReachesSome;
      SeedsReach(repo, seeds);
    }

    lemma SweptReaches(seeds: set<Path>, all: set<Path>, queue: seq<Path>)
      requires Swept(seeds, all, queue)
      ensures forall path | path in all :: path in seeds || (path in nodes && ReachesSome(repo, path, seeds))
    {
    }

    lemma SweptWithin(seeds: set<Path>, all: set<Path>, queue: seq<Path>)
      requires Swept(seeds, all, queue)
      ensures seeds <= all <= seeds + nodes
      ensures queue == [] ==> forall importer, dep | Imports(importer, dep) && dep in all :: importer in all
    {
    }

    /** The seeds, and all known modules from which some chain of imports leads to one of them. */
    method ImportersOf(seeds: set<Path>, ghost tests: set<Path>) returns (all: set<Path>)
      requires Covers(tests)
      ensures forall path :: path in all <==> path in seeds || (path in nodes && ReachesSome(repo, path, seeds))
    {
      hide Graph.Covers, ReachesSome, Graph.Imports, Graph.Swept, Graph.Edges, EdgesFrom;
      CoversEdges(tests);
      all := seeds;
      var queue := SequenceOf(seeds);
      SweptStart(seeds, queue);
      while queue != []
        invariant Swept(seeds, all, queue)
        decreases seeds + nodes - all, |queue|
      {
        SweptWithin(seeds, all, queue);
        var last := |queue| - 1;
        var next := queue[last];
        assert queue == queue[..last] + [next];
        var more, longer := Enqueue(next, all, queue[..last]);
        SweepStep(seeds, all, queue[..last], next, more, longer);
        SweptWithin(seeds, more, longer);
        if more != all {
          assert all <= more && seeds + nodes - more < seeds + nodes - all;
        }
        all, queue := more, longer;
      }
      SweptWithin(seeds, all, queue);
      SweptReaches(seeds, all, queue);
      ReachingIsHeld(this, tests, seeds, all);
    }
  }

  ghost predicate ReachesSome(repo: Repo, path: Path, targets: set<Path>) {
    exists target :: target in targets && Reaches(repo, path, target)
  }

  method SequenceOf(paths: set<Path>) returns (order: seq<Path>)
    ensures forall path :: path in order <==> path in paths
  {
    order := [];
    var left := paths;
    while left != {}
      invariant left <= paths
      invariant forall path :: path in order <==> path in paths - left
      decreases |left|
    {
      var path :| path in left;
      left := left - {path};
      order := order + [path];
    }
  }

  lemma NodesClosed(graph: Graph, tests: set<Path>)
    requires graph.Covers(tests)
    ensures ImportsWithin(graph.repo, graph.nodes, graph.nodes)
  {
    hide Reaches;
    forall path, dep | path in graph.nodes && dep in Deps(graph.repo, path)
      ensures dep in graph.nodes
    {
      var test :| test in tests && Reaches(graph.repo, test, path);
      ReachesLast(graph.repo, test, path, dep);
      assert ReachedBy(graph.repo, tests, dep);
    }
  }

  lemma NoVisits(repo: Repo, path: Path, nodes: set<Path>)
    ensures ReachedFrom(repo, path, {}) && ImportsWithin(repo, {}, nodes)
    ensures EdgesFrom(repo, {}) == {} && EdgesTo(path, []) == {} && UncertainIn(repo, {}) == {}
    ensures UncertainIn(repo, {path}) == if Uncertain(repo, path) then {path} else {}
  {
  }

  lemma EdgesJoin(path: Path, deps: seq<Path>, dep: Path)
    ensures EdgesTo(path, deps + [dep]) == EdgesTo(path, deps) + {(path, dep)}
  {
  }

  /** What a visit to one import adds to the visit of the module. */
  lemma VisitsJoin(repo: Repo, path: Path, dep: Path, visited: set<Path>, more: set<Path>,
                   before: set<Path>, nodes: set<Path>)
    requires dep in Deps(repo, path) && before <= nodes
    requires ReachedFrom(repo, path, visited) && ImportsWithin(repo, visited, before)
    requires ReachedFrom(repo, dep, more) && ImportsWithin(repo, more, nodes)
    ensures ReachedFrom(repo, path, visited + more) && ImportsWithin(repo, visited + more, nodes)
    ensures EdgesFrom(repo, visited + more) == EdgesFrom(repo, visited) + EdgesFrom(repo, more)
    ensures UncertainIn(repo, visited + more) == UncertainIn(repo, visited) + UncertainIn(repo, more)
  {
    hide Reaches;
    forall other | other in more
      ensures Reaches(repo, path, other)
    {
      ReachesFirst(repo, path, dep, other);
    }
  }

  lemma VisitEnds(repo: Repo, path: Path, visited: set<Path>, nodes: set<Path>)
    requires ReachedFrom(repo, path, visited) && ImportsWithin(repo, visited, nodes)
    requires (set dep | dep in Deps(repo, path)) <= nodes
    ensures ReachedFrom(repo, path, visited + {path}) && ImportsWithin(repo, visited + {path}, nodes)
    ensures EdgesFrom(repo, visited + {path}) == EdgesTo(path, Deps(repo, path)) + EdgesFrom(repo, visited)
    ensures UncertainIn(repo, visited + {path}) == UncertainIn(repo, {path}) + UncertainIn(repo, visited)
  {
    hide Reaches;
    ReachesRefl(repo, path);
    forall other, dep | other in visited + {path} && dep in Deps(repo, other)
      ensures dep in nodes
    {
      if other == path {
        assert dep in (set d | d in Deps(repo, path));
      }
    }
  }

  lemma SeedsReach(repo: Repo, seeds: set<Path>)
    ensures forall path | path in seeds :: ReachesSome(repo, path, seeds)
  {
    forall path | path in seeds
      ensures ReachesSome(repo, path, seeds)
    {
      ReachesRefl(repo, path);
    }
  }

  lemma ReachingIsHeld(graph: Graph, tests: set<Path>, seeds: set<Path>, all: set<Path>)
    requires graph.Covers(tests) && seeds <= all
    requires forall importer, dep | graph.Imports(importer, dep) && dep in all :: importer in all
    ensures forall path | path in graph.nodes && ReachesSome(graph.repo, path, seeds) :: path in all
  {
    NodesClosed(graph, tests);
    forall path | path in graph.nodes && ReachesSome(graph.repo, path, seeds)
      ensures path in all
    {
      var seed :| seed in seeds && Reaches(graph.repo, path, seed);
      var chain :| ImportChain(graph.repo, chain, path, seed);
      forall importer, dep | importer in graph.nodes && dep in Deps(graph.repo, importer) && dep in all
        ensures importer in all
      {
        assert (importer, dep) in graph.Edges();
      }
      BackwardHoldsReaching(graph.repo, all, graph.nodes, chain, path, seed);
    }
  }

  method BuildGraph(repo: Repo, tests: set<Path>) returns (graph: Graph)
    requires Resolves(repo) && tests <= Universe(repo)
    ensures fresh(graph) && graph.repo == repo && graph.Covers(tests)
  {
    hide ReachedFromSome, ReachedFrom, ImportsWithin, EdgesFrom, UncertainIn, Resolves;
    graph := new Graph(repo);
    var order := SequenceOf(tests);
    NothingYet(repo, tests);
    for k := 0 to |order|
      invariant fresh(graph) && graph.repo == repo && graph.nodes <= Universe(repo)
      invariant (set test | test in order[..k]) <= graph.nodes
      invariant ReachedFromSome(repo, tests, graph.nodes) && ImportsWithin(repo, graph.nodes, graph.nodes)
      invariant graph.Edges() == EdgesFrom(repo, graph.nodes)
      invariant graph.uncertain == UncertainIn(repo, graph.nodes)
    {
      var before := graph.nodes;
      ghost var visited := graph.Visit(order[k]);
      assert order[..k + 1] == order[..k] + [order[k]];
      GraphGrows(repo, tests, order[k], before, visited);
    }
    assert order[..|order|] == order;
    CoversAll(repo, tests, graph.nodes);
  }

  ghost predicate ReachedFromSome(repo: Repo, tests: set<Path>, nodes: set<Path>) {
    forall path | path in nodes :: ReachedBy(repo, tests, path)
  }

  lemma NothingYet(repo: Repo, tests: set<Path>)
    ensures ReachedFromSome(repo, tests, {}) && ImportsWithin(repo, {}, {})
    ensures EdgesFrom(repo, {}) == {} && UncertainIn(repo, {}) == {}
  {
  }

  lemma GraphGrows(repo: Repo, tests: set<Path>, test: Path, before: set<Path>, visited: set<Path>)
    requires test in tests && ReachedFromSome(repo, tests, before) && ImportsWithin(repo, before, before)
    requires ReachedFrom(repo, test, visited) && ImportsWithin(repo, visited, before + visited)
    ensures ReachedFromSome(repo, tests, before + visited)
    ensures ImportsWithin(repo, before + visited, before + visited)
    ensures EdgesFrom(repo, before + visited) == EdgesFrom(repo, before) + EdgesFrom(repo, visited)
    ensures UncertainIn(repo, before + visited) == UncertainIn(repo, before) + UncertainIn(repo, visited)
  {
    hide Reaches;
    forall path | path in visited
      ensures ReachedBy(repo, tests, path)
    {
    }
  }

  lemma CoversAll(repo: Repo, tests: set<Path>, nodes: set<Path>)
    requires tests <= nodes && ReachedFromSome(repo, tests, nodes) && ImportsWithin(repo, nodes, nodes)
    ensures forall path :: path in nodes <==> ReachedBy(repo, tests, path)
  {
    hide ReachedBy;
    forall path | ReachedBy(repo, tests, path)
      ensures path in nodes
    {
      ReachedIsHeld(repo, tests, nodes, path);
    }
  }

  lemma ReachedIsHeld(repo: Repo, tests: set<Path>, nodes: set<Path>, path: Path)
    requires tests <= nodes && ImportsWithin(repo, nodes, nodes) && ReachedBy(repo, tests, path)
    ensures path in nodes
  {
    var test :| test in tests && Reaches(repo, test, path);
    var chain :| ImportChain(repo, chain, test, path);
    ClosedHoldsReached(repo, nodes, chain, test, path);
  }
}
