/**
 * Which suite owns which test file.
 *
 * A suite plans the executable files its globs match, unless an exclusion takes them out.  The
 * inventory check accepts a manifest only if every executable file has exactly one owner.
 */
module InventoryPlan {
  import opened Prelude
  import opened Glob
  import GlobTheorems
  import StableJson

  datatype Suite = Suite(id: string, zeroTests: bool, globs: seq<string>)

  // `valid` says that the other fields of the exclusion are well formed and it has not expired.
  datatype Exclusion = Exclusion(path: string, valid: bool)

  datatype Manifest = Manifest(suites: seq<Suite>, exclusions: seq<Exclusion>)

  datatype Problem =
    | UnknownSuite | PlannedTwice | EmptySuite | InvalidExclusion | BadGlobs
    | MultipleOwners | Unaccounted

  predicate MatchesGlob(path: string, glob: string) {
    Accepts(Compiled(glob), path)
  }

  predicate Includes(s: Suite, path: string) {
    exists i :: 0 <= i < |s.globs| && MatchesGlob(path, s.globs[i])
  }

  // exclusionsFor(…).length
  function ExclusionCount(exclusions: seq<Exclusion>, path: string): nat {
    if exclusions == [] then 0
    else (if exclusions[0].path == path then 1 else 0) + ExclusionCount(exclusions[1..], path)
  }

  function Executables(files: seq<string>, executable: string -> bool): seq<string> {
    if files == [] then []
    else (if executable(files[0]) then [files[0]] else []) + Executables(files[1..], executable)
  }

  // A suite that is not a zero-test declaration plans the path.
  predicate Plans(m: Manifest, s: Suite, path: string) {
    !s.zeroTests && Includes(s, path) && ExclusionCount(m.exclusions, path) == 0
  }

  function Planned(m: Manifest, s: Suite, paths: seq<string>): seq<string> {
    if paths == [] then []
    else if Plans(m, s, paths[0]) then StableJson.Insert(paths[0], Planned(m, s, paths[1..]))
    else Planned(m, s, paths[1..])
  }

  predicate Distinct(paths: seq<string>) {
    forall i, j :: 0 <= i < j < |paths| ==> paths[i] != paths[j]
  }

  predicate DistinctIds(suites: seq<Suite>) {
    forall i, j :: 0 <= i < j < |suites| ==> suites[i].id != suites[j].id
  }

  function WithIds(suites: seq<Suite>, ids: seq<string>): seq<Suite> {
    if suites == [] then [] else (if suites[0].id in ids then [suites[0]] else []) + WithIds(suites[1..], ids)
  }

  const ALL: string := "all"

  predicate Whole(ids: seq<string>) {
    ids == [] || ALL in ids
  }

  // selectedSuites; None where it fails on an unknown id.
  function SelectedSuites(m: Manifest, ids: seq<string>): Option<seq<Suite>> {
    if Whole(ids) then Some(m.suites)
    else if |WithIds(m.suites, ids)| == |set id | id in ids| then Some(WithIds(m.suites, ids))
    else None
  }

  datatype Planning = Planning(
    executable: seq<string>, owners: map<string, string>, plans: map<string, seq<string>>, suites: seq<Suite>)

  // No path is planned twice, by one suite or by two.
  predicate NoConflict(m: Manifest, suites: seq<Suite>, paths: seq<string>) {
    && (forall i :: 0 <= i < |suites| ==> Distinct(Planned(m, suites[i], paths)))
    && (forall i, j, p :: 0 <= i < j < |suites| && p in Planned(m, suites[i], paths) ==>
          p !in Planned(m, suites[j], paths))
  }

  // The maps say for every planned path who owns it, and for every suite what it plans.
  predicate Records(m: Manifest, suites: seq<Suite>, paths: seq<string>, owners: map<string, string>,
                    plans: map<string, seq<string>>) {
    && (forall i :: 0 <= i < |suites| ==> RecordsSuite(m, suites[i], paths, owners, plans))
    && (forall p :: p in owners ==> PlannedBySome(m, suites, paths, p))
  }

  predicate RecordsSuite(m: Manifest, s: Suite, paths: seq<string>, owners: map<string, string>,
                         plans: map<string, seq<string>>) {
    && s.id in plans && plans[s.id] == Planned(m, s, paths)
    && forall p :: p in Planned(m, s, paths) ==> p in owners && owners[p] == s.id
  }

  predicate PlannedBySome(m: Manifest, suites: seq<Suite>, paths: seq<string>, p: string) {
    exists i :: 0 <= i < |suites| && p in Planned(m, suites[i], paths)
  }

  // ---- Lemmas on plans ----

  lemma {:induction false} PlannedElements(m: Manifest, s: Suite, paths: seq<string>, p: string)
    ensures p in Planned(m, s, paths) <==> p in paths && Plans(m, s, p)
  {
    hide Plans;
    if paths != [] {
      PlannedElements(m, s, paths[1..], p);
      StableJson.InsertElements(paths[0], Planned(m, s, paths[1..]), p);
      assert p in paths <==> p == paths[0] || p in paths[1..];
    }
  }

  lemma {:induction false} ExecutableElements(files: seq<string>, executable: string -> bool, p: string)
    ensures p in Executables(files, executable) <==> p in files && executable(p)
  {
    if files != [] {
      ExecutableElements(files[1..], executable, p);
      assert p in files <==> p == files[0] || p in files[1..];
    }
  }

  // ---- What a plan is, by the globs ----

  // Two stars in a row are a segment of their own in every glob of the suite.
  predicate Standing(s: Suite) {
    forall k :: 0 <= k < |s.globs| ==> DoubleStarsStandAlone(Split(s.globs[k]))
  }

  predicate AllStanding(m: Manifest) {
    forall s :: s in m.suites ==> Standing(s)
  }

  // Some glob of the suite matches the path, segment by segment.
  predicate Covers(s: Suite, path: string) {
    exists k :: 0 <= k < |s.globs| && SegmentsMatch(Split(s.globs[k]), Split(path))
  }

  predicate Excluded(m: Manifest, path: string) {
    exists i :: 0 <= i < |m.exclusions| && m.exclusions[i].path == path
  }

  // A tracked executable file that the suite runs: one of its globs matches, and no exclusion names it.
  predicate Wants(m: Manifest, s: Suite, files: seq<string>, executable: string -> bool, path: string) {
    path in files && executable(path) && !s.zeroTests && !Excluded(m, path) && Covers(s, path)
  }

  // The first difference of two texts, or the end of the shorter one, decides.
  ghost predicate Lexical(a: string, b: string) {
    exists k: nat :: DiffersAt(a, b, k)
  }

  ghost predicate InOrder(paths: seq<string>) {
    forall i, j :: 0 <= i < j < |paths| ==> Lexical(paths[i], paths[j])
  }

  lemma {:induction false} ExcludedMeans(exclusions: seq<Exclusion>, path: string)
    ensures ExclusionCount(exclusions, path) > 0 <==> exists i :: 0 <= i < |exclusions| && exclusions[i].path == path
  {
    if exclusions != [] {
      ExcludedMeans(exclusions[1..], path);
      if i :| 0 <= i < |exclusions[1..]| && exclusions[1..][i].path == path {
        assert exclusions[i + 1].path == path;
      }
      if i :| 0 <= i < |exclusions| && exclusions[i].path == path {
        assert i > 0 ==> exclusions[1..][i - 1].path == path;
      }
    }
  }

  lemma CoversMeans(s: Suite, path: string)
    requires Standing(s)
    ensures Includes(s, path) <==> Covers(s, path)
  {
    hide Accepts, Compiled, SegmentsMatch, DoubleStarsStandAlone, Split;
    forall k | 0 <= k < |s.globs|
      ensures MatchesGlob(path, s.globs[k]) <==> SegmentsMatch(Split(s.globs[k]), Split(path))
    {
      GlobTheorems.RegExpReadsSegments(s.globs[k], path);
    }
  }

  lemma WantedIsPlanned(m: Manifest, s: Suite, files: seq<string>, executable: string -> bool, path: string)
    requires Standing(s)
    ensures path in Planned(m, s, Executables(files, executable)) <==> Wants(m, s, files, executable, path)
  {
    hide Includes, Covers, ExclusionCount, Planned, Executables;
    PlannedElements(m, s, Executables(files, executable), path);
    ExecutableElements(files, executable, path);
    ExcludedMeans(m.exclusions, path);
    CoversMeans(s, path);
  }

  lemma SameFirst(a: string, b: string, k: nat)
    requires k <= |a| && k <= |b| && a[..k] == b[..k]
    ensures k > 0 ==> a[0] == b[0]
  {
    if k > 0 {
      assert a[..k][0] == b[..k][0];
    }
  }

  predicate DiffersAt(a: string, b: string, k: nat) {
    k <= |a| && k < |b| && a[..k] == b[..k] && (k == |a| || a[k] < b[k])
  }

  lemma DiffersBehind(a: string, b: string, k: nat)
    requires a != [] && b != [] && a[0] == b[0]
    ensures DiffersAt(a[1..], b[1..], k) <==> DiffersAt(a, b, k + 1)
  {
    if k + 1 <= |a| && k + 1 <= |b| {
      assert a[..k + 1] == [a[0]] + a[1..][..k] && b[..k + 1] == [b[0]] + b[1..][..k];
    }
  }

  lemma {:induction false} BeforeMeans(a: string, b: string)
    ensures StableJson.Before(a, b) <==> Lexical(a, b)
  {
    if a != [] && b != [] && a[0] == b[0] {
      hide DiffersAt;
      BeforeMeans(a[1..], b[1..]);
      if k: nat :| DiffersAt(a[1..], b[1..], k) {
        DiffersBehind(a, b, k);
      }
      if k: nat :| DiffersAt(a, b, k) {
        NoDifferenceAtFirst(a, b);
        DiffersBehind(a, b, k - 1);
      }
    } else if b != [] {
      assert a[..0] == b[..0];
      if k: nat :| DiffersAt(a, b, k) {
        SameFirst(a, b, k);
      }
      assert StableJson.Before(a, b) ==> DiffersAt(a, b, 0);
    }
  }

  lemma NoDifferenceAtFirst(a: string, b: string)
    requires a != [] && b != [] && a[0] == b[0]
    ensures !DiffersAt(a, b, 0)
  {
  }

  lemma {:induction false} PlannedInOrder(m: Manifest, s: Suite, paths: seq<string>)
    requires Distinct(paths)
    ensures StableJson.Ascending(Planned(m, s, paths))
  {
    hide Plans, StableJson.Before;
    if paths != [] {
      var rest := paths[1..];
      assert forall i :: 0 <= i < |rest| ==> rest[i] == paths[i + 1];
      PlannedInOrder(m, s, rest);
      PlannedElements(m, s, rest, paths[0]);
      assert paths[0] !in rest;
      StableJson.InsertAscending(paths[0], Planned(m, s, rest)) by {
        assert paths[0] !in Planned(m, s, rest);
      }
    }
  }

  lemma {:induction false} ExecutablesDistinct(files: seq<string>, executable: string -> bool)
    requires Distinct(files)
    ensures Distinct(Executables(files, executable))
  {
    if files != [] {
      var rest := files[1..];
      assert forall i :: 0 <= i < |rest| ==> rest[i] == files[i + 1];
      ExecutablesDistinct(rest, executable);
      ExecutableElements(rest, executable, files[0]);
    }
  }

  // The plan holds what the suite wants, in order.
  ghost predicate HoldsWanted(m: Manifest, s: Suite, files: seq<string>, executable: string -> bool,
                              plan: seq<string>) {
    && (forall p :: p in plan <==> Wants(m, s, files, executable, p))
    && (Distinct(files) ==> InOrder(plan))
  }

  lemma PlannedHoldsWanted(m: Manifest, s: Suite, files: seq<string>, executable: string -> bool)
    requires Standing(s)
    ensures HoldsWanted(m, s, files, executable, Planned(m, s, Executables(files, executable)))
  {
    hide Planned, Executables, Wants, Standing, Distinct, Lexical, StableJson.Before;
    var plan := Planned(m, s, Executables(files, executable));
    forall p
      ensures p in plan <==> Wants(m, s, files, executable, p)
    {
      WantedIsPlanned(m, s, files, executable, p);
    }
    if Distinct(files) {
      ExecutablesDistinct(files, executable);
      PlannedInOrder(m, s, Executables(files, executable));
      forall i, j | 0 <= i < j < |plan|
        ensures Lexical(plan[i], plan[j])
      {
        BeforeMeans(plan[i], plan[j]);
      }
    }
  }

  // ---- The methods ----

  /** One suite's plan joins the owners, unless a path already has one. */
  method Own(plan: seq<string>, id: string, owners: map<string, string>) returns (ok: bool, after: map<string, string>)
    ensures ok <==> Distinct(plan) && forall p :: p in plan ==> p !in owners
    ensures ok ==> after.Keys == owners.Keys + (set p | p in plan)
    ensures ok ==> forall p :: p in owners ==> after[p] == owners[p]
    ensures ok ==> forall p :: p in plan ==> after[p] == id
  {
    after := owners;
    for k := 0 to |plan|
      invariant Distinct(plan[..k]) && forall p :: p in plan[..k] ==> p !in owners
      invariant after.Keys == owners.Keys + (set p | p in plan[..k])
      invariant forall p :: p in owners ==> after[p] == owners[p]
      invariant forall p :: p in plan[..k] ==> after[p] == id
    {
      assert plan[..k + 1] == plan[..k] + [plan[k]];
      if plan[k] in after {
        if plan[k] in plan[..k] {
          var i :| 0 <= i < k && plan[..k][i] == plan[k];
          assert plan[i] == plan[k];
        }
        return false, after;
      }
      after := after[plan[k] := id];
    }
    assert plan[..|plan|] == plan;
    return true, after;
  }

  /** tolerantPlanFor: plan every selected suite, and fail on a path that is planned twice. */
  method TolerantPlanFor(m: Manifest, files: seq<string>, ids: seq<string>, executable: string -> bool)
    returns (r: Result<Planning, Problem>)
    requires DistinctIds(m.suites)
    ensures r == Err(UnknownSuite) <==> SelectedSuites(m, ids).None?
    ensures r.Err? ==> r.error == UnknownSuite || r.error == PlannedTwice
    ensures r.Ok? <==> SelectedSuites(m, ids).Some?
                       && NoConflict(m, SelectedSuites(m, ids).value, Executables(files, executable))
    ensures r.Ok? ==>
              && r.value.executable == Executables(files, executable)
              && Some(r.value.suites) == SelectedSuites(m, ids)
              && Records(m, r.value.suites, r.value.executable, r.value.owners, r.value.plans)
    ensures r.Ok? ==> forall s :: s in r.value.suites && Standing(s) ==>
              s.id in r.value.plans && HoldsWanted(m, s, files, executable, r.value.plans[s.id])
  {
    hide Planned, PlannedBySome, NoConflict, Records, Executables, Whole, Distinct, Standing, HoldsWanted;
    NothingPlanned(m, Executables(files, executable));
    var selected := SelectedSuites(m, ids);
    if selected.None? {
      return Err(UnknownSuite);
    }
    var suites := selected.value;
    SelectedDistinct(m, ids);
    var paths := Executables(files, executable);
    var plans: map<string, seq<string>>, owners: map<string, string> := map[], map[];
    for k := 0 to |suites|
      invariant NoConflict(m, suites[..k], paths)
      invariant Records(m, suites[..k], paths, owners, plans)
    {
      var suite := suites[k];
      var plan := Planned(m, suite, paths);
      ghost var before := plans;
      plans := plans[suite.id := plan];
      var ok, after := Own(plan, suite.id, owners);
      assert suites[..k + 1] == suites[..k] + [suite];
      ConflictWithOneMore(m, suites[..k], suite, paths);
      ConflictStays(m, suites, k + 1, paths);
      forall p ensures p in owners <==> PlannedBySome(m, suites[..k], paths, p) {
        RecordsMean(m, suites[..k], paths, owners, before, p);
      }
      if !ok {
        return Err(PlannedTwice);
      }
      OneMoreRecorded(m, suites[..k], suite, paths, owners, before, after);
      owners := after;
    }
    assert suites[..|suites|] == suites;
    RecordsHoldWanted(m, suites, files, executable, owners, plans);
    return Ok(Planning(paths, owners, plans, suites));
  }

  lemma RecordsHoldWanted(m: Manifest, suites: seq<Suite>, files: seq<string>, executable: string -> bool,
                          owners: map<string, string>, plans: map<string, seq<string>>)
    requires Records(m, suites, Executables(files, executable), owners, plans)
    ensures forall s :: s in suites && Standing(s) ==>
              s.id in plans && HoldsWanted(m, s, files, executable, plans[s.id])
  {
    hide Planned, Executables, Standing, HoldsWanted;
    forall s | s in suites && Standing(s)
      ensures s.id in plans && HoldsWanted(m, s, files, executable, plans[s.id])
    {
      var i :| 0 <= i < |suites| && suites[i] == s;
      assert RecordsSuite(m, suites[i], Executables(files, executable), owners, plans);
      PlannedHoldsWanted(m, s, files, executable);
    }
  }

  lemma {:induction false} WithIdsDistinct(suites: seq<Suite>, ids: seq<string>)
    requires DistinctIds(suites)
    ensures DistinctIds(WithIds(suites, ids))
    ensures forall s :: s in WithIds(suites, ids) <==> s in suites && s.id in ids
  {
    if suites != [] {
      WithIdsDistinct(suites[1..], ids);
      assert suites == [suites[0]] + suites[1..];
      var rest := WithIds(suites[1..], ids);
      assert forall s :: s in rest ==> s.id != suites[0].id by {
        forall s | s in rest ensures s.id != suites[0].id {
          assert s in suites[1..];
        }
      }
      assert forall i :: 0 <= i < |rest| ==> rest[i] in rest;
    }
  }

  lemma NothingPlanned(m: Manifest, paths: seq<string>)
    ensures NoConflict(m, [], paths) && Records(m, [], paths, map[], map[])
  {
  }

  lemma SelectedDistinct(m: Manifest, ids: seq<string>)
    requires DistinctIds(m.suites) && SelectedSuites(m, ids).Some?
    ensures DistinctIds(SelectedSuites(m, ids).value)
  {
    WithIdsDistinct(m.suites, ids);
  }

  lemma ConflictStays(m: Manifest, suites: seq<Suite>, k: nat, paths: seq<string>)
    requires k <= |suites|
    ensures NoConflict(m, suites, paths) ==> NoConflict(m, suites[..k], paths)
  {
    hide Planned, Distinct;
    assert forall i :: 0 <= i < k ==> suites[..k][i] == suites[i];
  }

  lemma RecordsMean(m: Manifest, suites: seq<Suite>, paths: seq<string>, owners: map<string, string>,
                    plans: map<string, seq<string>>, p: string)
    requires Records(m, suites, paths, owners, plans)
    ensures p in owners <==> PlannedBySome(m, suites, paths, p)
  {
    hide Planned;
  }

  lemma PlannedByOneMore(m: Manifest, suites: seq<Suite>, suite: Suite, paths: seq<string>, p: string)
    ensures PlannedBySome(m, suites + [suite], paths, p)
       <==> PlannedBySome(m, suites, paths, p) || p in Planned(m, suite, paths)
  {
    hide Planned;
    var all, n := suites + [suite], |suites|;
    assert all[n] == suite && forall i :: 0 <= i < n ==> all[i] == suites[i];
  }

  lemma ConflictWithOneMore(m: Manifest, suites: seq<Suite>, suite: Suite, paths: seq<string>)
    requires NoConflict(m, suites, paths)
    ensures NoConflict(m, suites + [suite], paths)
       <==> Distinct(Planned(m, suite, paths))
            && forall p :: p in Planned(m, suite, paths) ==> !PlannedBySome(m, suites, paths, p)
  {
    hide Planned, Distinct;
    var all, n := suites + [suite], |suites|;
    assert all[n] == suite && forall i :: 0 <= i < n ==> all[i] == suites[i];
    if NoConflict(m, all, paths) {
      assert Distinct(Planned(m, all[n], paths));
      forall p | p in Planned(m, suite, paths) ensures !PlannedBySome(m, suites, paths, p) {
        assert forall i :: 0 <= i < n ==> p !in Planned(m, suites[i], paths) by {
          forall i | 0 <= i < n ensures p !in Planned(m, suites[i], paths) {
            assert p in Planned(m, all[n], paths);
            assert all[i] == suites[i];
          }
        }
      }
    }
  }

  lemma OneMoreRecorded(m: Manifest, suites: seq<Suite>, suite: Suite, paths: seq<string>, owners: map<string, string>,
                        plans: map<string, seq<string>>, after: map<string, string>)
    requires Records(m, suites, paths, owners, plans) && DistinctIds(suites + [suite])
    requires after.Keys == owners.Keys + (set p | p in Planned(m, suite, paths))
    requires forall p :: p in owners ==> after[p] == owners[p]
    requires forall p :: p in Planned(m, suite, paths) ==> after[p] == suite.id
    ensures Records(m, suites + [suite], paths, after, plans[suite.id := Planned(m, suite, paths)])
  {
    var more := plans[suite.id := Planned(m, suite, paths)];
    var all, n := suites + [suite], |suites|;
    assert RecordsSuite(m, suite, paths, after, more);
    assert all[n] == suite && forall i :: 0 <= i < n ==> all[i] == suites[i] && suites[i].id != suite.id;
    hide *;
    forall i | 0 <= i < n ensures RecordsSuite(m, suites[i], paths, after, more) {
      SuiteRecorded(m, suites, i, paths, owners, plans);
      SuiteKept(m, suites[i], paths, owners, plans, after, suite.id, Planned(m, suite, paths));
    }
    forall p | p in after ensures PlannedBySome(m, all, paths, p) {
      PlannedByOneMore(m, suites, suite, paths, p);
      OwnersPlanned(m, suites, paths, owners, plans, p);
    }
    RecordsFrom(m, all, paths, after, more);
  }

  lemma SuiteRecorded(m: Manifest, suites: seq<Suite>, i: nat, paths: seq<string>, owners: map<string, string>,
                      plans: map<string, seq<string>>)
    requires Records(m, suites, paths, owners, plans) && i < |suites|
    ensures RecordsSuite(m, suites[i], paths, owners, plans)
  {
  }

  lemma OwnersPlanned(m: Manifest, suites: seq<Suite>, paths: seq<string>, owners: map<string, string>,
                      plans: map<string, seq<string>>, p: string)
    requires Records(m, suites, paths, owners, plans)
    ensures p in owners ==> PlannedBySome(m, suites, paths, p)
  {
    hide PlannedBySome, RecordsSuite;
  }

  lemma RecordsFrom(m: Manifest, suites: seq<Suite>, paths: seq<string>, owners: map<string, string>,
                    plans: map<string, seq<string>>)
    requires forall i :: 0 <= i < |suites| ==> RecordsSuite(m, suites[i], paths, owners, plans)
    requires forall p :: p in owners ==> PlannedBySome(m, suites, paths, p)
    ensures Records(m, suites, paths, owners, plans)
  {
    hide PlannedBySome, RecordsSuite;
  }

  lemma SuiteKept(m: Manifest, s: Suite, paths: seq<string>,
                  owners: map<string, string>, plans: map<string, seq<string>>,
                  after: map<string, string>, id: string, plan: seq<string>)
    requires RecordsSuite(m, s, paths, owners, plans) && s.id != id
    requires owners.Keys <= after.Keys && forall p :: p in owners ==> after[p] == owners[p]
    ensures RecordsSuite(m, s, paths, after, plans[id := plan])
  {
    hide Planned;
  }

  // ---- The whole check ----

  predicate ExclusionsValid(m: Manifest, files: seq<string>) {
    && (forall i :: 0 <= i < |m.exclusions| ==> m.exclusions[i].valid && m.exclusions[i].path in files)
    && (forall i, j :: 0 <= i < j < |m.exclusions| ==> m.exclusions[i].path != m.exclusions[j].path)
  }

  // Every suite that runs tests matches some file, and only executable ones.
  predicate GlobsMatchExecutables(m: Manifest, files: seq<string>, executable: string -> bool) {
    forall i :: 0 <= i < |m.suites| && !m.suites[i].zeroTests ==>
      && (exists p :: p in files && Includes(m.suites[i], p))
      && (forall p :: p in files && Includes(m.suites[i], p) ==> executable(p))
  }

  predicate NoneEmpty(m: Manifest, suites: seq<Suite>, paths: seq<string>) {
    forall i :: 0 <= i < |suites| && !suites[i].zeroTests ==> Planned(m, suites[i], paths) != []
  }

  predicate Accounted(m: Manifest, suites: seq<Suite>, paths: seq<string>) {
    forall p :: p in paths ==> PlannedBySome(m, suites, paths, p) || ExclusionCount(m.exclusions, p) > 0
  }

  // What planFor accepts: known suites, no path planned twice, no suite without a test.
  predicate PlanAccepted(m: Manifest, files: seq<string>, ids: seq<string>, executable: string -> bool) {
    && SelectedSuites(m, ids).Some?
    && NoConflict(m, SelectedSuites(m, ids).value, Executables(files, executable))
    && NoneEmpty(m, SelectedSuites(m, ids).value, Executables(files, executable))
  }

  /** What checkInventory accepts. */
  predicate InventoryAccepted(m: Manifest, files: seq<string>, ids: seq<string>, strict: bool,
                              executable: string -> bool) {
    && ExclusionsValid(m, files)
    && GlobsMatchExecutables(m, files, executable)
    && PlanAccepted(m, files, ids, executable)
    && (Whole(ids) || strict ==> Accounted(m, SelectedSuites(m, ids).value, Executables(files, executable)))
  }

  /** planFor */
  method PlanFor(m: Manifest, files: seq<string>, ids: seq<string>, executable: string -> bool)
    returns (r: Result<Planning, Problem>)
    requires DistinctIds(m.suites)
    ensures r.Ok? <==> PlanAccepted(m, files, ids, executable)
    ensures r == Err(UnknownSuite) <==> SelectedSuites(m, ids).None?
    ensures r.Err? ==> r.error == UnknownSuite || r.error == PlannedTwice || r.error == EmptySuite
    ensures r.Ok? ==>
              && r.value.executable == Executables(files, executable)
              && Some(r.value.suites) == SelectedSuites(m, ids)
              && Records(m, r.value.suites, r.value.executable, r.value.owners, r.value.plans)
  {
    hide Planned, Executables, SelectedSuites, NoConflict;
    var planned := TolerantPlanFor(m, files, ids, executable);
    if planned.Err? {
      return planned;
    }
    var plan := planned.value;
    for k := 0 to |plan.suites|
      invariant NoneEmpty(m, plan.suites[..k], plan.executable)
    {
      assert plan.suites[..k + 1] == plan.suites[..k] + [plan.suites[k]];
      assert RecordsSuite(m, plan.suites[k], plan.executable, plan.owners, plan.plans);
      if !plan.suites[k].zeroTests && plan.plans[plan.suites[k].id] == [] {
        assert !NoneEmpty(m, plan.suites, plan.executable);
        return Err(EmptySuite);
      }
    }
    assert plan.suites[..|plan.suites|] == plan.suites;
    return planned;
  }

  lemma {:induction false} ExclusionOnce(exclusions: seq<Exclusion>, p: string)
    requires forall i, j :: 0 <= i < j < |exclusions| ==> exclusions[i].path != exclusions[j].path
    ensures ExclusionCount(exclusions, p) <= 1
    ensures ExclusionCount(exclusions, p) == 1 <==> exists i :: 0 <= i < |exclusions| && exclusions[i].path == p
  {
    if exclusions != [] {
      var rest := exclusions[1..];
      assert forall i :: 0 <= i < |rest| ==> rest[i] == exclusions[i + 1];
      ExclusionOnce(rest, p);
      if i :| 0 <= i < |rest| && rest[i].path == p {
        assert exclusions[i + 1].path == p;
      }
      if i :| 0 <= i < |exclusions| && exclusions[i].path == p {
        assert i > 0 ==> rest[i - 1].path == p;
      }
    }
  }

  method CheckExclusions(m: Manifest, files: seq<string>) returns (ok: bool)
    ensures ok <==> ExclusionsValid(m, files)
  {
    var paths: set<string> := {};
    for k := 0 to |m.exclusions|
      invariant forall i :: 0 <= i < k ==> m.exclusions[i].valid && m.exclusions[i].path in files
      invariant forall i, j :: 0 <= i < j < k ==> m.exclusions[i].path != m.exclusions[j].path
      invariant paths == set i | 0 <= i < k :: m.exclusions[i].path
    {
      var exclusion := m.exclusions[k];
      if exclusion.path in paths || !exclusion.valid || exclusion.path !in files {
        return false;
      }
      paths := paths + {exclusion.path};
    }
    return true;
  }

  method CheckGlobs(m: Manifest, files: seq<string>, executable: string -> bool) returns (ok: bool)
    ensures ok <==> GlobsMatchExecutables(m, files, executable)
  {
    hide MatchesGlob;
    for k := 0 to |m.suites|
      invariant forall i :: 0 <= i < k && !m.suites[i].zeroTests ==>
                  && (exists p :: p in files && Includes(m.suites[i], p))
                  && (forall p :: p in files && Includes(m.suites[i], p) ==> executable(p))
    {
      var suite := m.suites[k];
      if !suite.zeroTests {
        var matched := false;
        for n := 0 to |files|
          invariant matched <==> exists p :: p in files[..n] && Includes(suite, p)
          invariant forall p :: p in files[..n] && Includes(suite, p) ==> executable(p)
        {
          assert files[..n + 1] == files[..n] + [files[n]];
          if Includes(suite, files[n]) {
            matched := true;
            if !executable(files[n]) {
              return false;
            }
          }
        }
        assert files[..|files|] == files;
        if !matched {
          return false;
        }
      }
    }
    return true;
  }

  /** checkInventory, with `strict` for its failOnUnknown option. */
  method CheckInventory(m: Manifest, files: seq<string>, ids: seq<string>, strict: bool, executable: string -> bool)
    returns (r: Result<Planning, Problem>)
    requires DistinctIds(m.suites)
    ensures r.Ok? <==> InventoryAccepted(m, files, ids, strict, executable)
    ensures AllStanding(m) && Distinct(files) ==> (r.Ok? <==> AcceptableByGlobs(m, files, ids, strict, executable))
    ensures r == Err(InvalidExclusion) <==> !ExclusionsValid(m, files)
    ensures r == Err(BadGlobs) <==> ExclusionsValid(m, files) && !GlobsMatchExecutables(m, files, executable)
    ensures r.Err? && (r.error.UnknownSuite? || r.error.PlannedTwice? || r.error.EmptySuite?) <==>
              && ExclusionsValid(m, files) && GlobsMatchExecutables(m, files, executable)
              && !PlanAccepted(m, files, ids, executable)
    ensures r == Err(Unaccounted) <==>
              && ExclusionsValid(m, files) && GlobsMatchExecutables(m, files, executable)
              && PlanAccepted(m, files, ids, executable) && !InventoryAccepted(m, files, ids, strict, executable)
    ensures r != Err(MultipleOwners)
  {
    AcceptedWhere(m, files, ids, strict, executable);
    hide PlanAccepted, Planned, Executables, Whole, Includes, SelectedSuites, AcceptableByGlobs, AllStanding, Distinct,
         HoldsWanted, Standing, ExclusionsValid, GlobsMatchExecutables, Records, Accounted;
    var exclusionsOk := CheckExclusions(m, files);
    if !exclusionsOk {
      return Err(InvalidExclusion);
    }
    var globsOk := CheckGlobs(m, files, executable);
    if !globsOk {
      return Err(BadGlobs);
    }
    var planned := PlanFor(m, files, ids, executable);
    if planned.Err? {
      return planned;
    }
    var multiple, unknown := CheckOwners(m, files, planned.value);
    if multiple {
      return Err(MultipleOwners);
    }
    if (Whole(ids) || strict) && unknown {
      return Err(Unaccounted);
    }
    return planned;
  }

  /** The owners of every executable file: more than one, or none. */
  method CheckOwners(m: Manifest, files: seq<string>, plan: Planning) returns (multiple: bool, unknown: bool)
    requires ExclusionsValid(m, files) && Records(m, plan.suites, plan.executable, plan.owners, plan.plans)
    ensures !multiple && (unknown <==> !Accounted(m, plan.suites, plan.executable))
  {
    hide Planned, Records, ExclusionsValid, Accounted;
    unknown := false;
    for k := 0 to |plan.executable|
      invariant unknown <==> exists i :: 0 <= i < k && Unowned(m, plan.owners, plan.executable[i])
    {
      var path := plan.executable[k];
      var exclusions := ExclusionCount(m.exclusions, path);
      NeverTwoOwners(m, files, plan, path);
      if (if path in plan.owners then 1 else 0) + exclusions > 1 {
        return true, unknown;
      }
      if path !in plan.owners && exclusions == 0 {
        unknown := true;
      }
    }
    UnknownMeans(m, plan);
    return false, unknown;
  }

  predicate Unowned(m: Manifest, owners: map<string, string>, p: string) {
    p !in owners && ExclusionCount(m.exclusions, p) == 0
  }

  lemma UnknownMeans(m: Manifest, plan: Planning)
    requires Records(m, plan.suites, plan.executable, plan.owners, plan.plans)
    ensures Accounted(m, plan.suites, plan.executable)
       <==> !exists i :: 0 <= i < |plan.executable| && Unowned(m, plan.owners, plan.executable[i])
  {
    hide Planned, ExclusionCount, Records, PlannedBySome;
    var paths := plan.executable;
    forall p ensures p in plan.owners <==> PlannedBySome(m, plan.suites, paths, p) {
      RecordsMean(m, plan.suites, paths, plan.owners, plan.plans, p);
    }
    if Accounted(m, plan.suites, paths) {
      assert forall i :: 0 <= i < |paths| ==> paths[i] in paths && !Unowned(m, plan.owners, paths[i]);
    } else {
      var p :| p in paths && !PlannedBySome(m, plan.suites, paths, p) && ExclusionCount(m.exclusions, p) == 0;
      var i :| 0 <= i < |paths| && paths[i] == p;
      assert Unowned(m, plan.owners, paths[i]);
    }
  }

  lemma NeverTwoOwners(m: Manifest, files: seq<string>, plan: Planning, path: string)
    requires ExclusionsValid(m, files) && Records(m, plan.suites, plan.executable, plan.owners, plan.plans)
    ensures (if path in plan.owners then 1 else 0) + ExclusionCount(m.exclusions, path) <= 1
  {
    hide Planned;
    ExclusionOnce(m.exclusions, path);
    if path in plan.owners {
      var i :| 0 <= i < |plan.suites| && path in Planned(m, plan.suites[i], plan.executable);
      PlannedElements(m, plan.suites[i], plan.executable, path);
    }
  }

  // ---- One owner ----

  predicate OwnedBySuite(m: Manifest, suites: seq<Suite>, paths: seq<string>, p: string, i: int) {
    0 <= i < |suites| && p in Planned(m, suites[i], paths)
  }

  predicate ExcludedBy(m: Manifest, p: string, i: int) {
    0 <= i < |m.exclusions| && m.exclusions[i].path == p
  }

  /**
   * If the whole-manifest check accepts, every executable file has exactly one owner: one suite and no
   * exclusion, or one exclusion and no suite.
   */
  lemma EveryExecutableHasOneOwner(m: Manifest, files: seq<string>, executable: string -> bool, p: string)
    requires InventoryAccepted(m, files, [], false, executable)
    requires p in files && executable(p)
    ensures var paths := Executables(files, executable);
            var suites := m.suites;
            || ((exists i :: OwnedBySuite(m, suites, paths, p, i)) && (forall k :: !ExcludedBy(m, p, k)))
            || ((exists k :: ExcludedBy(m, p, k)) && (forall i :: !OwnedBySuite(m, suites, paths, p, i)))
    ensures var paths := Executables(files, executable);
            forall i, j :: OwnedBySuite(m, m.suites, paths, p, i) && OwnedBySuite(m, m.suites, paths, p, j) ==> i == j
    ensures forall i, j :: ExcludedBy(m, p, i) && ExcludedBy(m, p, j) ==> i == j
  {
    hide Planned, Executables, ExclusionCount, GlobsMatchExecutables, NoneEmpty;
    var paths := Executables(files, executable);
    ExecutableElements(files, executable, p);
    ExclusionOnce(m.exclusions, p);
    if PlannedBySome(m, m.suites, paths, p) {
      var i :| 0 <= i < |m.suites| && p in Planned(m, m.suites[i], paths);
      PlannedElements(m, m.suites[i], paths, p);
      assert OwnedBySuite(m, m.suites, paths, p, i);
    } else {
      var k :| 0 <= k < |m.exclusions| && m.exclusions[k].path == p;
      assert ExcludedBy(m, p, k);
    }
  }

  // ---- The whole check, by the globs ----

  // Naming no suite, or `all`, chooses every suite.
  predicate Chosen(ids: seq<string>, s: Suite) {
    ids == [] || "all" in ids || s.id in ids
  }

  predicate Known(m: Manifest, id: string) {
    exists s :: s in m.suites && s.id == id
  }

  function IdSet(suites: seq<Suite>): set<string> {
    set s | s in suites :: s.id
  }

  lemma {:induction false} IdSetSize(suites: seq<Suite>)
    requires DistinctIds(suites)
    ensures |IdSet(suites)| == |suites|
  {
    if suites != [] {
      IdSetMore(suites);
      hide IdSet;
      assert forall i :: 0 <= i < |suites[1..]| ==> suites[1..][i] == suites[i + 1];
      IdSetSize(suites[1..]);
    } else {
      assert IdSet(suites) == {};
    }
  }

  lemma IdSetMore(suites: seq<Suite>)
    requires DistinctIds(suites) && suites != []
    ensures suites[0].id !in IdSet(suites[1..]) && IdSet(suites) == IdSet(suites[1..]) + {suites[0].id}
  {
    assert suites == [suites[0]] + suites[1..];
  }

  lemma SubsetSize(a: set<string>, b: set<string>)
    requires a <= b
    ensures |a| == |b| <==> a == b
  {
    assert b == a + (b - a);
  }

  /** The selection fails exactly on an unknown id, and holds the chosen suites in the manifest's order. */
  lemma SelectedMeans(m: Manifest, ids: seq<string>)
    requires DistinctIds(m.suites)
    ensures SelectedSuites(m, ids).None? <==>
              ids != [] && "all" !in ids && exists id :: id in ids && !Known(m, id)
    ensures SelectedSuites(m, ids).Some? ==>
              forall s :: s in SelectedSuites(m, ids).value <==> s in m.suites && Chosen(ids, s)
  {
    assert ALL == "all";
    hide ALL;
    var with, wanted := WithIds(m.suites, ids), set id | id in ids;
    WithIdsDistinct(m.suites, ids);
    IdSetSize(with);
    SubsetSize(IdSet(with), wanted);
    forall id | id in ids
      ensures Known(m, id) <==> id in IdSet(with)
    {
      if s :| s in m.suites && s.id == id {
        assert s in with;
      }
    }
    assert IdSet(with) == wanted <==> forall id :: id in ids ==> id in IdSet(with);
  }

  ghost predicate WantedTwice(m: Manifest, files: seq<string>, ids: seq<string>, executable: string -> bool) {
    exists s, t, p ::
      && s in m.suites && t in m.suites && Chosen(ids, s) && Chosen(ids, t) && s.id != t.id
      && Wants(m, s, files, executable, p) && Wants(m, t, files, executable, p)
  }

  lemma InOrderDistinct(paths: seq<string>)
    requires StableJson.Ascending(paths)
    ensures Distinct(paths)
  {
    hide StableJson.Before;
    forall i, j | 0 <= i < j < |paths|
      ensures paths[i] != paths[j]
    {
      StableJson.BeforeIrreflexive(paths[i]);
    }
  }

  /** Where no file is listed twice, suites conflict exactly when two of them want the same file. */
  lemma ConflictMeans(m: Manifest, files: seq<string>, ids: seq<string>, executable: string -> bool)
    requires DistinctIds(m.suites) && AllStanding(m) && Distinct(files) && SelectedSuites(m, ids).Some?
    ensures NoConflict(m, SelectedSuites(m, ids).value, Executables(files, executable))
       <==> !WantedTwice(m, files, ids, executable)
  {
    hide Planned, Executables, Wants, Standing, SelectedSuites, Chosen, Distinct, StableJson.Before;
    var suites, paths := SelectedSuites(m, ids).value, Executables(files, executable);
    SelectedMeans(m, ids);
    SelectedDistinct(m, ids);
    ExecutablesDistinct(files, executable);
    forall i | 0 <= i < |suites|
      ensures Distinct(Planned(m, suites[i], paths))
      ensures forall p :: p in Planned(m, suites[i], paths) <==> Wants(m, suites[i], files, executable, p)
    {
      assert suites[i] in suites;
      PlannedInOrder(m, suites[i], paths);
      InOrderDistinct(Planned(m, suites[i], paths));
      forall p
        ensures p in Planned(m, suites[i], paths) <==> Wants(m, suites[i], files, executable, p)
      {
        WantedIsPlanned(m, suites[i], files, executable, p);
      }
    }
    if WantedTwice(m, files, ids, executable) {
      var s, t, p :| && s in m.suites && t in m.suites && Chosen(ids, s) && Chosen(ids, t) && s.id != t.id
                     && Wants(m, s, files, executable, p) && Wants(m, t, files, executable, p);
      var i :| 0 <= i < |suites| && suites[i] == s;
      var j :| 0 <= j < |suites| && suites[j] == t;
      assert p in Planned(m, suites[i], paths) && p in Planned(m, suites[j], paths);
      assert i != j;
    } else {
      forall i, j, p | 0 <= i < j < |suites| && p in Planned(m, suites[i], paths)
        ensures p !in Planned(m, suites[j], paths)
      {
        assert suites[i] in suites && suites[j] in suites && suites[i].id != suites[j].id;
      }
    }
  }

  /**
   * What the inventory check asks of a manifest, in the terms of its globs: sound exclusions, globs that match some
   * file and executable ones only, known suites, no file wanted by two suites, none of them without a test, and, for
   * the whole manifest, every executable file wanted or excluded.
   */
  ghost predicate AcceptableByGlobs(m: Manifest, files: seq<string>, ids: seq<string>, strict: bool,
                                    executable: string -> bool) {
    && (forall x :: x in m.exclusions ==> x.valid && x.path in files)
    && (forall i, j :: 0 <= i < j < |m.exclusions| ==> m.exclusions[i].path != m.exclusions[j].path)
    && (forall s :: s in m.suites && !s.zeroTests ==>
          (exists p :: p in files && Covers(s, p)) && (forall p :: p in files && Covers(s, p) ==> executable(p)))
    && (ids == [] || "all" in ids || forall id :: id in ids ==> Known(m, id))
    && !WantedTwice(m, files, ids, executable)
    && (forall s :: s in m.suites && Chosen(ids, s) && !s.zeroTests ==> exists p :: Wants(m, s, files, executable, p))
    && (ids == [] || "all" in ids || strict ==>
          forall p :: p in files && executable(p) ==>
            Excluded(m, p) || exists s :: s in m.suites && Chosen(ids, s) && Wants(m, s, files, executable, p))
  }

  lemma GlobsMean(m: Manifest, files: seq<string>, executable: string -> bool)
    requires AllStanding(m)
    ensures GlobsMatchExecutables(m, files, executable) <==>
              forall s :: s in m.suites && !s.zeroTests ==>
                (exists p :: p in files && Covers(s, p)) && (forall p :: p in files && Covers(s, p) ==> executable(p))
  {
    hide Includes, Covers, Standing;
    forall s, p | s in m.suites
      ensures Includes(s, p) <==> Covers(s, p)
    {
      CoversMeans(s, p);
    }
    assert forall i :: 0 <= i < |m.suites| ==> m.suites[i] in m.suites;
  }

  lemma NoneEmptyMeans(m: Manifest, files: seq<string>, ids: seq<string>, executable: string -> bool)
    requires DistinctIds(m.suites) && AllStanding(m) && SelectedSuites(m, ids).Some?
    ensures NoneEmpty(m, SelectedSuites(m, ids).value, Executables(files, executable)) <==>
              forall s :: s in m.suites && Chosen(ids, s) && !s.zeroTests ==>
                exists p :: Wants(m, s, files, executable, p)
  {
    hide Planned, Executables, Wants, Standing, SelectedSuites, Chosen;
    SelectedMeans(m, ids);
    var suites, paths := SelectedSuites(m, ids).value, Executables(files, executable);
    forall s | s in m.suites
      ensures Planned(m, s, paths) != [] <==> exists p :: Wants(m, s, files, executable, p)
    {
      forall p
        ensures p in Planned(m, s, paths) <==> Wants(m, s, files, executable, p)
      {
        WantedIsPlanned(m, s, files, executable, p);
      }
      if Planned(m, s, paths) != [] {
        assert Planned(m, s, paths)[0] in Planned(m, s, paths);
      }
    }
    assert forall i :: 0 <= i < |suites| ==> suites[i] in suites;
  }

  lemma AccountedMeans(m: Manifest, files: seq<string>, ids: seq<string>, executable: string -> bool)
    requires DistinctIds(m.suites) && AllStanding(m) && SelectedSuites(m, ids).Some?
    ensures Accounted(m, SelectedSuites(m, ids).value, Executables(files, executable)) <==>
              forall p :: p in files && executable(p) ==>
                Excluded(m, p) || exists s :: s in m.suites && Chosen(ids, s) && Wants(m, s, files, executable, p)
  {
    hide Planned, Executables, Wants, Standing, SelectedSuites, Chosen, ExclusionCount, Excluded;
    SelectedMeans(m, ids);
    var suites, paths := SelectedSuites(m, ids).value, Executables(files, executable);
    forall p
      ensures p in paths <==> p in files && executable(p)
      ensures ExclusionCount(m.exclusions, p) > 0 <==> Excluded(m, p)
      ensures PlannedBySome(m, suites, paths, p)
         <==> exists s :: s in m.suites && Chosen(ids, s) && Wants(m, s, files, executable, p)
    {
      ExecutableElements(files, executable, p);
      ExcludedCounts(m, p);
      PlannedMeans(m, files, ids, executable, p);
    }
  }

  lemma ExcludedCounts(m: Manifest, p: string)
    ensures ExclusionCount(m.exclusions, p) > 0 <==> Excluded(m, p)
  {
    ExcludedMeans(m.exclusions, p);
  }

  lemma PlannedMeans(m: Manifest, files: seq<string>, ids: seq<string>, executable: string -> bool, p: string)
    requires DistinctIds(m.suites) && AllStanding(m) && SelectedSuites(m, ids).Some?
    ensures PlannedBySome(m, SelectedSuites(m, ids).value, Executables(files, executable), p)
       <==> exists s :: s in m.suites && Chosen(ids, s) && Wants(m, s, files, executable, p)
  {
    hide Planned, Executables, Wants, Standing, SelectedSuites, Chosen;
    SelectedMeans(m, ids);
    var suites, paths := SelectedSuites(m, ids).value, Executables(files, executable);
    forall s | s in m.suites
      ensures p in Planned(m, s, paths) <==> Wants(m, s, files, executable, p)
    {
      WantedIsPlanned(m, s, files, executable, p);
    }
    assert forall i :: 0 <= i < |suites| ==> suites[i] in suites;
  }

  /** The check accepts exactly such manifests, wherever double stars stand alone and no file is listed twice. */
  lemma AcceptedMeans(m: Manifest, files: seq<string>, ids: seq<string>, strict: bool, executable: string -> bool)
    requires DistinctIds(m.suites) && AllStanding(m) && Distinct(files)
    ensures InventoryAccepted(m, files, ids, strict, executable)
       <==> AcceptableByGlobs(m, files, ids, strict, executable)
  {
    assert ALL == "all";
    GlobsMean(m, files, executable);
    SelectedMeans(m, ids);
    if SelectedSuites(m, ids).Some? {
      ConflictMeans(m, files, ids, executable);
      NoneEmptyMeans(m, files, ids, executable);
      AccountedMeans(m, files, ids, executable);
    }
    hide Executables, Wants, Covers, SelectedSuites, Chosen, Excluded, Known, WantedTwice, NoConflict, NoneEmpty,
         Accounted, GlobsMatchExecutables, ALL;
    assert forall i :: 0 <= i < |m.exclusions| ==> m.exclusions[i] in m.exclusions;
  }

  lemma AcceptedWhere(m: Manifest, files: seq<string>, ids: seq<string>, strict: bool, executable: string -> bool)
    requires DistinctIds(m.suites)
    ensures AllStanding(m) && Distinct(files) ==>
              (InventoryAccepted(m, files, ids, strict, executable)
               <==> AcceptableByGlobs(m, files, ids, strict, executable))
  {
    hide *;
    if AllStanding(m) && Distinct(files) {
      AcceptedMeans(m, files, ids, strict, executable);
    }
  }
}
