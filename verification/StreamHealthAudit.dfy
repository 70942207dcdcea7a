/** The evaluation, as it fills the shared lists and counts, and what its report says. */
module StreamHealthAudit {
  import opened Prelude
  import opened StreamHealth
  import opened StreamHealthTheorems
  import opened StreamHealthFindings

  lemma SurfaceInOrder(before: seq<Finding>, s: Surface, vocabularyUnknown: bool)
    ensures before
            + When(s.disagrees, ProjectionDisagreement, OWNER_DOM)
            + When(!s.authResolved, InconclusiveAuth, AUDIT)
            + When(DomUnresolved(s), if s.domAuthenticated then InconclusiveSuspense else InconclusiveAuth, OWNER_DOM)
            + When(!s.paginationComplete, InconclusivePagination, PAGINATION)
            + When(!s.revisionExact, InconclusiveRevision, REVISION)
            + When(vocabularyUnknown, UnknownVocabulary, VOCABULARY)
         == before + SurfaceFindings(s, vocabularyUnknown)
  {
    hide When, DomUnresolved, OWNER_DOM, AUDIT, PAGINATION, REVISION, VOCABULARY;
  }

  class Aggregation {
    var findings: seq<Finding>
    var counts: map<Class, nat>
    var seen: set<string>

    ghost predicate Valid()
      reads this
    {
      Tallied(counts, findings)
    }

    lemma ValidMeans()
      requires Valid()
      ensures Tallied(counts, findings)
    {
    }

    constructor ()
      ensures Valid() && findings == [] && seen == {}
    {
      findings := [];
      counts := map verdict | verdict in CLASSES :: 0;
      seen := {};
      new;
      forall verdict ensures verdict in counts && counts[verdict] == CountClass([], verdict) {
        ListsEveryClass(verdict);
      }
    }

    method AddFinding(f: Finding)
      requires Valid()
      modifies this`findings, this`counts
      ensures Valid() && findings == old(findings) + [f]
    {
      ghost var before := findings;
      findings := findings + [f];
      counts := counts[f.verdict := counts[f.verdict] + 1];
      forall verdict ensures verdict in counts && counts[verdict] == CountClass(findings, verdict) {
        CountAppend(before, [f], verdict);
        assert [f][1..] == [];
      }
    }

    method EvaluateDeclaredStreams(c: Connection) returns (production: nat)
      requires Valid()
      modifies this`findings, this`counts
      ensures Valid() && findings == old(findings) + DeclaredFindings(c)
      ensures production == DeclaredProduction(c)
    {
      hide Tallied, InProduction, StreamFinding;
      production := 0;
      var streams := StreamsOf(c);
      if ManifestMissing(c) && !IsSynthetic(c) {
        return;
      }
      ghost var before := findings;
      if streams == [] {
        if IsSynthetic(c) {
          for k := 0 to |c.declaredStreams|
            invariant Valid()
            invariant findings + FixtureFindings(c, c.declaredStreams[k..])
                   == before + FixtureFindings(c, c.declaredStreams)
          {
            var fixture := Finding(SyntheticFixture, c.id, c.declaredStreams[k], false);
            ghost var rest := c.declaredStreams[k..];
            assert rest[1..] == c.declaredStreams[k + 1..];
            assert findings + ([fixture] + FixtureFindings(c, rest[1..]))
                == findings + [fixture] + FixtureFindings(c, rest[1..]);
            AddFinding(fixture);
          }
          return;
        }
        if c.lifecycle != Revoked {
          AddFinding(Finding(ManifestUnavailable, c.id, MANIFEST, false));
        }
        return;
      }
      for k := 0 to |streams|
        invariant Valid()
        invariant findings + StreamFindings(c, streams[k..]) == before + StreamFindings(c, streams)
        invariant production + ProductionStreams(c, streams[k..]) == ProductionStreams(c, streams)
      {
        var s := streams[k];
        assert streams[k..][1..] == streams[k + 1..];
        ghost var rest := StreamFindings(c, streams[k + 1..]);
        assert findings + ([StreamFinding(c, s)] + rest) == findings + [StreamFinding(c, s)] + rest;
        if InProduction(c, s) {
          production := production + 1;
        }
        AddFinding(StreamFinding(c, s));
      }
    }

    method EvaluateConnection(c: Connection) returns (production: nat, vocabularyUnknown: bool)
      requires Valid()
      modifies this
      ensures Valid() && findings == old(findings) + ConnectionFindings(c, old(seen))
      ensures seen == SeenAfter(c, old(seen))
      ensures production == ConnectionProduction(c, old(seen))
      ensures vocabularyUnknown == (!SeenBefore(c, old(seen)) && c.unknownVocabulary)
    {
      hide Tallied, DeclaredFindings, DeclaredProduction, IsSynthetic, ManifestMissing;
      if SeenBefore(c, seen) {
        AddFinding(Finding(ProjectionDisagreement, c.id, CONNECTION, false));
        return 0, false;
      }
      if c.id.Some? {
        seen := seen + {c.id.value};
      }
      ghost var before := findings;
      if !(c.id.Some? || IsSynthetic(c)) {
        AddFinding(Finding(ProjectionDisagreement, None, CONNECTION, false));
      }
      assert findings == before + NoIdFindings(c);
      var unavailable := (c.manifest.Some? && c.manifest.value.duplicate) || ManifestMissing(c);
      if unavailable && c.lifecycle == Active && !IsSynthetic(c) {
        AddFinding(Finding(ManifestUnavailable, c.id, MANIFEST, false));
      }
      assert findings == before + NoIdFindings(c) + ManifestFindings(c);
      production := EvaluateDeclaredStreams(c);
      vocabularyUnknown := c.unknownVocabulary;
    }

    // A finding about a surface, added under a condition.
    method AddWhen(condition: bool, verdict: Class, stream: string)
      requires Valid()
      modifies this`findings, this`counts
      ensures Valid() && findings == old(findings) + When(condition, verdict, stream)
    {
      hide Tallied;
      if condition {
        AddFinding(Finding(verdict, None, stream, false));
      }
    }

    /** The finding of compareDom, then those of gateFindings. */
    method AddSurface(s: Surface, vocabularyUnknown: bool)
      requires Valid()
      modifies this`findings, this`counts
      ensures Valid() && findings == old(findings) + SurfaceFindings(s, vocabularyUnknown)
    {
      hide *;
      ghost var before := findings;
      var verdict := if s.domAuthenticated then InconclusiveSuspense else InconclusiveAuth;
      AddWhen(s.disagrees, ProjectionDisagreement, OWNER_DOM);
      AddWhen(!s.authResolved, InconclusiveAuth, AUDIT);
      AddWhen(DomUnresolved(s), verdict, OWNER_DOM);
      AddWhen(!s.paginationComplete, InconclusivePagination, PAGINATION);
      AddWhen(!s.revisionExact, InconclusiveRevision, REVISION);
      AddWhen(vocabularyUnknown, UnknownVocabulary, VOCABULARY);
      SurfaceInOrder(before, s, vocabularyUnknown);
    }

    /** The rows that are connections; each malformed row is a finding. */
    method CollectConnections(rows: seq<Row>) returns (connections: seq<Connection>)
      requires Valid()
      modifies this`findings, this`counts
      ensures Valid() && findings == old(findings) + MalformedFindings(rows)
      ensures connections == Connections(rows)
    {
      hide Tallied;
      ghost var before := findings;
      connections := [];
      assert rows[0..] == rows;
      for k := 0 to |rows|
        invariant Valid()
        invariant findings + MalformedFindings(rows[k..]) == before + MalformedFindings(rows)
        invariant connections + Connections(rows[k..]) == Connections(rows)
      {
        assert rows[k..][1..] == rows[k + 1..];
        ghost var rest := MalformedFindings(rows[k + 1..]);
        if rows[k].Some? {
          connections := connections + [rows[k].value];
        } else {
          var malformed := Finding(ProjectionDisagreement, None, CONNECTION, false);
          assert findings + ([malformed] + rest) == findings + [malformed] + rest;
          AddFinding(malformed);
        }
      }
    }

    /** Every connection in turn. */
    method EvaluateFleet(connections: seq<Connection>) returns (production: nat, vocabularyUnknown: bool)
      requires Valid() && seen == {}
      modifies this
      ensures Valid() && findings == old(findings) + FleetFindings(connections, {})
      ensures production == FleetProduction(connections, {})
      ensures vocabularyUnknown == FleetVocabularyUnknown(connections, {})
    {
      hide Tallied, ConnectionFindings, ConnectionProduction, SeenAfter, SeenBefore;
      production, vocabularyUnknown := 0, false;
      ghost var before := findings;
      assert connections[0..] == connections;
      for k := 0 to |connections|
        invariant Valid()
        invariant findings + FleetFindings(connections[k..], seen) == before + FleetFindings(connections, {})
        invariant production + FleetProduction(connections[k..], seen) == FleetProduction(connections, {})
        invariant (vocabularyUnknown || FleetVocabularyUnknown(connections[k..], seen))
               == FleetVocabularyUnknown(connections, {})
      {
        assert connections[k..][1..] == connections[k + 1..];
        ghost var rest := FleetFindings(connections[k + 1..], SeenAfter(connections[k], seen));
        ghost var here := ConnectionFindings(connections[k], seen);
        assert findings + (here + rest) == findings + here + rest;
        var more, unknown := EvaluateConnection(connections[k]);
        production := production + more;
        vocabularyUnknown := vocabularyUnknown || unknown;
      }
    }
  }

  /** evaluateStreamHealthAuthority */
  method EvaluateStreamHealthAuthority(rows: seq<Row>, surface: Surface) returns (r: Report)
    ensures r.findings == AllFindings(rows, surface) && Tallied(r.counts, r.findings)
    ensures r.productionStreamCount == FleetProduction(Connections(rows), {})
    ensures r.numerator == ScoredGreen(r.findings) && r.denominator == Scored(r.findings)
    ensures r.gates == SurfaceGates(surface, FleetVocabularyUnknown(Connections(rows), {}))
    ensures r.coverage == ResultStatus(CoverageFindings(rows), Gates(true, true, true, true, r.gates.vocabulary))
    ensures r.status == ResultStatus(r.findings, r.gates)
    ensures forall f :: f in r.findings <==> Warranted(rows, surface, f)
    ensures |r.findings| == RowsTotal(rows, |rows|) + SurfaceTotal(surface, UnknownWord(rows))
    ensures r.status == Fail <==> exists f :: f in r.findings && MakesFail(f)
    ensures r.status == Pass <==>
      && EverySurfaceInOrder(surface) && !UnknownWord(rows)
      && forall f :: f in r.findings ==> !MissesGreen(f) && !StaysOpen(f)
    ensures r.gates == Gates(surface.authResolved, PageSettled(surface), surface.paginationComplete,
                             surface.revisionExact, !UnknownWord(rows))
    ensures r.coverage == Fail <==> exists f :: FleetWarrants(rows, f) && MakesFail(f)
    ensures r.coverage == Pass <==>
      !UnknownWord(rows) && forall f :: FleetWarrants(rows, f) ==> !MakesFail(f) && !StaysOpen(f)
    ensures r.productionStreamCount == r.denominator == |ScoredAt(r.findings)|
    ensures r.numerator == |ScoredGreenAt(r.findings)|
    ensures forall verdict :: verdict in r.counts && r.counts[verdict] == |ClassAt(r.findings, verdict)|
  {
    hide *;
    var aggregate := new Aggregation();
    var connections := aggregate.CollectConnections(rows);
    assert aggregate.findings == MalformedFindings(rows);
    var production, vocabularyUnknown := aggregate.EvaluateFleet(connections);
    CoverageMeans(rows);
    var coverage := ResultStatus(aggregate.findings, Gates(true, true, true, true, !vocabularyUnknown));
    aggregate.AddSurface(surface, vocabularyUnknown);
    AllMeans(rows, surface);
    GatesMean(surface, vocabularyUnknown);
    var gates := SurfaceGates(surface, vocabularyUnknown);
    var findings := aggregate.findings;
    assert Tallied(aggregate.counts, findings) by { aggregate.ValidMeans(); }
    r := Report(findings, aggregate.counts, production, ScoredGreen(findings), Scored(findings),
                coverage, ResultStatus(findings, gates), gates);
    FindingsTotal(rows, surface);
    VocabularyMeans(rows);
    GatesAre(surface, vocabularyUnknown);
    PassMeans(rows, surface);
    FailExactlyWhen(rows, surface, gates);
    CoverageMeansVerdict(rows);
    DenominatorIsProduction(rows, surface);
    forall f ensures f in findings <==> Warranted(rows, surface, f) {
      FindingsAreWarranted(rows, surface, f);
    }
    NumbersCount(findings, Green);
    forall verdict ensures verdict in r.counts && r.counts[verdict] == |ClassAt(findings, verdict)| {
      NumbersCount(findings, verdict);
      TalliedMeans(r.counts, findings, verdict);
    }
  }

  lemma TalliedMeans(counts: map<Class, nat>, findings: seq<Finding>, verdict: Class)
    requires Tallied(counts, findings)
    ensures verdict in counts && counts[verdict] == CountClass(findings, verdict)
  {
  }

  lemma GatesAre(s: Surface, unknownWord: bool)
    ensures SurfaceGates(s, unknownWord)
         == Gates(s.authResolved, PageSettled(s), s.paginationComplete, s.revisionExact, !unknownWord)
  {
  }
}
