/** What the score and the verdict mean, for every fleet and every surface. */
module StreamHealthTheorems {
  import opened StreamHealth

  // ---- Counting ----

  lemma {:induction false} CountsAdd(a: seq<Finding>, b: seq<Finding>)
    ensures Scored(a + b) == Scored(a) + Scored(b)
    ensures ScoredGreen(a + b) == ScoredGreen(a) + ScoredGreen(b)
    ensures CountClass(a + b, Green) == CountClass(a, Green) + CountClass(b, Green)
  {
    if a == [] {
      assert a + b == b;
    } else {
      assert (a + b)[0] == a[0] && (a + b)[1..] == a[1..] + b;
      CountsAdd(a[1..], b);
    }
  }

  // A finding is scored only if its class is one that the verdict looks at, and a green one always is.
  predicate Judged(f: Finding) {
    && (f.denominator ==> f.verdict == Green || Hard(f.verdict) || Open(f.verdict))
    && (f.verdict == Green ==> f.denominator)
  }

  predicate AllJudged(findings: seq<Finding>) {
    forall i :: 0 <= i < |findings| ==> Judged(findings[i])
  }

  predicate NoneScored(findings: seq<Finding>) {
    forall i :: 0 <= i < |findings| ==> !findings[i].denominator && findings[i].verdict != Green
  }

  lemma {:induction false} NoneScoredCounts(findings: seq<Finding>)
    requires NoneScored(findings)
    ensures Scored(findings) == 0 && AllJudged(findings)
  {
    if findings != [] {
      NoneScoredCounts(findings[1..]);
      assert findings == [findings[0]] + findings[1..];
    }
  }

  lemma StreamJudged(c: Connection, s: Stream)
    ensures Judged(StreamFinding(c, s))
    ensures StreamFinding(c, s).denominator <==> InProduction(c, s)
  {
  }

  lemma {:induction false} StreamsScored(c: Connection, streams: seq<Stream>)
    ensures Scored(StreamFindings(c, streams)) == ProductionStreams(c, streams)
    ensures AllJudged(StreamFindings(c, streams))
    decreases |streams|
  {
    hide StreamFinding, InProduction, Judged;
    if streams != [] {
      StreamJudged(c, streams[0]);
      StreamsScored(c, streams[1..]);
      var all := StreamFindings(c, streams);
      assert all[0] == StreamFinding(c, streams[0]) && all[1..] == StreamFindings(c, streams[1..]);
    }
  }

  lemma {:induction false} FixturesUnscored(c: Connection, names: seq<string>)
    ensures NoneScored(FixtureFindings(c, names))
  {
    if names != [] {
      FixturesUnscored(c, names[1..]);
    }
  }

  lemma {:induction false} MalformedUnscored(rows: seq<Row>)
    ensures NoneScored(MalformedFindings(rows))
  {
    if rows != [] {
      MalformedUnscored(rows[1..]);
    }
  }

  lemma NoStreamsNoProduction(c: Connection)
    requires StreamsOf(c) == []
    ensures ProductionStreams(c, StreamsOf(c)) == 0
  {
  }

  lemma DeclaredScored(c: Connection)
    ensures Scored(DeclaredFindings(c)) == DeclaredProduction(c) && AllJudged(DeclaredFindings(c))
  {
    hide StreamFindings, ProductionStreams, FixtureFindings, Judged, AllJudged, NoneScored, Scored;
    if ManifestMissing(c) && !IsSynthetic(c) {
      NoneScoredCounts([]) by { NothingScored(); }
    } else if StreamsOf(c) == [] {
      NoStreamsNoProduction(c);
      assert NoneScored(DeclaredFindings(c)) by {
        FixturesUnscored(c, c.declaredStreams);
        NothingScored();
        OneUnscored(Finding(ManifestUnavailable, c.id, MANIFEST, false));
      }
      NoneScoredCounts(DeclaredFindings(c));
    } else {
      StreamsScored(c, StreamsOf(c));
    }
  }

  lemma NothingScored()
    ensures NoneScored([])
  {
  }

  lemma OneUnscored(f: Finding)
    ensures NoneScored([f]) <==> !f.denominator && f.verdict != Green
  {
    assert [f][0] == f;
  }

  lemma AllJudgedJoin(a: seq<Finding>, b: seq<Finding>)
    ensures AllJudged(a + b) <==> AllJudged(a) && AllJudged(b)
  {
    hide Judged;
    assert forall i :: 0 <= i < |a| ==> (a + b)[i] == a[i];
    assert forall i :: 0 <= i < |b| ==> (a + b)[|a| + i] == b[i];
  }

  lemma OwnFindingsUnscored(c: Connection)
    ensures NoneScored(NoIdFindings(c)) && NoneScored(ManifestFindings(c))
  {
  }

  lemma ConnectionScored(c: Connection, seen: set<string>)
    ensures Scored(ConnectionFindings(c, seen)) == ConnectionProduction(c, seen)
    ensures AllJudged(ConnectionFindings(c, seen))
  {
    hide NoIdFindings, ManifestFindings, DeclaredFindings, DeclaredProduction, SeenBefore, NoneScored, AllJudged,
         Scored;
    if SeenBefore(c, seen) {
      OneUnscored(Finding(ProjectionDisagreement, c.id, CONNECTION, false));
      NoneScoredCounts(ConnectionFindings(c, seen));
    } else {
      OwnFindingsUnscored(c);
      NoneScoredCounts(NoIdFindings(c));
      NoneScoredCounts(ManifestFindings(c));
      DeclaredScored(c);
      CountsAdd(NoIdFindings(c), ManifestFindings(c));
      CountsAdd(NoIdFindings(c) + ManifestFindings(c), DeclaredFindings(c));
      AllJudgedJoin(NoIdFindings(c), ManifestFindings(c));
      AllJudgedJoin(NoIdFindings(c) + ManifestFindings(c), DeclaredFindings(c));
    }
  }

  lemma {:induction false} FleetScored(cs: seq<Connection>, seen: set<string>)
    ensures Scored(FleetFindings(cs, seen)) == FleetProduction(cs, seen)
    ensures AllJudged(FleetFindings(cs, seen))
    decreases |cs|
  {
    hide ConnectionFindings, ConnectionProduction, SeenAfter, Judged;
    if cs != [] {
      ConnectionScored(cs[0], seen);
      FleetScored(cs[1..], SeenAfter(cs[0], seen));
      CountsAdd(ConnectionFindings(cs[0], seen), FleetFindings(cs[1..], SeenAfter(cs[0], seen)));
      AllJudgedJoin(ConnectionFindings(cs[0], seen), FleetFindings(cs[1..], SeenAfter(cs[0], seen)));
    }
  }

  lemma WhenUnscored(condition: bool, verdict: Class, stream: string)
    requires verdict != Green
    ensures NoneScored(When(condition, verdict, stream))
  {
  }

  lemma NoneScoredJoin(a: seq<Finding>, b: seq<Finding>)
    requires NoneScored(a) && NoneScored(b)
    ensures NoneScored(a + b)
  {
  }

  lemma SurfaceUnscored(s: Surface, vocabularyUnknown: bool)
    ensures NoneScored(SurfaceFindings(s, vocabularyUnknown))
  {
    hide When, NoneScored, DomUnresolved, OWNER_DOM, AUDIT, PAGINATION, REVISION, VOCABULARY;
    var verdict := if s.domAuthenticated then InconclusiveSuspense else InconclusiveAuth;
    var f1 := When(s.disagrees, ProjectionDisagreement, OWNER_DOM);
    var f2 := When(!s.authResolved, InconclusiveAuth, AUDIT);
    var f3 := When(DomUnresolved(s), verdict, OWNER_DOM);
    var f4 := When(!s.paginationComplete, InconclusivePagination, PAGINATION);
    var f5 := When(!s.revisionExact, InconclusiveRevision, REVISION);
    var f6 := When(vocabularyUnknown, UnknownVocabulary, VOCABULARY);
    WhenUnscored(s.disagrees, ProjectionDisagreement, OWNER_DOM);
    WhenUnscored(!s.authResolved, InconclusiveAuth, AUDIT);
    WhenUnscored(DomUnresolved(s), verdict, OWNER_DOM);
    WhenUnscored(!s.paginationComplete, InconclusivePagination, PAGINATION);
    WhenUnscored(!s.revisionExact, InconclusiveRevision, REVISION);
    WhenUnscored(vocabularyUnknown, UnknownVocabulary, VOCABULARY);
    NoneScoredJoin(f1, f2);
    NoneScoredJoin(f1 + f2, f3);
    NoneScoredJoin(f1 + f2 + f3, f4);
    NoneScoredJoin(f1 + f2 + f3 + f4, f5);
    NoneScoredJoin(f1 + f2 + f3 + f4 + f5, f6);
  }

  lemma AllScored(rows: seq<Row>, surface: Surface)
    ensures Scored(AllFindings(rows, surface)) == FleetProduction(Connections(rows), {})
    ensures AllJudged(AllFindings(rows, surface))
  {
    hide *;
    var unknown := FleetVocabularyUnknown(Connections(rows), {});
    var m, f, s := MalformedFindings(rows), FleetFindings(Connections(rows), {}), SurfaceFindings(surface, unknown);
    MalformedUnscored(rows);
    NoneScoredCounts(m);
    FleetScored(Connections(rows), {});
    SurfaceUnscored(surface, unknown);
    NoneScoredCounts(s);
    CountsAdd(m, f);
    CountsAdd(m + f, s);
    AllJudgedJoin(m, f);
    AllJudgedJoin(m + f, s);
    CoverageMeans(rows);
    AllMeans(rows, surface);
  }

  /** For every input the score's denominator is the number of production streams. */
  lemma DenominatorIsProduction(rows: seq<Row>, surface: Surface)
    ensures Scored(AllFindings(rows, surface)) == FleetProduction(Connections(rows), {})
  {
    AllScored(rows, surface);
  }

  // ---- The counts ----

  function SumOf(classes: seq<Class>, findings: seq<Finding>): nat {
    if classes == [] then 0 else CountClass(findings, classes[0]) + SumOf(classes[1..], findings)
  }

  function Ordinal(verdict: Class): nat {
    match verdict
    case Green => 0 case SyntheticFixture => 1 case RevokedStream => 2 case OptionalUnsupported => 3
    case UnknownVocabulary => 4 case ProjectionDisagreement => 5 case OwnerInteraction => 6
    case ActiveBoundedWork => 7 case ProviderConfigBlocked => 8 case Failed => 9 case Stale => 10
    case Unobserved => 11 case ManifestUnavailable => 12 case InconclusiveAuth => 13
    case InconclusiveSuspense => 14 case InconclusivePagination => 15 case InconclusiveRevision => 16
  }

  predicate Ascending(classes: seq<Class>) {
    forall i, j :: 0 <= i < j < |classes| ==> Ordinal(classes[i]) < Ordinal(classes[j])
  }

  lemma ClassesAscend()
    ensures Ascending(CLASSES)
  {
    var n := |CLASSES|;
    forall i | 0 <= i < n ensures Ordinal(CLASSES[i]) == i {
      assert i == 0 || i == 1 || i == 2 || i == 3 || i == 4 || i == 5 || i == 6 || i == 7 || i == 8 || i == 9
        || i == 10 || i == 11 || i == 12 || i == 13 || i == 14 || i == 15 || i == 16;
    }
  }

  lemma {:induction false} SumOfNothing(classes: seq<Class>)
    ensures SumOf(classes, []) == 0
  {
    if classes != [] {
      SumOfNothing(classes[1..]);
    }
  }

  lemma {:induction false} SumOfOneMore(classes: seq<Class>, findings: seq<Finding>)
    requires Ascending(classes) && findings != []
    ensures SumOf(classes, findings)
         == SumOf(classes, findings[1..]) + if findings[0].verdict in classes then 1 else 0
    decreases |classes|
  {
    hide Ordinal;
    if classes != [] {
      SumOfOneMore(classes[1..], findings);
      assert classes == [classes[0]] + classes[1..];
      var rest := classes[1..];
      assert forall i :: 0 <= i < |rest| ==> rest[i] == classes[i + 1] && Ordinal(classes[0]) < Ordinal(rest[i]);
      assert classes[0] !in rest;
    }
  }

  /** Every finding is counted in exactly one class. */
  lemma {:induction false} CountsAddUp(findings: seq<Finding>)
    ensures SumOf(CLASSES, findings) == |findings|
  {
    hide CLASSES, Ordinal;
    ClassesAscend();
    if findings == [] {
      SumOfNothing(CLASSES);
    } else {
      CountsAddUp(findings[1..]);
      SumOfOneMore(CLASSES, findings);
      ListsEveryClass(findings[0].verdict);
    }
  }

  lemma {:induction false} GreenCounts(findings: seq<Finding>)
    requires AllJudged(findings)
    ensures ScoredGreen(findings) == CountClass(findings, Green)
    ensures ScoredGreen(findings) <= Scored(findings)
    ensures ScoredGreen(findings) == Scored(findings)
       <==> (forall i :: 0 <= i < |findings| && findings[i].denominator ==> findings[i].verdict == Green)
  {
    if findings != [] {
      var rest := findings[1..];
      assert forall i :: 0 <= i < |rest| ==> rest[i] == findings[i + 1];
      assert Judged(findings[0]);
      GreenCounts(rest);
      assert findings == [findings[0]] + rest;
    }
  }

  /** The numerator is the count of the green class, and never exceeds the denominator. */
  lemma NumeratorIsGreenCount(rows: seq<Row>, surface: Surface)
    ensures var all := AllFindings(rows, surface);
            ScoredGreen(all) == CountClass(all, Green) && ScoredGreen(all) <= Scored(all)
  {
    hide AllFindings;
    AllScored(rows, surface);
    GreenCounts(AllFindings(rows, surface));
  }

  // ---- The verdict ----

  predicate AllResolved(g: Gates) {
    g.auth && g.dom && g.pagination && g.revision && g.vocabulary
  }

  /**
   * The verdict is a pass exactly when every gate is resolved, every scored stream is green and no
   * finding, scored or not, is left open.
   */
  lemma PassExactlyWhen(rows: seq<Row>, surface: Surface, gates: Gates)
    ensures var all := AllFindings(rows, surface);
            (ResultStatus(all, gates) == Pass
             <==> AllResolved(gates) && ScoredGreen(all) == Scored(all) && !LeavesOpen(all))
  {
    hide AllFindings, Scored, ScoredGreen;
    var all := AllFindings(rows, surface);
    AllScored(rows, surface);
    GreenCounts(all);
    if ScoredGreen(all) == Scored(all) && !LeavesOpen(all) {
      assert !Fails(all) by {
        forall i | 0 <= i < |all| ensures !FailsFor(all[i]) {
          assert !Open(all[i].verdict);
        }
      }
    }
    if !Fails(all) && !LeavesOpen(all) {
      forall i | 0 <= i < |all| && all[i].denominator ensures all[i].verdict == Green {
        assert Judged(all[i]);
        assert !Open(all[i].verdict);
        assert !FailsFor(all[i]);
      }
    }
  }

  function Rank(s: Status): nat {
    match s case Fail => 0 case Inconclusive => 1 case Pass => 2
  }

  lemma MoreFindingsNoBetter(findings: seq<Finding>, more: seq<Finding>, strict: Gates, loose: Gates)
    requires AllResolved(strict) ==> AllResolved(loose)
    ensures Rank(ResultStatus(findings + more, strict)) <= Rank(ResultStatus(findings, loose))
  {
    hide Hard, Open;
    var all := findings + more;
    if Fails(findings) {
      var i :| 0 <= i < |findings| && FailsFor(findings[i]);
      assert all[i] == findings[i];
    }
    if LeavesOpen(findings) {
      var i :| 0 <= i < |findings| && Open(findings[i].verdict);
      assert all[i] == findings[i];
    }
  }

  /** The final verdict is never better than the coverage verdict taken before the surfaces. */
  lemma NeverBetterThanCoverage(rows: seq<Row>, surface: Surface)
    ensures var gates := SurfaceGates(surface, FleetVocabularyUnknown(Connections(rows), {}));
            Rank(ResultStatus(AllFindings(rows, surface), gates))
            <= Rank(ResultStatus(CoverageFindings(rows), Gates(true, true, true, true, gates.vocabulary)))
  {
    hide ResultStatus, SurfaceFindings, CoverageFindings, FleetVocabularyUnknown, Rank;
    var unknown := FleetVocabularyUnknown(Connections(rows), {});
    var gates := SurfaceGates(surface, unknown);
    AllMeans(rows, surface);
    MoreFindingsNoBetter(CoverageFindings(rows), SurfaceFindings(surface, unknown), gates,
                         Gates(true, true, true, true, gates.vocabulary));
  }

  /** A pass alone says nothing about how much was scored: a fleet without streams passes with 0/0. */
  lemma EmptyFleetPasses()
    ensures var surface := Surface(false, true, true, false, true, true, true, true);
            var all := AllFindings([], surface);
            && Scored(all) == 0
            && ResultStatus(all, SurfaceGates(surface, FleetVocabularyUnknown(Connections([]), {}))) == Pass
  {
    var surface := Surface(false, true, true, false, true, true, true, true);
    assert Connections([]) == [];
    assert SurfaceFindings(surface, false) == [];
    assert AllFindings([], surface) == [];
  }
}
