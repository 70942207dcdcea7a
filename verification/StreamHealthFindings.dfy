/**
 * Which findings a fleet and its surfaces give rise to, and what verdict they amount to, each said of the
 * rows and the surface alone.
 */
module StreamHealthFindings {
  import opened Prelude
  import opened StreamHealth
  import opened StreamHealthTheorems

  // ---- The class of a stream ----

  /** The connection is a fixture, by its own mark or by its manifest's. */
  predicate Fixture(c: Connection) {
    c.markedSynthetic || (c.manifest.Some? && c.manifest.value.synthetic)
  }

  /** The evidence that can decide a stream's class, the weightiest first. */
  function Evidence(c: Connection, s: Stream): seq<(bool, Class)> {
    [(s.synthetic || Fixture(c), SyntheticFixture),
     (c.lifecycle == Revoked, RevokedStream),
     (s.optionalUnsupported, OptionalUnsupported),
     (c.unknownVocabulary, UnknownVocabulary),
     (c.projectionDisagreement, ProjectionDisagreement),
     (c.lifecycle == UnknownStatus, UnknownVocabulary),
     (c.lifecycle == Draft || c.lifecycle == Paused || c.lifecycle == Rejected, OwnerInteraction),
     (c.needsOwner, OwnerInteraction),
     (c.activeWork, ActiveBoundedWork),
     (s.providerBlocked, ProviderConfigBlocked),
     (c.latestRunFailed || s.failed, Failed),
     (s.stale, Stale),
     (c.unobserved, Unobserved),
     (s.green, Green),
     (true, Unobserved)]
  }

  /** The class belongs to the first evidence that holds. */
  predicate FirstEvidence(evidence: seq<(bool, Class)>, verdict: Class) {
    exists k :: 0 <= k < |evidence| && evidence[k] == (true, verdict) && forall j :: 0 <= j < k ==> !evidence[j].0
  }

  /** Only a supported stream of an active connection is scored, and never a fixture. */
  predicate IsScored(c: Connection, s: Stream) {
    c.lifecycle == Active && !s.optionalUnsupported && !s.synthetic && !Fixture(c)
  }

  predicate AboutStream(c: Connection, s: Stream, f: Finding) {
    && FirstEvidence(Evidence(c, s), f.verdict)
    && f.connection == c.id && f.stream == s.name && f.denominator == IsScored(c, s)
  }

  /** The place of the first evidence that holds. */
  function Deciding(c: Connection, s: Stream): (k: nat)
    ensures k < 15
  {
    if s.synthetic || Fixture(c) then 0
    else if c.lifecycle == Revoked then 1
    else if s.optionalUnsupported then 2
    else if c.unknownVocabulary then 3
    else if c.projectionDisagreement then 4
    else if c.lifecycle == UnknownStatus then 5
    else if c.lifecycle != Active then 6
    else if c.needsOwner then 7
    else if c.activeWork then 8
    else if s.providerBlocked then 9
    else if c.latestRunFailed || s.failed then 10
    else if s.stale then 11
    else if c.unobserved then 12
    else if s.green then 13
    else 14
  }

  lemma DecidingHolds(c: Connection, s: Stream)
    ensures |Evidence(c, s)| == 15 && Evidence(c, s)[Deciding(c, s)] == (true, ClassForStream(c, s).0)
  {
  }

  lemma NothingEarlierHolds(c: Connection, s: Stream, j: nat)
    requires j < Deciding(c, s)
    ensures |Evidence(c, s)| == 15 && !Evidence(c, s)[j].0
  {
    hide ClassForStream;
  }

  lemma OnlyOneIsFirst(evidence: seq<(bool, Class)>, k: nat, verdict: Class)
    requires k < |evidence| && evidence[k].0 && forall j :: 0 <= j < k ==> !evidence[j].0
    ensures FirstEvidence(evidence, verdict) <==> verdict == evidence[k].1
  {
    if verdict == evidence[k].1 {
      assert evidence[k] == (true, verdict);
    }
  }

  /** A stream's class is that of the weightiest evidence, and it is scored exactly when it should be. */
  lemma StreamFindingMeans(c: Connection, s: Stream, f: Finding)
    ensures f == StreamFinding(c, s) <==> AboutStream(c, s, f)
  {
    hide Evidence, FirstEvidence, Deciding, ClassForStream;
    DecidingHolds(c, s);
    forall j: nat | j < Deciding(c, s) ensures !Evidence(c, s)[j].0 {
      NothingEarlierHolds(c, s, j);
    }
    OnlyOneIsFirst(Evidence(c, s), Deciding(c, s), f.verdict);
    ScoredMeans(c, s);
  }

  lemma ScoredMeans(c: Connection, s: Stream)
    ensures StreamFinding(c, s).denominator == IsScored(c, s)
    ensures StreamFinding(c, s).verdict == ClassForStream(c, s).0
    ensures StreamFinding(c, s).connection == c.id && StreamFinding(c, s).stream == s.name
  {
  }

  // ---- The findings of one connection ----

  /** The manifest is there but unusable. */
  predicate Unusable(c: Connection) {
    c.manifest.Some? && (c.manifest.value.invalid || |c.manifest.value.streams| == 0)
  }

  predicate AboutIdentity(c: Connection, f: Finding) {
    c.id.None? && !Fixture(c) && f == Finding(ProjectionDisagreement, None, "<connection>", false)
  }

  predicate AboutManifest(c: Connection, f: Finding) {
    && !Fixture(c) && f == Finding(ManifestUnavailable, c.id, "<manifest>", false)
    && if c.manifest.None? then c.lifecycle != Revoked
       else c.lifecycle == Active && (c.manifest.value.duplicate || Unusable(c))
  }

  predicate AboutDeclared(c: Connection, f: Finding) {
    && Fixture(c) && (c.manifest.Some? ==> |c.manifest.value.streams| == 0)
    && exists name :: name in c.declaredStreams && f == Finding(SyntheticFixture, c.id, name, false)
  }

  predicate AboutSomeStream(c: Connection, f: Finding) {
    && c.manifest.Some? && (Fixture(c) || !c.manifest.value.invalid)
    && exists s :: s in c.manifest.value.streams && AboutStream(c, s, f)
  }

  predicate AboutConnection(c: Connection, f: Finding) {
    AboutIdentity(c, f) || AboutManifest(c, f) || AboutDeclared(c, f) || AboutSomeStream(c, f)
  }

  lemma {:induction false} StreamsMean(c: Connection, streams: seq<Stream>, f: Finding)
    ensures f in StreamFindings(c, streams) <==> exists s :: s in streams && f == StreamFinding(c, s)
    decreases |streams|
  {
    hide StreamFinding;
    if streams != [] {
      StreamsMean(c, streams[1..], f);
      assert streams == [streams[0]] + streams[1..];
    }
  }

  lemma {:induction false} FixturesMean(c: Connection, names: seq<string>, f: Finding)
    ensures f in FixtureFindings(c, names)
       <==> exists name :: name in names && f == Finding(SyntheticFixture, c.id, name, false)
    decreases |names|
  {
    if names != [] {
      FixturesMean(c, names[1..], f);
      assert names == [names[0]] + names[1..];
    }
  }

  lemma NamedStreams(c: Connection, streams: seq<Stream>, f: Finding)
    ensures f in StreamFindings(c, streams) <==> exists s :: s in streams && AboutStream(c, s, f)
  {
    hide StreamFindings, StreamFinding, AboutStream;
    StreamsMean(c, streams, f);
    forall s | s in streams ensures f == StreamFinding(c, s) <==> AboutStream(c, s, f) {
      StreamFindingMeans(c, s, f);
    }
  }

  lemma DeclaredMeans(c: Connection, f: Finding)
    ensures f in ManifestFindings(c) + DeclaredFindings(c)
       <==> AboutManifest(c, f) || AboutDeclared(c, f) || AboutSomeStream(c, f)
  {
    hide StreamFindings, FixtureFindings, AboutStream;
    NamedStreams(c, StreamsOf(c), f);
    FixturesMean(c, c.declaredStreams, f);
  }

  lemma ConnectionMeans(c: Connection, seen: set<string>, f: Finding)
    requires !SeenBefore(c, seen)
    ensures f in ConnectionFindings(c, seen) <==> AboutConnection(c, f)
  {
    hide ManifestFindings, DeclaredFindings, AboutManifest, AboutDeclared, AboutSomeStream;
    DeclaredMeans(c, f);
    var n, m, d := NoIdFindings(c), ManifestFindings(c), DeclaredFindings(c);
    assert n + m + d == n + (m + d);
  }

  // ---- The findings of a fleet ----

  /** An earlier row has the connection's id. */
  predicate Repeated(rows: seq<Row>, k: nat)
    requires k < |rows|
  {
    && rows[k].Some? && rows[k].value.id.Some?
    && exists j :: 0 <= j < k && rows[j].Some? && rows[j].value.id == rows[k].value.id
  }

  predicate AboutRow(rows: seq<Row>, k: nat, f: Finding)
    requires k < |rows|
  {
    if rows[k].None? then f == Finding(ProjectionDisagreement, None, "<connection>", false)
    else if Repeated(rows, k) then f == Finding(ProjectionDisagreement, rows[k].value.id, "<connection>", false)
    else AboutConnection(rows[k].value, f)
  }

  /** The fleet gives rise to the finding. */
  predicate FleetWarrants(rows: seq<Row>, f: Finding) {
    exists k :: 0 <= k < |rows| && AboutRow(rows, k, f)
  }

  /** A connection that is judged uses a word outside the closed vocabulary. */
  predicate UnknownWord(rows: seq<Row>) {
    exists k :: 0 <= k < |rows| && rows[k].Some? && !Repeated(rows, k) && rows[k].value.unknownVocabulary
  }

  /** The ids of the first n rows. */
  ghost predicate IdsBefore(rows: seq<Row>, n: nat, seen: set<string>)
    requires n <= |rows|
  {
    forall id :: id in seen <==> exists j :: 0 <= j < n && rows[j].Some? && rows[j].value.id == Some(id)
  }

  lemma SeenMeansRepeated(rows: seq<Row>, n: nat, seen: set<string>)
    requires n < |rows| && rows[n].Some? && IdsBefore(rows, n, seen)
    ensures SeenBefore(rows[n].value, seen) <==> Repeated(rows, n)
    ensures IdsBefore(rows, n + 1, SeenAfter(rows[n].value, seen))
  {
    var c := rows[n].value;
    var after := SeenAfter(c, seen);
    forall id
      ensures id in after <==> exists j :: 0 <= j < n + 1 && rows[j].Some? && rows[j].value.id == Some(id)
    {
      if c.id == Some(id) {
        assert rows[n].value.id == Some(id);
      }
    }
  }

  lemma SeenStays(rows: seq<Row>, n: nat, seen: set<string>)
    requires n < |rows| && rows[n].None? && IdsBefore(rows, n, seen)
    ensures IdsBefore(rows, n + 1, seen)
  {
  }

  lemma ConnectionsFrom(rows: seq<Row>, n: nat)
    requires n < |rows|
    ensures Connections(rows[n..])
         == if rows[n].Some? then [rows[n].value] + Connections(rows[n + 1..]) else Connections(rows[n + 1..])
  {
    assert rows[n..][0] == rows[n] && rows[n..][1..] == rows[n + 1..];
  }

  predicate SomeRowFrom(rows: seq<Row>, n: nat, f: Finding) {
    exists k :: n <= k < |rows| && rows[k].Some? && AboutRow(rows, k, f)
  }

  lemma OneRow(rows: seq<Row>, n: nat, seen: set<string>, f: Finding)
    requires n < |rows| && rows[n].Some? && IdsBefore(rows, n, seen)
    ensures f in ConnectionFindings(rows[n].value, seen) <==> AboutRow(rows, n, f)
  {
    hide AboutConnection, IdsBefore, SeenBefore, Repeated, NoIdFindings, ManifestFindings, DeclaredFindings;
    SeenMeansRepeated(rows, n, seen);
    if !Repeated(rows, n) {
      ConnectionMeans(rows[n].value, seen, f);
    }
  }

  lemma FirstOfFleet(cs: seq<Connection>, seen: set<string>, f: Finding)
    requires cs != []
    ensures f in FleetFindings(cs, seen)
       <==> f in ConnectionFindings(cs[0], seen) || f in FleetFindings(cs[1..], SeenAfter(cs[0], seen))
  {
    hide ConnectionFindings, SeenAfter;
  }

  lemma FirstOfSome(rows: seq<Row>, n: nat, f: Finding)
    requires n < |rows|
    ensures SomeRowFrom(rows, n, f) <==> (rows[n].Some? && AboutRow(rows, n, f)) || SomeRowFrom(rows, n + 1, f)
  {
    hide AboutRow;
  }

  lemma {:induction false} FleetMeans(rows: seq<Row>, n: nat, seen: set<string>, f: Finding)
    requires n <= |rows| && IdsBefore(rows, n, seen)
    ensures f in FleetFindings(Connections(rows[n..]), seen) <==> SomeRowFrom(rows, n, f)
    decreases |rows| - n
  {
    hide IdsBefore, ConnectionFindings, SeenAfter, AboutRow, FleetFindings, SomeRowFrom;
    if n == |rows| {
      NothingFrom(rows, f);
    } else {
      ConnectionsFrom(rows, n);
      FirstOfSome(rows, n, f);
      var rest := Connections(rows[n + 1..]);
      if rows[n].None? {
        SeenStays(rows, n, seen);
        FleetMeans(rows, n + 1, seen, f);
      } else {
        var cs := [rows[n].value] + rest;
        assert cs[0] == rows[n].value && cs[1..] == rest;
        SeenMeansRepeated(rows, n, seen);
        FleetMeans(rows, n + 1, SeenAfter(rows[n].value, seen), f);
        OneRow(rows, n, seen, f);
        FirstOfFleet(cs, seen, f);
      }
    }
  }

  lemma NothingFrom(rows: seq<Row>, f: Finding)
    ensures !SomeRowFrom(rows, |rows|, f)
    ensures forall seen :: FleetFindings(Connections(rows[|rows|..]), seen) == []
  {
  }

  lemma {:induction false} MalformedMeans(rows: seq<Row>, f: Finding)
    ensures f in MalformedFindings(rows)
       <==> None in rows && f == Finding(ProjectionDisagreement, None, "<connection>", false)
  {
    if rows != [] {
      MalformedMeans(rows[1..], f);
      assert rows == [rows[0]] + rows[1..];
    }
  }

  /** The findings before the surfaces are looked at are exactly those the fleet gives rise to. */
  lemma CoverageFindingsMean(rows: seq<Row>, f: Finding)
    ensures f in CoverageFindings(rows) <==> FleetWarrants(rows, f)
  {
    hide FleetFindings, MalformedFindings, AboutConnection, Repeated;
    MalformedMeans(rows, f);
    assert rows[0..] == rows;
    FleetMeans(rows, 0, {}, f);
    if None in rows {
      var k :| 0 <= k < |rows| && rows[k] == None;
      assert AboutRow(rows, k, f) <==> f == Finding(ProjectionDisagreement, None, "<connection>", false);
    }
  }

  predicate UnknownFrom(rows: seq<Row>, n: nat) {
    exists k :: n <= k < |rows| && rows[k].Some? && !Repeated(rows, k) && rows[k].value.unknownVocabulary
  }

  lemma {:induction false} VocabularyFrom(rows: seq<Row>, n: nat, seen: set<string>)
    requires n <= |rows| && IdsBefore(rows, n, seen)
    ensures FleetVocabularyUnknown(Connections(rows[n..]), seen) <==> UnknownFrom(rows, n)
    decreases |rows| - n
  {
    hide IdsBefore, SeenAfter, SeenBefore, Repeated;
    if n < |rows| {
      ConnectionsFrom(rows, n);
      var rest := Connections(rows[n + 1..]);
      if rows[n].None? {
        SeenStays(rows, n, seen);
        VocabularyFrom(rows, n + 1, seen);
      } else {
        var cs := [rows[n].value] + rest;
        assert cs[0] == rows[n].value && cs[1..] == rest;
        SeenMeansRepeated(rows, n, seen);
        VocabularyFrom(rows, n + 1, SeenAfter(rows[n].value, seen));
      }
    }
  }

  lemma VocabularyMeans(rows: seq<Row>)
    ensures FleetVocabularyUnknown(Connections(rows), {}) <==> UnknownWord(rows)
  {
    assert rows[0..] == rows;
    VocabularyFrom(rows, 0, {});
  }

  // ---- The findings of the surfaces ----

  /** The rendered page is that of the signed-in owner, complete and at rest. */
  predicate PageSettled(s: Surface) {
    s.domResolved && s.domAuthenticated && s.renderedRows && !s.suspense
  }

  predicate SurfaceWarrants(s: Surface, unknownWord: bool, f: Finding) {
    || (s.disagrees && f == Finding(ProjectionDisagreement, None, "<owner-dom>", false))
    || (!s.authResolved && f == Finding(InconclusiveAuth, None, "<audit>", false))
    || (!PageSettled(s) && s.domAuthenticated && f == Finding(InconclusiveSuspense, None, "<owner-dom>", false))
    || (!s.domAuthenticated && f == Finding(InconclusiveAuth, None, "<owner-dom>", false))
    || (!s.paginationComplete && f == Finding(InconclusivePagination, None, "<pagination>", false))
    || (!s.revisionExact && f == Finding(InconclusiveRevision, None, "<revision>", false))
    || (unknownWord && f == Finding(UnknownVocabulary, None, "<vocabulary>", false))
  }

  lemma SurfaceMeans(s: Surface, unknownWord: bool, f: Finding)
    ensures f in SurfaceFindings(s, unknownWord) <==> SurfaceWarrants(s, unknownWord, f)
  {
  }

  predicate Warranted(rows: seq<Row>, surface: Surface, f: Finding) {
    FleetWarrants(rows, f) || SurfaceWarrants(surface, UnknownWord(rows), f)
  }

  /** The findings of a report are exactly those that the fleet or the surface gives rise to. */
  lemma FindingsAreWarranted(rows: seq<Row>, surface: Surface, f: Finding)
    ensures f in AllFindings(rows, surface) <==> Warranted(rows, surface, f)
  {
    hide CoverageFindings, FleetFindings, SurfaceFindings, FleetVocabularyUnknown, FleetWarrants, SurfaceWarrants,
         UnknownWord;
    CoverageFindingsMean(rows, f);
    VocabularyMeans(rows);
    SurfaceMeans(surface, UnknownWord(rows), f);
  }

  // ---- How many findings there are ----

  function One(condition: bool): nat {
    if condition then 1 else 0
  }

  /** How many findings a connection gives rise to that is judged. */
  function OwnTotal(c: Connection): nat {
    One(c.id.None? && !Fixture(c))
    + One(!Fixture(c) && if c.manifest.None? then c.lifecycle != Revoked
                         else c.lifecycle == Active && (c.manifest.value.duplicate || Unusable(c)))
    + if c.manifest.None? || |c.manifest.value.streams| == 0 then (if Fixture(c) then |c.declaredStreams| else 0)
      else if Fixture(c) || !c.manifest.value.invalid then |c.manifest.value.streams|
      else 0
  }

  function RowTotal(rows: seq<Row>, k: nat): nat
    requires k < |rows|
  {
    if rows[k].None? || Repeated(rows, k) then 1 else OwnTotal(rows[k].value)
  }

  function RowsTotal(rows: seq<Row>, n: nat): nat
    requires n <= |rows|
  {
    if n == 0 then 0 else RowsTotal(rows, n - 1) + RowTotal(rows, n - 1)
  }

  function SurfaceTotal(s: Surface, unknownWord: bool): nat {
    One(s.disagrees) + One(!s.authResolved) + One(!PageSettled(s)) + One(!s.paginationComplete)
    + One(!s.revisionExact) + One(unknownWord)
  }

  lemma {:induction false} StreamTotals(c: Connection, streams: seq<Stream>, names: seq<string>)
    ensures |StreamFindings(c, streams)| == |streams|
    ensures |FixtureFindings(c, names)| == |names|
    decreases |streams| + |names|
  {
    if streams != [] {
      StreamTotals(c, streams[1..], names);
    } else if names != [] {
      StreamTotals(c, streams, names[1..]);
    }
  }

  lemma ConnectionTotal(c: Connection, seen: set<string>)
    requires !SeenBefore(c, seen)
    ensures |ConnectionFindings(c, seen)| == OwnTotal(c)
  {
    hide StreamFindings, FixtureFindings;
    StreamTotals(c, StreamsOf(c), c.declaredStreams);
  }

  // The rows that are no connections, and the findings of those that are, up to the n-th row.
  lemma {:induction false} FleetTotal(rows: seq<Row>, n: nat, seen: set<string>)
    requires n <= |rows| && IdsBefore(rows, n, seen)
    ensures |MalformedFindings(rows[n..])| + |FleetFindings(Connections(rows[n..]), seen)| + RowsTotal(rows, n)
         == RowsTotal(rows, |rows|)
    decreases |rows| - n
  {
    hide IdsBefore, ConnectionFindings, SeenAfter, SeenBefore, Repeated, OwnTotal;
    if n < |rows| {
      assert rows[n..][0] == rows[n] && rows[n..][1..] == rows[n + 1..];
      ConnectionsFrom(rows, n);
      if rows[n].None? {
        SeenStays(rows, n, seen);
        FleetTotal(rows, n + 1, seen);
      } else {
        var cs := [rows[n].value] + Connections(rows[n + 1..]);
        assert cs[0] == rows[n].value && cs[1..] == Connections(rows[n + 1..]);
        SeenMeansRepeated(rows, n, seen);
        FleetTotal(rows, n + 1, SeenAfter(rows[n].value, seen));
        OneRowTotal(rows, n, seen);
      }
    }
  }

  lemma OneRowTotal(rows: seq<Row>, n: nat, seen: set<string>)
    requires n < |rows| && rows[n].Some? && (SeenBefore(rows[n].value, seen) <==> Repeated(rows, n))
    ensures |ConnectionFindings(rows[n].value, seen)| == RowTotal(rows, n)
  {
    hide SeenBefore, Repeated, OwnTotal, NoIdFindings, ManifestFindings, DeclaredFindings;
    if !Repeated(rows, n) {
      ConnectionTotal(rows[n].value, seen);
    }
  }

  /** No finding is made twice: there are as many as the rows and the surface give rise to, one for each cause. */
  lemma FindingsTotal(rows: seq<Row>, surface: Surface)
    ensures |AllFindings(rows, surface)| == RowsTotal(rows, |rows|) + SurfaceTotal(surface, UnknownWord(rows))
  {
    hide FleetFindings, MalformedFindings, FleetVocabularyUnknown, UnknownWord, RowsTotal, Connections;
    assert rows[0..] == rows;
    FleetTotal(rows, 0, {});
    assert RowsTotal(rows, 0) == 0 by { NoRows(rows); }
    VocabularyMeans(rows);
  }

  lemma NoRows(rows: seq<Row>)
    ensures RowsTotal(rows, 0) == 0
  {
  }

  // ---- The verdict ----

  /** Everything the audit looks at beside the streams is in order. */
  predicate EverySurfaceInOrder(s: Surface) {
    && s.authResolved && s.domResolved && s.domAuthenticated && s.renderedRows && !s.suspense
    && s.paginationComplete && s.revisionExact
  }

  predicate MakesFail(f: Finding) {
    || f.verdict == ProjectionDisagreement
    || (f.denominator
        && f.verdict in {OwnerInteraction, ProviderConfigBlocked, Unobserved, Failed, Stale, ManifestUnavailable})
  }

  predicate StaysOpen(f: Finding) {
    f.verdict in {ManifestUnavailable, ActiveBoundedWork, OwnerInteraction, UnknownVocabulary, ProjectionDisagreement}
  }

  predicate MissesGreen(f: Finding) {
    f.denominator && f.verdict != Green
  }

  lemma FailsMeans(findings: seq<Finding>)
    ensures Fails(findings) <==> exists f :: f in findings && MakesFail(f)
  {
    forall f ensures FailsFor(f) <==> MakesFail(f) {
    }
    hide FailsFor, MakesFail;
  }

  lemma OpenMeans(findings: seq<Finding>)
    ensures LeavesOpen(findings) <==> exists f :: f in findings && StaysOpen(f)
  {
    forall f: Finding ensures Open(f.verdict) <==> StaysOpen(f) {
    }
    hide Open, StaysOpen;
  }

  /** The verdict is a failure exactly when a finding makes it one. */
  lemma FailExactlyWhen(rows: seq<Row>, surface: Surface, gates: Gates)
    ensures ResultStatus(AllFindings(rows, surface), gates) == Fail
       <==> exists f :: f in AllFindings(rows, surface) && MakesFail(f)
  {
    hide Fails, LeavesOpen, AllFindings, MakesFail;
    FailsMeans(AllFindings(rows, surface));
  }

  lemma GreenMeans(findings: seq<Finding>)
    requires AllJudged(findings)
    ensures ScoredGreen(findings) == Scored(findings) <==> forall f :: f in findings ==> !MissesGreen(f)
  {
    GreenCounts(findings);
    if forall f :: f in findings ==> !MissesGreen(f) {
      assert forall i :: 0 <= i < |findings| ==> !MissesGreen(findings[i]);
    }
  }

  /** The audit passes exactly when all is in order, all that is scored is green and nothing is open. */
  lemma PassMeans(rows: seq<Row>, surface: Surface)
    ensures ResultStatus(AllFindings(rows, surface),
                         SurfaceGates(surface, FleetVocabularyUnknown(Connections(rows), {}))) == Pass
       <==> && EverySurfaceInOrder(surface) && !UnknownWord(rows)
            && forall f :: f in AllFindings(rows, surface) ==> !MissesGreen(f) && !StaysOpen(f)
  {
    hide ResultStatus, AllFindings, ScoredGreen, Scored, LeavesOpen, MissesGreen, StaysOpen, UnknownWord,
         FleetVocabularyUnknown;
    var all := AllFindings(rows, surface);
    PassExactlyWhen(rows, surface, SurfaceGates(surface, FleetVocabularyUnknown(Connections(rows), {})));
    AllScored(rows, surface);
    GreenMeans(all);
    OpenMeans(all);
    VocabularyMeans(rows);
  }

  /** The verdict before the surfaces are looked at, by what the fleet gives rise to. */
  lemma CoverageMeansVerdict(rows: seq<Row>)
    ensures var known := !FleetVocabularyUnknown(Connections(rows), {});
            var coverage := ResultStatus(CoverageFindings(rows), Gates(true, true, true, true, known));
            && (coverage == Fail <==> exists f :: FleetWarrants(rows, f) && MakesFail(f))
            && (coverage == Pass <==> !UnknownWord(rows)
                                      && forall f :: FleetWarrants(rows, f) ==> !MakesFail(f) && !StaysOpen(f))
  {
    hide Fails, LeavesOpen, CoverageFindings, MakesFail, StaysOpen, FleetWarrants, UnknownWord,
         FleetVocabularyUnknown;
    FailsMeans(CoverageFindings(rows));
    OpenMeans(CoverageFindings(rows));
    VocabularyMeans(rows);
    forall f ensures f in CoverageFindings(rows) <==> FleetWarrants(rows, f) {
      CoverageFindingsMean(rows, f);
    }
  }

  // ---- The numbers ----

  function ScoredAt(findings: seq<Finding>): set<int> {
    set k | 0 <= k < |findings| && findings[k].denominator
  }

  function ScoredGreenAt(findings: seq<Finding>): set<int> {
    set k | 0 <= k < |findings| && findings[k].denominator && findings[k].verdict == Green
  }

  predicate HasClass(f: Finding, verdict: Class) {
    f.verdict == verdict
  }

  function ClassAt(findings: seq<Finding>, verdict: Class): set<int> {
    set k | 0 <= k < |findings| && HasClass(findings[k], verdict)
  }

  lemma LastCounts(findings: seq<Finding>, verdict: Class)
    requires findings != []
    ensures var before, last := findings[..|findings| - 1], findings[|findings| - 1];
            && Scored(findings) == Scored(before) + (if last.denominator then 1 else 0)
            && ScoredGreen(findings)
               == ScoredGreen(before) + (if last.denominator && last.verdict == Green then 1 else 0)
            && CountClass(findings, verdict) == CountClass(before, verdict) + if HasClass(last, verdict) then 1 else 0
  {
    var before, last := findings[..|findings| - 1], findings[|findings| - 1];
    assert findings == before + [last];
    assert [last][1..] == [];
    CountsAdd(before, [last]);
    CountAppend(before, [last], verdict);
  }

  lemma LastScoredAt(findings: seq<Finding>)
    requires findings != []
    ensures var before, last := findings[..|findings| - 1], findings[|findings| - 1];
            |ScoredAt(findings)|
            == |ScoredAt(before)| + if last.denominator then 1 else 0
  {
    var n := |findings| - 1;
    var before, last := findings[..n], findings[n];
    assert forall k :: 0 <= k < n ==> before[k] == findings[k];
    assert ScoredAt(findings)
        == ScoredAt(before) + if last.denominator then {n} else {};
  }

  lemma LastScoredGreenAt(findings: seq<Finding>)
    requires findings != []
    ensures var before, last := findings[..|findings| - 1], findings[|findings| - 1];
            |ScoredGreenAt(findings)|
            == |ScoredGreenAt(before)| + if last.denominator && last.verdict == Green then 1 else 0
  {
    var n := |findings| - 1;
    var before, last := findings[..n], findings[n];
    assert forall k :: 0 <= k < n ==> before[k] == findings[k];
    assert ScoredGreenAt(findings)
        == ScoredGreenAt(before) + if last.denominator && last.verdict == Green then {n} else {};
  }

  lemma LastClassAt(findings: seq<Finding>, verdict: Class)
    requires findings != []
    ensures var before, last := findings[..|findings| - 1], findings[|findings| - 1];
            |ClassAt(findings, verdict)| == |ClassAt(before, verdict)| + if HasClass(last, verdict) then 1 else 0
  {
    hide HasClass;
    var n := |findings| - 1;
    var before, all, first := findings[..n], ClassAt(findings, verdict), ClassAt(findings[..n], verdict);
    forall k ensures k in all <==> k in first || (k == n && HasClass(findings[n], verdict)) {
      if 0 <= k < n {
        assert before[k] == findings[k];
      }
    }
    hide ClassAt;
    assert n !in first by { NotYetIn(before, verdict); }
    if HasClass(findings[n], verdict) {
      assert all == first + {n};
    } else {
      assert all == first;
    }
  }

  lemma NotYetIn(findings: seq<Finding>, verdict: Class)
    ensures |findings| !in ClassAt(findings, verdict)
  {
  }

  /** The numbers of the score and the counts of the classes count the findings they are about. */
  lemma {:induction false} NumbersCount(findings: seq<Finding>, verdict: Class)
    ensures Scored(findings) == |ScoredAt(findings)|
    ensures ScoredGreen(findings) == |ScoredGreenAt(findings)|
    ensures CountClass(findings, verdict) == |ClassAt(findings, verdict)|
  {
    hide *;
    if findings == [] {
      NothingCounts(verdict);
    } else {
      NumbersCount(findings[..|findings| - 1], verdict);
      LastCounts(findings, verdict);
      LastScoredAt(findings);
      LastScoredGreenAt(findings);
      LastClassAt(findings, verdict);
    }
  }

  lemma NothingCounts(verdict: Class)
    ensures Scored([]) == 0 == |ScoredAt([])| && ScoredGreen([]) == 0 == |ScoredGreenAt([])|
    ensures CountClass([], verdict) == 0 == |ClassAt([], verdict)|
  {
  }
}
