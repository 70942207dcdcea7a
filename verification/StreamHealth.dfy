/**
 * The stream-health score.
 *
 * Each stream of each owner connection is put in one class by a fixed order of precedence; the classes
 * feed counts, a score and a verdict.  What the evidence says about a connection or a stream is given
 * here as the truth values the classifier asks for.
 */
module StreamHealth {
  import opened Prelude

  datatype Lifecycle = Active | Draft | Paused | Rejected | Revoked | UnknownStatus

  datatype Class =
    | Green | SyntheticFixture | RevokedStream | OptionalUnsupported | UnknownVocabulary
    | ProjectionDisagreement | OwnerInteraction | ActiveBoundedWork | ProviderConfigBlocked
    | Failed | Stale | Unobserved | ManifestUnavailable
    | InconclusiveAuth | InconclusiveSuspense | InconclusivePagination | InconclusiveRevision

  datatype Stream = Stream(
    name: string, synthetic: bool, optionalUnsupported: bool,
    providerBlocked: bool, failed: bool, stale: bool, green: bool)

  datatype Manifest = Manifest(duplicate: bool, invalid: bool, synthetic: bool, streams: seq<Stream>)

  datatype Connection = Connection(
    id: Option<string>, lifecycle: Lifecycle, markedSynthetic: bool, manifest: Option<Manifest>,
    unknownVocabulary: bool, projectionDisagreement: bool,
    needsOwner: bool, activeWork: bool, latestRunFailed: bool, unobserved: bool,
    declaredStreams: seq<string>)

  // A row of the owner's inventory is a connection or malformed.
  type Row = Option<Connection>

  datatype Finding = Finding(verdict: Class, connection: Option<string>, stream: string, denominator: bool)

  // The labels of findings that are about no single stream.
  const MANIFEST := "<manifest>"
  const CONNECTION := "<connection>"
  const OWNER_DOM := "<owner-dom>"
  const AUDIT := "<audit>"
  const PAGINATION := "<pagination>"
  const REVISION := "<revision>"
  const VOCABULARY := "<vocabulary>"

  predicate IsSynthetic(c: Connection) {
    c.markedSynthetic || (c.manifest.Some? && c.manifest.value.synthetic)
  }

  predicate ManifestMissing(c: Connection) {
    c.manifest.Some? && (c.manifest.value.invalid || c.manifest.value.streams == [])
  }

  function StreamsOf(c: Connection): seq<Stream> {
    if c.manifest.Some? then c.manifest.value.streams else []
  }

  // ---- One stream ----

  /** classForStream: the class of a stream, and whether it is scored. */
  function ClassForStream(c: Connection, s: Stream): (Class, bool) {
    var denominator := c.lifecycle == Active;
    if s.synthetic || IsSynthetic(c) then (SyntheticFixture, false)
    else if c.lifecycle == Revoked then (RevokedStream, false)
    else if s.optionalUnsupported then (OptionalUnsupported, false)
    else if c.unknownVocabulary then (UnknownVocabulary, denominator)
    else if c.projectionDisagreement then (ProjectionDisagreement, denominator)
    else if c.lifecycle == UnknownStatus then (UnknownVocabulary, false)
    else if c.lifecycle != Active then (OwnerInteraction, false)
    else if c.needsOwner then (OwnerInteraction, denominator)
    else if c.activeWork then (ActiveBoundedWork, denominator)
    else if s.providerBlocked then (ProviderConfigBlocked, denominator)
    else if c.latestRunFailed || s.failed then (Failed, denominator)
    else if s.stale then (Stale, denominator)
    else if c.unobserved then (Unobserved, denominator)
    else if s.green then (Green, denominator)
    else (Unobserved, denominator)
  }

  // The stream belongs to production: it is not a fixture, its connection is active and it is supported.
  predicate InProduction(c: Connection, s: Stream) {
    !(s.synthetic || IsSynthetic(c)) && c.lifecycle == Active && !s.optionalUnsupported
  }

  function StreamFinding(c: Connection, s: Stream): Finding {
    var (verdict, denominator) := ClassForStream(c, s);
    Finding(verdict, c.id, s.name, denominator && !s.optionalUnsupported && !(s.synthetic || IsSynthetic(c)))
  }

  function StreamFindings(c: Connection, streams: seq<Stream>): seq<Finding> {
    if streams == [] then [] else [StreamFinding(c, streams[0])] + StreamFindings(c, streams[1..])
  }

  function ProductionStreams(c: Connection, streams: seq<Stream>): nat {
    if streams == [] then 0 else (if InProduction(c, streams[0]) then 1 else 0) + ProductionStreams(c, streams[1..])
  }

  // ---- One connection ----

  function FixtureFindings(c: Connection, names: seq<string>): seq<Finding> {
    if names == [] then []
    else [Finding(SyntheticFixture, c.id, names[0], false)] + FixtureFindings(c, names[1..])
  }

  function DeclaredFindings(c: Connection): seq<Finding> {
    if ManifestMissing(c) && !IsSynthetic(c) then []
    else if StreamsOf(c) == [] then
      if IsSynthetic(c) then FixtureFindings(c, c.declaredStreams)
      else if c.lifecycle != Revoked then [Finding(ManifestUnavailable, c.id, MANIFEST, false)]
      else []
    else StreamFindings(c, StreamsOf(c))
  }

  function DeclaredProduction(c: Connection): nat {
    if ManifestMissing(c) && !IsSynthetic(c) then 0 else ProductionStreams(c, StreamsOf(c))
  }

  function NoIdFindings(c: Connection): seq<Finding> {
    if c.id.Some? || IsSynthetic(c) then [] else [Finding(ProjectionDisagreement, None, CONNECTION, false)]
  }

  function ManifestFindings(c: Connection): seq<Finding> {
    if ((c.manifest.Some? && c.manifest.value.duplicate) || ManifestMissing(c))
       && c.lifecycle == Active && !IsSynthetic(c)
    then [Finding(ManifestUnavailable, c.id, MANIFEST, false)]
    else []
  }

  predicate SeenBefore(c: Connection, seen: set<string>) {
    c.id.Some? && c.id.value in seen
  }

  function SeenAfter(c: Connection, seen: set<string>): set<string> {
    if c.id.Some? then seen + {c.id.value} else seen
  }

  function ConnectionFindings(c: Connection, seen: set<string>): seq<Finding> {
    if SeenBefore(c, seen) then [Finding(ProjectionDisagreement, c.id, CONNECTION, false)]
    else NoIdFindings(c) + ManifestFindings(c) + DeclaredFindings(c)
  }

  function ConnectionProduction(c: Connection, seen: set<string>): nat {
    if SeenBefore(c, seen) then 0 else DeclaredProduction(c)
  }

  // ---- The fleet ----

  function MalformedFindings(rows: seq<Row>): seq<Finding> {
    if rows == [] then []
    else (if rows[0].None? then [Finding(ProjectionDisagreement, None, CONNECTION, false)] else [])
         + MalformedFindings(rows[1..])
  }

  function Connections(rows: seq<Row>): seq<Connection> {
    if rows == [] then [] else (if rows[0].Some? then [rows[0].value] else []) + Connections(rows[1..])
  }

  function FleetFindings(cs: seq<Connection>, seen: set<string>): seq<Finding>
    decreases |cs|
  {
    if cs == [] then [] else ConnectionFindings(cs[0], seen) + FleetFindings(cs[1..], SeenAfter(cs[0], seen))
  }

  function FleetProduction(cs: seq<Connection>, seen: set<string>): nat
    decreases |cs|
  {
    if cs == [] then 0 else ConnectionProduction(cs[0], seen) + FleetProduction(cs[1..], SeenAfter(cs[0], seen))
  }

  predicate FleetVocabularyUnknown(cs: seq<Connection>, seen: set<string>)
    decreases |cs|
  {
    cs != [] && ((!SeenBefore(cs[0], seen) && cs[0].unknownVocabulary)
                 || FleetVocabularyUnknown(cs[1..], SeenAfter(cs[0], seen)))
  }

  // ---- The surfaces around it ----

  // What the rendered page and the transport say.
  datatype Surface = Surface(
    disagrees: bool, domResolved: bool, domAuthenticated: bool, suspense: bool, renderedRows: bool,
    authResolved: bool, paginationComplete: bool, revisionExact: bool)

  // Which gates are resolved.
  datatype Gates = Gates(auth: bool, dom: bool, pagination: bool, revision: bool, vocabulary: bool)

  function When(condition: bool, verdict: Class, stream: string): seq<Finding> {
    if condition then [Finding(verdict, None, stream, false)] else []
  }

  predicate DomUnresolved(s: Surface) {
    !s.domResolved || !s.domAuthenticated || s.suspense || !s.renderedRows
  }

  function SurfaceFindings(s: Surface, vocabularyUnknown: bool): seq<Finding> {
    When(s.disagrees, ProjectionDisagreement, OWNER_DOM)
    + When(!s.authResolved, InconclusiveAuth, AUDIT)
    + When(DomUnresolved(s), if s.domAuthenticated then InconclusiveSuspense else InconclusiveAuth, OWNER_DOM)
    + When(!s.paginationComplete, InconclusivePagination, PAGINATION)
    + When(!s.revisionExact, InconclusiveRevision, REVISION)
    + When(vocabularyUnknown, UnknownVocabulary, VOCABULARY)
  }

  function SurfaceGates(s: Surface, vocabularyUnknown: bool): Gates {
    Gates(s.authResolved, s.domResolved && s.domAuthenticated && s.renderedRows && !s.suspense,
          s.paginationComplete, s.revisionExact, !vocabularyUnknown)
  }

  // ---- The verdict ----

  datatype Status = Fail | Inconclusive | Pass

  predicate Hard(verdict: Class) {
    verdict.OwnerInteraction? || verdict.ProviderConfigBlocked? || verdict.Unobserved? || verdict.Failed?
    || verdict.Stale? || verdict.ProjectionDisagreement? || verdict.ManifestUnavailable?
  }

  predicate Open(verdict: Class) {
    verdict.ManifestUnavailable? || verdict.ActiveBoundedWork? || verdict.OwnerInteraction?
    || verdict.UnknownVocabulary? || verdict.ProjectionDisagreement?
  }

  predicate FailsFor(f: Finding) {
    (Hard(f.verdict) && f.denominator) || f.verdict == ProjectionDisagreement
  }

  predicate Fails(findings: seq<Finding>) {
    exists i :: 0 <= i < |findings| && FailsFor(findings[i])
  }

  predicate LeavesOpen(findings: seq<Finding>) {
    exists i :: 0 <= i < |findings| && Open(findings[i].verdict)
  }

  /** resultStatus */
  function ResultStatus(findings: seq<Finding>, gates: Gates): Status {
    if Fails(findings) then Fail
    else if !(gates.auth && gates.dom && gates.pagination && gates.revision && gates.vocabulary) || LeavesOpen(findings)
    then Inconclusive
    else Pass
  }

  // ---- The result ----

  function CountClass(findings: seq<Finding>, verdict: Class): nat {
    if findings == [] then 0 else (if findings[0].verdict == verdict then 1 else 0) + CountClass(findings[1..], verdict)
  }

  function Scored(findings: seq<Finding>): nat {
    if findings == [] then 0 else (if findings[0].denominator then 1 else 0) + Scored(findings[1..])
  }

  function ScoredGreen(findings: seq<Finding>): nat {
    if findings == [] then 0
    else (if findings[0].denominator && findings[0].verdict == Green then 1 else 0) + ScoredGreen(findings[1..])
  }

  datatype Report = Report(
    findings: seq<Finding>, counts: map<Class, nat>, productionStreamCount: nat,
    numerator: nat, denominator: nat, coverage: Status, status: Status, gates: Gates)

  // The findings before the surfaces are looked at, and all of them.
  function CoverageFindings(rows: seq<Row>): seq<Finding> {
    MalformedFindings(rows) + FleetFindings(Connections(rows), {})
  }

  function AllFindings(rows: seq<Row>, surface: Surface): seq<Finding> {
    CoverageFindings(rows) + SurfaceFindings(surface, FleetVocabularyUnknown(Connections(rows), {}))
  }

  const CLASSES: seq<Class> := [
    Green, SyntheticFixture, RevokedStream, OptionalUnsupported, UnknownVocabulary, ProjectionDisagreement,
    OwnerInteraction, ActiveBoundedWork, ProviderConfigBlocked, Failed, Stale, Unobserved, ManifestUnavailable,
    InconclusiveAuth, InconclusiveSuspense, InconclusivePagination, InconclusiveRevision]

  lemma ListsEveryClass(verdict: Class)
    ensures verdict in CLASSES
  {
    var at := match verdict
      case Green => 0 case SyntheticFixture => 1 case RevokedStream => 2 case OptionalUnsupported => 3
      case UnknownVocabulary => 4 case ProjectionDisagreement => 5 case OwnerInteraction => 6
      case ActiveBoundedWork => 7 case ProviderConfigBlocked => 8 case Failed => 9 case Stale => 10
      case Unobserved => 11 case ManifestUnavailable => 12 case InconclusiveAuth => 13
      case InconclusiveSuspense => 14 case InconclusivePagination => 15 case InconclusiveRevision => 16;
    assert CLASSES[at] == verdict;
  }

  // The counts say, for every class, how many findings have it.
  predicate Tallied(counts: map<Class, nat>, findings: seq<Finding>) {
    forall verdict :: verdict in counts && counts[verdict] == CountClass(findings, verdict)
  }

  lemma {:induction false} CountAppend(findings: seq<Finding>, more: seq<Finding>, verdict: Class)
    ensures CountClass(findings + more, verdict) == CountClass(findings, verdict) + CountClass(more, verdict)
  {
    if findings == [] {
      assert findings + more == more;
    } else {
      assert (findings + more)[0] == findings[0] && (findings + more)[1..] == findings[1..] + more;
      CountAppend(findings[1..], more, verdict);
    }
  }

  lemma CoverageMeans(rows: seq<Row>)
    ensures CoverageFindings(rows) == MalformedFindings(rows) + FleetFindings(Connections(rows), {})
  {
  }

  lemma AllMeans(rows: seq<Row>, surface: Surface)
    ensures AllFindings(rows, surface)
         == CoverageFindings(rows) + SurfaceFindings(surface, FleetVocabularyUnknown(Connections(rows), {}))
  {
  }

  lemma GatesMean(s: Surface, vocabularyUnknown: bool)
    ensures SurfaceGates(s, vocabularyUnknown).vocabulary == !vocabularyUnknown
  {
  }
}
