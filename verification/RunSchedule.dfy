/**
 The lanes that carry the selected suite/profile runs, as a transition system.

 A step is the code a lane executes between two awaits. A lane that comes back from
 `finishRun`, or is released from its rest, takes its next run within that same step: Node drains
 every pending continuation before it delivers the next I/O completion, and a run always waits
 for I/O before it can end.
 */
module RunSchedule {
  import opened Prelude

  /** One suite/profile run; `prepare` says that its suite builds files in the shared checkout. */
  datatype Run = Run(id: nat, prepare: bool)

  datatype Phase = Phase(runs: seq<Run>, limit: nat)

  /** What the checks on the checkout can see of it; they throw while it is not readable. */
  datatype Tree = Tree(dirty: bool, digest: int, readable: bool)

  datatype Plan = Plan(phases: seq<Phase>, digest: int)

  datatype Lane =
    | Idle                                   // about to take its next run
    | Executing(run: Run)
    | Parked                                 // waits for the checkout to be judged at rest
    | Settling(batch: set<nat>, failed: bool) // sealing `batch`; `failed`: its own run threw
    | Done

  datatype Outcome = Passed | Failed | Threw

  datatype State = State(
    entered: nat,          // phases started so far
    next: nat,            // next run of the current phase
    errors: nat,
    lanes: seq<Lane>,
    inFlight: int,
    suspect: bool,
    stopped: bool,
    unsealed: seq<nat>,
    sealing: set<nat>,    // judged clean, receipt not yet written
    sealed: set<nat>,
    started: seq<nat>,    // history: ids in the order they were taken
    completed: set<nat>,  // history: ids whose execution returned
    rejected: bool,       // history: a judgement at rest or a receipt failed
    tree: Tree
  )

  datatype Event =
    | OpenPhase
    | Touch(tree: Tree)                      // anything may write to the checkout at any time
    | Leave(lane: nat, outcome: Outcome)     // a run's execution returns or throws
    | SealOne(id: nat)                       // one receipt is written
    | SealError(lane: nat, id: nat)          // one receipt of the lane's batch cannot be written
    | SettleEnd(lane: nat)                   // every receipt of the lane's batch is written

  function Select(runs: seq<Run>, prepare: bool): seq<Run> {
    if runs == [] then []
    else (if runs[0].prepare == prepare then [runs[0]] else []) + Select(runs[1..], prepare)
  }

  function SchedulePhases(runs: seq<Run>, concurrency: int): seq<Phase> {
    if concurrency <= 1 then [Phase(runs, 1)]
    else
      var shared, exclusive := Select(runs, false), Select(runs, true);
      (if shared == [] then [] else [Phase(shared, concurrency)]) +
      (if exclusive == [] then [] else [Phase(exclusive, 1)])
  }

  /** The checkout as the schedule found it. */
  function CleanTree(plan: Plan): Tree {
    Tree(false, plan.digest, true)
  }

  function Init(plan: Plan): State {
    State(0, 0, 0, [], 0, false, false, [], {}, {}, [], {}, false, CleanTree(plan))
  }

  /** The runs of the phase in progress. */
  function Runs(plan: Plan, s: State): seq<Run> {
    if 0 < s.entered <= |plan.phases| then plan.phases[s.entered - 1].runs else []
  }

  /** No worker takes another run. */
  predicate Halted(s: State) {
    s.stopped || s.errors > 0
  }

  /** A worker looks for its next run. */
  function Pick(runs: seq<Run>, s: State, l: nat): State
    requires l < |s.lanes|
  {
    if Halted(s) || s.next >= |runs| then
      s.(lanes := s.lanes[l := Done])
    else
      s.(next := s.next + 1, inFlight := s.inFlight + 1,
         lanes := s.lanes[l := Executing(runs[s.next])],
         started := s.started + [runs[s.next].id])
  }

  /** A lane that will run on in this step: back from its run, or no longer held at rest. */
  predicate Awake(s: State, lane: Lane) {
    lane.Idle? || (lane.Parked? && !s.suspect)
  }

  /** Every awake lane from `k` on takes its next run, or leaves the pool. */
  function WakeFrom(runs: seq<Run>, s: State, k: nat): (t: State)
    requires k <= |s.lanes|
    ensures |t.lanes| == |s.lanes|
    decreases |s.lanes| - k
  {
    if k == |s.lanes| then s
    else WakeFrom(runs, if Awake(s, s.lanes[k]) then Pick(runs, s, k) else s, k + 1)
  }

  function Ids(ids: seq<nat>): set<nat> {
    set id | id in ids
  }

  /** The checks that `settle` makes before it seals anything. */
  predicate CleanAtRest(plan: Plan, s: State) {
    s.tree.readable && !s.tree.dirty && s.tree.digest == plan.digest
  }

  predicate AllDone(lanes: seq<Lane>) {
    forall l | 0 <= l < |lanes| :: lanes[l].Done?
  }

  predicate Enabled(plan: Plan, s: State, e: Event) {
    match e
    case OpenPhase => AllDone(s.lanes) && s.errors == 0 && s.entered < |plan.phases|
    case Touch(_) => true
    case Leave(l, _) => l < |s.lanes| && s.lanes[l].Executing?
    case SealOne(id) => id in s.sealing
    case SealError(l, id) => l < |s.lanes| && s.lanes[l].Settling? && id in s.lanes[l].batch && id in s.sealing
    case SettleEnd(l) => l < |s.lanes| && s.lanes[l].Settling? && s.lanes[l].batch <= s.sealed
  }

  /** A run leaves: what it records before it looks at its siblings. */
  function Record(s: State, id: nat, outcome: Outcome): State {
    s.(inFlight := s.inFlight - 1,
       stopped := s.stopped || outcome != Passed,
       unsealed := if outcome == Threw then s.unsealed else s.unsealed + [id],
       completed := if outcome == Threw then s.completed else s.completed + {id})
  }

  /**
   With siblings in flight the lane gives up, because its run threw or the check on the checkout does,
   parks, or carries on. A checkout that is suspect already is not checked again.
   */
  function LeaveSiblings(r: State, l: nat, outcome: Outcome): State
    requires l < |r.lanes|
  {
    if outcome == Threw || (!r.suspect && !r.tree.readable) then r.(errors := r.errors + 1, lanes := r.lanes[l := Done])
    else if r.suspect || r.tree.dirty then r.(suspect := true, lanes := r.lanes[l := Parked])
    else r.(lanes := r.lanes[l := Idle])
  }

  /** The last run to leave judges the checkout at rest. */
  function Judge(plan: Plan, r: State, l: nat, outcome: Outcome): State
    requires l < |r.lanes|
  {
    if CleanAtRest(plan, r) then
      r.(unsealed := [], sealing := r.sealing + Ids(r.unsealed),
         lanes := r.lanes[l := Settling(Ids(r.unsealed), outcome == Threw)])
    else
      r.(stopped := true, errors := r.errors + 1, suspect := false, rejected := true,
         lanes := r.lanes[l := Done])
  }

  function LeaveRun(plan: Plan, s: State, l: nat, outcome: Outcome): State
    requires l < |s.lanes| && s.lanes[l].Executing?
  {
    var r := Record(s, s.lanes[l].run.id, outcome);
    if r.inFlight > 0 then LeaveSiblings(r, l, outcome) else Judge(plan, r, l, outcome)
  }

  /** The effect of an event before the lanes it wakes take their next runs. */
  function Effect(plan: Plan, s: State, e: Event): State
    requires Enabled(plan, s, e)
  {
    match e
    case OpenPhase =>
      var phase := plan.phases[s.entered];
      s.(entered := s.entered + 1, next := 0, lanes := seq(Min(phase.limit, |phase.runs|), _ => Idle))
    case Touch(tree) => s.(tree := tree)
    case Leave(l, outcome) => LeaveRun(plan, s, l, outcome)
    case SealOne(id) => s.(sealing := s.sealing - {id}, sealed := s.sealed + {id})
    case SealError(l, id) =>
      s.(sealing := s.sealing - {id}, stopped := true, errors := s.errors + 1,
         suspect := false, rejected := true, lanes := s.lanes[l := Done])
    case SettleEnd(l) =>
      if s.lanes[l].failed then s.(suspect := false, errors := s.errors + 1, lanes := s.lanes[l := Done])
      else s.(suspect := false, lanes := s.lanes[l := Idle])
  }

  function Apply(plan: Plan, s: State, e: Event): State
    requires Enabled(plan, s, e)
  {
    var r := Effect(plan, s, e);
    WakeFrom(Runs(plan, r), r, 0)
  }

  /** The state a schedule reaches, or `None` if some event of it could not happen. */
  function Exec(plan: Plan, es: seq<Event>): Option<State> {
    if es == [] then Some(Init(plan))
    else
      var n := |es| - 1;
      match Exec(plan, es[..n])
      case None => None
      case Some(s) => if Enabled(plan, s, es[n]) then Some(Apply(plan, s, es[n])) else None
  }

  predicate Terminal(plan: Plan, s: State) {
    AllDone(s.lanes) && (s.errors > 0 || s.entered == |plan.phases|)
  }

  /** Every id of the plan, in the order in which runs may be taken. */
  function Order(phases: seq<Phase>): seq<nat> {
    if phases == [] then []
    else Order(phases[..|phases| - 1]) + RunIds(phases[|phases| - 1].runs)
  }

  function RunIds(runs: seq<Run>): (ids: seq<nat>)
    ensures |ids| == |runs|
  {
    seq(|runs|, i requires 0 <= i < |runs| => runs[i].id)
  }

  function ExecutingCount(lanes: seq<Lane>): nat {
    if lanes == [] then 0 else (if lanes[0].Executing? then 1 else 0) + ExecutingCount(lanes[1..])
  }

  function SettlingCount(lanes: seq<Lane>): nat {
    if lanes == [] then 0 else (if lanes[0].Settling? then 1 else 0) + SettlingCount(lanes[1..])
  }
}
