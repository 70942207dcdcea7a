/** The promises of the overlapped schedule, over every run of its lanes. */
module RunScheduleTheorems {
  import opened Prelude
  import opened RunSchedule
  import opened RunScheduleSafety

  lemma {:induction false} PrefixReachable(plan: Plan, es: seq<Event>, k: nat)
    requires Exec(plan, es).Some? && k <= |es|
    ensures Exec(plan, es[..k]).Some?
  {
    if k < |es| {
      PrefixReachable(plan, es[..|es| - 1], k);
      assert es[..|es| - 1][..k] == es[..k];
    } else {
      assert es[..k] == es;
    }
  }

  /** The state after the first `k` events of a schedule that can happen. */
  function At(plan: Plan, es: seq<Event>, k: nat): State {
    if k > |es| then Init(plan)
    else match Exec(plan, es[..k]) case None => Init(plan) case Some(s) => s
  }

  lemma AtStep(plan: Plan, es: seq<Event>, k: nat)
    requires Exec(plan, es).Some? && k < |es|
    ensures Enabled(plan, At(plan, es, k), es[k])
    ensures At(plan, es, k + 1) == Apply(plan, At(plan, es, k), es[k])
  {
    PrefixReachable(plan, es, k);
    PrefixReachable(plan, es, k + 1);
    assert es[..k + 1][..k] == es[..k];
  }

  lemma AtInv(plan: Plan, es: seq<Event>, k: nat)
    requires Runnable(plan) && Exec(plan, es).Some? && k <= |es|
    ensures Inv(plan, At(plan, es, k))
  {
    PrefixReachable(plan, es, k);
    ReachableInv(plan, es[..k]);
  }

  // ---- Sealing follows a clean judgement at rest ----

  /** The last run in flight leaves a checkout that is as it began. */
  ghost predicate CleanJudgement(plan: Plan, s: State, e: Event) {
    e.Leave? && s.inFlight == 1 && CleanAtRest(plan, s)
  }

  /** The `k`-th event takes the schedule to an instant at which nothing runs and the checkout is as it began. */
  ghost predicate AtRest(plan: Plan, es: seq<Event>, k: nat)
    requires k < |es|
  {
    && es[k].Leave?
    && ExecutingCount(At(plan, es, k + 1).lanes) == 0
    && At(plan, es, k + 1).tree == CleanTree(plan)
  }

  ghost predicate JudgedBy(plan: Plan, es: seq<Event>, k: nat, id: nat) {
    k < |es| && AtRest(plan, es, k) && id in At(plan, es, k + 1).completed
  }

  /** A batch is only ever filled by a leave that judges the checkout clean with nothing in flight. */
  lemma EffectSeals(plan: Plan, s: State, e: Event)
    requires Inv(plan, s) && Enabled(plan, s, e)
    ensures var r := Effect(plan, s, e);
            r.sealing + r.sealed <= s.sealing + s.sealed ||
            (CleanJudgement(plan, s, e) && r.lanes[e.lane].Settling? && r.tree == s.tree &&
             r.sealing + r.sealed <= s.sealing + s.sealed + r.completed)
  {
    if e.Leave? {
      CountPositive(s.lanes, e.lane);
      LeaveSeals(plan, s, e.lane, e.outcome);
      hide LeaveRun, Inv;
    } else {
      hide Inv;
    }
  }

  lemma LeaveSeals(plan: Plan, s: State, l: nat, outcome: Outcome)
    requires LanesInv(plan, s, true) && LedgerInv(s) && Enabled(plan, s, Leave(l, outcome)) && s.inFlight > 0
    ensures var r := LeaveRun(plan, s, l, outcome);
            if s.inFlight == 1 && CleanAtRest(plan, s) then
              r.lanes[l].Settling? && r.tree == s.tree && r.sealing + r.sealed <= s.sealing + s.sealed + r.completed
            else r.sealing + r.sealed <= s.sealing + s.sealed
  {
    hide LanesInv;
    IdsMore(s.unsealed, s.lanes[l].run.id);
  }

  lemma ApplySeals(plan: Plan, s: State, e: Event, id: nat)
    requires Inv(plan, s) && Enabled(plan, s, e)
    requires id in Apply(plan, s, e).sealing + Apply(plan, s, e).sealed && id !in s.sealing + s.sealed
    ensures var t := Apply(plan, s, e);
            e.Leave? && ExecutingCount(t.lanes) == 0 && t.tree == CleanTree(plan) && id in t.completed
  {
    var r := Effect(plan, s, e);
    EffectSeals(plan, s, e);
    WakeAdvances(Runs(plan, r), r, 0);
    assert CleanJudgement(plan, s, e);
    CountPositive(r.lanes, e.lane);
    EffectKeepsLanes(plan, s, e);
    WakeKeepsLanes(plan, r);
  }

  lemma JudgedLater(plan: Plan, es: seq<Event>, n: nat, k: nat, id: nat)
    requires n <= |es| && JudgedBy(plan, es[..n], k, id)
    ensures JudgedBy(plan, es, k, id)
  {
    assert es[..n][..k + 1] == es[..k + 1];
  }

  /**
   A run is sealed only if, at some instant after it finished, no run was executing, the
   checkout was clean and its digest equalled the starting one.
   */
  lemma {:induction false} SealedOnlyAfterCleanRest(plan: Plan, es: seq<Event>, id: nat)
    requires Runnable(plan) && Exec(plan, es).Some?
    requires id in Exec(plan, es).value.sealing + Exec(plan, es).value.sealed
    ensures exists k :: JudgedBy(plan, es, k, id)
  {
    if es != [] {
      var n := |es| - 1;
      var s := Exec(plan, es[..n]).value;
      ReachableInv(plan, es[..n]);
      if id in s.sealing + s.sealed {
        SealedOnlyAfterCleanRest(plan, es[..n], id);
        var k :| JudgedBy(plan, es[..n], k, id);
        JudgedLater(plan, es, n, k, id);
      } else {
        ApplySeals(plan, s, es[n], id);
        assert es[..n + 1] == es;
        assert JudgedBy(plan, es, n, id);
      }
    }
  }

  // ---- No deadlock, and every schedule ends ----

  /** A parked lane is never forgotten: some run is still executing, or a settle is in progress. */
  lemma ParkedLaneWillWake(plan: Plan, es: seq<Event>, l: nat)
    requires Runnable(plan) && Exec(plan, es).Some?
    requires l < |Exec(plan, es).value.lanes| && Exec(plan, es).value.lanes[l].Parked?
    ensures var s := Exec(plan, es).value;
            (exists m :: 0 <= m < |s.lanes| && s.lanes[m].Executing?) ||
            (exists m :: 0 <= m < |s.lanes| && s.lanes[m].Settling?)
  {
    ReachableInv(plan, es);
    CountWitness(Exec(plan, es).value.lanes);
  }

  /** As long as a schedule has not ended, one of its lanes can move. */
  lemma NeverStuck(plan: Plan, es: seq<Event>)
    requires Runnable(plan) && Exec(plan, es).Some?
    ensures var s := Exec(plan, es).value;
            Terminal(plan, s) || exists e: Event :: !e.Touch? && Enabled(plan, s, e)
  {
    ReachableInv(plan, es);
    var s := Exec(plan, es).value;
    CountWitness(s.lanes);
    if AllDone(s.lanes) {
      assert Terminal(plan, s) || Enabled(plan, s, OpenPhase);
    } else {
      var l :| 0 <= l < |s.lanes| && !s.lanes[l].Done?;
      assert LaneOk(plan, s, true, s.lanes[l]);
      if ExecutingCount(s.lanes) > 0 {
        var m :| 0 <= m < |s.lanes| && s.lanes[m].Executing?;
        assert Enabled(plan, s, Leave(m, Passed));
      } else {
        CountPositive(s.lanes, l);
        var m :| 0 <= m < |s.lanes| && s.lanes[m].Settling?;
        if s.lanes[m].batch <= s.sealed {
          assert Enabled(plan, s, SettleEnd(m));
        } else {
          var id :| id in s.lanes[m].batch && id !in s.sealed;
          assert Enabled(plan, s, SealOne(id));
        }
      }
    }
  }

  /** Events of the lanes themselves, that is all but writes to the checkout. */
  function LaneSteps(es: seq<Event>): nat {
    if es == [] then 0 else LaneSteps(es[..|es| - 1]) + (if es[|es| - 1].Touch? then 0 else 1)
  }

  lemma {:induction false} StepsBound(plan: Plan, es: seq<Event>)
    requires Runnable(plan) && Exec(plan, es).Some?
    ensures LaneSteps(es) + Measure(plan, Exec(plan, es).value) <= |plan.phases| + 3 * Later(plan.phases, 0)
  {
    if es != [] {
      var n := |es| - 1;
      StepsBound(plan, es[..n]);
      ReachableInv(plan, es[..n]);
      ApplyMeasure(plan, Exec(plan, es[..n]).value, es[n]);
    }
  }

  /** Every schedule ends: its lanes take at most three steps a run and one a phase. */
  lemma EveryScheduleEnds(plan: Plan, es: seq<Event>)
    requires Runnable(plan) && Exec(plan, es).Some?
    ensures LaneSteps(es) <= |plan.phases| + 3 * |Order(plan.phases)|
  {
    StepsBound(plan, es);
    ReachableInv(plan, es);
    TouchMeasure(plan, Exec(plan, es).value, CleanTree(plan));
    LaterIsOrder(plan.phases, 0);
    assert plan.phases[..0] == [];
  }

  lemma {:induction false} LaterIsOrder(phases: seq<Phase>, k: nat)
    requires k <= |phases|
    ensures |Order(phases[..k])| + Later(phases, k) == |Order(phases)|
    decreases |phases| - k
  {
    if k < |phases| {
      OrderStep(phases, k + 1);
      LaterIsOrder(phases, k + 1);
    } else {
      assert phases[..k] == phases;
    }
  }

  /**
   When a schedule has ended, every completed run is sealed, or an error is reported; a run that
   threw never strands its siblings. Unless something halted it, that is every run of the plan.
   */
  lemma EndedMeansSealed(plan: Plan, es: seq<Event>)
    requires Runnable(plan) && Exec(plan, es).Some? && Terminal(plan, Exec(plan, es).value)
    ensures var s := Exec(plan, es).value;
            && (s.rejected ==> s.errors > 0)
            && (!s.rejected ==> s.sealed == s.completed)
            && (!Halted(s) ==> s.started == Order(plan.phases) && s.sealed == Ids(Order(plan.phases)))
  {
    ReachableInv(plan, es);
    var s := Exec(plan, es).value;
    CountNone(s.lanes);
    if !s.rejected {
      PendingHasLane(s);
    }
    if !Halted(s) {
      if s.entered > 0 {
        OrderStep(plan.phases, s.entered);
        assert plan.phases[..s.entered] == plan.phases;
        assert plan.phases[s.entered - 1] in plan.phases;
        if Runs(plan, s) != [] {
          assert s.lanes[0].Done?;
        }
        assert Runs(plan, s)[..s.next] == Runs(plan, s);
      }
      forall id | id in s.started
        ensures id in s.completed
      {
        assert !InExecution(s.lanes, id);
      }
    }
  }

  // ---- Which runs start, and when ----

  /** At most `limit` runs execute, and runs are taken in the order of the plan, each at most once. */
  lemma StartsInOrder(plan: Plan, es: seq<Event>)
    requires Runnable(plan) && Exec(plan, es).Some?
    ensures var s := Exec(plan, es).value;
            && ExecutingCount(s.lanes) <= Limit(plan, s)
            && s.started <= Order(plan.phases)
  {
    ReachableInv(plan, es);
    CountBound(Exec(plan, es).value.lanes);
  }

  lemma StopHolds(plan: Plan, s: State, e: Event)
    requires Halted(s) && Enabled(plan, s, e)
    ensures Halted(Apply(plan, s, e)) && Apply(plan, s, e).started == s.started
  {
    var r := Effect(plan, s, e);
    WakeAdvances(Runs(plan, r), r, 0);
  }

  /** Once a run has failed or thrown, or a check on the checkout or a judgement failed, no run starts any more. */
  lemma {:induction false} NoStartAfterStop(plan: Plan, es: seq<Event>, j: nat, k: nat)
    requires Exec(plan, es).Some? && j <= k <= |es| && Halted(At(plan, es, j))
    ensures Halted(At(plan, es, k)) && At(plan, es, k).started == At(plan, es, j).started
    decreases k - j
  {
    if j < k {
      AtStep(plan, es, j);
      StopHolds(plan, At(plan, es, j), es[j]);
      NoStartAfterStop(plan, es, j + 1, k);
    }
  }

  /** The lanes are held: no run may start before the checkout is judged clean at rest. */
  ghost predicate Held(s: State) {
    Halted(s) || (s.suspect && SettlingCount(s.lanes) == 0)
  }

  /** While the checkout is suspect no lane looks for a run. */
  lemma HeldSleeps(plan: Plan, s: State, e: Event)
    requires Runnable(plan) && Inv(plan, s) && Held(s) && Enabled(plan, s, e) && !CleanJudgement(plan, s, e)
    requires !Halted(s) && !Halted(Effect(plan, s, e))
    ensures var r := Effect(plan, s, e);
            r.suspect && forall l | 0 <= l < |r.lanes| :: !Awake(r, r.lanes[l])
  {
    var r := Effect(plan, s, e);
    if e.OpenPhase? {
      CountNone(s.lanes);
    } else if e.SealError? || e.SettleEnd? || e.Leave? {
      CountPositive(s.lanes, e.lane);
    }
    forall l | 0 <= l < |r.lanes|
      ensures !Awake(r, r.lanes[l])
    {
      if !(e.Leave? && l == e.lane) {
        assert LaneOk(plan, s, true, s.lanes[l]);
      }
    }
  }

  lemma HeldUntilJudged(plan: Plan, s: State, e: Event)
    requires Runnable(plan) && Inv(plan, s) && Held(s) && Enabled(plan, s, e) && !CleanJudgement(plan, s, e)
    ensures Held(Apply(plan, s, e)) && Apply(plan, s, e).started == s.started
  {
    if Halted(s) {
      StopHolds(plan, s, e);
    } else {
      var r := Effect(plan, s, e);
      WakeAdvances(Runs(plan, r), r, 0);
      if e.OpenPhase? {
        CountNone(s.lanes);
      } else if e.SealError? || e.SettleEnd? {
        CountPositive(s.lanes, e.lane);
      } else if e.Leave? {
        CountUpdate(s.lanes, e.lane, r.lanes[e.lane]);
        EffectKeepsLanes(plan, s, e);
      }
      if !Halted(r) {
        HeldSleeps(plan, s, e);
        WakeNothing(Runs(plan, r), r, 0);
      }
    }
  }

  lemma DirtyLeaveHolds(plan: Plan, s: State, e: Event)
    requires Runnable(plan) && Inv(plan, s) && Enabled(plan, s, e) && e.Leave? && s.tree.dirty
    ensures Held(Apply(plan, s, e)) && Apply(plan, s, e).started == s.started
  {
    var r := Effect(plan, s, e);
    EffectKeepsLanes(plan, s, e);
    WakeAdvances(Runs(plan, r), r, 0);
    if !Halted(r) {
      LeaveKeepsCounters(plan, s, e.lane, e.outcome);
      forall l | 0 <= l < |r.lanes|
        ensures !Awake(r, r.lanes[l])
      {
        if l != e.lane {
          assert LaneOk(plan, s, true, s.lanes[l]);
        }
      }
      WakeNothing(Runs(plan, r), r, 0);
    }
  }

  lemma {:induction false} HeldRange(plan: Plan, es: seq<Event>, j: nat, k: nat)
    requires Runnable(plan) && Exec(plan, es).Some? && j <= k <= |es| && Held(At(plan, es, j))
    requires forall m | j <= m < k :: !CleanJudgement(plan, At(plan, es, m), es[m])
    ensures At(plan, es, k).started == At(plan, es, j).started
    decreases k - j
  {
    if j < k {
      AtStep(plan, es, j);
      AtInv(plan, es, j);
      HeldUntilJudged(plan, At(plan, es, j), es[j]);
      HeldRange(plan, es, j + 1, k);
    }
  }

  /**
   Serial blame under overlap: after a run ends with a dirty checkout, no run starts before a
   last run leaves and the checkout is judged clean with nothing in flight.
   */
  lemma DirtyRunBlocksStarts(plan: Plan, es: seq<Event>, j: nat, k: nat)
    requires Runnable(plan) && Exec(plan, es).Some? && j < k <= |es|
    requires es[j].Leave? && At(plan, es, j).tree.dirty
    ensures At(plan, es, k).started == At(plan, es, j).started ||
            exists m :: j < m < k && CleanJudgement(plan, At(plan, es, m), es[m])
  {
    AtStep(plan, es, j);
    AtInv(plan, es, j);
    DirtyLeaveHolds(plan, At(plan, es, j), es[j]);
    if forall m | j < m < k :: !CleanJudgement(plan, At(plan, es, m), es[m]) {
      HeldRange(plan, es, j + 1, k);
    }
  }

  // ---- One lane: the old check after each run ----

  ghost predicate Serial(plan: Plan) {
    forall phase | phase in plan.phases :: phase.limit == 1
  }

  ghost predicate SerialInv(s: State) {
    s.inFlight > 0 ==> s.unsealed == [] && !Halted(s) && s.sealing <= s.sealed
  }

  lemma OneLane(plan: Plan, s: State)
    requires Serial(plan) && Counters(plan, s)
    ensures |s.lanes| <= 1
  {
    assert s.entered > 0 ==> plan.phases[s.entered - 1] in plan.phases;
  }

  /** A single lane that takes a run leaves nothing of the earlier runs unsealed. */
  lemma SerialWake(plan: Plan, r: State)
    requires Serial(plan) && LanesInv(plan, r, false) && LedgerInv(r) && SerialInv(r)
    ensures SerialInv(WakeFrom(Runs(plan, r), r, 0))
  {
    OneLane(plan, r);
    if |r.lanes| == 0 || !Awake(r, r.lanes[0]) {
      WakeNothing(Runs(plan, r), r, 0);
    } else {
      WakeAdvances(Runs(plan, r), r, 0);
      CountNone(r.lanes);
      if !Halted(r) {
        PendingHasLane(r);
      }
    }
  }

  lemma SerialEffect(plan: Plan, s: State, e: Event)
    requires Serial(plan) && LanesInv(plan, s, true) && SerialInv(s) && Enabled(plan, s, e)
    ensures SerialInv(Effect(plan, s, e))
  {
    OneLane(plan, s);
    CountBound(s.lanes);
    if e.OpenPhase? {
      CountNone(s.lanes);
    } else if e.SealError? || e.SettleEnd? {
      CountPositive(s.lanes, e.lane);
    }
  }

  lemma SerialStep(plan: Plan, s: State, e: Event)
    requires Serial(plan) && Inv(plan, s) && SerialInv(s) && Enabled(plan, s, e)
    ensures SerialInv(Apply(plan, s, e))
  {
    SerialEffect(plan, s, e);
    EffectKeepsLanes(plan, s, e);
    EffectKeepsLedger(plan, s, e);
    SerialWake(plan, Effect(plan, s, e));
  }

  lemma {:induction false} SerialReachable(plan: Plan, es: seq<Event>)
    requires Serial(plan) && Exec(plan, es).Some?
    ensures SerialInv(Exec(plan, es).value)
  {
    if es != [] {
      var n := |es| - 1;
      SerialReachable(plan, es[..n]);
      ReachableInv(plan, es[..n]);
      SerialStep(plan, Exec(plan, es[..n]).value, es[n]);
    }
  }

  /** With a limit of one, every run started before the one in execution is already sealed. */
  lemma SealedBeforeNextStarts(plan: Plan, es: seq<Event>, l: nat, id: nat)
    requires Serial(plan) && Exec(plan, es).Some?
    requires l < |Exec(plan, es).value.lanes| && Exec(plan, es).value.lanes[l].Executing?
    requires id in Exec(plan, es).value.started && id != Exec(plan, es).value.lanes[l].run.id
    ensures id in Exec(plan, es).value.sealed
  {
    SerialReachable(plan, es);
    ReachableInv(plan, es);
    SerialSealed(plan, Exec(plan, es).value, l, id);
  }

  lemma SerialSealed(plan: Plan, s: State, l: nat, id: nat)
    requires Serial(plan) && Inv(plan, s) && SerialInv(s)
    requires l < |s.lanes| && s.lanes[l].Executing? && id in s.started && id != s.lanes[l].run.id
    ensures id in s.sealed
  {
    CountPositive(s.lanes, l);
    OneLane(plan, s);
    assert s.inFlight > 0;
    hide ExecutingCount, Counters, OrderInv, LaneOk;
    assert !InExecution(s.lanes, id);
  }

  // ---- The phases ----

  lemma {:induction false} SelectSplits(runs: seq<Run>)
    ensures multiset(Select(runs, false)) + multiset(Select(runs, true)) == multiset(runs)
  {
    if runs != [] {
      SelectSplits(runs[1..]);
      assert runs == [runs[0]] + runs[1..];
      var p := runs[0].prepare;
      assert multiset(Select(runs, p)) == multiset{runs[0]} + multiset(Select(runs[1..], p));
      assert Select(runs, !p) == Select(runs[1..], !p);
    }
  }

  lemma {:induction false} SelectKeeps(runs: seq<Run>, prepare: bool, run: Run)
    requires run in Select(runs, prepare)
    ensures run.prepare == prepare
  {
    if run in Select(runs[1..], prepare) {
      SelectKeeps(runs[1..], prepare, run);
    }
  }

  function AllRuns(phases: seq<Phase>): multiset<Run> {
    if phases == [] then multiset{} else multiset(phases[0].runs) + AllRuns(phases[1..])
  }

  lemma AllRunsOne(phase: Phase)
    ensures AllRuns([phase]) == multiset(phase.runs)
  {
    assert [phase][1..] == [];
  }

  lemma AllRunsTwo(shared: seq<Run>, exclusive: seq<Run>, limit: nat)
    ensures AllRuns((if shared == [] then [] else [Phase(shared, limit)]) +
                    (if exclusive == [] then [] else [Phase(exclusive, 1)]))
         == multiset(shared) + multiset(exclusive)
  {
    AllRunsOne(Phase(shared, limit));
    AllRunsOne(Phase(exclusive, 1));
    assert [Phase(shared, limit), Phase(exclusive, 1)][1..] == [Phase(exclusive, 1)];
    assert [Phase(shared, limit)] + [] == [Phase(shared, limit)];
    assert [] + [Phase(exclusive, 1)] == [Phase(exclusive, 1)];
  }

  /** The phases share out exactly the selected runs. */
  lemma PhasesShareOutRuns(runs: seq<Run>, concurrency: int)
    ensures AllRuns(SchedulePhases(runs, concurrency)) == multiset(runs)
  {
    SelectSplits(runs);
    if concurrency <= 1 {
      AllRunsOne(Phase(runs, 1));
    } else {
      AllRunsTwo(Select(runs, false), Select(runs, true), concurrency);
    }
  }

  /** Every pool has a worker; without overlap there is one lane and the manifest order stays as it is. */
  lemma PhasesRunnable(runs: seq<Run>, concurrency: int, digest: int)
    ensures var plan := Plan(SchedulePhases(runs, concurrency), digest);
            Runnable(plan) && (concurrency <= 1 ==> Serial(plan) && Order(plan.phases) == RunIds(runs))
  {
    var phases := SchedulePhases(runs, concurrency);
    if concurrency <= 1 {
      assert phases[..0] == [];
    }
  }

  /** A phase with a run that prepares has a single lane. */
  lemma PreparedPhase(runs: seq<Run>, concurrency: int, phase: Phase, run: Run)
    requires phase in SchedulePhases(runs, concurrency) && run in phase.runs && run.prepare
    ensures phase.limit == 1
  {
    if concurrency > 1 && run in Select(runs, false) {
      SelectKeeps(runs, false, run);
    }
  }

  /** A run that builds files in the shared checkout never executes beside another run. */
  lemma PreparedRunsAlone(runs: seq<Run>, concurrency: int, digest: int, es: seq<Event>, l: nat, m: nat)
    requires Exec(Plan(SchedulePhases(runs, concurrency), digest), es).Some?
    requires var lanes := Exec(Plan(SchedulePhases(runs, concurrency), digest), es).value.lanes;
             && l < |lanes| && m < |lanes|
             && lanes[l].Executing? && lanes[m].Executing? && lanes[l].run.prepare
    ensures l == m
  {
    var plan := Plan(SchedulePhases(runs, concurrency), digest);
    PhasesRunnable(runs, concurrency, digest);
    ReachableInv(plan, es);
    var s := Exec(plan, es).value;
    assert LaneOk(plan, s, true, s.lanes[l]);
    PreparedPhase(runs, concurrency, plan.phases[s.entered - 1], s.lanes[l].run);
  }
}
