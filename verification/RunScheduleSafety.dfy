/** What every schedule of lanes keeps, and that each one ends. */
module RunScheduleSafety {
  import opened Prelude
  import opened RunSchedule

  // ---- Lane counting ----

  lemma {:induction false} CountUpdate(lanes: seq<Lane>, l: nat, lane: Lane)
    requires l < |lanes|
    ensures ExecutingCount(lanes[l := lane]) ==
            ExecutingCount(lanes) + (if lane.Executing? then 1 else 0) - (if lanes[l].Executing? then 1 else 0)
    ensures SettlingCount(lanes[l := lane]) ==
            SettlingCount(lanes) + (if lane.Settling? then 1 else 0) - (if lanes[l].Settling? then 1 else 0)
  {
    if l > 0 {
      assert lanes[l := lane][1..] == lanes[1..][l - 1 := lane];
      CountUpdate(lanes[1..], l - 1, lane);
    } else {
      assert lanes[l := lane][1..] == lanes[1..];
    }
  }

  lemma {:induction false} CountPositive(lanes: seq<Lane>, l: nat)
    requires l < |lanes|
    ensures lanes[l].Executing? ==> ExecutingCount(lanes) > 0
    ensures lanes[l].Settling? ==> SettlingCount(lanes) > 0
  {
    if l > 0 {
      CountPositive(lanes[1..], l - 1);
    }
  }

  lemma {:induction false} CountWitness(lanes: seq<Lane>)
    ensures ExecutingCount(lanes) > 0 ==> exists l :: 0 <= l < |lanes| && lanes[l].Executing?
    ensures SettlingCount(lanes) > 0 ==> exists l :: 0 <= l < |lanes| && lanes[l].Settling?
  {
    if lanes != [] {
      CountWitness(lanes[1..]);
      if lanes[0].Executing? || lanes[0].Settling? {
        assert lanes[0] == lanes[0];
      }
      if ExecutingCount(lanes[1..]) > 0 {
        var l :| 0 <= l < |lanes[1..]| && lanes[1..][l].Executing?;
        assert lanes[l + 1].Executing?;
      }
      if SettlingCount(lanes[1..]) > 0 {
        var l :| 0 <= l < |lanes[1..]| && lanes[1..][l].Settling?;
        assert lanes[l + 1].Settling?;
      }
    }
  }

  lemma {:induction false} CountBound(lanes: seq<Lane>)
    ensures ExecutingCount(lanes) + SettlingCount(lanes) <= |lanes|
  {
    if lanes != [] {
      CountBound(lanes[1..]);
    }
  }

  lemma {:induction false} CountNone(lanes: seq<Lane>)
    requires forall l | 0 <= l < |lanes| :: !lanes[l].Executing? && !lanes[l].Settling?
    ensures ExecutingCount(lanes) == SettlingCount(lanes) == 0
  {
    if lanes != [] {
      CountNone(lanes[1..]);
    }
  }

  /** At most one lane can be settling when the count says so. */
  lemma {:induction false} CountUnique(lanes: seq<Lane>, l: nat, m: nat)
    requires l < m < |lanes| && lanes[l].Settling? && lanes[m].Settling?
    ensures SettlingCount(lanes) > 1
  {
    if l > 0 {
      CountUnique(lanes[1..], l - 1, m - 1);
    } else {
      CountPositive(lanes[1..], m - 1);
    }
  }

  // ---- Waking ----

  /** Runs not yet taken in this phase or a later one. */
  function Remaining(plan: Plan, s: State): int {
    |Runs(plan, s)| - s.next + Later(plan.phases, s.entered)
  }

  function Later(phases: seq<Phase>, k: nat): nat
    decreases |phases| - k
  {
    if k >= |phases| then 0 else |phases[k].runs| + Later(phases, k + 1)
  }

  /** The counters and the history that waking lanes moves, and everything it leaves alone. */
  ghost predicate Advanced(runs: seq<Run>, s: State, t: State) {
    && s.next <= t.next
    && (s.next <= |runs| ==> t.next <= |runs| && t.started == s.started + RunIds(runs[s.next..t.next]))
    && (Halted(s) ==> t.next == s.next && t.started == s.started)
    && t.inFlight - s.inFlight == t.next - s.next == ExecutingCount(t.lanes) - ExecutingCount(s.lanes)
    && SettlingCount(t.lanes) == SettlingCount(s.lanes)
    && t == s.(next := t.next, lanes := t.lanes, inFlight := t.inFlight, started := t.started)
  }

  /** A woken lane is done or executes a run of the phase. */
  ghost predicate RanOn(runs: seq<Run>, s: State, lane: Lane) {
    lane.Done? || (lane.Executing? && lane.run in runs && !Halted(s))
  }

  /** Waking lanes `k..` touches only the awake ones among them. */
  ghost predicate Woken(runs: seq<Run>, s: State, t: State, k: nat) {
    && |t.lanes| == |s.lanes|
    && (forall l | 0 <= l < |s.lanes| ::
          if l < k || !Awake(s, s.lanes[l]) then t.lanes[l] == s.lanes[l] else RanOn(runs, s, t.lanes[l]))
  }

  lemma PickAdvances(runs: seq<Run>, s: State, l: nat)
    requires l < |s.lanes| && Awake(s, s.lanes[l])
    ensures Advanced(runs, s, Pick(runs, s, l))
    ensures RanOn(runs, s, Pick(runs, s, l).lanes[l])
  {
    CountUpdate(s.lanes, l, Pick(runs, s, l).lanes[l]);
  }

  lemma AdvancedTrans(runs: seq<Run>, s: State, r: State, t: State)
    requires Advanced(runs, s, r) && Advanced(runs, r, t)
    ensures Advanced(runs, s, t)
  {
    if s.next <= |runs| {
      assert runs[s.next..t.next] == runs[s.next..r.next] + runs[r.next..t.next];
      assert RunIds(runs[s.next..t.next]) == RunIds(runs[s.next..r.next]) + RunIds(runs[r.next..t.next]);
    }
  }

  lemma {:induction false} WakeAdvances(runs: seq<Run>, s: State, k: nat)
    requires k <= |s.lanes|
    ensures Advanced(runs, s, WakeFrom(runs, s, k))
    decreases |s.lanes| - k
  {
    if k < |s.lanes| {
      var r := if Awake(s, s.lanes[k]) then Pick(runs, s, k) else s;
      WakeAdvances(runs, r, k + 1);
      if Awake(s, s.lanes[k]) {
        PickAdvances(runs, s, k);
        AdvancedTrans(runs, s, r, WakeFrom(runs, s, k));
      }
    }
  }

  lemma {:induction false} WakeTouches(runs: seq<Run>, s: State, k: nat)
    requires k <= |s.lanes|
    ensures Woken(runs, s, WakeFrom(runs, s, k), k)
    decreases |s.lanes| - k
  {
    if k < |s.lanes| {
      var r := if Awake(s, s.lanes[k]) then Pick(runs, s, k) else s;
      WakeTouches(runs, r, k + 1);
      if Awake(s, s.lanes[k]) {
        PickAdvances(runs, s, k);
      }
    }
  }

  /** The new runs are each executed by some lane. */
  lemma {:induction false} WakeTakes(runs: seq<Run>, s: State, k: nat, j: nat)
    requires k <= |s.lanes|
    requires s.next <= j < WakeFrom(runs, s, k).next <= |runs|
    ensures Executing(runs[j]) in WakeFrom(runs, s, k).lanes
    decreases |s.lanes| - k
  {
    if k < |s.lanes| {
      var r := if Awake(s, s.lanes[k]) then Pick(runs, s, k) else s;
      if r.next <= j {
        WakeTakes(runs, r, k + 1, j);
      } else {
        WakeTouches(runs, r, k + 1);
        assert WakeFrom(runs, s, k).lanes[k] == Executing(runs[j]);
      }
    }
  }

  /** An awake lane leaves the pool only when no run may start or none is left. */
  lemma {:induction false} WakeDrains(runs: seq<Run>, s: State, k: nat, l: nat)
    requires k <= l < |s.lanes| && Awake(s, s.lanes[l])
    requires WakeFrom(runs, s, k).lanes[l].Done?
    ensures Halted(s) || WakeFrom(runs, s, k).next >= |runs|
    decreases |s.lanes| - k
  {
    var r := if Awake(s, s.lanes[k]) then Pick(runs, s, k) else s;
    if k < l {
      WakeDrains(runs, r, k + 1, l);
    } else {
      WakeTouches(runs, r, k + 1);
      WakeAdvances(runs, r, k + 1);
    }
  }

  // ---- The invariant ----

  function Limit(plan: Plan, s: State): nat {
    if 0 < s.entered <= |plan.phases| then plan.phases[s.entered - 1].limit else 0
  }

  /** The counters and flags of a state. */
  ghost predicate Counters(plan: Plan, s: State) {
    && s.entered <= |plan.phases|
    && s.next <= |Runs(plan, s)|
    && |s.lanes| <= Limit(plan, s)
    && s.inFlight == ExecutingCount(s.lanes)
    && SettlingCount(s.lanes) <= 1
    && (SettlingCount(s.lanes) == 1 ==> s.inFlight == 0)
    && (s.suspect ==> s.inFlight > 0 || SettlingCount(s.lanes) == 1)
    && (s.rejected ==> s.errors > 0)
  }

  /** One lane of a state; `resting` says that no lane is awake. */
  ghost predicate LaneOk(plan: Plan, s: State, resting: bool, lane: Lane) {
    && (lane.Executing? ==> lane.run in Runs(plan, s))
    && (Awake(s, lane) ==> !resting && (Halted(s) || SettlingCount(s.lanes) == 0))
  }

  ghost predicate LanesInv(plan: Plan, s: State, resting: bool) {
    && Counters(plan, s)
    && (forall l | 0 <= l < |s.lanes| :: LaneOk(plan, s, resting, s.lanes[l]))
  }

  lemma {:induction false} WakeNothing(runs: seq<Run>, s: State, k: nat)
    requires k <= |s.lanes|
    requires forall l | 0 <= l < |s.lanes| :: !Awake(s, s.lanes[l])
    ensures WakeFrom(runs, s, k) == s
    decreases |s.lanes| - k
  {
    if k < |s.lanes| {
      WakeNothing(runs, s, k + 1);
    }
  }

  lemma WakeKeepsLanes(plan: Plan, s: State)
    requires LanesInv(plan, s, false)
    ensures LanesInv(plan, WakeFrom(Runs(plan, s), s, 0), true)
  {
    var runs := Runs(plan, s);
    if SettlingCount(s.lanes) == 1 && !Halted(s) {
      WakeNothing(runs, s, 0);
    } else {
      WakeAdvances(runs, s, 0);
      WakeTouches(runs, s, 0);
    }
  }

  lemma SiblingsKeepCounters(plan: Plan, r: State, l: nat, outcome: Outcome)
    requires Counters(plan, r.(inFlight := r.inFlight + 1)) && l < |r.lanes| && r.lanes[l].Executing?
    requires r.inFlight > 0
    ensures Counters(plan, LeaveSiblings(r, l, outcome))
    ensures SettlingCount(LeaveSiblings(r, l, outcome).lanes) == 0
  {
    CountUpdate(r.lanes, l, LeaveSiblings(r, l, outcome).lanes[l]);
  }

  lemma JudgeKeepsCounters(plan: Plan, r: State, l: nat, outcome: Outcome)
    requires Counters(plan, r.(inFlight := r.inFlight + 1)) && l < |r.lanes| && r.lanes[l].Executing?
    requires r.inFlight == 0
    ensures Counters(plan, Judge(plan, r, l, outcome))
  {
    CountUpdate(r.lanes, l, Judge(plan, r, l, outcome).lanes[l]);
  }

  lemma LeaveKeepsCounters(plan: Plan, s: State, l: nat, outcome: Outcome)
    requires Counters(plan, s) && Enabled(plan, s, Leave(l, outcome))
    ensures Counters(plan, LeaveRun(plan, s, l, outcome))
    ensures SettlingCount(s.lanes) == 0
    ensures s.inFlight > 1 ==> SettlingCount(LeaveRun(plan, s, l, outcome).lanes) == 0
  {
    CountPositive(s.lanes, l);
    var r := Record(s, s.lanes[l].run.id, outcome);
    if r.inFlight > 0 {
      SiblingsKeepCounters(plan, r, l, outcome);
    } else {
      JudgeKeepsCounters(plan, r, l, outcome);
    }
  }

  lemma LeaveKeepsLanes(plan: Plan, s: State, l: nat, outcome: Outcome)
    requires LanesInv(plan, s, true) && Enabled(plan, s, Leave(l, outcome))
    ensures LanesInv(plan, LeaveRun(plan, s, l, outcome), false)
  {
    LeaveKeepsCounters(plan, s, l, outcome);
    LeaveShape(plan, s, l, outcome);
    var t := LeaveRun(plan, s, l, outcome);
    hide LeaveRun, Counters, SettlingCount;
    forall m | 0 <= m < |s.lanes|
      ensures LaneOk(plan, t, false, t.lanes[m])
    {
      assert LaneOk(plan, s, true, s.lanes[m]);
    }
  }

  /** Only the leaving lane changes, and a suspect checkout is cleared only by giving up. */
  lemma LeaveShape(plan: Plan, s: State, l: nat, outcome: Outcome)
    requires Enabled(plan, s, Leave(l, outcome))
    ensures var t := LeaveRun(plan, s, l, outcome);
            && t.entered == s.entered && |t.lanes| == |s.lanes|
            && (forall m | 0 <= m < |s.lanes| && m != l :: t.lanes[m] == s.lanes[m])
            && !t.lanes[l].Executing?
            && (t.lanes[l].Idle? ==> s.inFlight > 1) && (t.lanes[l].Parked? ==> t.suspect)
            && (s.suspect && !t.suspect ==> Halted(t)) && (Halted(s) ==> Halted(t))
  {
    hide CleanAtRest;
  }

  lemma SettleKeepsLanes(plan: Plan, s: State, e: Event)
    requires LanesInv(plan, s, true) && Enabled(plan, s, e) && (e.SealError? || e.SettleEnd?)
    ensures LanesInv(plan, Effect(plan, s, e), false)
  {
    var t := Effect(plan, s, e);
    CountUpdate(s.lanes, e.lane, t.lanes[e.lane]);
    CountPositive(s.lanes, e.lane);
    forall m | 0 <= m < |s.lanes|
      ensures LaneOk(plan, t, false, t.lanes[m])
    {
      assert LaneOk(plan, s, true, s.lanes[m]);
    }
  }

  lemma EffectKeepsLanes(plan: Plan, s: State, e: Event)
    requires LanesInv(plan, s, true) && Enabled(plan, s, e)
    ensures LanesInv(plan, Effect(plan, s, e), false)
  {
    match e
    case OpenPhase =>
      CountNone(s.lanes);
      CountNone(Effect(plan, s, e).lanes);
    case Touch(_) =>
    case Leave(l, outcome) => LeaveKeepsLanes(plan, s, l, outcome);
    case SealOne(_) =>
    case SealError(_, _) => SettleKeepsLanes(plan, s, e);
    case SettleEnd(_) => SettleKeepsLanes(plan, s, e);
  }

  // ---- What is sealed, and when ----

  ghost predicate InBatch(lanes: seq<Lane>, id: nat) {
    exists l :: 0 <= l < |lanes| && lanes[l].Settling? && id in lanes[l].batch
  }

  /** Every completed run is unsealed, being sealed or sealed, unless a judgement or a receipt failed. */
  ghost predicate LedgerInv(s: State) {
    && (s.unsealed != [] ==> s.inFlight > 0 || s.rejected)
    && Ids(s.unsealed) + s.sealing + s.sealed <= s.completed
    && (!s.rejected ==> s.completed <= Ids(s.unsealed) + s.sealing + s.sealed)
    && (forall l | 0 <= l < |s.lanes| && s.lanes[l].Settling? :: s.lanes[l].batch <= s.sealing + s.sealed)
    && (!s.rejected ==> forall id | id in s.sealing - s.sealed :: InBatch(s.lanes, id))
  }

  /** A receipt still to be written belongs to the batch of a settling lane. */
  lemma PendingHasLane(s: State)
    requires LedgerInv(s) && !s.rejected
    ensures s.sealing <= s.sealed || exists l :: 0 <= l < |s.lanes| && s.lanes[l].Settling?
    ensures forall id | id in s.sealing && id !in s.sealed :: InBatch(s.lanes, id)
  {
    if id :| id in s.sealing && id !in s.sealed {
      assert id in s.sealing - s.sealed;
      assert InBatch(s.lanes, id);
    }
    forall id | id in s.sealing && id !in s.sealed
      ensures InBatch(s.lanes, id)
    {
      assert id in s.sealing - s.sealed;
    }
  }

  lemma WakeKeepsLedger(plan: Plan, s: State)
    requires LanesInv(plan, s, false) && LedgerInv(s)
    ensures LedgerInv(WakeFrom(Runs(plan, s), s, 0))
  {
    var t := WakeFrom(Runs(plan, s), s, 0);
    WakeAdvances(Runs(plan, s), s, 0);
    WakeTouches(Runs(plan, s), s, 0);
    forall id | id in t.sealing - t.sealed && !t.rejected
      ensures InBatch(t.lanes, id)
    {
      var l :| 0 <= l < |s.lanes| && s.lanes[l].Settling? && id in s.lanes[l].batch;
      assert t.lanes[l] == s.lanes[l];
    }
  }

  lemma NoneSettling(lanes: seq<Lane>)
    requires SettlingCount(lanes) == 0
    ensures forall m | 0 <= m < |lanes| :: !lanes[m].Settling?
  {
    forall m | 0 <= m < |lanes|
      ensures !lanes[m].Settling?
    {
      CountPositive(lanes, m);
    }
  }

  lemma SiblingsKeepLedger(s: State, l: nat, outcome: Outcome)
    requires LedgerInv(s) && l < |s.lanes| && s.lanes[l].Executing? && s.inFlight > 1
    requires SettlingCount(s.lanes) == 0
    ensures LedgerInv(LeaveSiblings(Record(s, s.lanes[l].run.id, outcome), l, outcome))
  {
    NoneSettling(s.lanes);
    if !s.rejected {
      PendingHasLane(s);
    }
    var r := Record(s, s.lanes[l].run.id, outcome);
    IdsMore(s.unsealed, s.lanes[l].run.id);
    assert forall m | 0 <= m < |s.lanes| :: !LeaveSiblings(r, l, outcome).lanes[m].Settling?;
    hide Ids, SettlingCount;
  }

  lemma IdsMore(ids: seq<nat>, id: nat)
    ensures Ids(ids + [id]) == Ids(ids) + {id}
  {
  }

  lemma JudgeKeepsLedger(plan: Plan, s: State, l: nat, outcome: Outcome)
    requires LedgerInv(s) && l < |s.lanes| && s.lanes[l].Executing? && s.inFlight == 1
    requires SettlingCount(s.lanes) == 0
    ensures LedgerInv(Judge(plan, Record(s, s.lanes[l].run.id, outcome), l, outcome))
  {
    NoneSettling(s.lanes);
    if !s.rejected {
      PendingHasLane(s);
    }
    var t := Judge(plan, Record(s, s.lanes[l].run.id, outcome), l, outcome);
    forall id | id in t.sealing - t.sealed && !t.rejected
      ensures InBatch(t.lanes, id)
    {
      assert id in t.lanes[l].batch;
    }
  }

  lemma LeaveKeepsLedger(plan: Plan, s: State, l: nat, outcome: Outcome)
    requires LanesInv(plan, s, true) && LedgerInv(s) && Enabled(plan, s, Leave(l, outcome))
    ensures LedgerInv(LeaveRun(plan, s, l, outcome))
  {
    LeaveKeepsCounters(plan, s, l, outcome);
    if s.inFlight > 1 {
      SiblingsKeepLedger(s, l, outcome);
    } else {
      CountPositive(s.lanes, l);
      JudgeKeepsLedger(plan, s, l, outcome);
    }
  }

  lemma SealOneKeepsLedger(plan: Plan, s: State, id: nat)
    requires LanesInv(plan, s, true) && LedgerInv(s) && Enabled(plan, s, SealOne(id))
    ensures LedgerInv(Effect(plan, s, SealOne(id)))
  {
  }

  lemma OnlySettling(plan: Plan, s: State, l: nat)
    requires Counters(plan, s) && l < |s.lanes| && s.lanes[l].Settling?
    ensures forall m | 0 <= m < |s.lanes| && s.lanes[m].Settling? :: m == l
  {
    forall m | 0 <= m < |s.lanes| && s.lanes[m].Settling?
      ensures m == l
    {
      if m < l { CountUnique(s.lanes, m, l); }
      if l < m { CountUnique(s.lanes, l, m); }
    }
  }

  lemma SettleEndKeepsLedger(plan: Plan, s: State, l: nat)
    requires LanesInv(plan, s, true) && LedgerInv(s) && Enabled(plan, s, SettleEnd(l))
    ensures LedgerInv(Effect(plan, s, SettleEnd(l)))
    ensures !s.rejected ==> s.sealing <= s.sealed
  {
    OnlySettling(plan, s, l);
    if !s.rejected {
      PendingHasLane(s);
    }
  }

  // ---- The order in which runs start ----

  /** A pool needs a worker: every phase allows at least one run in flight. */
  ghost predicate Runnable(plan: Plan) {
    forall phase | phase in plan.phases :: phase.limit >= 1
  }

  /** The ids that have been taken when `next` runs of the current phase have. */
  function Taken(plan: Plan, s: State): seq<nat>
    requires s.entered <= |plan.phases| && s.next <= |Runs(plan, s)|
  {
    if s.entered == 0 then [] else Order(plan.phases[..s.entered - 1]) + RunIds(Runs(plan, s)[..s.next])
  }

  ghost predicate OrderInv(plan: Plan, s: State)
    requires s.entered <= |plan.phases| && s.next <= |Runs(plan, s)|
  {
    && s.started <= Order(plan.phases)
    && (!Halted(s) ==> s.started == Taken(plan, s))
    && (!Halted(s) ==> |s.lanes| == Min(Limit(plan, s), |Runs(plan, s)|))
    && (!Halted(s) ==> forall l | 0 <= l < |s.lanes| && s.lanes[l].Done? :: s.next == |Runs(plan, s)|)
  }

  lemma {:induction false} OrderPrefix(phases: seq<Phase>, k: nat)
    requires k <= |phases|
    ensures Order(phases[..k]) <= Order(phases)
  {
    if k < |phases| {
      OrderPrefix(phases[..|phases| - 1], k);
      assert phases[..|phases| - 1][..k] == phases[..k];
    } else {
      assert phases[..k] == phases;
    }
  }

  lemma OrderStep(phases: seq<Phase>, k: nat)
    requires 0 < k <= |phases|
    ensures Order(phases[..k]) == Order(phases[..k - 1]) + RunIds(phases[k - 1].runs)
  {
    assert phases[..k][..k - 1] == phases[..k - 1];
  }

  lemma TakenPrefix(plan: Plan, s: State)
    requires s.entered <= |plan.phases| && s.next <= |Runs(plan, s)|
    ensures Taken(plan, s) <= Order(plan.phases)
  {
    if s.entered > 0 {
      OrderStep(plan.phases, s.entered);
      OrderPrefix(plan.phases, s.entered);
      var runs := Runs(plan, s);
      assert RunIds(runs[..s.next]) == RunIds(runs)[..s.next];
      assert Taken(plan, s) == Order(plan.phases[..s.entered])[..|Taken(plan, s)|];
    }
  }

  lemma WakeKeepsTaken(plan: Plan, s: State)
    requires s.entered <= |plan.phases| && s.next <= |Runs(plan, s)|
    requires !Halted(s) && s.started == Taken(plan, s)
    ensures var t := WakeFrom(Runs(plan, s), s, 0);
            t.entered == s.entered && s.next <= t.next <= |Runs(plan, t)| && t.started == Taken(plan, t)
  {
    var runs := Runs(plan, s);
    var t := WakeFrom(runs, s, 0);
    WakeAdvances(runs, s, 0);
    hide WakeFrom, Order, ExecutingCount, SettlingCount;
    RunIdsSplit(runs, s.next, t.next);
  }

  lemma RunIdsSplit(runs: seq<Run>, i: nat, k: nat)
    requires i <= k <= |runs|
    ensures RunIds(runs[..k]) == RunIds(runs[..i]) + RunIds(runs[i..k])
  {
    assert runs[..k] == runs[..i] + runs[i..k];
  }

  /** A lane leaves the pool only when its phase has no run left. */
  lemma WakeKeepsDone(runs: seq<Run>, s: State)
    requires !Halted(s) && s.next <= |runs|
    requires forall l | 0 <= l < |s.lanes| && s.lanes[l].Done? :: s.next == |runs|
    ensures var t := WakeFrom(runs, s, 0);
            forall l | 0 <= l < |t.lanes| && t.lanes[l].Done? :: t.next == |runs|
  {
    var t := WakeFrom(runs, s, 0);
    WakeAdvances(runs, s, 0);
    WakeTouches(runs, s, 0);
    forall l | 0 <= l < |t.lanes| && t.lanes[l].Done?
      ensures t.next == |runs|
    {
      if Awake(s, s.lanes[l]) {
        WakeDrains(runs, s, 0, l);
      }
    }
  }

  lemma WakeKeepsOrder(plan: Plan, s: State)
    requires LanesInv(plan, s, false) && OrderInv(plan, s)
    ensures LanesInv(plan, WakeFrom(Runs(plan, s), s, 0), true)
    ensures OrderInv(plan, WakeFrom(Runs(plan, s), s, 0))
  {
    var runs := Runs(plan, s);
    WakeKeepsLanes(plan, s);
    WakeAdvances(runs, s, 0);
    if !Halted(s) {
      WakeKeepsTaken(plan, s);
      WakeKeepsDone(runs, s);
      TakenPrefix(plan, WakeFrom(runs, s, 0));
    }
    hide WakeFrom, Taken, LaneOk, ExecutingCount, SettlingCount;
  }

  lemma OpenKeepsOrder(plan: Plan, s: State)
    requires Runnable(plan) && LanesInv(plan, s, true) && OrderInv(plan, s) && Enabled(plan, s, OpenPhase)
    requires !Halted(s)
    ensures LanesInv(plan, Effect(plan, s, OpenPhase), false)
    ensures OrderInv(plan, Effect(plan, s, OpenPhase))
  {
    EffectKeepsLanes(plan, s, OpenPhase);
    var runs := Runs(plan, s);
    if s.entered > 0 {
      OrderStep(plan.phases, s.entered);
      assert plan.phases[s.entered - 1] in plan.phases;
      if runs != [] {
        assert s.lanes[0].Done?;
      }
      assert runs[..s.next] == runs;
    }
    var t := Effect(plan, s, OpenPhase);
    assert Order(plan.phases[..0]) == [];
    assert t.started == Taken(plan, t);
  }

  lemma LeaveKeepsOrder(plan: Plan, s: State, l: nat, outcome: Outcome)
    requires LanesInv(plan, s, true) && OrderInv(plan, s) && Enabled(plan, s, Leave(l, outcome))
    ensures LanesInv(plan, LeaveRun(plan, s, l, outcome), false)
    ensures OrderInv(plan, LeaveRun(plan, s, l, outcome))
  {
    LeaveKeepsLanes(plan, s, l, outcome);
    LeaveTakesNothing(plan, s, l, outcome);
    hide LanesInv, LeaveRun, Order;
  }

  lemma LeaveTakesNothing(plan: Plan, s: State, l: nat, outcome: Outcome)
    requires Enabled(plan, s, Leave(l, outcome))
    ensures var t := LeaveRun(plan, s, l, outcome);
            && t.started == s.started && t.next == s.next && t.entered == s.entered && |t.lanes| == |s.lanes|
            && (Halted(s) ==> Halted(t))
            && (!Halted(t) ==> forall m | 0 <= m < |t.lanes| && t.lanes[m].Done? :: m != l && s.lanes[m].Done?)
  {
    hide CleanAtRest;
  }

  lemma EffectKeepsOrder(plan: Plan, s: State, e: Event)
    requires Runnable(plan) && LanesInv(plan, s, true) && OrderInv(plan, s) && Enabled(plan, s, e)
    ensures LanesInv(plan, Effect(plan, s, e), false)
    ensures OrderInv(plan, Effect(plan, s, e))
  {
    EffectKeepsLanes(plan, s, e);
    if e.OpenPhase? {
      if !Halted(s) {
        OpenKeepsOrder(plan, s);
      }
    } else if e.Leave? {
      LeaveKeepsOrder(plan, s, e.lane, e.outcome);
    }
  }

  // ---- Every started run is accounted for ----

  ghost predicate InExecution(lanes: seq<Lane>, id: nat) {
    exists l :: 0 <= l < |lanes| && lanes[l].Executing? && lanes[l].run.id == id
  }

  ghost predicate StartedInv(s: State) {
    && s.completed <= Ids(s.started)
    && (forall l | 0 <= l < |s.lanes| && s.lanes[l].Executing? :: s.lanes[l].run.id in s.started)
    && (!s.stopped ==> forall id | id in s.started :: id in s.completed || InExecution(s.lanes, id))
  }

  lemma WakeExecutesStarted(runs: seq<Run>, s: State)
    requires StartedInv(s) && s.next <= |runs|
    ensures var t := WakeFrom(runs, s, 0);
            forall l | 0 <= l < |t.lanes| && t.lanes[l].Executing? :: t.lanes[l].run.id in t.started
  {
    var t := WakeFrom(runs, s, 0);
    forall l | 0 <= l < |t.lanes| && t.lanes[l].Executing?
      ensures t.lanes[l].run.id in t.started
    {
      WakeStarts(runs, s, 0, l);
    }
  }

  lemma WakeKeepsExecution(runs: seq<Run>, s: State, id: nat)
    requires s.next <= |runs| && id in WakeFrom(runs, s, 0).started
    requires id in s.started ==> InExecution(s.lanes, id)
    ensures InExecution(WakeFrom(runs, s, 0).lanes, id)
  {
    var t := WakeFrom(runs, s, 0);
    WakeTouches(runs, s, 0);
    if id in s.started {
      var l :| 0 <= l < |s.lanes| && s.lanes[l].Executing? && s.lanes[l].run.id == id;
      assert t.lanes[l] == s.lanes[l];
    } else {
      WakeAdvances(runs, s, 0);
      var j :| 0 <= j < t.next - s.next && RunIds(runs[s.next..t.next])[j] == id;
      WakeTakes(runs, s, 0, s.next + j);
      var l :| 0 <= l < |t.lanes| && t.lanes[l] == Executing(runs[s.next + j]);
      assert t.lanes[l].run.id == id;
    }
  }

  lemma WakeKeepsStarted(runs: seq<Run>, s: State)
    requires StartedInv(s) && s.next <= |runs|
    ensures StartedInv(WakeFrom(runs, s, 0))
  {
    var t := WakeFrom(runs, s, 0);
    WakeAdvances(runs, s, 0);
    WakeExecutesStarted(runs, s);
    forall id | id in t.started && !t.stopped && id !in t.completed
      ensures InExecution(t.lanes, id)
    {
      WakeKeepsExecution(runs, s, id);
    }
  }

  /** A run in execution was there before, or has just been recorded as started. */
  lemma {:induction false} WakeStarts(runs: seq<Run>, s: State, k: nat, l: nat)
    requires k <= |s.lanes| && l < |s.lanes|
    requires forall m | 0 <= m < |s.lanes| && s.lanes[m].Executing? :: s.lanes[m].run.id in s.started
    requires WakeFrom(runs, s, k).lanes[l].Executing?
    ensures WakeFrom(runs, s, k).lanes[l].run.id in WakeFrom(runs, s, k).started
    decreases |s.lanes| - k
  {
    if k < |s.lanes| {
      var r := if Awake(s, s.lanes[k]) then Pick(runs, s, k) else s;
      WakeStarts(runs, r, k + 1, l);
    }
  }

  lemma LaneEndsKeepsStarted(s: State, t: State, l: nat)
    requires StartedInv(s) && l < |s.lanes| == |t.lanes| && t.lanes == s.lanes[l := t.lanes[l]]
    requires !t.lanes[l].Executing?
    requires t.started == s.started && s.completed <= t.completed && (s.stopped ==> t.stopped)
    requires if s.lanes[l].Executing? then
               t.completed <= s.completed + {s.lanes[l].run.id} && (t.stopped || s.lanes[l].run.id in t.completed)
             else t.completed == s.completed
    ensures StartedInv(t)
  {
    forall id | id in t.started && !t.stopped && id !in t.completed
      ensures InExecution(t.lanes, id)
    {
      var m :| 0 <= m < |s.lanes| && s.lanes[m].Executing? && s.lanes[m].run.id == id;
      assert t.lanes[m] == s.lanes[m];
    }
  }

  lemma LeaveKeepsStarted(plan: Plan, s: State, l: nat, outcome: Outcome)
    requires StartedInv(s) && Enabled(plan, s, Leave(l, outcome))
    ensures StartedInv(LeaveRun(plan, s, l, outcome))
  {
    LeaveRecords(plan, s, l, outcome);
    hide LeaveRun;
    LaneEndsKeepsStarted(s, LeaveRun(plan, s, l, outcome), l);
  }

  lemma LeaveRecords(plan: Plan, s: State, l: nat, outcome: Outcome)
    requires Enabled(plan, s, Leave(l, outcome))
    ensures var t := LeaveRun(plan, s, l, outcome);
            && |t.lanes| == |s.lanes| && t.lanes == s.lanes[l := t.lanes[l]] && !t.lanes[l].Executing?
            && t.started == s.started && (s.stopped ==> t.stopped)
            && s.completed <= t.completed <= s.completed + {s.lanes[l].run.id}
            && (t.stopped || s.lanes[l].run.id in t.completed)
  {
    hide CleanAtRest;
  }

  lemma EffectKeepsStarted(plan: Plan, s: State, e: Event)
    requires StartedInv(s) && Enabled(plan, s, e)
    ensures StartedInv(Effect(plan, s, e))
  {
    hide LeaveRun;
    var t := Effect(plan, s, e);
    match e
    case OpenPhase =>
      assert !s.stopped ==> forall id | id in s.started :: id in s.completed || InExecution(s.lanes, id);
    case Touch(_) =>
    case Leave(l, outcome) => LeaveKeepsStarted(plan, s, l, outcome);
    case SealOne(_) =>
    case SealError(l, _) => LaneEndsKeepsStarted(s, t, l);
    case SettleEnd(l) => LaneEndsKeepsStarted(s, t, l);
  }

  // ---- The whole invariant ----

  ghost predicate Inv(plan: Plan, s: State) {
    LanesInv(plan, s, true) && LedgerInv(s) && OrderInv(plan, s) && StartedInv(s)
  }

  lemma InitInv(plan: Plan)
    ensures Inv(plan, Init(plan))
  {
  }

  lemma EffectKeepsLedger(plan: Plan, s: State, e: Event)
    requires LanesInv(plan, s, true) && LedgerInv(s) && Enabled(plan, s, e)
    ensures LedgerInv(Effect(plan, s, e))
  {
    match e
    case OpenPhase =>
      if !s.rejected {
        PendingHasLane(s);
      }
      CountNone(s.lanes);
    case Touch(_) =>
    case Leave(l, outcome) => LeaveKeepsLedger(plan, s, l, outcome);
    case SealOne(id) => SealOneKeepsLedger(plan, s, id);
    case SealError(l, _) => OnlySettling(plan, s, l);
    case SettleEnd(l) => SettleEndKeepsLedger(plan, s, l);
  }

  lemma ApplyKeepsInv(plan: Plan, s: State, e: Event)
    requires Runnable(plan) && Inv(plan, s) && Enabled(plan, s, e)
    ensures Inv(plan, Apply(plan, s, e))
  {
    var r := Effect(plan, s, e);
    EffectKeepsOrder(plan, s, e);
    EffectKeepsLedger(plan, s, e);
    EffectKeepsStarted(plan, s, e);
    WakeKeepsOrder(plan, r);
    WakeKeepsLedger(plan, r);
    WakeKeepsStarted(Runs(plan, r), r);
    WakeAdvances(Runs(plan, r), r, 0);
  }

  lemma {:induction false} ReachableInv(plan: Plan, es: seq<Event>)
    requires Runnable(plan) && Exec(plan, es).Some?
    ensures Inv(plan, Exec(plan, es).value)
  {
    if es == [] {
      InitInv(plan);
    } else {
      var n := |es| - 1;
      ReachableInv(plan, es[..n]);
      ApplyKeepsInv(plan, Exec(plan, es[..n]).value, es[n]);
    }
  }

  // ---- Termination ----

  /** Steps the lanes can still take, whatever is done to the checkout in between. */
  function Measure(plan: Plan, s: State): int {
    |plan.phases| - s.entered + 3 * Remaining(plan, s) + 3 * ExecutingCount(s.lanes)
    + |s.unsealed| + SettlingCount(s.lanes) + |s.sealing|
  }

  lemma {:induction false} IdsSize(ids: seq<nat>)
    ensures |Ids(ids)| <= |ids|
  {
    if ids != [] {
      var n := |ids| - 1;
      IdsSize(ids[..n]);
      assert Ids(ids) == Ids(ids[..n]) + {ids[n]};
    }
  }

  lemma JudgeMeasure(plan: Plan, r: State, l: nat, outcome: Outcome)
    requires l < |r.lanes| && r.lanes[l].Executing?
    ensures Measure(plan, Judge(plan, r, l, outcome)) <= Measure(plan, r) - 2
  {
    CountUpdate(r.lanes, l, Judge(plan, r, l, outcome).lanes[l]);
    IdsSize(r.unsealed);
    assert |r.sealing + Ids(r.unsealed)| <= |r.sealing| + |Ids(r.unsealed)|;
  }

  lemma RecordMeasure(plan: Plan, s: State, id: nat, outcome: Outcome)
    ensures Measure(plan, Record(s, id, outcome)) <= Measure(plan, s) + 1
    ensures Record(s, id, outcome).lanes == s.lanes
  {
    hide ExecutingCount, SettlingCount;
  }

  lemma SiblingsMeasure(plan: Plan, r: State, l: nat, outcome: Outcome)
    requires l < |r.lanes| && r.lanes[l].Executing?
    ensures Measure(plan, LeaveSiblings(r, l, outcome)) <= Measure(plan, r) - 2
  {
    hide ExecutingCount, SettlingCount;
    CountUpdate(r.lanes, l, LeaveSiblings(r, l, outcome).lanes[l]);
  }

  lemma LeaveMeasure(plan: Plan, s: State, l: nat, outcome: Outcome)
    requires Enabled(plan, s, Leave(l, outcome))
    ensures Measure(plan, LeaveRun(plan, s, l, outcome)) < Measure(plan, s)
  {
    hide Measure, Record, LeaveSiblings, Judge;
    var r := Record(s, s.lanes[l].run.id, outcome);
    RecordMeasure(plan, s, s.lanes[l].run.id, outcome);
    if r.inFlight > 0 {
      SiblingsMeasure(plan, r, l, outcome);
    } else {
      JudgeMeasure(plan, r, l, outcome);
    }
  }

  lemma OpenMeasure(plan: Plan, s: State)
    requires LanesInv(plan, s, true) && Enabled(plan, s, OpenPhase)
    ensures Measure(plan, Effect(plan, s, OpenPhase)) < Measure(plan, s)
  {
    CountNone(s.lanes);
    CountNone(Effect(plan, s, OpenPhase).lanes);
  }

  lemma SettleMeasure(plan: Plan, s: State, e: Event)
    requires Enabled(plan, s, e) && (e.SealError? || e.SettleEnd?)
    ensures Measure(plan, Effect(plan, s, e)) < Measure(plan, s)
  {
    CountUpdate(s.lanes, e.lane, Effect(plan, s, e).lanes[e.lane]);
  }

  lemma EffectMeasure(plan: Plan, s: State, e: Event)
    requires LanesInv(plan, s, true) && Enabled(plan, s, e) && !e.Touch?
    ensures Measure(plan, Effect(plan, s, e)) < Measure(plan, s)
  {
    match e
    case OpenPhase => OpenMeasure(plan, s);
    case Leave(l, outcome) => LeaveMeasure(plan, s, l, outcome);
    case SealOne(_) =>
    case SealError(_, _) => SettleMeasure(plan, s, e);
    case SettleEnd(_) => SettleMeasure(plan, s, e);
  }

  lemma WakeMeasure(plan: Plan, r: State)
    ensures Measure(plan, WakeFrom(Runs(plan, r), r, 0)) <= Measure(plan, r)
  {
    WakeAdvances(Runs(plan, r), r, 0);
  }

  lemma TouchMeasure(plan: Plan, s: State, tree: Tree)
    requires LanesInv(plan, s, true)
    ensures Apply(plan, s, Touch(tree)) == s.(tree := tree)
    ensures Measure(plan, s.(tree := tree)) == Measure(plan, s) >= 0
  {
    var r := s.(tree := tree);
    assert forall l | 0 <= l < |r.lanes| :: LaneOk(plan, s, true, s.lanes[l]);
    WakeNothing(Runs(plan, r), r, 0);
  }

  lemma ApplyMeasure(plan: Plan, s: State, e: Event)
    requires LanesInv(plan, s, true) && Enabled(plan, s, e)
    ensures Measure(plan, Apply(plan, s, e)) <= Measure(plan, s) - (if e.Touch? then 0 else 1)
  {
    if e.Touch? {
      TouchMeasure(plan, s, e.tree);
    } else {
      EffectMeasure(plan, s, e);
      WakeMeasure(plan, Effect(plan, s, e));
    }
  }
}
