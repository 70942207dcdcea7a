/** What the outcomes of the runs, and nothing else, decide about a schedule. */
module RunScheduleOutcomes {
  import opened Prelude
  import opened RunSchedule
  import opened RunScheduleSafety
  import opened RunScheduleTheorems

  // ---- A run that fails or throws stops the schedule ----

  lemma BadLeaveHalts(plan: Plan, s: State, l: nat, outcome: Outcome)
    requires Enabled(plan, s, Leave(l, outcome)) && outcome != Passed
    ensures var t := Apply(plan, s, Leave(l, outcome)); Halted(t) && t.started == s.started
  {
    LeaveTakesNothing(plan, s, l, outcome);
    var r := LeaveRun(plan, s, l, outcome);
    assert Halted(r);
    WakeAdvances(Runs(plan, r), r, 0);
    hide WakeFrom, LeaveRun;
  }

  /** Behind a run that failed or threw no run starts any more, whatever else happens. */
  lemma FailedRunStopsStarts(plan: Plan, es: seq<Event>, j: nat, k: nat)
    requires Exec(plan, es).Some? && j < k <= |es|
    requires es[j].Leave? && es[j].outcome != Passed
    ensures At(plan, es, k).started == At(plan, es, j).started
  {
    hide *;
    AtStep(plan, es, j);
    BadLeaveHalts(plan, At(plan, es, j), es[j].lane, es[j].outcome);
    NoStartAfterStop(plan, es, j + 1, k);
  }

  // ---- What returned, and what threw ----

  /** The `j`-th event is the return of the run with this id; a run that throws does not return. */
  ghost predicate Returns(plan: Plan, es: seq<Event>, j: nat, id: nat) {
    && j < |es| && es[j].Leave? && es[j].outcome != Threw
    && es[j].lane < |At(plan, es, j).lanes| && At(plan, es, j).lanes[es[j].lane].Executing?
    && At(plan, es, j).lanes[es[j].lane].run.id == id
  }

  ghost predicate ThrewSome(es: seq<Event>) {
    exists j :: 0 <= j < |es| && es[j].Leave? && es[j].outcome == Threw
  }

  ghost predicate FailedSome(es: seq<Event>) {
    exists j :: 0 <= j < |es| && es[j].Leave? && es[j].outcome != Passed
  }

  lemma AtEarlier(plan: Plan, es: seq<Event>, n: nat, j: nat)
    requires j <= n <= |es|
    ensures At(plan, es[..n], j) == At(plan, es, j)
  {
    assert es[..n][..j] == es[..j];
  }

  lemma ReturnsEarlier(plan: Plan, es: seq<Event>, n: nat, j: nat, id: nat)
    requires j < n <= |es|
    ensures Returns(plan, es[..n], j, id) <==> Returns(plan, es, j, id)
  {
    hide At;
    AtEarlier(plan, es, n, j);
  }

  lemma ApplyCompletes(plan: Plan, s: State, e: Event)
    requires Enabled(plan, s, e)
    ensures Apply(plan, s, e).completed
         == s.completed + if e.Leave? && e.outcome != Threw then {s.lanes[e.lane].run.id} else {}
  {
    var r := Effect(plan, s, e);
    WakeAdvances(Runs(plan, r), r, 0);
    hide WakeFrom, CleanAtRest;
  }

  /** The completed runs are those that returned, whether they passed or failed. */
  lemma {:induction false} CompletedMeansReturned(plan: Plan, es: seq<Event>, id: nat)
    requires Exec(plan, es).Some?
    ensures id in Exec(plan, es).value.completed <==> exists j: nat :: Returns(plan, es, j, id)
  {
    hide Apply, Enabled, Returns;
    if es == [] {
      NothingReturned(plan, id);
    } else {
      var n := |es| - 1;
      assert es[..|es|] == es;
      CompletedMeansReturned(plan, es[..n], id);
      AtStep(plan, es, n);
      AtIsExec(plan, es, n);
      ApplyCompletes(plan, At(plan, es, n), es[n]);
      LastReturn(plan, es, n, id);
      if j: nat :| Returns(plan, es[..n], j, id) {
        ReturnsBefore(plan, es[..n], j, id);
        ReturnsEarlier(plan, es, n, j, id);
      }
      if j: nat :| Returns(plan, es, j, id) {
        ReturnsBefore(plan, es, j, id);
        if j < n {
          ReturnsEarlier(plan, es, n, j, id);
        }
      }
    }
  }

  lemma NothingReturned(plan: Plan, id: nat)
    ensures !exists j: nat :: Returns(plan, [], j, id)
    ensures id !in Exec(plan, []).value.completed
  {
  }

  lemma ReturnsBefore(plan: Plan, es: seq<Event>, j: nat, id: nat)
    requires Returns(plan, es, j, id)
    ensures j < |es|
  {
  }

  lemma AtIsExec(plan: Plan, es: seq<Event>, n: nat)
    requires Exec(plan, es).Some? && n <= |es|
    ensures Exec(plan, es[..n]) == Some(At(plan, es, n)) && Exec(plan, es) == Some(At(plan, es, |es|))
  {
    hide Apply, Enabled;
    PrefixReachable(plan, es, n);
    assert es[..|es|] == es;
  }

  lemma LastReturn(plan: Plan, es: seq<Event>, n: nat, id: nat)
    requires n < |es| && Enabled(plan, At(plan, es, n), es[n])
    ensures Returns(plan, es, n, id)
       <==> es[n].Leave? && es[n].outcome != Threw && id == At(plan, es, n).lanes[es[n].lane].run.id
  {
    hide At;
  }

  // ---- Schedules in which the checkout stays as it was and every receipt is written ----

  ghost predicate Undisturbed(plan: Plan, es: seq<Event>) {
    forall j :: 0 <= j < |es| ==>
      !es[j].SealError? && (es[j].Touch? ==> es[j].tree == Tree(false, plan.digest, true))
  }

  /** A settling lane that will pass on the error of its own run. */
  ghost predicate WillFail(s: State) {
    exists l :: 0 <= l < |s.lanes| && s.lanes[l].Settling? && s.lanes[l].failed
  }

  ghost predicate Calm(plan: Plan, s: State, threw: bool, failed: bool) {
    && s.tree == Tree(false, plan.digest, true) && !s.suspect && !s.rejected
    && (s.stopped <==> failed) && (threw ==> failed)
    && (s.errors > 0 || WillFail(s) <==> threw)
  }

  lemma CalmLeave(plan: Plan, s: State, l: nat, outcome: Outcome, threw: bool, failed: bool)
    requires Calm(plan, s, threw, failed) && Enabled(plan, s, Leave(l, outcome))
    ensures Calm(plan, LeaveRun(plan, s, l, outcome), threw || outcome == Threw, failed || outcome != Passed)
  {
    var t := LeaveRun(plan, s, l, outcome);
    assert forall m | 0 <= m < |s.lanes| && m != l :: t.lanes[m] == s.lanes[m];
    if WillFail(s) {
      var m :| 0 <= m < |s.lanes| && s.lanes[m].Settling? && s.lanes[m].failed;
      assert t.lanes[m] == s.lanes[m];
    }
    if t.lanes[l].Settling? && t.lanes[l].failed {
      assert WillFail(t);
    }
  }

  lemma CalmEffect(plan: Plan, s: State, e: Event, threw: bool, failed: bool)
    requires Calm(plan, s, threw, failed) && Enabled(plan, s, e) && LanesInv(plan, s, true)
    requires !e.SealError? && (e.Touch? ==> e.tree == Tree(false, plan.digest, true))
    ensures Calm(plan, Effect(plan, s, e), threw || (e.Leave? && e.outcome == Threw),
                 failed || (e.Leave? && e.outcome != Passed))
  {
    var t := Effect(plan, s, e);
    match e
    case OpenPhase =>
    case Touch(_) =>
    case Leave(l, outcome) => CalmLeave(plan, s, l, outcome, threw, failed);
    case SealOne(_) =>
    case SettleEnd(l) =>
      OnlySettling(plan, s, l);
      assert !WillFail(t);
      assert s.lanes[l].failed ==> WillFail(s);
  }

  lemma CalmWake(plan: Plan, s: State, threw: bool, failed: bool)
    requires Calm(plan, s, threw, failed)
    ensures Calm(plan, WakeFrom(Runs(plan, s), s, 0), threw, failed)
  {
    var t := WakeFrom(Runs(plan, s), s, 0);
    WakeAdvances(Runs(plan, s), s, 0);
    WakeTouches(Runs(plan, s), s, 0);
    hide WakeFrom;
    if l :| 0 <= l < |s.lanes| && s.lanes[l].Settling? && s.lanes[l].failed {
      assert t.lanes[l] == s.lanes[l];
    }
    if l :| 0 <= l < |t.lanes| && t.lanes[l].Settling? && t.lanes[l].failed {
      assert t.lanes[l] == s.lanes[l];
    }
  }

  lemma SomeMore(es: seq<Event>)
    requires es != []
    ensures var n := |es| - 1;
            && (ThrewSome(es) <==> ThrewSome(es[..n]) || (es[n].Leave? && es[n].outcome == Threw))
            && (FailedSome(es) <==> FailedSome(es[..n]) || (es[n].Leave? && es[n].outcome != Passed))
  {
    var n := |es| - 1;
    assert forall j | 0 <= j < n :: es[..n][j] == es[j];
  }

  lemma {:induction false} CalmReachable(plan: Plan, es: seq<Event>)
    requires Runnable(plan) && Exec(plan, es).Some? && Undisturbed(plan, es)
    ensures Calm(plan, Exec(plan, es).value, ThrewSome(es), FailedSome(es))
  {
    hide *;
    if es == [] {
      CalmFirst(plan);
    } else {
      var n := |es| - 1;
      AtIsExec(plan, es, n);
      UndisturbedBefore(plan, es);
      CalmReachable(plan, es[..n]);
      ReachableInv(plan, es[..n]);
      CalmLast(plan, es, At(plan, es, n));
    }
  }

  lemma CalmFirst(plan: Plan)
    ensures Exec(plan, []).Some? && Calm(plan, Exec(plan, []).value, ThrewSome([]), FailedSome([]))
  {
  }

  lemma UndisturbedBefore(plan: Plan, es: seq<Event>)
    requires es != [] && Undisturbed(plan, es)
    ensures Undisturbed(plan, es[..|es| - 1])
  {
    var n := |es| - 1;
    assert forall j | 0 <= j < n :: es[..n][j] == es[j];
  }

  lemma CalmLast(plan: Plan, es: seq<Event>, s: State)
    requires es != [] && Exec(plan, es).Some? && Undisturbed(plan, es)
    requires var n := |es| - 1; Exec(plan, es[..n]) == Some(s) && Inv(plan, s)
    requires Calm(plan, s, ThrewSome(es[..|es| - 1]), FailedSome(es[..|es| - 1]))
    ensures Calm(plan, Exec(plan, es).value, ThrewSome(es), FailedSome(es))
  {
    hide Calm, Enabled, Effect, WakeFrom, ThrewSome, FailedSome, OrderInv, LedgerInv, StartedInv, LanesInv;
    var n := |es| - 1;
    SomeMore(es);
    assert !es[n].SealError? && (es[n].Touch? ==> es[n].tree == Tree(false, plan.digest, true));
    CalmEffect(plan, s, es[n], ThrewSome(es[..n]), FailedSome(es[..n]));
    CalmWake(plan, Effect(plan, s, es[n]), ThrewSome(es), FailedSome(es));
  }

  /**
   If the checkout stays as it was and every receipt can be written, then at the end the sealed runs are those
   that returned, passed or failed, and an error is reported exactly if some run threw.
   */
  lemma UndisturbedSealsReturned(plan: Plan, es: seq<Event>, id: nat)
    requires Runnable(plan) && Exec(plan, es).Some? && Undisturbed(plan, es) && Terminal(plan, Exec(plan, es).value)
    ensures id in Exec(plan, es).value.sealed <==> exists j: nat :: Returns(plan, es, j, id)
    ensures Exec(plan, es).value.errors > 0 <==> ThrewSome(es)
  {
    CalmReachable(plan, es);
    EndedMeansSealed(plan, es);
    CompletedMeansReturned(plan, es, id);
    hide Exec, Returns, ThrewSome, FailedSome;
  }

  /** If moreover every run passes, every run of the plan was started, in order, and is sealed at the end. */
  lemma UndisturbedPassingSealsAll(plan: Plan, es: seq<Event>)
    requires Runnable(plan) && Exec(plan, es).Some? && Undisturbed(plan, es) && Terminal(plan, Exec(plan, es).value)
    requires !FailedSome(es)
    ensures var s := Exec(plan, es).value;
            s.errors == 0 && s.started == Order(plan.phases) && s.sealed == Ids(Order(plan.phases))
  {
    CalmReachable(plan, es);
    EndedMeansSealed(plan, es);
    hide Exec, Order;
  }

  // ---- The order of the phases ----

  /** `a` comes before `b` in the order. */
  ghost predicate Precedes(order: seq<nat>, a: nat, b: nat) {
    exists p, q :: 0 <= p < q < |order| && order[p] == a && order[q] == b
  }

  lemma OrderOfPhases(runs: seq<Run>, concurrency: int)
    ensures Order(SchedulePhases(runs, concurrency))
         == if concurrency <= 1 then RunIds(runs) else RunIds(Select(runs, false)) + RunIds(Select(runs, true))
  {
    var phases := SchedulePhases(runs, concurrency);
    assert phases[..0] == [];
    if |phases| == 1 {
      assert Order(phases) == Order([]) + RunIds(phases[0].runs);
    } else if |phases| == 2 {
      assert phases[..1][..0] == [];
      assert Order(phases[..1]) == Order([]) + RunIds(phases[0].runs);
      assert Order(phases) == Order(phases[..1]) + RunIds(phases[1].runs);
    }
  }

  lemma {:induction false} SelectHolds(runs: seq<Run>, prepare: bool, i: nat) returns (p: nat)
    requires i < |runs| && runs[i].prepare == prepare
    ensures p < |Select(runs, prepare)| && Select(runs, prepare)[p] == runs[i]
  {
    var first := if runs[0].prepare == prepare then 1 else 0;
    if i == 0 {
      p := 0;
    } else {
      var rest := SelectHolds(runs[1..], prepare, i - 1);
      p := first + rest;
    }
  }

  lemma {:induction false} SelectInOrder(runs: seq<Run>, prepare: bool, i: nat, j: nat) returns (p: nat, q: nat)
    requires i < j < |runs| && runs[i].prepare == prepare == runs[j].prepare
    ensures p < q < |Select(runs, prepare)|
    ensures Select(runs, prepare)[p] == runs[i] && Select(runs, prepare)[q] == runs[j]
  {
    var first := if runs[0].prepare == prepare then 1 else 0;
    if i == 0 {
      p := 0;
      var rest := SelectHolds(runs[1..], prepare, j - 1);
      q := 1 + rest;
    } else {
      var r, t := SelectInOrder(runs[1..], prepare, i - 1, j - 1);
      p, q := first + r, first + t;
    }
  }

  /**
   With overlap every run without a prepare step comes before every run with one, and among the runs of one kind the
   manifest order stays; without overlap it stays altogether. The phases hold no other runs.
   */
  lemma PhasesInOrder(runs: seq<Run>, concurrency: int, i: nat, j: nat)
    requires i < |runs| && j < |runs| && i != j
    requires if concurrency > 1 && runs[i].prepare != runs[j].prepare then runs[j].prepare else i < j
    ensures Precedes(Order(SchedulePhases(runs, concurrency)), runs[i].id, runs[j].id)
  {
    OrderOfPhases(runs, concurrency);
    var order := Order(SchedulePhases(runs, concurrency));
    var shared, exclusive := Select(runs, false), Select(runs, true);
    hide Order, SchedulePhases, Select;
    if concurrency <= 1 {
      assert order[i] == runs[i].id && order[j] == runs[j].id;
    } else if runs[i].prepare != runs[j].prepare {
      var p := SelectHolds(runs, false, i);
      var q := SelectHolds(runs, true, j);
      assert order[p] == runs[i].id && order[|shared| + q] == runs[j].id;
    } else {
      var p, q := SelectInOrder(runs, runs[i].prepare, i, j);
      var base := if runs[i].prepare then |shared| else 0;
      assert order[base + p] == runs[i].id && order[base + q] == runs[j].id;
    }
  }

  // ---- How many runs go side by side ----

  lemma {:induction false} SelectedOnly(runs: seq<Run>, prepare: bool, run: Run)
    requires run in Select(runs, prepare)
    ensures run in runs && run.prepare == prepare
  {
    if run in Select(runs[1..], prepare) {
      SelectedOnly(runs[1..], prepare, run);
    }
  }

  /** A phase without a prepare step may use the whole concurrency, and any other has a single lane. */
  lemma PhaseLimits(runs: seq<Run>, concurrency: int, phase: Phase)
    requires phase in SchedulePhases(runs, concurrency) && phase.runs != []
    ensures phase.limit == if concurrency > 1 && !phase.runs[0].prepare then concurrency else 1
  {
    if concurrency > 1 {
      var first := phase.runs[0];
      if phase.runs == Select(runs, false) {
        SelectedOnly(runs, false, first);
      }
      if phase.runs == Select(runs, true) {
        SelectedOnly(runs, true, first);
      }
    }
  }

  lemma {:induction false} WakeAllIdle(runs: seq<Run>, s: State, k: nat)
    requires k <= |s.lanes| && !Halted(s) && s.next + (|s.lanes| - k) <= |runs|
    requires forall l | k <= l < |s.lanes| :: s.lanes[l].Idle?
    ensures WakeFrom(runs, s, k).next == s.next + (|s.lanes| - k)
    decreases |s.lanes| - k
  {
    if k < |s.lanes| {
      WakeAllIdle(runs, Pick(runs, s, k), k + 1);
    }
  }

  lemma ApplyStops(plan: Plan, s: State, e: Event)
    requires Enabled(plan, s, e)
    ensures var t := Apply(plan, s, e);
            && (t.stopped ==> s.stopped || t.errors > 0 || (e.Leave? && e.outcome != Passed))
            && (s.errors > 0 ==> t.errors > 0)
  {
    var r := Effect(plan, s, e);
    WakeAdvances(Runs(plan, r), r, 0);
    hide WakeFrom, CleanAtRest;
  }

  /** A schedule is stopped only for a run that failed or threw, or for an error that is reported. */
  lemma {:induction false} StoppedHasCause(plan: Plan, es: seq<Event>)
    requires Exec(plan, es).Some? && Exec(plan, es).value.stopped
    ensures FailedSome(es) || Exec(plan, es).value.errors > 0
  {
    if es != [] {
      var n := |es| - 1;
      var s := Exec(plan, es[..n]).value;
      ApplyStops(plan, s, es[n]);
      SomeMore(es);
      hide Apply, Enabled, FailedSome;
      if s.stopped {
        StoppedHasCause(plan, es[..n]);
      }
    }
  }

  /** A pool that opens: every lane takes a run. */
  lemma OpenFills(plan: Plan, s: State)
    requires Enabled(plan, s, OpenPhase) && !s.stopped
    ensures var t := Apply(plan, s, OpenPhase);
            && 0 < t.entered <= |plan.phases|
            && var phase := plan.phases[t.entered - 1];
               ExecutingCount(t.lanes) == Min(phase.limit, |phase.runs|)
  {
    var r := Effect(plan, s, OpenPhase);
    CountNone(r.lanes);
    WakeAdvances(Runs(plan, r), r, 0);
    WakeAllIdle(Runs(plan, r), r, 0);
    hide WakeFrom, ExecutingCount, SettlingCount;
  }

  /** As long as no run failed, a phase that opens starts as many runs at once as its limit allows and it has. */
  lemma OpeningFillsThePool(plan: Plan, es: seq<Event>)
    requires Runnable(plan) && Exec(plan, es).Some? && es != [] && es[|es| - 1].OpenPhase?
    requires !FailedSome(es)
    ensures var s := Exec(plan, es).value;
            && 0 < s.entered <= |plan.phases|
            && var phase := plan.phases[s.entered - 1];
               ExecutingCount(s.lanes) == Min(phase.limit, |phase.runs|)
  {
    var n := |es| - 1;
    var s := Exec(plan, es[..n]).value;
    ReachableInv(plan, es[..n]);
    SomeMore(es);
    if s.stopped {
      StoppedHasCause(plan, es[..n]);
    }
    CountNone(s.lanes);
    OpenFills(plan, s);
    hide Apply, ExecutingCount, SettlingCount, FailedSome, Inv;
  }

  // ---- What stops a schedule, and what makes it fail ----

  /** The last run to leave finds the checkout not as it began, or a receipt cannot be written. */
  predicate Refuses(plan: Plan, s: State, e: Event) {
    e.SealError? || (e.Leave? && s.inFlight == 1 && s.tree != Tree(false, plan.digest, true))
  }

  /** A run leaves siblings behind, and the checkout, not under suspicion yet, cannot be read. */
  predicate CannotRead(s: State, e: Event) {
    e.Leave? && s.inFlight > 1 && !s.suspect && !s.tree.readable
  }

  ghost predicate RefusedSome(plan: Plan, es: seq<Event>) {
    exists j :: 0 <= j < |es| && Refuses(plan, At(plan, es, j), es[j])
  }

  ghost predicate UnreadSome(plan: Plan, es: seq<Event>) {
    exists j :: 0 <= j < |es| && CannotRead(At(plan, es, j), es[j])
  }

  ghost predicate Explained(plan: Plan, es: seq<Event>, s: State) {
    && (s.stopped <==> FailedSome(es) || RefusedSome(plan, es))
    && (s.rejected <==> RefusedSome(plan, es))
    && (s.errors > 0 || WillFail(s) <==> ThrewSome(es) || RefusedSome(plan, es) || UnreadSome(plan, es))
  }

  lemma RefusedMore(plan: Plan, es: seq<Event>)
    requires es != []
    ensures var n := |es| - 1;
            && (RefusedSome(plan, es) <==> RefusedSome(plan, es[..n]) || Refuses(plan, At(plan, es, n), es[n]))
            && (UnreadSome(plan, es) <==> UnreadSome(plan, es[..n]) || CannotRead(At(plan, es, n), es[n]))
  {
    hide At, Refuses, CannotRead;
    var n := |es| - 1;
    forall j | 0 <= j < n ensures At(plan, es[..n], j) == At(plan, es, j) {
      AtEarlier(plan, es, n, j);
    }
    assert forall j :: 0 <= j < n ==> es[..n][j] == es[j];
    if j :| 0 <= j < n && Refuses(plan, At(plan, es[..n], j), es[..n][j]) {
      assert Refuses(plan, At(plan, es, j), es[j]);
    }
    if j :| 0 <= j < n && CannotRead(At(plan, es[..n], j), es[..n][j]) {
      assert CannotRead(At(plan, es, j), es[j]);
    }
  }

  /** Errors and lanes that will pass one on, before and behind an event. */
  predicate ErrorsFollow(plan: Plan, s: State, e: Event, t: State) {
    && (t.stopped <==> s.stopped || (e.Leave? && e.outcome != Passed) || Refuses(plan, s, e))
    && (t.rejected <==> s.rejected || Refuses(plan, s, e))
  }

  lemma OneLaneExplains(s: State, t: State, l: nat)
    requires l < |s.lanes| == |t.lanes| && t.lanes == s.lanes[l := t.lanes[l]] && s.lanes[l].Executing?
    ensures WillFail(t) <==> WillFail(s) || (t.lanes[l].Settling? && t.lanes[l].failed)
  {
    assert forall m | 0 <= m < |s.lanes| && m != l :: t.lanes[m] == s.lanes[m];
    if m :| 0 <= m < |s.lanes| && s.lanes[m].Settling? && s.lanes[m].failed {
      assert t.lanes[m].Settling? && t.lanes[m].failed;
    }
  }

  lemma LeaveExplains(plan: Plan, s: State, l: nat, outcome: Outcome)
    requires Enabled(plan, s, Leave(l, outcome)) && s.inFlight > 0
    ensures var t, e := LeaveRun(plan, s, l, outcome), Leave(l, outcome);
            && ErrorsFollow(plan, s, e, t)
            && (t.errors > 0 || WillFail(t)
                <==> s.errors > 0 || WillFail(s) || outcome == Threw || Refuses(plan, s, e) || CannotRead(s, e))
  {
    hide WillFail, Ids;
    OneLaneExplains(s, LeaveRun(plan, s, l, outcome), l);
  }

  lemma EffectExplains(plan: Plan, s: State, e: Event)
    requires Enabled(plan, s, e) && (e.Leave? ==> s.inFlight > 0) && (WillFail(s) ==> !AllDone(s.lanes))
    ensures var t := Effect(plan, s, e);
            && ErrorsFollow(plan, s, e, t)
            && (t.errors > 0 || WillFail(t)
                <==> s.errors > 0 || WillFail(s) || (e.Leave? && e.outcome == Threw)
                     || Refuses(plan, s, e) || CannotRead(s, e))
  {
    hide LeaveRun;
    var t := Effect(plan, s, e);
    if e.Leave? {
      LeaveExplains(plan, s, e.lane, e.outcome);
    } else if e.SealError? || e.SettleEnd? {
      assert forall m | 0 <= m < |s.lanes| && m != e.lane :: t.lanes[m] == s.lanes[m];
      if m :| 0 <= m < |s.lanes| && s.lanes[m].Settling? && s.lanes[m].failed {
        assert m != e.lane ==> t.lanes[m].Settling? && t.lanes[m].failed;
      }
    } else if !e.OpenPhase? {
      assert t.lanes == s.lanes;
    }
  }

  lemma ExplainedNext(plan: Plan, es: seq<Event>, s: State, e: Event, t: State)
    requires es != [] && e == es[|es| - 1] && s == At(plan, es, |es| - 1)
    requires Explained(plan, es[..|es| - 1], s)
    requires ErrorsFollow(plan, s, e, t)
    requires t.errors > 0 || WillFail(t)
        <==> s.errors > 0 || WillFail(s) || (e.Leave? && e.outcome == Threw) || Refuses(plan, s, e) || CannotRead(s, e)
    ensures Explained(plan, es, t)
  {
    RefusedMore(plan, es);
    SomeMore(es);
    hide FailedSome, ThrewSome, RefusedSome, UnreadSome, WillFail, Refuses, CannotRead, At;
  }

  lemma WakeExplained(plan: Plan, s: State)
    ensures var t := WakeFrom(Runs(plan, s), s, 0);
            && t.stopped == s.stopped && t.rejected == s.rejected && t.errors == s.errors
            && (WillFail(t) <==> WillFail(s))
  {
    WakeAdvances(Runs(plan, s), s, 0);
    WakeTouches(Runs(plan, s), s, 0);
    hide WakeFrom;
    var t := WakeFrom(Runs(plan, s), s, 0);
    if m :| 0 <= m < |s.lanes| && s.lanes[m].Settling? && s.lanes[m].failed {
      assert t.lanes[m] == s.lanes[m];
    }
  }

  /**
   * A schedule stops exactly for a run that did not pass, a checkout refused at rest or a receipt that failed;
   * and it has, or is about to pass on, an error exactly for a run that threw, a refusal or an unreadable checkout.
   */
  lemma {:induction false} EveryErrorHasItsCause(plan: Plan, es: seq<Event>)
    requires Runnable(plan) && Exec(plan, es).Some?
    ensures Explained(plan, es, Exec(plan, es).value)
  {
    hide *;
    if es == [] {
      NothingExplained(plan);
    } else {
      var n := |es| - 1;
      AtStep(plan, es, n);
      AtIsExec(plan, es, n);
      var s := At(plan, es, n);
      EveryErrorHasItsCause(plan, es[..n]);
      ReachableInv(plan, es[..n]);
      LeavesInFlight(plan, s, es[n]);
      EffectExplains(plan, s, es[n]);
      WakeExplained(plan, Effect(plan, s, es[n]));
      ApplyIs(plan, s, es[n]);
      ExplainedNext(plan, es, s, es[n], Effect(plan, s, es[n]));
      SameExplained(plan, es, Effect(plan, s, es[n]), Apply(plan, s, es[n]));
    }
  }

  lemma NothingExplained(plan: Plan)
    ensures Exec(plan, []).Some? && Explained(plan, [], Exec(plan, []).value)
  {
  }

  lemma ApplyIs(plan: Plan, s: State, e: Event)
    requires Enabled(plan, s, e)
    ensures Apply(plan, s, e) == WakeFrom(Runs(plan, Effect(plan, s, e)), Effect(plan, s, e), 0)
  {
  }

  lemma LeavesInFlight(plan: Plan, s: State, e: Event)
    requires Inv(plan, s) && Enabled(plan, s, e)
    ensures e.Leave? ==> s.inFlight > 0
    ensures WillFail(s) ==> !AllDone(s.lanes)
  {
    if e.Leave? {
      CountPositive(s.lanes, e.lane);
    }
  }

  lemma SameExplained(plan: Plan, es: seq<Event>, s: State, t: State)
    requires Explained(plan, es, s)
    requires t.stopped == s.stopped && t.rejected == s.rejected && t.errors == s.errors
    requires WillFail(t) <==> WillFail(s)
    ensures Explained(plan, es, t)
  {
    hide FailedSome, ThrewSome, RefusedSome, UnreadSome, WillFail;
  }

  // ---- What is sealed ----

  lemma ApplySealsOne(plan: Plan, s: State, e: Event)
    requires Enabled(plan, s, e)
    ensures Apply(plan, s, e).sealed == s.sealed + if e.SealOne? then {e.id} else {}
  {
    var r := Effect(plan, s, e);
    WakeAdvances(Runs(plan, r), r, 0);
    hide WakeFrom, CleanAtRest;
  }

  /** A run is sealed exactly when its own receipt was written. */
  lemma {:induction false} SealedMeansWritten(plan: Plan, es: seq<Event>, id: nat)
    requires Exec(plan, es).Some?
    ensures id in Exec(plan, es).value.sealed <==> SealOne(id) in es
  {
    hide Apply, Enabled;
    if es != [] {
      var n := |es| - 1;
      assert es == es[..n] + [es[n]];
      SealedMeansWritten(plan, es[..n], id);
      ApplySealsOne(plan, Exec(plan, es[..n]).value, es[n]);
    }
  }
}
