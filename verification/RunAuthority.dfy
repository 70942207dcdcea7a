/**
 The lanes' shared variables, updated in place by the code between two awaits. Every method is
 one event of `RunSchedule`, and leaves exactly the state that event leads to.
 */
module RunAuthority {
  import opened Prelude
  import opened RunSchedule
  import opened RunScheduleSafety

  class Authority {
    const plan: Plan
    var entered: nat
    var next: nat
    var errors: nat
    var lanes: seq<Lane>
    var inFlight: int
    var suspect: bool
    var stopped: bool
    var unsealed: seq<nat>
    var sealing: set<nat>
    var sealed: set<nat>
    var tree: Tree
    ghost var started: seq<nat>
    ghost var completed: set<nat>
    ghost var rejected: bool

    ghost function View(): State
      reads this
    {
      State(entered, next, errors, lanes, inFlight, suspect, stopped, unsealed, sealing, sealed,
            started, completed, rejected, tree)
    }

    ghost predicate Valid()
      reads this
    {
      Runnable(plan) && Inv(plan, View())
    }

    constructor (plan: Plan)
      requires Runnable(plan)
      ensures this.plan == plan && Valid() && View() == Init(plan)
    {
      this.plan := plan;
      entered, next, errors, lanes, inFlight := 0, 0, 0, [], 0;
      suspect, stopped := false, false;
      unsealed, sealing, sealed := [], {}, {};
      tree := Tree(false, plan.digest, true);
      started, completed, rejected := [], {}, false;
      new;
      InitInv(plan);
    }

    /** A worker takes the next run of the phase, or leaves the pool. */
    method Worker(l: nat)
      requires l < |lanes|
      modifies this
      ensures View() == Pick(Runs(plan, old(View())), old(View()), l)
    {
      var runs := if 0 < entered <= |plan.phases| then plan.phases[entered - 1].runs else [];
      if errors > 0 || stopped || next >= |runs| {
        lanes := lanes[l := Done];
        return;
      }
      var run := runs[next];
      next := next + 1;
      inFlight := inFlight + 1;
      lanes := lanes[l := Executing(run)];
      started := started + [run.id];
    }

    /** The rest is over: every lane it held, and the lane that ended it, look for their next runs. */
    method EndRest()
      modifies this
      ensures View() ==
              var s := old(View()).(suspect := false);
              WakeFrom(Runs(plan, s), s, 0)
    {
      suspect := false;
      ghost var s := View();
      ghost var runs := Runs(plan, s);
      var k := 0;
      while k < |lanes|
        invariant k <= |lanes|
        invariant Runs(plan, View()) == runs && !suspect
        invariant WakeFrom(runs, View(), k) == WakeFrom(runs, s, 0)
      {
        if lanes[k].Idle? || lanes[k].Parked? {
          Worker(k);
        }
        k := k + 1;
      }
    }

    /** The previous pool has drained: the next phase starts its workers. */
    method OpenPool()
      requires Valid() && Enabled(plan, View(), OpenPhase)
      modifies this
      ensures Valid() && View() == Apply(plan, old(View()), OpenPhase)
    {
      ghost var s := View();
      CountNone(lanes);
      assert !s.suspect;
      var phase := plan.phases[entered];
      entered := entered + 1;
      next := 0;
      lanes := seq(Min(phase.limit, |phase.runs|), _ => Idle);
      assert View() == Effect(plan, s, OpenPhase);
      EndRest();
      ApplyKeepsInv(plan, s, OpenPhase);
    }

    /** The code of `finishRun` after the run's execution returned or threw, up to its next await. */
    method FinishRun(l: nat, outcome: Outcome)
      requires Valid() && Enabled(plan, View(), Leave(l, outcome))
      modifies this
      ensures Valid() && View() == Apply(plan, old(View()), Leave(l, outcome))
    {
      ghost var s := View();
      LeaveWakes(plan, s, l, outcome);
      ApplyKeepsInv(plan, s, Leave(l, outcome));
      RecordOutcome(lanes[l].run.id, outcome);
      if inFlight > 0 {
        CarryOn(l, outcome);
      } else {
        JudgeAtRest(l, outcome);
      }
    }

    method RecordOutcome(id: nat, outcome: Outcome)
      modifies this
      ensures View() == Record(old(View()), id, outcome)
    {
      inFlight := inFlight - 1;
      if outcome == Threw {
        stopped := true;
      } else {
        unsealed := unsealed + [id];
        completed := completed + {id};
        stopped := stopped || outcome == Failed;
      }
    }

    method CarryOn(l: nat, outcome: Outcome)
      requires l < |lanes|
      modifies this
      ensures View() ==
              var r := LeaveSiblings(old(View()), l, outcome);
              if r.lanes[l].Idle? then Pick(Runs(plan, r), r, l) else r
    {
      if outcome == Threw {
        errors := errors + 1;
        lanes := lanes[l := Done];
        return;
      }
      if !suspect && !tree.readable {
        errors := errors + 1;
        lanes := lanes[l := Done];
        return;
      }
      suspect := suspect || tree.dirty;
      if suspect {
        lanes := lanes[l := Parked];
        return;
      }
      lanes := lanes[l := Idle];
      Worker(l);
    }

    method JudgeAtRest(l: nat, outcome: Outcome)
      requires l < |lanes|
      modifies this
      ensures View() ==
              var r := Judge(plan, old(View()), l, outcome);
              if CleanAtRest(plan, r) then r else WakeFrom(Runs(plan, r), r, 0)
    {
      if tree.readable && !tree.dirty && tree.digest == plan.digest {
        var batch := set done | done in unsealed;
        unsealed := [];
        sealing := sealing + batch;
        lanes := lanes[l := Settling(batch, outcome == Threw)];
      } else {
        RefuseCheckout(l, outcome);
        EndRest();
      }
    }

    /** The checkout was left changed: nothing starts any more. */
    method RefuseCheckout(l: nat, outcome: Outcome)
      requires l < |lanes| && !CleanAtRest(plan, View())
      modifies this
      ensures View().(suspect := false) == Judge(plan, old(View()), l, outcome)
    {
      stopped := true;
      errors := errors + 1;
      rejected := true;
      lanes := lanes[l := Done];
    }

    /** The lane's whole batch is written: the rest ends, and a failed run's error is passed on. */
    method FinishSettle(l: nat)
      requires Valid() && Enabled(plan, View(), SettleEnd(l))
      modifies this
      ensures Valid() && View() == Apply(plan, old(View()), SettleEnd(l))
    {
      ApplyKeepsInv(plan, View(), SettleEnd(l));
      EndSettle(l, lanes[l].failed);
    }

    /** One receipt of the lane's batch could not be written. */
    method AbortSettle(l: nat, id: nat)
      requires Valid() && Enabled(plan, View(), SealError(l, id))
      modifies this
      ensures Valid() && View() == Apply(plan, old(View()), SealError(l, id))
    {
      ApplyKeepsInv(plan, View(), SealError(l, id));
      Reject(l, id);
    }

    method Reject(l: nat, id: nat)
      requires Enabled(plan, View(), SealError(l, id))
      modifies this
      ensures View() == Apply(plan, old(View()), SealError(l, id))
    {
      sealing := sealing - {id};
      stopped := true;
      rejected := true;
      EndSettle(l, true);
    }

    method EndSettle(l: nat, failed: bool)
      requires l < |lanes|
      modifies this
      ensures View() ==
              var s := old(View());
              var r := s.(suspect := false, errors := if failed then s.errors + 1 else s.errors,
                          lanes := s.lanes[l := if failed then Done else Idle]);
              WakeFrom(Runs(plan, r), r, 0)
    {
      if failed {
        errors := errors + 1;
      }
      lanes := lanes[l := if failed then Done else Idle];
      EndRest();
    }
  }

  /** Which lanes a leave wakes: the leaving one if it carries on, all the parked ones if the judgement failed. */
  lemma LeaveWakes(plan: Plan, s: State, l: nat, outcome: Outcome)
    requires LanesInv(plan, s, true) && Enabled(plan, s, Leave(l, outcome))
    ensures Apply(plan, s, Leave(l, outcome)) ==
            var r := LeaveRun(plan, s, l, outcome);
            if s.inFlight > 1 then (if r.lanes[l].Idle? then Pick(Runs(plan, r), r, l) else r)
            else if CleanAtRest(plan, r) then r else WakeFrom(Runs(plan, r), r, 0)
  {
    var r := LeaveRun(plan, s, l, outcome);
    CountPositive(s.lanes, l);
    if s.inFlight > 1 || CleanAtRest(plan, r) {
      OthersSleep(plan, s, l, outcome);
      if r.lanes[l].Idle? {
        WakeOne(Runs(plan, r), r, 0, l);
      } else {
        WakeNothing(Runs(plan, r), r, 0);
      }
    }
  }

  /** Apart from the lane that leaves, no lane moves unless a judgement fails. */
  lemma OthersSleep(plan: Plan, s: State, l: nat, outcome: Outcome)
    requires LanesInv(plan, s, true) && Enabled(plan, s, Leave(l, outcome))
    requires s.inFlight > 1 || CleanAtRest(plan, s)
    ensures var r := LeaveRun(plan, s, l, outcome);
            forall m | 0 <= m < |r.lanes| && m != l :: !Awake(r, r.lanes[m])
  {
    var r := LeaveRun(plan, s, l, outcome);
    forall m | 0 <= m < |r.lanes| && m != l
      ensures !Awake(r, r.lanes[m])
    {
      assert LaneOk(plan, s, true, s.lanes[m]);
    }
  }

  lemma {:induction false} WakeOne(runs: seq<Run>, s: State, k: nat, l: nat)
    requires k <= l < |s.lanes| && Awake(s, s.lanes[l])
    requires forall m | 0 <= m < |s.lanes| && m != l :: !Awake(s, s.lanes[m])
    ensures WakeFrom(runs, s, k) == Pick(runs, s, l)
    decreases l - k
  {
    if k < l {
      WakeOne(runs, s, k + 1, l);
    } else {
      WakeNothing(runs, Pick(runs, s, l), k + 1);
    }
  }
}
