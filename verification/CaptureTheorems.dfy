/** What holds of a capture over every interleaving of its steps. */
module CaptureTheorems {
  import opened Prelude
  import opened Capture

  // Every arrived chunk is written or waits, in the order of arrival, as long as no write failed; after
  // a failure the transcript keeps what it had.
  predicate WritesInOrder(w: Writes) {
    && |w.written| + |w.queue| <= |w.arrived|
    && w.written == w.arrived[..|w.written|]
    && w.queue == w.arrived[|w.arrived| - |w.queue|..]
    && (!w.failed ==> |w.written| + |w.queue| == |w.arrived|)
  }

  // A failure that has been noted, and the grace period after it.
  predicate Watched(s: State) {
    && (s.writes.failed || s.stalled || s.deadlineExpired ==> s.timers.kill != Unset && !s.pipesOpen)
    && (!Settled(s) ==> s.timers.kill != Spent && (s.timers.deadline || s.timers.kill == Armed))
    && (s.settling ==> !s.pipesOpen)
  }

  // Once settled: one outcome, no group to signal, no timer that could set a failure.
  predicate Closed(s: State) {
    && |s.outcomes| <= 1
    && (Settled(s) ==> s.group.unregistered && !s.timers.deadline && !s.timers.ticker)
    && (Resolved in s.outcomes ==>
          && !s.writes.failed && !s.stalled && !s.deadlineExpired
          && s.writes.queue == [] && !s.pipesOpen)
  }

  predicate Inv(s: State) {
    WritesInOrder(s.writes) && Watched(s) && Closed(s)
  }

  lemma EndWriteInOrder(w: Writes, ok: bool)
    requires WritesInOrder(w) && w.queue != []
    ensures WritesInOrder(EndWrite(w, ok))
  {
    var k := |w.arrived| - |w.queue|;
    assert w.queue[1..] == w.arrived[k + 1..];
    assert w.arrived[k] == w.queue[0];
    if !w.failed {
      assert w.written + [w.queue[0]] == w.arrived[..k + 1];
    }
  }

  lemma ArrivalInOrder(w: Writes, chunk: Chunk)
    requires WritesInOrder(w)
    ensures WritesInOrder(w.(arrived := w.arrived + [chunk], queue := w.queue + [chunk]))
  {
    var all := w.arrived + [chunk];
    assert w.queue + [chunk] == all[|w.arrived| - |w.queue|..];
    assert all[..|w.written|] == w.arrived[..|w.written|];
  }

  lemma StepWrites(s: State, e: Event)
    requires WritesInOrder(s.writes)
    ensures WritesInOrder(Apply(s, e).writes)
  {
    if CanHappen(s, e) {
      if e.Data? {
        ArrivalInOrder(s.writes, e.chunk);
      } else if e.WriteEnds? {
        EndWriteInOrder(s.writes, e.ok);
      }
    }
  }

  lemma StepWatched(s: State, e: Event)
    requires Watched(s) && Closed(s)
    ensures Watched(Apply(s, e)) && Closed(Apply(s, e))
  {
    hide EndWrite, KillForFailure, SettleFromExit, Finish, KillGroup, CaptureFailure;
    if !CanHappen(s, e) {
    } else {
      match e
      case Data(_) =>
      case WriteEnds(ok, landed) => WriteEndsWatched(s, ok, landed);
      case Tick(_, landed) =>
        FailureWatched(s.(stalled := true, timers := s.timers.(ticker := false)), landed);
      case Deadline(landed) =>
        FailureWatched(s.(deadlineExpired := true, timers := s.timers.(deadline := false)), landed);
      case KillTimerFires(_) => KillTimerWatched(s);
      case Exit =>
      case ExitTimerFires(_, landed) => ExitTimerWatched(s, landed);
      case Close(landed) => SettlingWatched(s.(pipesOpen := false), landed);
      case Drained(_) => DrainedWatched(s);
      case Error(_) => FinishWatched(s.(group := ReleaseGroup(s.group)), Rejected(ChildError));
      case NumberTaken =>
      case Spawned =>
    }
  }

  lemma FailureWatched(s: State, landed: bool)
    requires (!Settled(s) ==> s.timers.kill != Spent) && |s.outcomes| <= 1
    requires Settled(s) ==> s.group.unregistered && !s.timers.deadline && !s.timers.ticker
    requires !(Resolved in s.outcomes)
    ensures Watched(KillForFailure(s, landed)) && Closed(KillForFailure(s, landed))
  {
  }

  lemma FinishWatched(s: State, outcome: Outcome)
    requires Closed(s)
    requires s.settling ==> !s.pipesOpen
    requires s.writes.failed || s.stalled || s.deadlineExpired ==> s.timers.kill != Unset && !s.pipesOpen
    requires outcome == Resolved ==> CaptureFailure(s).None? && s.writes.queue == [] && !s.pipesOpen
    ensures Watched(Finish(s, outcome)) && Closed(Finish(s, outcome))
  {
    assert forall o :: o in s.outcomes + [outcome] <==> o in s.outcomes || o == outcome;
  }

  lemma SettlingWatched(s: State, landed: bool)
    requires Watched(s) && Closed(s) && !s.pipesOpen
    ensures Watched(SettleFromExit(s, landed)) && Closed(SettleFromExit(s, landed))
  {
  }

  lemma WriteEndsWatched(s: State, ok: bool, landed: bool)
    requires Watched(s) && Closed(s) && s.writes.queue != []
    ensures var t := Apply(s, WriteEnds(ok, landed)); Watched(t) && Closed(t)
  {
    hide KillForFailure;
    if !s.writes.failed && !ok {
      FailureWatched(s.(writes := EndWrite(s.writes, ok)), landed);
    }
  }

  lemma KillTimerWatched(s: State)
    requires Watched(s) && Closed(s) && s.timers.kill == Armed
    ensures forall landed :: var t := Apply(s, KillTimerFires(landed)); Watched(t) && Closed(t)
  {
    hide Finish;
    var t := s.(pipesOpen := false, timers := s.timers.(kill := Spent));
    FinishWatched(t, Rejected(if CaptureFailure(s).Some? then CaptureFailure(s).value else Killed));
  }

  lemma ExitTimerWatched(s: State, landed: bool)
    requires Watched(s) && Closed(s) && s.timers.exit != Idle
    ensures forall buffered :: var t := Apply(s, ExitTimerFires(buffered, landed)); Watched(t) && Closed(t)
  {
    SettlingWatched(s.(timers := s.timers.(exit := Idle), pipesOpen := false), landed);
    if s.timers.exit == BeforeKill {
      KilledWatched(s, landed);
    }
    ExitTimerSteps(s, landed);
    hide *;
    StillWatchedIdle(s);
  }

  /** After the exit the timer kills once; then it settles, unless that is done or output is still on its way. */
  lemma ExitTimerSteps(s: State, landed: bool)
    requires s.timers.exit != Idle
    ensures s.timers.exit == BeforeKill ==>
              forall buffered :: Apply(s, ExitTimerFires(buffered, landed)) == Killing(s, landed)
    ensures s.timers.exit == BeforeDrain ==>
              forall buffered :: var t := Apply(s, ExitTimerFires(buffered, landed));
                t == s || t == s.(timers := s.timers.(exit := Idle))
                || t == SettleFromExit(s.(timers := s.timers.(exit := Idle), pipesOpen := false), landed)
  {
    hide SettleFromExit, KillGroup;
  }

  function Killing(s: State, landed: bool): State {
    s.(group := KillGroup(s.group, landed), timers := s.timers.(exit := BeforeDrain))
  }

  lemma KilledWatched(s: State, landed: bool)
    requires Watched(s) && Closed(s)
    ensures Watched(Killing(s, landed)) && Closed(Killing(s, landed))
  {
  }

  lemma StillWatchedIdle(s: State)
    requires Watched(s) && Closed(s)
    ensures var t := s.(timers := s.timers.(exit := Idle)); Watched(t) && Closed(t)
  {
  }

  lemma DrainedWatched(s: State)
    requires Watched(s) && Closed(s) && s.settling && s.writes.queue == []
    ensures forall landed :: var t := Apply(s, Drained(landed)); Watched(t) && Closed(t)
  {
    hide Finish;
    FinishWatched(s, if CaptureFailure(s).Some? then Rejected(CaptureFailure(s).value) else Resolved);
  }

  lemma StepInv(s: State, e: Event)
    requires Inv(s)
    ensures Inv(Apply(s, e))
  {
    hide Apply, WritesInOrder, Watched, Closed;
    StepWrites(s, e);
    StepWatched(s, e);
  }

  lemma {:induction false} RunInv(s: State, events: seq<Event>)
    requires Inv(s)
    ensures Inv(Run(s, events))
    decreases |events|
  {
    hide Apply, Inv;
    if events != [] {
      StepInv(s, events[0]);
      RunInv(Apply(s, events[0]), events[1..]);
    }
  }

  lemma StartedInv(numbered: bool)
    ensures Inv(Started(numbered))
  {
  }

  lemma ReachableInv(numbered: bool, events: seq<Event>)
    ensures Inv(Run(Started(numbered), events))
  {
    hide *;
    StartedInv(numbered);
    RunInv(Started(numbered), events);
  }

  /** Over any run, a capture settles at most once. */
  lemma SettlesAtMostOnce(numbered: bool, events: seq<Event>)
    ensures |Run(Started(numbered), events).outcomes| <= 1
  {
    hide Run, Started;
    ReachableInv(numbered, events);
  }

  /**
   * Over any run, a capture that resolved saw no failed write, no stall and no deadline, and its
   * transcript holds every chunk that arrived, in the order of arrival.
   */
  lemma ResolvedMeansComplete(numbered: bool, events: seq<Event>)
    requires Run(Started(numbered), events).outcomes == [Resolved]
    ensures var s := Run(Started(numbered), events);
            && s.writes.written == s.writes.arrived
            && !s.writes.failed && !s.stalled && !s.deadlineExpired
  {
    hide Run, Started;
    ReachableInv(numbered, events);
    var s := Run(Started(numbered), events);
    assert Resolved in s.outcomes;
  }

  /** Whatever the run, the transcript never holds anything but the first chunks, in order. */
  lemma TranscriptIsAPrefix(numbered: bool, events: seq<Event>)
    ensures Run(Started(numbered), events).writes.written <= Run(Started(numbered), events).writes.arrived
  {
    hide Run, Started;
    ReachableInv(numbered, events);
  }

  // ---- After the end ----

  lemma StepAfterEnd(s: State, e: Event)
    requires Inv(s) && Settled(s)
    ensures Apply(s, e).outcomes == s.outcomes && Apply(s, e).group.signals == s.group.signals
  {
  }

  lemma {:induction false} RunAfterEnd(s: State, events: seq<Event>)
    requires Inv(s) && Settled(s)
    ensures Run(s, events).outcomes == s.outcomes && Run(s, events).group.signals == s.group.signals
    decreases |events|
  {
    hide Inv, Apply;
    if events != [] {
      StepAfterEnd(s, events[0]);
      StepInv(s, events[0]);
      RunAfterEnd(Apply(s, events[0]), events[1..]);
    }
  }

  lemma {:induction false} RunAppend(s: State, first: seq<Event>, rest: seq<Event>)
    ensures Run(s, first + rest) == Run(Run(s, first), rest)
    decreases |first|
  {
    hide Apply;
    if first == [] {
      assert first + rest == rest;
    } else {
      assert (first + rest)[0] == first[0] && (first + rest)[1..] == first[1..] + rest;
      RunAppend(Apply(s, first[0]), first[1..], rest);
    }
  }

  /** Once settled, nothing that still happens changes the outcome or signals the process group. */
  lemma SettledForGood(numbered: bool, before: seq<Event>, after: seq<Event>)
    requires Settled(Run(Started(numbered), before))
    ensures var s, r := Run(Started(numbered), before), Run(Started(numbered), before + after);
            r.outcomes == s.outcomes && r.group.signals == s.group.signals
  {
    hide Run, Started;
    RunAppend(Started(numbered), before, after);
    ReachableInv(numbered, before);
    RunAfterEnd(Run(Started(numbered), before), after);
  }

  // ---- It does end ----

  // The deadline and then the grace period, whichever of them is still to come.
  function TimeOut(s: State, landed: bool): seq<Event> {
    (if s.timers.deadline then [Deadline(landed)] else []) + [KillTimerFires(landed)]
  }

  lemma KillTimerEnds(s: State, landed: bool)
    requires Inv(s) && !Settled(s) && s.timers.kill == Armed
    ensures Settled(Apply(s, KillTimerFires(landed)))
    ensures !(Resolved in Apply(s, KillTimerFires(landed)).outcomes)
  {
  }

  lemma DeadlineArms(s: State, landed: bool)
    requires Inv(s) && !Settled(s) && s.timers.deadline
    ensures var t := Apply(s, Deadline(landed)); Inv(t) && !Settled(t) && t.timers.kill == Armed
  {
    StepInv(s, Deadline(landed));
  }

  /**
   * No capture hangs: wherever a run stands, the timers that are armed settle it on their own, even if
   * a transcript write never ends, the child never exits and no kill lands; and they settle it as a
   * failure.
   */
  lemma TimersAlwaysEndIt(numbered: bool, events: seq<Event>, landed: bool)
    requires !Settled(Run(Started(numbered), events))
    ensures var s := Run(Started(numbered), events); var r := Run(s, TimeOut(s, landed));
            Settled(r) && !(Resolved in r.outcomes)
  {
    hide Apply, Inv;
    ReachableInv(numbered, events);
    var s := Run(Started(numbered), events);
    var last := [KillTimerFires(landed)];
    assert last[1..] == [];
    if s.timers.deadline {
      DeadlineArms(s, landed);
      var t := Apply(s, Deadline(landed));
      assert ([Deadline(landed)] + last)[1..] == last;
      KillTimerEnds(t, landed);
      assert Run(t, last) == Apply(t, last[0]);
    } else {
      assert s.timers.kill == Armed by { StillWatched(s); }
      assert [] + last == last;
      KillTimerEnds(s, landed);
      assert Run(s, last) == Apply(s, last[0]);
    }
  }

  lemma StillWatched(s: State)
    requires Inv(s) && !Settled(s)
    ensures s.timers.deadline || s.timers.kill == Armed
  {
  }

  /** A clean exit is enough to resolve: from any unfailed state, the close and the drain do it. */
  lemma {:induction false} CloseAndDrainResolve(s: State, landed: bool)
    requires Inv(s) && !Settled(s) && !s.settling && CaptureFailure(s).None?
    ensures var r := Run(Apply(s, Close(landed)), Writing(|s.writes.queue|, landed) + [Drained(landed)]);
            r.outcomes == [Resolved] && r.writes.written == s.writes.arrived
  {
    hide Inv, Apply;
    var t := Apply(s, Close(landed));
    StepInv(s, Close(landed));
    CloseStarts(s, landed);
    DrainResolves(t, landed);
  }

  function Writing(n: nat, landed: bool): seq<Event> {
    if n == 0 then [] else [WriteEnds(true, landed)] + Writing(n - 1, landed)
  }

  lemma CloseStarts(s: State, landed: bool)
    requires Inv(s) && !Settled(s) && !s.settling && CaptureFailure(s).None?
    ensures var t := Apply(s, Close(landed));
            !Settled(t) && t.settling && CaptureFailure(t).None? && t.writes == s.writes
  {
  }

  lemma WriteGoesOn(s: State, landed: bool)
    requires Inv(s) && !Settled(s) && s.settling && CaptureFailure(s).None? && s.writes.queue != []
    ensures var t := Apply(s, WriteEnds(true, landed));
            && !Settled(t) && t.settling && CaptureFailure(t).None?
            && t.writes.arrived == s.writes.arrived && |t.writes.queue| == |s.writes.queue| - 1
  {
  }

  lemma DrainEnds(s: State, landed: bool)
    requires Inv(s) && !Settled(s) && s.settling && CaptureFailure(s).None? && s.writes.queue == []
    ensures var r := Apply(s, Drained(landed)); r.outcomes == [Resolved] && r.writes == s.writes
    ensures s.writes.written == s.writes.arrived
  {
  }

  lemma {:induction false} DrainResolves(s: State, landed: bool)
    requires Inv(s) && !Settled(s) && s.settling && CaptureFailure(s).None?
    ensures var r := Run(s, Writing(|s.writes.queue|, landed) + [Drained(landed)]);
            r.outcomes == [Resolved] && r.writes.written == s.writes.arrived
    decreases |s.writes.queue|
  {
    hide Inv, Apply;
    var events := Writing(|s.writes.queue|, landed) + [Drained(landed)];
    if s.writes.queue == [] {
      assert events == [Drained(landed)] && events[1..] == [];
      DrainEnds(s, landed);
      assert Run(Apply(s, events[0]), events[1..]) == Apply(s, events[0]);
    } else {
      var t := Apply(s, WriteEnds(true, landed));
      WriteGoesOn(s, landed);
      StepInv(s, WriteEnds(true, landed));
      DrainResolves(t, landed);
      assert events[0] == WriteEnds(true, landed);
      assert events[1..] == Writing(|t.writes.queue|, landed) + [Drained(landed)];
    }
  }

  // ---- A spawn that fails ----

  predicate SameSilence(g: Group, h: Group) {
    !h.owned && h.signals == g.signals
  }

  lemma UnownedIsSilent()
    ensures forall g: Group, landed: bool :: !g.owned ==> SameSilence(g, KillGroup(g, landed))
    ensures forall g: Group :: !g.owned ==> SameSilence(g, ReleaseGroup(g))
  {
  }

  lemma UnownedStaysSilent()
    ensures forall s: State, landed: bool :: !s.group.owned ==> SameSilence(s.group, KillForFailure(s, landed).group)
    ensures forall s: State, landed: bool :: !s.group.owned ==> SameSilence(s.group, SettleFromExit(s, landed).group)
    ensures forall s: State, outcome: Outcome :: !s.group.owned ==> SameSilence(s.group, Finish(s, outcome).group)
  {
    UnownedIsSilent();
    hide KillGroup, ReleaseGroup, Settled;
  }

  lemma OutputStep(s: State, e: Event)
    requires !s.group.owned && (e.Data? || e.WriteEnds? || e.Tick? || e.Deadline?)
    ensures SameSilence(s.group, Apply(s, e).group)
  {
    UnownedStaysSilent();
    hide KillForFailure, EndWrite;
  }

  lemma SettlingStep(s: State, e: Event)
    requires !s.group.owned && (e.ExitTimerFires? || e.Close?)
    ensures SameSilence(s.group, Apply(s, e).group)
  {
    UnownedIsSilent();
    UnownedStaysSilent();
    hide KillGroup, SettleFromExit, Settled;
  }

  lemma EndingStep(s: State, e: Event)
    requires !s.group.owned && (e.KillTimerFires? || e.Drained? || e.Error?)
    ensures SameSilence(s.group, Apply(s, e).group)
  {
    UnownedIsSilent();
    UnownedStaysSilent();
    hide ReleaseGroup, Finish, CaptureFailure;
  }

  lemma UnnumberedStep(s: State, e: Event)
    requires !s.group.owned && e != Spawned
    ensures SameSilence(s.group, Apply(s, e).group)
  {
    if e.Data? || e.WriteEnds? || e.Tick? || e.Deadline? {
      OutputStep(s, e);
    } else if e.ExitTimerFires? || e.Close? {
      SettlingStep(s, e);
    } else if !e.Exit? && !e.NumberTaken? {
      EndingStep(s, e);
    }
  }

  /** A child that never got a process number is never signalled, whatever else happens. */
  lemma {:induction false} UnnumberedNeverSignalled(s: State, events: seq<Event>)
    requires !s.group.owned && Spawned !in events
    ensures SameSilence(s.group, Run(s, events).group)
    decreases |events|
  {
    hide Apply;
    if events != [] {
      UnnumberedStep(s, events[0]);
      UnnumberedNeverSignalled(Apply(s, events[0]), events[1..]);
    }
  }

  lemma ErrorEnds(s: State, landed: bool)
    requires Inv(s) && !Settled(s) && !s.group.owned
    ensures var t := Apply(s, Error(landed));
            t.outcomes == [Rejected(ChildError)] && t.group.signals == s.group.signals
  {
  }

  /** Whatever came before, the error of a failed spawn ends an unsettled capture, without a signal. */
  lemma FailedSpawnRejects(events: seq<Event>, landed: bool)
    requires Spawned !in events && !Settled(Run(Started(false), events))
    ensures var s := Run(Started(false), events + [Error(landed)]);
            s.outcomes == [Rejected(ChildError)] && s.group.signals == 0
  {
    var s := Run(Started(false), events);
    assert !Started(false).group.owned && Started(false).group.signals == 0;
    hide Apply, Inv, Started;
    ReachableInv(false, events);
    UnnumberedNeverSignalled(Started(false), events);
    ErrorEnds(s, landed);
    RunAppend(Started(false), events, [Error(landed)]);
    assert [Error(landed)][1..] == [];
    assert Run(s, [Error(landed)]) == Apply(s, Error(landed));
  }
}
