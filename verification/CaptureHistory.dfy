/** Where a capture stands, and how it ends, by what has happened to it so far. */
module CaptureHistory {
  import opened Prelude
  import opened Capture
  import opened CaptureTheorems

  function At(numbered: bool, events: seq<Event>): State {
    Run(Started(numbered), events)
  }

  lemma AtNext(numbered: bool, events: seq<Event>, e: Event)
    ensures At(numbered, events + [e]) == Apply(At(numbered, events), e)
  {
    hide Apply, Started;
    RunAppend(Started(numbered), events, [e]);
    assert [e][1..] == [];
    assert Run(At(numbered, events), [e]) == Apply(At(numbered, events), e);
  }

  // ---- What has happened ----

  // What may go wrong: a write fails, the child is silent for too long, the time is up.
  datatype Trouble = BadWrite | Silence | TimeUp

  predicate Brings(s: State, e: Event, trouble: Trouble) {
    match trouble
    case BadWrite => e.WriteEnds? && !e.ok && |s.writes.queue| > 0
    case Silence => e.Tick? && e.silent && s.timers.ticker
    case TimeUp => e.Deadline? && s.timers.deadline
  }

  predicate Happened(numbered: bool, events: seq<Event>, trouble: Trouble) {
    exists j :: 0 <= j < |events| && Brings(At(numbered, events[..j]), events[j], trouble)
  }

  predicate InTrouble(numbered: bool, events: seq<Event>) {
    Happened(numbered, events, BadWrite) || Happened(numbered, events, Silence) || Happened(numbered, events, TimeUp)
  }

  /** The pipes were seen closed. */
  predicate PipesClosed(events: seq<Event>) {
    exists j :: 0 <= j < |events| && events[j].Close?
  }

  /** The output that came while the pipes were open. */
  function Output(numbered: bool, events: seq<Event>): seq<Chunk>
    decreases |events|
  {
    if events == [] then []
    else
      var n := |events| - 1;
      Output(numbered, events[..n])
      + if events[n].Data? && At(numbered, events[..n]).pipesOpen then [events[n].chunk] else []
  }

  /** How many writes have ended, and how many of them filled the transcript: those before the first failed one. */
  function WritesEnded(numbered: bool, events: seq<Event>, good: bool): nat
    decreases |events|
  {
    if events == [] then 0
    else
      var n := |events| - 1;
      var s := At(numbered, events[..n]);
      WritesEnded(numbered, events[..n], good)
      + if events[n].WriteEnds? && |s.writes.queue| > 0 && (good ==> events[n].ok && !s.writes.failed) then 1 else 0
  }

  lemma HappenedNext(numbered: bool, events: seq<Event>, e: Event, trouble: Trouble)
    ensures Happened(numbered, events + [e], trouble)
       <==> Happened(numbered, events, trouble) || Brings(At(numbered, events), e, trouble)
  {
    hide Brings, At;
    var all := events + [e];
    assert all[..|events|] == events;
    assert forall j :: 0 <= j < |events| ==> all[..j] == events[..j] && all[j] == events[j];
    if Happened(numbered, events, trouble) {
      var j :| 0 <= j < |events| && Brings(At(numbered, events[..j]), events[j], trouble);
      assert Brings(At(numbered, all[..j]), all[j], trouble);
    }
    if Brings(At(numbered, events), e, trouble) {
      assert Brings(At(numbered, all[..|events|]), all[|events|], trouble);
    }
  }

  lemma ClosedNext(events: seq<Event>, e: Event)
    ensures PipesClosed(events + [e]) <==> PipesClosed(events) || e.Close?
    ensures Exit in events + [e] <==> Exit in events || e == Exit
  {
    var all := events + [e];
    assert all[|events|] == e;
    assert forall j :: 0 <= j < |events| ==> all[j] == events[j];
  }

  lemma OutputNext(numbered: bool, events: seq<Event>, e: Event)
    ensures Output(numbered, events + [e])
         == Output(numbered, events) + if e.Data? && At(numbered, events).pipesOpen then [e.chunk] else []
    ensures forall good :: (WritesEnded(numbered, events + [e], good)
                            == WritesEnded(numbered, events, good)
                               + if e.WriteEnds? && |At(numbered, events).writes.queue| > 0
                                    && (good ==> e.ok && !At(numbered, events).writes.failed) then 1 else 0)
  {
    hide At;
    assert (events + [e])[..|events|] == events;
  }

  // ---- Where it stands ----

  /** Each trouble is noted exactly when it has happened. */
  predicate NotesTrouble(numbered: bool, events: seq<Event>, s: State) {
    && s.writes.failed == Happened(numbered, events, BadWrite)
    && s.stalled == Happened(numbered, events, Silence)
    && s.deadlineExpired == Happened(numbered, events, TimeUp)
  }

  /** The transcript and the chain hold the output, as far as the writes got. */
  predicate HoldsOutput(numbered: bool, events: seq<Event>, s: State) {
    && s.writes.arrived == Output(numbered, events)
    && |s.writes.written| == WritesEnded(numbered, events, true)
    && |s.writes.queue| + WritesEnded(numbered, events, false) == |s.writes.arrived|
  }

  /** What is open and what is armed. */
  predicate StandsOpen(events: seq<Event>, s: State) {
    && (s.pipesOpen <==> !s.writes.failed && !s.stalled && !s.deadlineExpired && !s.settling && !PipesClosed(events))
    && (s.timers.ticker <==> !s.stalled && !s.settling && !Settled(s) && Exit !in events)
    && (s.timers.deadline <==> !s.deadlineExpired && !Settled(s))
    && (s.timers.kill == Armed ==> s.writes.failed || s.stalled || s.deadlineExpired)
    && (!Settled(s) && (s.writes.failed || s.stalled || s.deadlineExpired) ==> s.timers.kill == Armed)
    && (!Settled(s) && !s.settling ==> (s.timers.exit == Idle <==> Exit !in events) && !PipesClosed(events))
    && (s.settling ==> Exit in events || PipesClosed(events))
  }

  predicate Told(numbered: bool, events: seq<Event>, s: State) {
    NotesTrouble(numbered, events, s) && HoldsOutput(numbered, events, s) && StandsOpen(events, s)
  }

  lemma NotesNext(numbered: bool, events: seq<Event>, e: Event)
    requires NotesTrouble(numbered, events, At(numbered, events))
    ensures NotesTrouble(numbered, events + [e], Apply(At(numbered, events), e))
  {
    var s := At(numbered, events);
    HappenedNext(numbered, events, e, BadWrite);
    HappenedNext(numbered, events, e, Silence);
    HappenedNext(numbered, events, e, TimeUp);
    hide At, Happened, Apply;
    StepFollows(s, e);
  }

  predicate SameNotes(s: State, t: State) {
    t.writes == s.writes && t.stalled == s.stalled && t.deadlineExpired == s.deadlineExpired
  }

  lemma EndingsKeepNotes()
    ensures forall s: State, landed: bool :: SameNotes(s, KillForFailure(s, landed))
    ensures forall s: State, landed: bool :: SameNotes(s, SettleFromExit(s, landed))
    ensures forall s: State, outcome: Outcome :: SameNotes(s, Finish(s, outcome))
  {
  }

  /** How a step changes the notes and the writes. */
  predicate Follows(s: State, e: Event, t: State) {
    && t.writes.failed == (s.writes.failed || Brings(s, e, BadWrite))
    && t.stalled == (s.stalled || Brings(s, e, Silence))
    && t.deadlineExpired == (s.deadlineExpired || Brings(s, e, TimeUp))
    && t.writes.arrived == s.writes.arrived + (if e.Data? && s.pipesOpen then [e.chunk] else [])
    && |t.writes.written|
       == |s.writes.written| + (if e.WriteEnds? && |s.writes.queue| > 0 && e.ok && !s.writes.failed then 1 else 0)
    && |t.writes.queue| - |t.writes.arrived|
       == |s.writes.queue| - |s.writes.arrived| - if e.WriteEnds? && |s.writes.queue| > 0 then 1 else 0
  }

  predicate Outputs(e: Event) {
    e.Data? || e.WriteEnds?
  }

  predicate Troubles(e: Event) {
    e.Tick? || e.Deadline?
  }

  predicate Ends(e: Event) {
    e.KillTimerFires? || e.Drained? || e.Error?
  }

  lemma OutputFollows(s: State, e: Event)
    requires Outputs(e)
    ensures Follows(s, e, Apply(s, e))
  {
    EndingsKeepNotes();
    hide KillForFailure;
  }

  lemma TroubleFollows(s: State, e: Event)
    requires Troubles(e)
    ensures Follows(s, e, Apply(s, e))
  {
    EndingsKeepNotes();
    hide KillForFailure;
  }

  lemma EndFollows(s: State, e: Event)
    requires Ends(e)
    ensures Follows(s, e, Apply(s, e))
  {
    EndingsKeepNotes();
    hide Finish, ReleaseGroup, CaptureFailure;
  }

  lemma ExitFollows(s: State, e: Event)
    requires e.Exit? || e.ExitTimerFires? || e.Close?
    ensures Follows(s, e, Apply(s, e))
  {
    EndingsKeepNotes();
    hide SettleFromExit, KillGroup;
  }

  lemma StepFollows(s: State, e: Event)
    ensures Follows(s, e, Apply(s, e))
  {
    hide KillForFailure, SettleFromExit, Finish, KillGroup, ReleaseGroup, CaptureFailure;
    if Outputs(e) {
      OutputFollows(s, e);
    } else if Troubles(e) {
      TroubleFollows(s, e);
    } else if Ends(e) {
      EndFollows(s, e);
    } else if !e.NumberTaken? && !e.Spawned? {
      ExitFollows(s, e);
    }
  }

  lemma HoldsNext(numbered: bool, events: seq<Event>, e: Event)
    requires HoldsOutput(numbered, events, At(numbered, events))
    ensures HoldsOutput(numbered, events + [e], Apply(At(numbered, events), e))
  {
    var s := At(numbered, events);
    OutputNext(numbered, events, e);
    StepFollows(s, e);
    hide At, Apply, Output, WritesEnded;
  }

  lemma OutputStands(events: seq<Event>, s: State, e: Event)
    requires StandsOpen(events, s) && Watched(s) && Closed(s) && Outputs(e)
    ensures StandsOpen(events + [e], Apply(s, e))
  {
    ClosedNext(events, e);
    hide PipesClosed, KillGroup;
  }

  lemma TroubleStands(events: seq<Event>, s: State, e: Event)
    requires StandsOpen(events, s) && Watched(s) && Closed(s) && Troubles(e)
    ensures StandsOpen(events + [e], Apply(s, e))
  {
    ClosedNext(events, e);
    hide PipesClosed, KillGroup;
  }

  lemma EndStands(events: seq<Event>, s: State, e: Event)
    requires StandsOpen(events, s) && Watched(s) && Closed(s) && Ends(e)
    ensures StandsOpen(events + [e], Apply(s, e))
  {
    ClosedNext(events, e);
    hide PipesClosed, ReleaseGroup, CaptureFailure;
  }

  lemma ExitTimerStands(events: seq<Event>, s: State, e: Event)
    requires StandsOpen(events, s) && Watched(s) && Closed(s) && e.ExitTimerFires?
    ensures StandsOpen(events + [e], Apply(s, e))
  {
    ClosedNext(events, e);
    hide PipesClosed, KillGroup;
  }

  lemma OtherStands(events: seq<Event>, s: State, e: Event)
    requires StandsOpen(events, s) && Watched(s) && Closed(s)
    requires e.Exit? || e.Close? || e.NumberTaken? || e.Spawned?
    ensures StandsOpen(events + [e], Apply(s, e))
  {
    ClosedNext(events, e);
    hide PipesClosed, KillGroup;
  }

  lemma StandsNext(events: seq<Event>, s: State, e: Event)
    requires StandsOpen(events, s) && Watched(s) && Closed(s)
    ensures StandsOpen(events + [e], Apply(s, e))
  {
    hide StandsOpen, Apply, Watched, Closed;
    if Outputs(e) {
      OutputStands(events, s, e);
    } else if Troubles(e) {
      TroubleStands(events, s, e);
    } else if Ends(e) {
      EndStands(events, s, e);
    } else if e.ExitTimerFires? {
      ExitTimerStands(events, s, e);
    } else {
      OtherStands(events, s, e);
    }
  }

  /** Every reachable state is what its history says: the troubles noted, the output kept, what is open and armed. */
  lemma {:induction false} HistoryDecides(numbered: bool, events: seq<Event>)
    ensures Told(numbered, events, At(numbered, events))
    decreases |events|
  {
    hide Inv, Apply, NotesTrouble, HoldsOutput, StandsOpen, Watched, Closed;
    if events == [] {
      ToldFirst(numbered);
    } else {
      var n := |events| - 1;
      var before := events[..n];
      assert events == before + [events[n]];
      HistoryDecides(numbered, before);
      ReachableInv(numbered, before);
      AtNext(numbered, before, events[n]);
      NotesNext(numbered, before, events[n]);
      HoldsNext(numbered, before, events[n]);
      StillInv(At(numbered, before));
      StandsNext(before, At(numbered, before), events[n]);
    }
  }

  lemma ToldFirst(numbered: bool)
    ensures Told(numbered, [], At(numbered, []))
  {
  }

  lemma StillInv(s: State)
    requires Inv(s)
    ensures Watched(s) && Closed(s)
  {
  }

  // ---- How it ends ----

  /** What the capture comes to if this event ends it. */
  function Verdict(numbered: bool, events: seq<Event>, e: Event): Outcome {
    if e.Error? then Rejected(ChildError)
    else if Happened(numbered, events, BadWrite) then Rejected(WriteFailed)
    else if Happened(numbered, events, Silence) then Rejected(Stalled)
    else if Happened(numbered, events, TimeUp) then Rejected(DeadlineExpired)
    else Resolved
  }

  /** The event ends a capture that stands here. */
  predicate EndsIt(numbered: bool, events: seq<Event>, s: State, e: Event) {
    || e.Error?
    || (e.KillTimerFires? && InTrouble(numbered, events))
    || (e.Drained? && s.settling && |s.writes.queue| == 0)
  }

  /**
   * A capture ends with the child's error, with the grace period after a trouble, or with the drained
   * chain once it is settling; and the earliest kind of trouble that has happened decides what it comes to.
   */
  lemma OutcomeByHistory(numbered: bool, events: seq<Event>, e: Event)
    requires !Settled(At(numbered, events))
    ensures At(numbered, events + [e]).outcomes
         == if EndsIt(numbered, events, At(numbered, events), e) then [Verdict(numbered, events, e)] else []
  {
    var s := At(numbered, events);
    AtNext(numbered, events, e);
    HistoryDecides(numbered, events);
    ToldNotes(numbered, events, s);
    hide Happened, At;
    if Ends(e) {
      EndOutcome(numbered, events, s, e);
    } else {
      hide Verdict;
      OtherOutcome(s, e);
    }
  }

  lemma ToldNotes(numbered: bool, events: seq<Event>, s: State)
    requires Told(numbered, events, s)
    ensures NotesTrouble(numbered, events, s) && StandsOpen(events, s)
  {
  }

  lemma EndOutcome(numbered: bool, events: seq<Event>, s: State, e: Event)
    requires !Settled(s) && NotesTrouble(numbered, events, s) && StandsOpen(events, s) && Ends(e)
    ensures Apply(s, e).outcomes
         == if EndsIt(numbered, events, s, e) then [Verdict(numbered, events, e)] else []
  {
    hide Happened, ReleaseGroup, PipesClosed;
  }

  lemma OtherOutcome(s: State, e: Event)
    requires !Ends(e)
    ensures Apply(s, e).outcomes == s.outcomes
  {
    hide KillGroup, CaptureFailure, EndWrite;
  }

  // ---- The settling ----

  predicate StartsSettling(s: State, e: Event) {
    e.Close? || (e.ExitTimerFires? && !e.buffered && s.timers.exit == BeforeDrain && |s.writes.queue| == 0)
  }

  /** Settling starts with the closed pipes, or after the exit once no output is on its way any more. */
  lemma SettlingStarts(s: State, e: Event)
    requires !Settled(s)
    ensures Apply(s, e).settling <==> s.settling || StartsSettling(s, e)
  {
    hide KillGroup, ReleaseGroup, CaptureFailure, EndWrite;
  }

  /** From every unfailed state the child's exit is enough: the exit timer, the writes and the drain resolve it. */
  lemma ExitAndDrainResolve(s: State, landed: bool)
    requires Inv(s) && !Settled(s) && !s.settling && CaptureFailure(s).None? && s.writes.queue == []
    ensures var timer := ExitTimerFires(false, landed);
            var r := Run(s, [Exit, timer, timer, Drained(landed)]);
            r.outcomes == [Resolved] && r.writes.written == s.writes.arrived
  {
    hide *;
    var timer := ExitTimerFires(false, landed);
    var t := Apply(Apply(Apply(s, Exit), timer), timer);
    StepInv(s, Exit);
    StepInv(Apply(s, Exit), timer);
    StepInv(Apply(Apply(s, Exit), timer), timer);
    ExitSettles(s, landed);
    DrainEnds(t, landed);
    RunFour(s, Exit, timer, timer, Drained(landed));
  }

  lemma RunFour(s: State, a: Event, b: Event, c: Event, d: Event)
    ensures Run(s, [a, b, c, d]) == Apply(Apply(Apply(Apply(s, a), b), c), d)
  {
    hide Apply;
    assert [a, b, c, d][1..] == [b, c, d] && [b, c, d][1..] == [c, d] && [c, d][1..] == [d] && [d][1..] == [];
    assert Run(s, [a, b, c, d]) == Run(Apply(s, a), [b, c, d]);
    assert Run(Apply(s, a), [b, c, d]) == Run(Apply(Apply(s, a), b), [c, d]);
    assert Run(Apply(Apply(s, a), b), [c, d]) == Run(Apply(Apply(Apply(s, a), b), c), [d]);
  }

  lemma ExitSettles(s: State, landed: bool)
    requires !Settled(s) && !s.settling && CaptureFailure(s).None? && s.writes.queue == []
    ensures var timer := ExitTimerFires(false, landed);
            var t := Apply(Apply(Apply(s, Exit), timer), timer);
            !Settled(t) && t.settling && CaptureFailure(t).None? && t.writes == s.writes
  {
    hide KillGroup;
  }

  // ---- The process group ----

  /** The event turns the capture against its process group. */
  predicate TurnsOnGroup(s: State, e: Event) {
    || Brings(s, e, Silence) || Brings(s, e, TimeUp) || (Brings(s, e, BadWrite) && !s.writes.failed)
    || (e.ExitTimerFires? && s.timers.exit == BeforeKill)
    || (!s.settling && StartsSettling(s, e))
    || e.Error? || (e.KillTimerFires? && s.timers.kill == Armed)
    || (e.Drained? && s.settling && |s.writes.queue| == 0)
  }

  // The event settles the capture, or its kill lands: either is the last thing done to the group.
  predicate LastOf(e: Event) {
    Ends(e) || (e.WriteEnds? && e.landed) || (e.Tick? && e.landed) || (e.Deadline? && e.landed)
    || (e.ExitTimerFires? && e.landed) || (e.Close? && e.landed)
  }

  /** What one event does to the group of a capture that is not settled. */
  predicate GroupFollows(s: State, e: Event, g: Group) {
    && g.signals == s.group.signals + (if s.group.owned && TurnsOnGroup(s, e) then 1 else 0)
    && (g.owned <==> if e.NumberTaken? then false
                     else if e.Spawned? then s.group.owned || !s.group.unregistered
                     else s.group.owned && !(TurnsOnGroup(s, e) && LastOf(e)))
    && (g.unregistered <==> s.group.unregistered || (TurnsOnGroup(s, e) && (!s.group.owned || LastOf(e))))
  }

  predicate OwnedWhileRegistered(s: State) {
    (s.group.unregistered ==> !s.group.owned) && (Settled(s) ==> s.group.unregistered)
  }

  lemma GroupOutput(s: State, e: Event)
    requires !Settled(s) && OwnedWhileRegistered(s) && Outputs(e)
    ensures GroupFollows(s, e, Apply(s, e).group)
  {
    hide EndWrite;
  }

  lemma GroupTrouble(s: State, e: Event)
    requires !Settled(s) && OwnedWhileRegistered(s) && Troubles(e)
    ensures GroupFollows(s, e, Apply(s, e).group)
  {
    hide EndWrite;
  }

  lemma GroupEnds(s: State, e: Event)
    requires !Settled(s) && OwnedWhileRegistered(s) && Ends(e)
    ensures GroupFollows(s, e, Apply(s, e).group)
  {
    hide CaptureFailure;
  }

  lemma GroupFirstTimer(s: State, e: Event)
    requires !Settled(s) && OwnedWhileRegistered(s) && e.ExitTimerFires? && s.timers.exit != BeforeDrain
    ensures GroupFollows(s, e, Apply(s, e).group)
  {
    hide SettleFromExit;
  }

  lemma GroupSecondTimer(s: State, e: Event)
    requires !Settled(s) && OwnedWhileRegistered(s) && e.ExitTimerFires? && s.timers.exit == BeforeDrain
    ensures GroupFollows(s, e, Apply(s, e).group)
  {
  }

  lemma GroupOther(s: State, e: Event)
    requires !Settled(s) && OwnedWhileRegistered(s)
    requires !Ends(e) && !Outputs(e) && !Troubles(e) && !e.ExitTimerFires?
    ensures GroupFollows(s, e, Apply(s, e).group)
  {
  }

  /** A group is signalled exactly when the capture owns it and the event turns the capture against it. */
  lemma GroupFollowsEvents(s: State, e: Event)
    requires !Settled(s) && OwnedWhileRegistered(s)
    ensures GroupFollows(s, e, Apply(s, e).group)
  {
    hide Apply, GroupFollows, OwnedWhileRegistered;
    if Outputs(e) {
      GroupOutput(s, e);
    } else if Troubles(e) {
      GroupTrouble(s, e);
    } else if Ends(e) {
      GroupEnds(s, e);
    } else if e.ExitTimerFires? && s.timers.exit == BeforeDrain {
      GroupSecondTimer(s, e);
    } else if e.ExitTimerFires? {
      GroupFirstTimer(s, e);
    } else {
      GroupOther(s, e);
    }
  }

  lemma OwnedRegisteredStep(s: State, e: Event)
    requires OwnedWhileRegistered(s) && Inv(s)
    ensures OwnedWhileRegistered(Apply(s, e))
  {
    StepInv(s, e);
    assert Settled(Apply(s, e)) ==> Apply(s, e).group.unregistered by { StillInv(Apply(s, e)); }
    if Settled(s) {
      SettledGroup(s, e);
    } else {
      GroupFollowsEvents(s, e);
    }
    hide Apply, Inv, TurnsOnGroup, LastOf;
  }

  lemma SettledGroup(s: State, e: Event)
    requires Settled(s) && s.group.unregistered && !s.group.owned
    ensures Apply(s, e).group == s.group
  {
    hide CaptureFailure, EndWrite;
  }

  lemma {:induction false} OwnedRegistered(numbered: bool, events: seq<Event>)
    ensures OwnedWhileRegistered(At(numbered, events))
    decreases |events|
  {
    hide Inv, Apply, OwnedWhileRegistered;
    if events == [] {
      FirstOwned(numbered);
    } else {
      var n := |events| - 1;
      assert events == events[..n] + [events[n]];
      OwnedRegistered(numbered, events[..n]);
      ReachableInv(numbered, events[..n]);
      AtNext(numbered, events[..n], events[n]);
      OwnedRegisteredStep(At(numbered, events[..n]), events[n]);
    }
  }

  lemma FirstOwned(numbered: bool)
    ensures OwnedWhileRegistered(At(numbered, []))
    ensures var s := At(numbered, []); s.group.owned == numbered && s.group.signals == 0 && !Settled(s) && !s.settling
  {
  }

  predicate InvolvesGroup(s: State) {
    s.writes.failed || s.stalled || s.deadlineExpired || s.settling || Settled(s)
  }

  // The group was the capture's own until it was signalled.
  predicate SignalledWhenDue(s: State) {
    (s.group.owned || s.group.signals > 0) && (InvolvesGroup(s) ==> s.group.signals > 0)
  }

  lemma InvolvementTurns(s: State, e: Event)
    requires !Settled(s) && !InvolvesGroup(s) && InvolvesGroup(Apply(s, e))
    ensures TurnsOnGroup(s, e)
  {
    hide KillGroup, ReleaseGroup, CaptureFailure;
  }

  lemma SignalledStep(s: State, e: Event)
    requires OwnedWhileRegistered(s) && SignalledWhenDue(s) && e != NumberTaken
    ensures SignalledWhenDue(Apply(s, e))
  {
    if Settled(s) {
      SettledGroup(s, e);
    } else {
      GroupFollowsEvents(s, e);
      hide Apply, TurnsOnGroup, LastOf;
      if !InvolvesGroup(s) && InvolvesGroup(Apply(s, e)) {
        InvolvementTurns(s, e);
      }
    }
    hide *;
  }

  /**
   * As long as the group is not given away, a capture that noted a trouble, that started settling or that
   * ended has signalled its group, whatever came in which order.
   */
  lemma {:induction false} TroubleIsSignalled(events: seq<Event>)
    requires NumberTaken !in events
    ensures SignalledWhenDue(At(true, events))
    decreases |events|
  {
    hide Apply, SignalledWhenDue, OwnedWhileRegistered;
    if events == [] {
      FirstOwned(true);
      FirstDue();
    } else {
      var n := |events| - 1;
      assert events == events[..n] + [events[n]];
      assert events[n] in events;
      TroubleIsSignalled(events[..n]);
      OwnedRegistered(true, events[..n]);
      AtNext(true, events[..n], events[n]);
      SignalledStep(At(true, events[..n]), events[n]);
    }
  }

  lemma FirstDue()
    ensures SignalledWhenDue(At(true, []))
  {
  }

  // ---- The last signal ----

  predicate LetGo(g: Group) {
    g.unregistered && !g.owned
  }

  lemma LetGoStep(s: State, e: Event)
    requires OwnedWhileRegistered(s) && LetGo(s.group)
    ensures LetGo(Apply(s, e).group) && Apply(s, e).group.signals == s.group.signals
  {
    if Settled(s) {
      SettledGroup(s, e);
    } else {
      GroupFollowsEvents(s, e);
    }
    hide Apply, TurnsOnGroup, LastOf;
  }

  lemma {:induction false} LetGoForGood(numbered: bool, events: seq<Event>, after: seq<Event>)
    requires LetGo(At(numbered, events).group)
    ensures At(numbered, events + after).group.signals == At(numbered, events).group.signals
    decreases |after|
  {
    hide At, LetGo, OwnedWhileRegistered;
    if after == [] {
      assert events + after == events;
    } else {
      OwnedRegistered(numbered, events);
      AtNext(numbered, events, after[0]);
      LetGoStep(At(numbered, events), after[0]);
      LetGoForGood(numbered, events + [after[0]], after[1..]);
      assert events + [after[0]] + after[1..] == events + after;
    }
  }

  /** A signal whose kill lands, or that ends the capture, is the last one. */
  lemma LandedKillIsLast(numbered: bool, before: seq<Event>, e: Event, after: seq<Event>)
    requires At(numbered, before + [e]).group.signals > At(numbered, before).group.signals && LastOf(e)
    ensures At(numbered, before + [e] + after).group.signals == At(numbered, before).group.signals + 1
  {
    hide At, LastOf;
    var s := At(numbered, before);
    OwnedRegistered(numbered, before);
    AtNext(numbered, before, e);
    SignalLetsGo(s, e);
    LetGoForGood(numbered, before + [e], after);
  }

  lemma SignalLetsGo(s: State, e: Event)
    requires OwnedWhileRegistered(s) && Apply(s, e).group.signals > s.group.signals && LastOf(e)
    ensures LetGo(Apply(s, e).group) && Apply(s, e).group.signals == s.group.signals + 1
  {
    if Settled(s) {
      SettledGroup(s, e);
    } else {
      GroupFollowsEvents(s, e);
    }
    hide Apply, TurnsOnGroup;
  }

  /** Nothing is signalled before a trouble, the exit, the closed pipes or the end. */
  lemma {:induction false} NoSignalWithoutCause(numbered: bool, events: seq<Event>)
    requires !InTrouble(numbered, events) && Exit !in events && !PipesClosed(events)
    requires !Settled(At(numbered, events))
    ensures At(numbered, events).group.signals == 0
    decreases |events|
  {
    hide Apply, Settled, Happened;
    if events == [] {
      FirstOwned(numbered);
    } else {
      var n := |events| - 1;
      var before := events[..n];
      var s := At(numbered, before);
      assert events == before + [events[n]];
      HappenedNext(numbered, before, events[n], BadWrite);
      HappenedNext(numbered, before, events[n], Silence);
      HappenedNext(numbered, before, events[n], TimeUp);
      ClosedNext(before, events[n]);
      AtNext(numbered, before, events[n]);
      ReachableInv(numbered, before);
      assert !Settled(s) by { StillUnsettled(s, events[n]); }
      NoSignalWithoutCause(numbered, before);
      OwnedRegistered(numbered, before);
      HistoryDecides(numbered, before);
      NothingTurns(numbered, before, s, events[n]);
    }
  }

  lemma StillUnsettled(s: State, e: Event)
    requires Inv(s) && !Settled(Apply(s, e))
    ensures !Settled(s)
  {
    if Settled(s) {
      StepAfterEnd(s, e);
    }
  }

  lemma NothingTurns(numbered: bool, events: seq<Event>, s: State, e: Event)
    requires Told(numbered, events, s) && OwnedWhileRegistered(s) && !Settled(s) && !Settled(Apply(s, e))
    requires !InTrouble(numbered, events) && Exit !in events && !PipesClosed(events)
    requires !Brings(s, e, BadWrite) && !Brings(s, e, Silence) && !Brings(s, e, TimeUp) && !e.Close? && e != Exit
    ensures Apply(s, e).group.signals == s.group.signals
  {
    GroupFollowsEvents(s, e);
    hide GroupFollows, Told;
    ToldNotes(numbered, events, s);
    assert !TurnsOnGroup(s, e) by {
      if Ends(e) {
        hide TurnsOnGroup, Happened;
        EndOutcome(numbered, events, s, e);
      } else {
        hide Apply, Happened;
      }
    }
    FollowsWithoutTurn(s, e);
  }

  lemma FollowsWithoutTurn(s: State, e: Event)
    requires !TurnsOnGroup(s, e) && GroupFollows(s, e, Apply(s, e).group)
    ensures Apply(s, e).group.signals == s.group.signals
  {
    hide Apply, TurnsOnGroup;
  }
}
