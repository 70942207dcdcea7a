/**
 * The registry of live process groups.
 *
 * A number names a process group only while the group lives; afterwards the system may give it to an
 * unrelated group.  Every tracker therefore acts on its number only while the registry names that
 * tracker as the owner.
 */
module ProcessGroups {
  import opened Prelude

  type Pgid = nat
  type TrackerId = nat

  // One tracker's own variables.
  datatype Tracker = Tracker(pid: Option<Pgid>, unregistered: bool)

  datatype State = State(live: map<Pgid, TrackerId>, trackers: map<TrackerId, Tracker>)

  // `landed` is what killProcessGroup answers: the kill landed or found the group gone.
  datatype Event =
    | Track(t: TrackerId, child: Option<Pgid>)
    | Spawn(t: TrackerId, number: Pgid)
    | Kill(t: TrackerId, landed: bool)
    | Release(t: TrackerId, landed: bool)
    | Shutdown

  // A SIGKILL sent to a group, on behalf of the tracker the registry names.
  datatype Signal = Signal(t: TrackerId, pid: Pgid)

  predicate Owns(s: State, t: TrackerId) {
    t in s.trackers && s.trackers[t].pid.Some? && s.trackers[t].pid.value in s.live
    && s.live[s.trackers[t].pid.value] == t
  }

  function Register(s: State, t: TrackerId, child: Option<Pgid>): State
    requires t in s.trackers
  {
    if s.trackers[t].unregistered || child.None? then s
    else State(s.live[child.value := t], s.trackers[t := s.trackers[t].(pid := child)])
  }

  function Unregister(s: State, t: TrackerId): State
    requires t in s.trackers
  {
    State(if Owns(s, t) then s.live - {s.trackers[t].pid.value} else s.live,
          s.trackers[t := s.trackers[t].(unregistered := true)])
  }

  predicate Acts(s: State, t: TrackerId) {
    t in s.trackers && !s.trackers[t].unregistered
  }

  /** What one event makes of the registry. */
  function Apply(s: State, e: Event): State {
    match e
    case Track(t, child) =>
      if t in s.trackers then s else Register(s.(trackers := s.trackers[t := Tracker(None, false)]), t, child)
    case Spawn(t, number) => if Acts(s, t) then Register(s, t, Some(number)) else s
    case Kill(t, landed) =>
      if Acts(s, t) && (!Owns(s, t) || landed) then Unregister(s, t) else s
    case Release(t, _) => if Acts(s, t) then Unregister(s, t) else s
    case Shutdown => s
  }

  /** The groups an event signals, and for whom. */
  function Signals(s: State, e: Event): set<Signal> {
    match e
    case Kill(t, _) => if Acts(s, t) && Owns(s, t) then {Signal(t, s.trackers[t].pid.value)} else {}
    case Release(t, _) => if Acts(s, t) && Owns(s, t) then {Signal(t, s.trackers[t].pid.value)} else {}
    case Shutdown => set pid | pid in s.live :: Signal(s.live[pid], pid)
    case _ => {}
  }

  function Run(s: State, events: seq<Event>): State
    decreases |events|
  {
    if events == [] then s else Run(Apply(s, events[0]), events[1..])
  }

  const NOTHING: State := State(map[], map[])

  // ---- The closures over the shared map ----

  class Registry {
    var live: map<Pgid, TrackerId>
    var trackers: map<TrackerId, Tracker>

    ghost function View(): State
      reads this
    {
      State(live, trackers)
    }

    constructor ()
      ensures View() == NOTHING
    {
      live := map[];
      trackers := map[];
    }

    predicate OwnsPgid(t: TrackerId)
      reads this
      ensures OwnsPgid(t) == Owns(View(), t)
    {
      t in trackers && trackers[t].pid.Some? && trackers[t].pid.value in live && live[trackers[t].pid.value] == t
    }

    method RegisterChild(t: TrackerId, child: Option<Pgid>)
      requires t in trackers
      modifies this
      ensures View() == Register(old(View()), t, child)
      ensures View() == if child.Some? then Apply(old(View()), Spawn(t, child.value)) else old(View())
    {
      if !trackers[t].unregistered && child.Some? {
        trackers := trackers[t := trackers[t].(pid := child)];
        live := live[child.value := t];
      }
    }

    method UnregisterTracker(t: TrackerId)
      requires t in trackers
      modifies this
      ensures View() == Unregister(old(View()), t)
    {
      if OwnsPgid(t) {
        live := live - {trackers[t].pid.value};
      }
      trackers := trackers[t := trackers[t].(unregistered := true)];
    }

    /** trackProcessGroup: a new tracker, registered at once when the child already has a number. */
    method TrackProcessGroup(t: TrackerId, child: Option<Pgid>)
      requires t !in trackers
      modifies this
      ensures View() == Apply(old(View()), Track(t, child))
    {
      trackers := trackers[t := Tracker(None, false)];
      RegisterChild(t, child);
    }

    /** kill: signal while owning, and stop for good once the kill landed or the number was lost. */
    method KillGroup(t: TrackerId, landed: bool) returns (signals: set<Signal>)
      requires t in trackers
      modifies this
      ensures View() == Apply(old(View()), Kill(t, landed))
      ensures signals == Signals(old(View()), Kill(t, landed))
    {
      signals := {};
      if trackers[t].unregistered {
        return;
      }
      if OwnsPgid(t) {
        signals := {Signal(t, trackers[t].pid.value)};
      }
      if !OwnsPgid(t) || landed {
        UnregisterTracker(t);
      }
    }

    /** release: one last signal while owning, then stop for good. */
    method ReleaseGroup(t: TrackerId, landed: bool) returns (signals: set<Signal>)
      requires t in trackers
      modifies this
      ensures View() == Apply(old(View()), Release(t, landed))
      ensures signals == Signals(old(View()), Release(t, landed))
    {
      signals := {};
      if trackers[t].unregistered {
        return;
      }
      if OwnsPgid(t) {
        signals := {Signal(t, trackers[t].pid.value)};
      }
      UnregisterTracker(t);
    }

    /** signalProcessGroups: at shutdown, every number the registry still holds. */
    method SignalProcessGroups() returns (signals: set<Signal>)
      ensures signals == Signals(View(), Shutdown)
    {
      signals := {};
      var left := live.Keys;
      while left != {}
        invariant left <= live.Keys
        invariant signals == set pid | pid in live && pid !in left :: Signal(live[pid], pid)
        decreases |left|
      {
        var pid :| pid in left;
        signals := signals + {Signal(live[pid], pid)};
        left := left - {pid};
      }
    }
  }

  // ---- Every history ----

  // The registry names only trackers that hold that number and have not stopped.
  predicate Sound(s: State) {
    forall pid :: pid in s.live ==>
      && s.live[pid] in s.trackers
      && s.trackers[s.live[pid]].pid == Some(pid)
      && !s.trackers[s.live[pid]].unregistered
  }

  // A child keeps its process number.
  predicate SamePid(s: State, e: Event) {
    e.Spawn? && e.t in s.trackers && s.trackers[e.t].pid.Some? ==> s.trackers[e.t].pid.value == e.number
  }

  predicate SamePids(s: State, events: seq<Event>)
    decreases |events|
  {
    events == [] || (SamePid(s, events[0]) && SamePids(Apply(s, events[0]), events[1..]))
  }

  lemma ApplySound(s: State, e: Event)
    requires Sound(s) && SamePid(s, e)
    ensures Sound(Apply(s, e))
  {
  }

  lemma {:induction false} RunSound(s: State, events: seq<Event>)
    requires Sound(s) && SamePids(s, events)
    ensures Sound(Run(s, events))
    decreases |events|
  {
    if events != [] {
      ApplySound(s, events[0]);
      RunSound(Apply(s, events[0]), events[1..]);
    }
  }

  /** In every history, a signal goes only to a group whose number the registry gives to an unstopped tracker. */
  lemma SignalsOnlyOwnGroups(events: seq<Event>, e: Event, signal: Signal)
    requires SamePids(NOTHING, events)
    requires signal in Signals(Run(NOTHING, events), e)
    ensures var s := Run(NOTHING, events);
            signal.pid in s.live && s.live[signal.pid] == signal.t && Acts(s, signal.t)
    ensures e.Kill? || e.Release? ==> signal.t == e.t
  {
    RunSound(NOTHING, events);
  }

  /** In every history, an event removes at most the entry of the tracker that acts. */
  lemma RemovesOnlyOwnEntry(s: State, e: Event, pid: Pgid)
    requires pid in s.live && pid !in Apply(s, e).live
    ensures (e.Kill? || e.Release?) && s.live[pid] == e.t
  {
  }

  // The event stops its tracker: a release, or a kill that landed.
  predicate Stops(e: Event, t: TrackerId) {
    e == Release(t, true) || e == Release(t, false) || e == Kill(t, true)
  }

  lemma StoppedStays(s: State, e: Event, t: TrackerId)
    requires t in s.trackers && s.trackers[t].unregistered
    ensures t in Apply(s, e).trackers && Apply(s, e).trackers[t].unregistered
  {
  }

  lemma {:induction false} StoppedForGood(s: State, events: seq<Event>, t: TrackerId)
    requires t in s.trackers && s.trackers[t].unregistered
    ensures var r := Run(s, events); t in r.trackers && r.trackers[t].unregistered
    decreases |events|
  {
    if events != [] {
      StoppedStays(s, events[0], t);
      StoppedForGood(Apply(s, events[0]), events[1..], t);
    }
  }

  lemma {:induction false} RunAppend(s: State, first: seq<Event>, rest: seq<Event>)
    ensures Run(s, first + rest) == Run(Run(s, first), rest)
    decreases |first|
  {
    if first == [] {
      assert first + rest == rest;
    } else {
      assert (first + rest)[0] == first[0] && (first + rest)[1..] == first[1..] + rest;
      RunAppend(Apply(s, first[0]), first[1..], rest);
    }
  }

  lemma {:induction false} SamePidsSplit(s: State, first: seq<Event>, rest: seq<Event>)
    requires SamePids(s, first + rest)
    ensures SamePids(s, first) && SamePids(Run(s, first), rest)
    decreases |first|
  {
    if first == [] {
      assert first + rest == rest;
    } else {
      assert (first + rest)[0] == first[0] && (first + rest)[1..] == first[1..] + rest;
      SamePidsSplit(Apply(s, first[0]), first[1..], rest);
    }
  }

  /**
   * Once a tracker was released or a kill of its landed, nothing is ever signalled on its behalf
   * again: not by it, and not at shutdown, whatever happened to its number since.
   */
  lemma SilentOnceStopped(before: seq<Event>, stop: Event, after: seq<Event>, e: Event, t: TrackerId)
    requires SamePids(NOTHING, before + ([stop] + after))
    requires t in Run(NOTHING, before).trackers && Stops(stop, t)
    ensures forall pid :: Signal(t, pid) !in Signals(Run(NOTHING, before + ([stop] + after)), e)
  {
    hide Signals;
    var s := Run(NOTHING, before);
    SamePidsSplit(NOTHING, before, [stop] + after);
    RunAppend(NOTHING, before, [stop] + after);
    assert ([stop] + after)[1..] == after;
    RunSound(NOTHING, before);
    ApplySound(s, stop);
    assert t in Apply(s, stop).trackers && Apply(s, stop).trackers[t].unregistered;
    RunSound(Apply(s, stop), after);
    StoppedForGood(Apply(s, stop), after, t);
    NoSignalFor(Run(Apply(s, stop), after), e, t);
  }

  lemma NoSignalFor(s: State, e: Event, t: TrackerId)
    requires Sound(s) && t in s.trackers && s.trackers[t].unregistered
    ensures forall pid :: Signal(t, pid) !in Signals(s, e)
  {
  }

  /**
   * A group that is tracked and not yet stopped is signalled at shutdown, unless a newer tracker
   * was given its number.
   */
  predicate Covered(s: State, taken: set<TrackerId>) {
    forall t :: t in s.trackers && s.trackers[t].pid.Some? && !s.trackers[t].unregistered && t !in taken ==> Owns(s, t)
  }

  // The trackers whose number was registered again by another tracker.
  function Taken(s: State, events: seq<Event>): set<TrackerId>
    decreases |events|
  {
    if events == [] then {}
    else TakenBy(s, events[0]) + Taken(Apply(s, events[0]), events[1..])
  }

  function TakenBy(s: State, e: Event): set<TrackerId> {
    set t | t in s.trackers && Owns(s, t) && s.trackers[t].pid.value in Apply(s, e).live
            && Apply(s, e).live[s.trackers[t].pid.value] != t
  }

  lemma ApplyCovers(s: State, e: Event, taken: set<TrackerId>)
    requires Covered(s, taken) && SamePid(s, e) && Sound(s)
    ensures Covered(Apply(s, e), taken + TakenBy(s, e))
  {
    var r := Apply(s, e);
    forall t | t in r.trackers && r.trackers[t].pid.Some? && !r.trackers[t].unregistered && t !in taken + TakenBy(s, e)
      ensures Owns(r, t)
    {
      if t in s.trackers && s.trackers[t].pid.Some? {
        assert Owns(s, t);
        var pid := s.trackers[t].pid.value;
        assert pid in r.live ==> r.live[pid] == t;
      }
    }
  }

  lemma {:induction false} RunCovers(s: State, events: seq<Event>, taken: set<TrackerId>)
    requires Covered(s, taken) && SamePids(s, events) && Sound(s)
    ensures Covered(Run(s, events), taken + Taken(s, events))
    decreases |events|
  {
    hide Sound, Covered, TakenBy;
    if events == [] {
      assert taken + {} == taken;
    } else {
      ApplyCovers(s, events[0], taken);
      ApplySound(s, events[0]);
      RunCovers(Apply(s, events[0]), events[1..], taken + TakenBy(s, events[0]));
      assert taken + TakenBy(s, events[0]) + Taken(Apply(s, events[0]), events[1..]) == taken + Taken(s, events);
    }
  }

  /** Shutdown reaches every live tracked group whose number no other tracker was given. */
  lemma ShutdownReachesEveryGroup(events: seq<Event>, t: TrackerId)
    requires SamePids(NOTHING, events)
    requires var s := Run(NOTHING, events); Acts(s, t) && s.trackers[t].pid.Some?
    requires t !in Taken(NOTHING, events)
    ensures var s := Run(NOTHING, events); Signal(t, s.trackers[t].pid.value) in Signals(s, Shutdown)
  {
    RunCovers(NOTHING, events, {});
    assert {} + Taken(NOTHING, events) == Taken(NOTHING, events);
    var s := Run(NOTHING, events);
    var pid := s.trackers[t].pid.value;
    assert pid in s.live && s.live[pid] == t;
  }
}
