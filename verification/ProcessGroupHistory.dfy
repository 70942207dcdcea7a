/** Whom the registry names for a number, and which groups are signalled, by what has happened so far. */
module ProcessGroupHistory {
  import opened Prelude
  import opened ProcessGroups

  function At(events: seq<Event>): State {
    Run(NOTHING, events)
  }

  lemma AtNext(events: seq<Event>, e: Event)
    ensures At(events + [e]) == Apply(At(events), e)
  {
    hide Apply;
    RunAppend(NOTHING, events, [e]);
    assert [e][1..] == [];
    assert Run(At(events), [e]) == Run(Apply(At(events), e), []);
  }

  // ---- What an event does to one tracker ----

  predicate Names(s: State, pid: Pgid, t: TrackerId) {
    pid in s.live && s.live[pid] == t
  }

  /** The event gives the tracker's child this number: a new tracker's child, or one of a tracker not stopped. */
  predicate Gets(s: State, e: Event, t: TrackerId, pid: Pgid) {
    || (e.Track? && e.t == t && t !in s.trackers && e.child == Some(pid))
    || (e.Spawn? && e.t == t && t in s.trackers && !s.trackers[t].unregistered && e.number == pid)
  }

  /** The tracker stops: a release, a kill that lands, or a kill when no number is its own any more. */
  ghost predicate GivesUp(s: State, e: Event, t: TrackerId) {
    && t in s.trackers
    && ((e.Release? && e.t == t) || (e.Kill? && e.t == t && (e.landed || forall pid :: !Names(s, pid, t))))
  }

  /** The event leaves this number to its tracker. */
  ghost predicate Keeps(s: State, e: Event, t: TrackerId, pid: Pgid) {
    !GivesUp(s, e, t) && !((e.Track? || e.Spawn?) && e.t != t && Gets(s, e, e.t, pid))
  }

  lemma SoundOwns(s: State, t: TrackerId)
    requires Sound(s)
    ensures Owns(s, t) <==> exists pid :: Names(s, pid, t)
  {
    if pid :| Names(s, pid, t) {
      assert s.trackers[s.live[pid]].pid == Some(pid);
    }
    if Owns(s, t) {
      assert Names(s, s.trackers[t].pid.value, t);
    }
  }

  lemma OwnsOnly(s: State, t: TrackerId, pid: Pgid)
    requires Sound(s) && Names(s, pid, t)
    ensures t in s.trackers && s.trackers[t] == Tracker(Some(pid), false)
  {
  }

  lemma NumberFollows(s: State, e: Event, t: TrackerId, pid: Pgid)
    requires Sound(s) && SamePid(s, e)
    ensures Names(Apply(s, e), pid, t) <==> Gets(s, e, t, pid) || (Names(s, pid, t) && Keeps(s, e, t, pid))
  {
    SoundOwns(s, t);
    if Names(s, pid, t) {
      OwnsOnly(s, t, pid);
    }
    if (e.Kill? || e.Release?) && e.t != t && Names(s, pid, t) {
      SoundOwns(s, e.t);
      assert Owns(s, e.t) ==> s.trackers[e.t].pid.value != pid;
    }
    hide Sound;
  }

  lemma TrackerFollows(s: State, e: Event, t: TrackerId)
    requires Sound(s)
    ensures var r := Apply(s, e);
            && (t in r.trackers <==> t in s.trackers || (e.Track? && e.t == t))
            && (t in s.trackers ==> (r.trackers[t].unregistered <==> s.trackers[t].unregistered || GivesUp(s, e, t)))
            && (t !in s.trackers && t in r.trackers ==> !r.trackers[t].unregistered)
  {
    SoundOwns(s, t);
    hide Sound;
  }

  // ---- Histories ----

  ghost predicate Began(events: seq<Event>, t: TrackerId) {
    exists j :: 0 <= j < |events| && events[j].Track? && events[j].t == t
  }

  ghost predicate GaveUp(events: seq<Event>, t: TrackerId) {
    exists j :: 0 <= j < |events| && GivesUp(At(events[..j]), events[j], t)
  }

  /** The tracker's child got the number with the j-th event, and nothing has taken it since. */
  ghost predicate HeldSince(events: seq<Event>, j: nat, t: TrackerId, pid: Pgid) {
    && j < |events| && Gets(At(events[..j]), events[j], t, pid)
    && forall k {:trigger events[k]} :: j < k < |events| ==> Keeps(At(events[..k]), events[k], t, pid)
  }

  ghost predicate Holds(events: seq<Event>, t: TrackerId, pid: Pgid) {
    exists j: nat :: HeldSince(events, j, t, pid)
  }

  lemma Prefixes(events: seq<Event>, e: Event)
    ensures forall k {:trigger (events + [e])[k]} :: 0 <= k < |events| ==>
              (events + [e])[k] == events[k] && (events + [e])[..k] == events[..k]
    ensures (events + [e])[|events|] == e && (events + [e])[..|events|] == events
  {
  }

  lemma BeganNext(events: seq<Event>, e: Event, t: TrackerId)
    ensures Began(events + [e], t) <==> Began(events, t) || (e.Track? && e.t == t)
    ensures GaveUp(events + [e], t) <==> GaveUp(events, t) || GivesUp(At(events), e, t)
  {
    hide At, GivesUp;
    Prefixes(events, e);
    var all := events + [e];
    if Began(events, t) {
      var j :| 0 <= j < |events| && events[j].Track? && events[j].t == t;
      assert all[j] == events[j];
    }
    if GaveUp(events, t) {
      var j :| 0 <= j < |events| && GivesUp(At(events[..j]), events[j], t);
      assert GivesUp(At(all[..j]), all[j], t);
    }
    if GivesUp(At(events), e, t) {
      assert GivesUp(At(all[..|events|]), all[|events|], t);
    }
  }

  lemma HeldNext(events: seq<Event>, e: Event, t: TrackerId, pid: Pgid)
    ensures Holds(events + [e], t, pid)
       <==> Gets(At(events), e, t, pid) || (Holds(events, t, pid) && Keeps(At(events), e, t, pid))
  {
    hide At, Gets, Keeps;
    Prefixes(events, e);
    var all, n := events + [e], |events|;
    if Gets(At(events), e, t, pid) {
      assert HeldSince(all, n, t, pid);
    }
    if Holds(events, t, pid) && Keeps(At(events), e, t, pid) {
      var j: nat :| HeldSince(events, j, t, pid);
      assert all[j] == events[j] && all[..j] == events[..j];
      forall k {:trigger all[k]} | j < k < |all| ensures Keeps(At(all[..k]), all[k], t, pid) {
        if k < n {
          assert all[k] == events[k];
        }
      }
      assert HeldSince(all, j, t, pid);
    }
    if Holds(all, t, pid) {
      var j: nat :| HeldSince(all, j, t, pid);
      if j == n {
        assert Gets(At(events), e, t, pid);
      } else {
        assert all[n] == e;
        assert all[j] == events[j] && all[..j] == events[..j];
        forall k {:trigger events[k]} | j < k < n ensures Keeps(At(events[..k]), events[k], t, pid) {
          assert all[k] == events[k];
        }
        assert HeldSince(events, j, t, pid);
      }
    }
  }

  lemma Split(events: seq<Event>)
    requires events != [] && SamePids(NOTHING, events)
    ensures var n := |events| - 1;
            SamePids(NOTHING, events[..n]) && SamePid(At(events[..n]), events[n]) && Sound(At(events[..n]))
  {
    var n := |events| - 1;
    assert events == events[..n] + [events[n]];
    SamePidsSplit(NOTHING, events[..n], [events[n]]);
    RunSound(NOTHING, events[..n]);
  }

  /** In every history a tracker is known once it began, and stopped exactly once it has given up. */
  lemma {:induction false} TrackersByHistory(events: seq<Event>, t: TrackerId)
    requires SamePids(NOTHING, events)
    ensures t in At(events).trackers <==> Began(events, t)
    ensures t in At(events).trackers ==> (At(events).trackers[t].unregistered <==> GaveUp(events, t))
    decreases |events|
  {
    hide Apply, Sound, GivesUp, SamePids, SamePid, Began, GaveUp;
    if events == [] {
      NothingBegan(t);
    } else {
      var n := |events| - 1;
      assert events == events[..n] + [events[n]];
      Split(events);
      TrackersByHistory(events[..n], t);
      AtNext(events[..n], events[n]);
      TrackerFollows(At(events[..n]), events[n], t);
      BeganNext(events[..n], events[n], t);
      if t !in At(events[..n]).trackers {
        NeverGaveUp(events[..n], t);
        NewGivesNothing(At(events[..n]), events[n], t);
      }
    }
  }

  lemma NothingBegan(t: TrackerId)
    ensures !Began([], t) && !GaveUp([], t) && t !in At([]).trackers
  {
  }

  lemma NewGivesNothing(s: State, e: Event, t: TrackerId)
    requires t !in s.trackers
    ensures !GivesUp(s, e, t)
  {
  }

  lemma {:induction false} NeverGaveUp(events: seq<Event>, t: TrackerId)
    requires t !in At(events).trackers && SamePids(NOTHING, events)
    ensures !GaveUp(events, t)
    decreases |events|
  {
    hide Apply, GivesUp, Sound, SamePids;
    if events != [] {
      var n := |events| - 1;
      assert events == events[..n] + [events[n]];
      Split(events);
      AtNext(events[..n], events[n]);
      TrackerFollows(At(events[..n]), events[n], t);
      NeverGaveUp(events[..n], t);
      BeganNext(events[..n], events[n], t);
      NewGivesNothing(At(events[..n]), events[n], t);
    }
  }

  /**
   * In every history the registry names a tracker for a number exactly when the tracker's child got the
   * number and since then neither the tracker gave up nor another tracker's child got it.
   */
  lemma {:induction false} RegistryByHistory(events: seq<Event>, t: TrackerId, pid: Pgid)
    requires SamePids(NOTHING, events)
    ensures Names(At(events), pid, t) <==> Holds(events, t, pid)
    decreases |events|
  {
    hide Apply, Sound, Gets, Keeps, SamePids, SamePid, Holds, Names;
    if events == [] {
      NothingHeld(t, pid);
    } else {
      var n := |events| - 1;
      assert events == events[..n] + [events[n]];
      Split(events);
      RegistryByHistory(events[..n], t, pid);
      AtNext(events[..n], events[n]);
      NumberFollows(At(events[..n]), events[n], t, pid);
      HeldNext(events[..n], events[n], t, pid);
    }
  }

  lemma NothingHeld(t: TrackerId, pid: Pgid)
    ensures !Holds([], t, pid) && !Names(At([]), pid, t)
  {
  }

  /**
   * In every history a group is signalled exactly when its tracker holds its number and kills it or lets
   * it go, or at shutdown.
   */
  lemma SignalsByHistory(events: seq<Event>, e: Event, t: TrackerId, pid: Pgid)
    requires SamePids(NOTHING, events)
    ensures Signal(t, pid) in Signals(At(events), e)
       <==> Holds(events, t, pid) && (e.Shutdown? || ((e.Kill? || e.Release?) && e.t == t))
  {
    RunSound(NOTHING, events);
    RegistryByHistory(events, t, pid);
    SignalsNamed(At(events), e, t, pid);
    hide *;
  }

  lemma SignalsNamed(s: State, e: Event, t: TrackerId, pid: Pgid)
    requires Sound(s)
    ensures Signal(t, pid) in Signals(s, e)
       <==> Names(s, pid, t) && (e.Shutdown? || ((e.Kill? || e.Release?) && e.t == t))
  {
    if Names(s, pid, t) {
      OwnsOnly(s, t, pid);
    }
    SoundOwns(s, t);
  }
}
