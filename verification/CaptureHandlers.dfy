/** The handlers of one capture, as they share and update their variables. */
module CaptureHandlers {
  import opened Prelude
  import opened Capture

  class LeafCapture {
    var writes: Writes
    var timers: Timers
    var group: Group
    var stalled: bool
    var deadlineExpired: bool
    var pipesOpen: bool
    var settling: bool
    var settled: bool
    var outcomes: seq<Outcome>

    ghost predicate Valid()
      reads this
    {
      settled <==> outcomes != []
    }

    ghost function View(): State
      reads this
    {
      State(writes, timers, group, stalled, deadlineExpired, pipesOpen, settling, outcomes)
    }

    constructor (numbered: bool)
      ensures Valid() && View() == Started(numbered)
    {
      writes := Writes([], [], [], false);
      timers := Timers(true, true, Unset, Idle);
      group := Group(numbered, false, 0);
      stalled, deadlineExpired, pipesOpen, settling, settled, outcomes := false, false, true, false, false, [];
    }

    method KillOwnGroup(landed: bool)
      modifies this`group
      ensures group == KillGroup(old(group), landed)
    {
      if group.unregistered {
        return;
      }
      var lost := !group.owned;
      if group.owned {
        group := group.(signals := group.signals + 1);
      }
      if lost || landed {
        group := group.(owned := false, unregistered := true);
      }
    }

    method ReleaseOwnGroup()
      modifies this`group
      ensures group == ReleaseGroup(old(group))
    {
      if group.unregistered {
        return;
      }
      if group.owned {
        group := group.(signals := group.signals + 1);
      }
      group := group.(owned := false, unregistered := true);
    }

    /** finish: the single terminal path. */
    method FinishWith(outcome: Outcome)
      requires Valid()
      modifies this
      ensures Valid() && View() == Finish(old(View()), outcome)
    {
      if settled {
        return;
      }
      settled := true;
      timers := timers.(ticker := false, deadline := false, exit := Idle);
      if timers.kill == Armed {
        timers := timers.(kill := Spent);
      }
      ReleaseOwnGroup();
      outcomes := outcomes + [outcome];
    }

    method SettleFailureAfterKill()
      modifies this`timers
      ensures timers == old(timers).(kill := if old(timers).kill == Unset then Armed else old(timers).kill)
    {
      if timers.kill != Unset {
        return;
      }
      timers := timers.(kill := Armed);
    }

    method KillAfterFailure(landed: bool)
      requires Valid()
      modifies this`group, this`pipesOpen, this`timers
      ensures Valid() && View() == KillForFailure(old(View()), landed)
    {
      KillOwnGroup(landed);
      pipesOpen := false;
      SettleFailureAfterKill();
    }

    /** settleFromExit, up to the point where it waits for the append chain. */
    method StartSettling(landed: bool)
      requires Valid()
      modifies this`settling, this`timers, this`group
      ensures Valid() && View() == SettleFromExit(old(View()), landed)
    {
      if settled || settling {
        return;
      }
      settling := true;
      timers := timers.(ticker := false, exit := Idle);
      KillOwnGroup(landed);
    }

    function Noticed(): (failure: Option<Failure>)
      reads this
      ensures failure == CaptureFailure(View())
    {
      if writes.failed then Some(WriteFailed)
      else if stalled then Some(Stalled)
      else if deadlineExpired then Some(DeadlineExpired)
      else None
    }

    /** The child was spawned: its tracker registers the number, unless it let go already. */
    method OnSpawned()
      requires Valid()
      modifies this`group
      ensures Valid() && View() == Step(old(View()), Spawned)
    {
      if !group.unregistered {
        group := group.(owned := true);
      }
    }

    /** append: a chunk arrived on a pipe. */
    method OnData(chunk: Chunk)
      requires Valid() && CanHappen(View(), Data(chunk))
      modifies this
      ensures Valid() && View() == Step(old(View()), Data(chunk))
    {
      writes := writes.(arrived := writes.arrived + [chunk], queue := writes.queue + [chunk]);
    }

    /** The link of the append chain whose turn it is has run: a write, or nothing after a failure. */
    method OnWriteEnds(ok: bool, landed: bool)
      requires Valid() && CanHappen(View(), WriteEnds(ok, landed))
      modifies this
      ensures Valid() && View() == Step(old(View()), WriteEnds(ok, landed))
    {
      var record := writes.queue[0];
      writes := writes.(queue := writes.queue[1..]);
      if !writes.failed {
        if ok {
          writes := writes.(written := writes.written + [record]);
        } else {
          writes := writes.(failed := true);
          KillAfterFailure(landed);
        }
      }
    }

    /** The watchdog's tick: too long a silence kills the leaf. */
    method OnTick(silent: bool, landed: bool)
      requires Valid() && CanHappen(View(), Tick(silent, landed))
      modifies this
      ensures Valid() && View() == Step(old(View()), Tick(silent, landed))
    {
      if silent {
        stalled := true;
        timers := timers.(ticker := false);
        KillAfterFailure(landed);
      }
    }

    method OnDeadline(landed: bool)
      requires Valid() && CanHappen(View(), Deadline(landed))
      modifies this
      ensures Valid() && View() == Step(old(View()), Deadline(landed))
    {
      timers := timers.(deadline := false);
      deadlineExpired := true;
      KillAfterFailure(landed);
    }

    /** The grace period after a kill is over. */
    method OnKillTimer(landed: bool)
      requires Valid() && CanHappen(View(), KillTimerFires(landed))
      modifies this
      ensures Valid() && View() == Step(old(View()), KillTimerFires(landed))
    {
      timers := timers.(kill := Spent);
      pipesOpen := false;
      var failure := Noticed();
      FinishWith(Rejected(if failure.Some? then failure.value else Killed));
    }

    method OnExit()
      requires Valid()
      modifies this
      ensures Valid() && View() == Step(old(View()), Exit)
    {
      timers := timers.(ticker := false, exit := BeforeKill);
    }

    /** settleWhenDrained, after the group was killed once. */
    method OnExitTimer(buffered: bool, landed: bool)
      requires Valid() && CanHappen(View(), ExitTimerFires(buffered, landed))
      modifies this
      ensures Valid() && View() == Step(old(View()), ExitTimerFires(buffered, landed))
    {
      if timers.exit == BeforeKill {
        KillOwnGroup(landed);
        timers := timers.(exit := BeforeDrain);
        return;
      }
      timers := timers.(exit := Idle);
      if settled || settling {
        return;
      }
      if writes.queue != [] || buffered {
        timers := timers.(exit := BeforeDrain);
        return;
      }
      pipesOpen := false;
      StartSettling(landed);
    }

    method OnClose(landed: bool)
      requires Valid()
      modifies this
      ensures Valid() && View() == Step(old(View()), Close(landed))
    {
      pipesOpen := false;
      StartSettling(landed);
    }

    /** settleFromExit goes on: the append chain has run to its end. */
    method OnDrained(landed: bool)
      requires Valid() && CanHappen(View(), Drained(landed))
      modifies this
      ensures Valid() && View() == Step(old(View()), Drained(landed))
    {
      if settled {
        return;
      }
      var failure := Noticed();
      FinishWith(if failure.Some? then Rejected(failure.value) else Resolved);
    }

    /** The child's error event: its tracker lets go first, then the capture ends. */
    method OnError(landed: bool)
      requires Valid()
      modifies this
      ensures Valid() && View() == Step(old(View()), Error(landed))
    {
      ReleaseOwnGroup();
      FinishWith(Rejected(ChildError));
    }
  }
}
