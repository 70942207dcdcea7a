/**
 * Capturing one leaf's output.
 *
 * Output chunks are appended to a transcript one write at a time; a watchdog, a total deadline, the
 * child's exit, its closed pipes and failed writes all race to settle the capture.  Each handler below
 * is one step, and any number of them may come in any order.
 */
module Capture {
  import opened Prelude

  datatype Chunk = Chunk(stdout: bool, text: string)

  // The append chain: what arrived, what still waits for its turn, and what the transcript holds.
  datatype Writes = Writes(arrived: seq<Chunk>, queue: seq<Chunk>, written: seq<Chunk>, failed: bool)

  datatype KillTimer = Unset | Armed | Spent

  datatype ExitTimer = Idle | BeforeKill | BeforeDrain

  datatype Timers = Timers(ticker: bool, deadline: bool, kill: KillTimer, exit: ExitTimer)

  // The tracker of the child's process group, and how often the group was signalled through it.
  datatype Group = Group(owned: bool, unregistered: bool, signals: nat)

  datatype Failure = WriteFailed | Stalled | DeadlineExpired | Killed | ChildError

  datatype Outcome = Resolved | Rejected(failure: Failure)

  datatype State = State(
    writes: Writes,
    timers: Timers,
    group: Group,
    stalled: bool,
    deadlineExpired: bool,
    pipesOpen: bool,
    settling: bool,
    outcomes: seq<Outcome>)

  // `landed` says whether a kill issued by the step, if any, lands.
  datatype Event =
    | Data(chunk: Chunk)
    | WriteEnds(ok: bool, landed: bool)
    | Tick(silent: bool, landed: bool)
    | Deadline(landed: bool)
    | KillTimerFires(landed: bool)
    | Exit
    | ExitTimerFires(buffered: bool, landed: bool)
    | Close(landed: bool)
    | Drained(landed: bool)
    | Error(landed: bool)
    | NumberTaken
    | Spawned

  // A capture that has just started, its child with a process number or (the spawn failed, or is still due) without.
  function Started(numbered: bool): State {
    State(Writes([], [], [], false), Timers(true, true, Unset, Idle), Group(numbered, false, 0),
          false, false, true, false, [])
  }

  // ---- The steps, as functions of the state ----

  // Something that can only happen while what it waits for is there.  A closed or destroyed pipe gives
  // no more data, and a timer fires only while it is armed.
  predicate CanHappen(s: State, e: Event) {
    match e
    case Data(_) => s.pipesOpen
    case WriteEnds(_, _) => s.writes.queue != []
    case Tick(_, _) => s.timers.ticker
    case Deadline(_) => s.timers.deadline
    case KillTimerFires(_) => s.timers.kill == Armed
    case ExitTimerFires(_, _) => s.timers.exit != Idle
    case Drained(_) => s.settling && s.writes.queue == []
    case _ => true
  }

  function KillGroup(g: Group, landed: bool): Group {
    if g.unregistered then g
    else if !g.owned then g.(unregistered := true)
    else Group(!landed, landed, g.signals + 1)
  }

  function ReleaseGroup(g: Group): Group {
    if g.unregistered then g else Group(false, true, g.signals + if g.owned then 1 else 0)
  }

  predicate Settled(s: State) {
    s.outcomes != []
  }

  function Finish(s: State, outcome: Outcome): State {
    if Settled(s) then s
    else s.(timers := Timers(false, false, if s.timers.kill == Armed then Spent else s.timers.kill, Idle),
            group := ReleaseGroup(s.group), outcomes := s.outcomes + [outcome])
  }

  function KillForFailure(s: State, landed: bool): State {
    s.(group := KillGroup(s.group, landed), pipesOpen := false,
       timers := s.timers.(kill := if s.timers.kill == Unset then Armed else s.timers.kill))
  }

  function CaptureFailure(s: State): Option<Failure> {
    if s.writes.failed then Some(WriteFailed)
    else if s.stalled then Some(Stalled)
    else if s.deadlineExpired then Some(DeadlineExpired)
    else None
  }

  function SettleFromExit(s: State, landed: bool): State {
    if Settled(s) || s.settling then s
    else s.(settling := true, timers := s.timers.(ticker := false, exit := Idle), group := KillGroup(s.group, landed))
  }

  function EndWrite(w: Writes, ok: bool): Writes
    requires w.queue != []
  {
    if w.failed then w.(queue := w.queue[1..])
    else if ok then w.(queue := w.queue[1..], written := w.written + [w.queue[0]])
    else w.(queue := w.queue[1..], failed := true)
  }

  /** One step of the capture. */
  function Step(s: State, e: Event): State
    requires CanHappen(s, e)
  {
    match e
    case Data(chunk) =>
      s.(writes := s.writes.(arrived := s.writes.arrived + [chunk], queue := s.writes.queue + [chunk]))
    case WriteEnds(ok, landed) =>
      var t := s.(writes := EndWrite(s.writes, ok));
      if !s.writes.failed && !ok then KillForFailure(t, landed) else t
    case Tick(silent, landed) =>
      if silent then KillForFailure(s.(stalled := true, timers := s.timers.(ticker := false)), landed) else s
    case Deadline(landed) =>
      KillForFailure(s.(deadlineExpired := true, timers := s.timers.(deadline := false)), landed)
    case KillTimerFires(_) =>
      var t := s.(pipesOpen := false, timers := s.timers.(kill := Spent));
      Finish(t, Rejected(if CaptureFailure(s).Some? then CaptureFailure(s).value else Killed))
    case Exit => s.(timers := s.timers.(ticker := false, exit := BeforeKill))
    case ExitTimerFires(buffered, landed) =>
      if s.timers.exit == BeforeKill then
        s.(group := KillGroup(s.group, landed), timers := s.timers.(exit := BeforeDrain))
      else
        var t := s.(timers := s.timers.(exit := Idle));
        if Settled(s) || s.settling then t
        else if s.writes.queue != [] || buffered then s
        else SettleFromExit(t.(pipesOpen := false), landed)
    case Close(landed) => SettleFromExit(s.(pipesOpen := false), landed)
    case Drained(_) =>
      var t := s.(settling := true);
      if CaptureFailure(s).Some? then Finish(t, Rejected(CaptureFailure(s).value)) else Finish(t, Resolved)
    case Error(_) => Finish(s.(group := ReleaseGroup(s.group)), Rejected(ChildError))
    case NumberTaken => s.(group := s.group.(owned := false))
    case Spawned => s.(group := s.group.(owned := s.group.owned || !s.group.unregistered))
  }

  // What cannot happen does not happen.
  function Apply(s: State, e: Event): State {
    if CanHappen(s, e) then Step(s, e) else s
  }

  function Run(s: State, events: seq<Event>): State
    decreases |events|
  {
    if events == [] then s else Run(Apply(s, events[0]), events[1..])
  }
}
