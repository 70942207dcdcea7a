/** The accumulator of structured events: arbitrary chunks in, the counts of the whole text out. */
module EventAccumulator {
  import opened Prelude
  import opened EventLines

  datatype State = State(tally: Tally, pending: string, discardingLine: bool)

  const START := State(EMPTY, "", false)

  /** The open line is kept only while it can still become an event. */
  function BoundPending(tally: Tally, pending: string): Result<State, ReadError> {
    if ByteLength(pending) > MAX_EVENT_LINE_BYTES && IsEventLine(pending) then Err(Oversized)
    else if pending != "" && !IsEventLine(pending) && !(pending <= EventPrefix()) then Ok(State(tally, "", true))
    else Ok(State(tally, pending, false))
  }

  function WriteLines(reader: Reader, tally: Tally, text: string): Result<State, ReadError> {
    match ConsumeLines(reader, tally, Complete(text))
    case Err(error) => Err(error)
    case Ok(next) => BoundPending(next, Rest(text))
  }

  /** One call of `write`. */
  function Write(reader: Reader, s: State, chunk: string): Result<State, ReadError> {
    if !s.discardingLine then WriteLines(reader, s.tally, s.pending + chunk)
    else if NewlineAt(chunk) == |chunk| then Ok(s)
    else WriteLines(reader, s.tally, s.pending + chunk[NewlineAt(chunk) + 1..])
  }

  function WriteAll(reader: Reader, s: State, chunks: seq<string>): Result<State, ReadError>
    decreases |chunks|
  {
    if chunks == [] then Ok(s)
    else
      match Write(reader, s, chunks[0])
      case Err(error) => Err(error)
      case Ok(next) => WriteAll(reader, next, chunks[1..])
  }

  function Finish(reader: Reader, s: State): Result<Tally, ReadError> {
    match (if IsEventLine(s.pending) then ConsumeLine(reader, s.tally, s.pending) else Ok(s.tally))
    case Err(error) => Err(error)
    case Ok(tally) => if tally.sawEvent then Ok(tally) else Err(NoEvents)
  }

  /** Feeding chunks one by one and finishing. */
  function Summarize(reader: Reader, chunks: seq<string>): Result<Tally, ReadError> {
    match WriteAll(reader, START, chunks)
    case Err(error) => Err(error)
    case Ok(s) => Finish(reader, s)
  }

  /** The reference: cut the whole text into lines and count every event line, with no buffer at all. */
  function SummaryOfText(reader: Reader, text: string): Result<Tally, ReadError> {
    match ConsumeLines(reader, EMPTY, Split(text))
    case Err(error) => Err(error)
    case Ok(tally) => if tally.sawEvent then Ok(tally) else Err(NoEvents)
  }

  function Concat(chunks: seq<string>): string {
    if chunks == [] then "" else chunks[0] + Concat(chunks[1..])
  }

  class StructuredNodeSummaryAccumulator {
    const reader: Reader
    var discardingLine: bool
    var pending: string
    var sawEvent: bool
    var assertions: nat
    var passed: nat
    var failed: nat
    var skipped: nat
    var skipReasons: map<string, nat>
    var uncounted: nat
    var consumedMappingIdentities: seq<string>

    function Counted(): Tally
      reads this
    {
      Tally(sawEvent, assertions, passed, failed, skipped, skipReasons, uncounted, consumedMappingIdentities)
    }

    function View(): State
      reads this
    {
      State(Counted(), pending, discardingLine)
    }

    constructor (reader: Reader)
      ensures this.reader == reader && View() == START
    {
      this.reader := reader;
      discardingLine, pending, sawEvent := false, "", false;
      assertions, passed, failed, skipped, uncounted := 0, 0, 0, 0, 0;
      skipReasons, consumedMappingIdentities := map[], [];
    }

    /** Takes one chunk; on a failure the accumulator is not used again. */
    method WriteChunk(chunk: string) returns (status: Result<(), ReadError>)
      modifies this
      ensures match Write(reader, old(View()), chunk)
              case Err(error) => status == Err(error)
              case Ok(next) => status.Ok? && View() == next
    {
      hide ConsumeLine, BoundPending;
      var incoming := chunk;
      if discardingLine {
        var newline := NewlineAt(incoming);
        if newline == |incoming| {
          return Ok(());
        }
        incoming := incoming[newline + 1..];
        discardingLine := false;
      }
      ghost var tally := Counted();
      var text := pending + incoming;
      var lines := Complete(text);
      pending := Rest(text);
      var k := 0;
      while k < |lines|
        invariant k <= |lines| && !discardingLine && pending == Rest(text)
        invariant ConsumeLines(reader, tally, lines) == ConsumeLines(reader, Counted(), lines[k..])
      {
        status := CountLine(lines[k]);
        if status.Err? {
          return;
        }
        assert lines[k..][1..] == lines[k + 1..];
        k := k + 1;
      }
      status := BoundPendingLine();
    }

    method BoundPendingLine() returns (status: Result<(), ReadError>)
      requires !discardingLine
      modifies this`pending, this`discardingLine
      ensures match BoundPending(Counted(), old(pending))
              case Err(error) => status == Err(error)
              case Ok(next) => status.Ok? && View() == next
    {
      hide EventPrefix, ByteLength;
      if ByteLength(pending) > MAX_EVENT_LINE_BYTES && IsEventLine(pending) {
        return Err(Oversized);
      }
      if pending != "" && !IsEventLine(pending) && !(pending <= EventPrefix()) {
        pending := "";
        discardingLine := true;
      }
      return Ok(());
    }

    method CountLine(line: string) returns (status: Result<(), ReadError>)
      modifies this
      ensures pending == old(pending) && discardingLine == old(discardingLine)
      ensures match ConsumeLine(reader, old(Counted()), line)
              case Err(error) => status == Err(error)
              case Ok(next) => status.Ok? && Counted() == next
    {
      hide EventPrefix, ByteLength, CountSkip;
      if !(EventPrefix() <= line) {
        return Ok(());
      }
      if ByteLength(line) > MAX_EVENT_LINE_BYTES {
        return Err(Oversized);
      }
      sawEvent := true;
      var decoded := (reader.decode)(line[|EventPrefix()|..]);
      if decoded.NotJson? {
        return Err(Malformed);
      }
      if decoded.Null? {
        return Err(NullEvent);
      }
      var event := decoded.event;
      if event.kind.OtherKind? || !event.isTest {
        return Ok(());
      }
      assertions := assertions + 1;
      if !event.skip.NoSkip? {
        status := CountSkipped(event);
        return;
      }
      if event.kind.TestPass? {
        passed := passed + 1;
      } else {
        failed := failed + 1;
      }
      return Ok(());
    }

    method CountSkipped(event: NodeEvent) returns (status: Result<(), ReadError>)
      requires !event.skip.NoSkip?
      modifies this
      ensures pending == old(pending) && discardingLine == old(discardingLine)
      ensures match CountSkip(reader, old(Counted()), event)
              case Err(error) => status == Err(error)
              case Ok(next) => status.Ok? && Counted() == next
    {
      hide Inherited, ResolveSkip;
      var resolved := ResolveSkip(reader, event.skip, event.name);
      if resolved.reason.None? {
        return Err(UnexplainedSkip);
      }
      if resolved.consumed.Some? {
        consumedMappingIdentities := consumedMappingIdentities + [resolved.consumed.value];
      }
      skipped := skipped + 1;
      var reason := resolved.reason.value;
      if Inherited(reason) {
        uncounted := uncounted + 1;
      } else {
        skipReasons := skipReasons[reason := CountOf(skipReasons, reason) + 1];
      }
      return Ok(());
    }

    method FinishSummary() returns (summary: Result<Tally, ReadError>)
      modifies this
      ensures summary == Finish(reader, old(View()))
      ensures pending == "" || summary.Err?
    {
      hide ConsumeLine, EventPrefix;
      if IsEventLine(pending) {
        var status := CountLine(pending);
        if status.Err? {
          return Err(status.error);
        }
      }
      pending := "";
      if !sawEvent {
        return Err(NoEvents);
      }
      return Ok(Counted());
    }
  }
}
