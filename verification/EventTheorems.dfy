/** Chunking never changes what is counted, the buffer stays small, and the counts add up. */
module EventTheorems {
  import opened Prelude
  import opened EventLines
  import opened EventAccumulator

  // ---- Chunking does not matter ----

  /** What every write leaves behind. */
  ghost predicate Settled(s: State) {
    && '\n' !in s.pending
    && (s.discardingLine ==> s.pending == "")
  }

  /** A line that can no longer become an event. */
  ghost predicate Hopeless(line: string) {
    line != "" && !IsEventLine(line) && !(line <= EventPrefix())
  }

  lemma Comparable(prefix: string, line: string, more: string)
    ensures prefix <= line + more ==> prefix <= line || line <= prefix
    ensures line + more <= prefix ==> line <= prefix
  {
    if prefix <= line + more {
      if |line| <= |prefix| {
        assert line == (line + more)[..|line|];
      } else {
        assert (line + more)[..|prefix|] == line[..|prefix|];
      }
    }
    if line + more <= prefix {
      assert line == (line + more)[..|line|];
    }
  }

  lemma HopelessStays(line: string, more: string)
    requires Hopeless(line)
    ensures Hopeless(line + more)
  {
    hide EventPrefix;
    Comparable(EventPrefix(), line, more);
  }

  lemma EventLineStays(line: string, more: string)
    requires IsEventLine(line) && ByteLength(line) > MAX_EVENT_LINE_BYTES
    ensures IsEventLine(line + more) && ByteLength(line + more) > MAX_EVENT_LINE_BYTES
  {
    hide EventPrefix;
    ByteLengthConcat(line, more);
    assert (line + more)[..|EventPrefix()|] == line[..|EventPrefix()|];
  }

  /** The lines that more text completes, and the open part it leaves. */
  lemma MoreText(text: string, more: string)
    ensures Complete(text + more) == Complete(text) + Complete(Rest(text) + more)
    ensures Rest(text + more) == Rest(Rest(text) + more)
  {
    hide Split;
    SplitConcat(text, more);
    LastOfConcat(Complete(text), Split(Rest(text) + more));
  }

  lemma LastOfConcat(a: seq<string>, b: seq<string>)
    requires b != []
    ensures var all := a + b; all[..|all| - 1] == a + b[..|b| - 1] && all[|all| - 1] == b[|b| - 1]
  {
  }

  /** After a hopeless open line, only what follows its newline counts. */
  lemma DiscardGoesOn(reader: Reader, tally: Tally, line: string, more: string)
    requires Hopeless(line) && '\n' !in line
    ensures WriteLines(reader, tally, line + more) == Write(reader, State(tally, "", true), more)
  {
    hide EventPrefix, ByteLength, Split, Complete, Rest, NewlineAt;
    var at := NewlineAt(more);
    NewlineBehind(line, more);
    SplitParts(line + more);
    if at == |more| {
      HopelessStays(line, more);
    } else {
      HopelessStays(line, more[..at]);
      var rest := more[at + 1..];
      assert (line + more)[..|line| + at] == line + more[..at];
      assert (line + more)[|line| + at + 1..] == rest;
      assert Complete(line + more)[1..] == Complete(rest);
      assert "" + rest == rest;
    }
  }

  lemma NewlineBehind(line: string, more: string)
    requires '\n' !in line
    ensures NewlineAt(line + more) == |line| + NewlineAt(more)
  {
    NewlineConcat(line, more);
    if NewlineAt(line) < |line| {
      assert false;
    }
  }

  /** What a write of a text leaves decides what more text does. */
  lemma WriteMore(reader: Reader, tally: Tally, text: string, more: string)
    ensures WriteLines(reader, tally, text + more) ==
            match WriteLines(reader, tally, text)
            case Err(error) => Err(error)
            case Ok(s) => Write(reader, s, more)
  {
    hide Write, EventPrefix, ByteLength;
    MoreText(text, more);
    ConsumeLinesConcat(reader, tally, Complete(text), Complete(Rest(text) + more));
    if ConsumeLines(reader, tally, Complete(text)).Ok? {
      RestIsOpen(text);
      GoOn(reader, ConsumeLines(reader, tally, Complete(text)).value, Rest(text), more);
    }
  }

  /** The open part of a text holds no newline. */
  lemma {:induction false} RestIsOpen(text: string)
    ensures '\n' !in Rest(text)
    decreases |text|
  {
    var at := NewlineAt(text);
    if at < |text| {
      RestIsOpen(text[at + 1..]);
    } else {
      assert text[..at] == text;
    }
  }

  /** Bounding the open line and going on is the same as going on with the whole line. */
  lemma GoOn(reader: Reader, tally: Tally, line: string, more: string)
    requires '\n' !in line
    ensures WriteLines(reader, tally, line + more) ==
            match BoundPending(tally, line)
            case Err(error) => Err(error)
            case Ok(s) => Write(reader, s, more)
  {
    hide EventPrefix, ByteLength, Split, ConsumeLine;
    if ByteLength(line) > MAX_EVENT_LINE_BYTES && IsEventLine(line) {
      OversizedFails(reader, tally, line, more);
    } else if Hopeless(line) {
      DiscardGoesOn(reader, tally, line, more);
    }
  }

  /** An open event line that is already too long fails however it goes on. */
  lemma OversizedFails(reader: Reader, tally: Tally, line: string, more: string)
    requires '\n' !in line && IsEventLine(line) && ByteLength(line) > MAX_EVENT_LINE_BYTES
    ensures WriteLines(reader, tally, line + more) == Err(Oversized)
  {
    hide EventPrefix, ByteLength;
    var at := NewlineAt(more);
    NewlineBehind(line, more);
    if at == |more| {
      EventLineStays(line, more);
      assert Split(line + more) == [line + more];
      assert Complete(line + more) == [];
    } else {
      EventLineStays(line, more[..at]);
      assert (line + more)[..|line| + at] == line + more[..at];
      assert Complete(line + more)[0] == line + more[..at];
    }
  }

  /** One write of `a` and `b` together does what a write of each does. */
  lemma WriteConcat(reader: Reader, s: State, a: string, b: string)
    requires Settled(s)
    ensures Write(reader, s, a + b) ==
            match Write(reader, s, a)
            case Err(error) => Err(error)
            case Ok(next) => Write(reader, next, b)
  {
    hide WriteLines, NewlineAt;
    if !s.discardingLine {
      assert s.pending + (a + b) == s.pending + a + b;
      WriteMore(reader, s.tally, s.pending + a, b);
    } else {
      NewlineConcat(a, b);
      var at := NewlineAt(a);
      if at < |a| {
        assert (a + b)[at + 1..] == a[at + 1..] + b;
        assert s.pending + (a[at + 1..] + b) == s.pending + a[at + 1..] + b;
        WriteMore(reader, s.tally, s.pending + a[at + 1..], b);
      } else {
        assert (a + b)[|a| + NewlineAt(b)..] == b[NewlineAt(b)..];
        assert NewlineAt(b) < |b| ==> (a + b)[|a| + NewlineAt(b) + 1..] == b[NewlineAt(b) + 1..];
      }
    }
  }

  lemma WriteSettles(reader: Reader, s: State, chunk: string)
    requires Settled(s) && Write(reader, s, chunk).Ok?
    ensures Settled(Write(reader, s, chunk).value)
  {
    hide Split, EventPrefix, ByteLength, ConsumeLines;
    RestIsOpen(s.pending + chunk);
    if NewlineAt(chunk) < |chunk| {
      RestIsOpen(s.pending + chunk[NewlineAt(chunk) + 1..]);
    }
  }

  lemma {:induction false} WriteAllIsOneWrite(reader: Reader, s: State, chunks: seq<string>)
    requires Settled(s) && chunks != []
    ensures WriteAll(reader, s, chunks) == Write(reader, s, Concat(chunks))
    decreases |chunks|
  {
    hide Write;
    if |chunks| == 1 {
      assert chunks[1..] == [] && chunks[0] + "" == chunks[0];
      assert Concat(chunks[1..]) == "";
    } else {
      WriteConcat(reader, s, chunks[0], Concat(chunks[1..]));
      if Write(reader, s, chunks[0]).Ok? {
        WriteSettles(reader, s, chunks[0]);
        WriteAllIsOneWrite(reader, Write(reader, s, chunks[0]).value, chunks[1..]);
      }
    }
  }

  /**
   Whatever the chunks, the counts, skip reasons, consumed identities or failure are those of
   reading the whole text line by line.
   */
  lemma ChunkingDoesNotMatter(reader: Reader, chunks: seq<string>)
    ensures Summarize(reader, chunks) == SummaryOfText(reader, Concat(chunks))
  {
    hide Write, EventPrefix, ByteLength, Split;
    if chunks == [] {
      WholeText(reader, "");
      WriteNothing(reader);
    } else {
      WriteAllIsOneWrite(reader, START, chunks);
      WholeText(reader, Concat(chunks));
    }
  }

  lemma WriteNothing(reader: Reader)
    ensures Write(reader, START, "") == Ok(START)
  {
    hide EventPrefix;
    assert Split("") == [""];
    assert "" + "" == "";
  }

  /** Writing a text at once and finishing is the reference. */
  lemma WholeText(reader: Reader, text: string)
    ensures SummaryOfText(reader, text) ==
            match Write(reader, START, text)
            case Err(error) => Err(error)
            case Ok(s) => Finish(reader, s)
  {
    hide EventPrefix, ByteLength, ConsumeLine, Split, BoundPending, Complete, Rest;
    assert "" + text == text;
    CutEnds(text);
    ConsumeLinesConcat(reader, EMPTY, Complete(text), [Rest(text)]);
    if ConsumeLines(reader, EMPTY, Complete(text)).Ok? {
      LastLine(reader, ConsumeLines(reader, EMPTY, Complete(text)).value, Rest(text));
    }
  }

  lemma CutEnds(text: string)
    ensures Split(text) == Complete(text) + [Rest(text)]
  {
    hide Split;
  }

  lemma LastLine(reader: Reader, tally: Tally, line: string)
    ensures ConsumeLines(reader, tally, [line]) == ConsumeLine(reader, tally, line)
    ensures var bound := BoundPending(tally, line);
            if bound.Err? then ConsumeLine(reader, tally, line) == Err(bound.error)
            else
              && bound.value.tally == tally
              && ConsumeLine(reader, tally, line) ==
                 if IsEventLine(bound.value.pending) then ConsumeLine(reader, tally, bound.value.pending)
                 else Ok(tally)
  {
    hide EventPrefix, ByteLength, CountEvent;
    assert [line][1..] == [];
  }

  // ---- Bounded memory ----

  /** After every write that succeeds, at most 1 MiB of text is retained. */
  lemma RetainedTextIsBounded(reader: Reader, s: State, chunk: string)
    requires Settled(s) && Write(reader, s, chunk).Ok?
    ensures Settled(Write(reader, s, chunk).value)
    ensures ByteLength(Write(reader, s, chunk).value.pending) <= MAX_EVENT_LINE_BYTES
  {
    hide EventPrefix, Split, ConsumeLines;
    WriteSettles(reader, s, chunk);
    ByteLengthBound(Write(reader, s, chunk).value.pending);
  }

  // ---- Conservation ----

  /** The sum of the counts of a reason table. */
  ghost function Total(reasons: map<string, nat>): nat {
    if reasons == map[] then 0
    else
      var reason :| reason in reasons;
      reasons[reason] + Total(reasons - {reason})
  }

  lemma {:induction false} TotalWithout(reasons: map<string, nat>, reason: string)
    requires reason in reasons
    ensures Total(reasons) == reasons[reason] + Total(reasons - {reason})
  {
    var first :| first in reasons && Total(reasons) == reasons[first] + Total(reasons - {first});
    if first != reason {
      TotalWithout(reasons - {first}, reason);
      TotalWithout(reasons - {reason}, first);
      assert reasons - {first} - {reason} == reasons - {reason} - {first};
    }
  }

  lemma TotalCounts(reasons: map<string, nat>, reason: string)
    ensures Total(reasons[reason := CountOf(reasons, reason) + 1]) == Total(reasons) + 1
  {
    var next := reasons[reason := CountOf(reasons, reason) + 1];
    TotalWithout(next, reason);
    assert next - {reason} == reasons - {reason};
    if reason in reasons {
      TotalWithout(reasons, reason);
    } else {
      assert reasons - {reason} == reasons;
    }
  }

  ghost predicate Balanced(tally: Tally) {
    && tally.assertions == tally.passed + tally.failed + tally.skipped
    && tally.skipped == Total(tally.skipReasons) + tally.uncounted
  }

  /** A line that reports a skip under a name every object inherits. */
  ghost predicate LosesReason(reader: Reader, line: string) {
    IsEventLine(line) &&
    (match reader.decode(line[|EventPrefix()|..])
     case Event(event) =>
       && !event.kind.OtherKind? && event.isTest && !event.skip.NoSkip?
       && ResolveSkip(reader, event.skip, event.name).reason.Some?
       && Inherited(ResolveSkip(reader, event.skip, event.name).reason.value)
     case _ => false)
  }

  ghost predicate KeepsReasons(reader: Reader, lines: seq<string>) {
    forall line | line in lines :: !LosesReason(reader, line)
  }

  lemma LineKeepsBalance(reader: Reader, tally: Tally, line: string)
    requires Balanced(tally) && ConsumeLine(reader, tally, line).Ok?
    ensures var next := ConsumeLine(reader, tally, line).value;
            Balanced(next) && next.uncounted == tally.uncounted + (if LosesReason(reader, line) then 1 else 0)
  {
    hide EventPrefix, Inherited, ByteLength, Total, ResolveSkip;
    if IsEventLine(line) && reader.decode(line[|EventPrefix()|..]).Event? {
      var event := reader.decode(line[|EventPrefix()|..]).event;
      if !event.skip.NoSkip? && ResolveSkip(reader, event.skip, event.name).reason.Some? {
        TotalCounts(tally.skipReasons, ResolveSkip(reader, event.skip, event.name).reason.value);
      }
    }
  }

  lemma {:induction false} LinesKeepBalance(reader: Reader, tally: Tally, lines: seq<string>)
    requires Balanced(tally) && ConsumeLines(reader, tally, lines).Ok?
    ensures var next := ConsumeLines(reader, tally, lines).value;
            && Balanced(next)
            && (next.uncounted == tally.uncounted <==> KeepsReasons(reader, lines))
            && next.uncounted >= tally.uncounted
    decreases |lines|
  {
    hide ConsumeLine, LosesReason, Balanced;
    if lines != [] {
      LineKeepsBalance(reader, tally, lines[0]);
      LinesKeepBalance(reader, ConsumeLine(reader, tally, lines[0]).value, lines[1..]);
      assert forall line | line in lines :: line == lines[0] || line in lines[1..];
    }
  }

  /** The counts add up, and the reasons account for every skip exactly when `complete`. */
  ghost predicate AddsUp(tally: Tally, complete: bool) {
    && tally.assertions == tally.passed + tally.failed + tally.skipped
    && (tally.skipped == Total(tally.skipReasons) <==> complete)
  }

  /**
   Every summary has assertions = passed + failed + skipped. Its skip reasons sum to the skips,
   as the receipt check demands, exactly when no skip is reported under an inherited name.
   */
  lemma SummaryAddsUp(reader: Reader, chunks: seq<string>)
    requires Summarize(reader, chunks).Ok?
    ensures var tally := Summarize(reader, chunks).value;
            AddsUp(tally, KeepsReasons(reader, Split(Concat(chunks))))
  {
    hide ConsumeLines, KeepsReasons, Split, AddsUp, Summarize, Concat;
    ChunkingDoesNotMatter(reader, chunks);
    LinesAddUp(reader, Split(Concat(chunks)));
  }

  lemma EmptyBalances()
    ensures Balanced(EMPTY)
  {
  }

  lemma BalancedAddsUp(tally: Tally, complete: bool)
    requires Balanced(tally) && (tally.uncounted == 0 <==> complete)
    ensures AddsUp(tally, complete)
  {
    hide Total;
  }

  lemma LinesAddUp(reader: Reader, lines: seq<string>)
    requires ConsumeLines(reader, EMPTY, lines).Ok?
    ensures AddsUp(ConsumeLines(reader, EMPTY, lines).value, KeepsReasons(reader, lines))
  {
    hide ConsumeLines, KeepsReasons, Balanced, AddsUp;
    EmptyBalances();
    LinesKeepBalance(reader, EMPTY, lines);
    BalancedAddsUp(ConsumeLines(reader, EMPTY, lines).value, KeepsReasons(reader, lines));
  }

  /** A reader for which every event is a passed test skipped because of `constructor`. */
  const LOSING: Reader := Reader(
    line => Event(NodeEvent(TestPass, true, Because("constructor"), None)), text => text, name => None, name => None)

  /** One event of that reader: the summary has one skip and no reason for it. */
  lemma SkipIsLost()
    ensures SummaryOfText(LOSING, EventPrefix()) == Ok(Tally(true, 1, 0, 0, 1, map[], 1, []))
    ensures !KeepsReasons(LOSING, [EventPrefix()]) && Total(map[]) == 0
  {
    LosingLine(EMPTY);
    hide EventPrefix, ConsumeLine, LosesReason;
    var line := EventPrefix();
    OneLine(line);
    assert line in [line] && [line][1..] == [];
  }

  lemma OneLine(line: string)
    requires '\n' !in line
    ensures Split(line) == [line]
  {
  }

  lemma LosingLine(tally: Tally)
    ensures LosesReason(LOSING, EventPrefix())
    ensures ConsumeLine(LOSING, tally, EventPrefix())
         == Ok(tally.(sawEvent := true, assertions := tally.assertions + 1, skipped := tally.skipped + 1,
                      uncounted := tally.uncounted + 1))
  {
    ConstructorIsInherited();
    ByteLengthBound(EventPrefix());
    hide EventPrefix, ByteLength, Inherited;
    assert ResolveSkip(LOSING, Because("constructor"), None) == Resolved(Some("constructor"), None);
  }

  lemma ConstructorIsInherited()
    ensures Inherited("constructor") && |"constructor"| > 0
  {
  }

  /**
   A capture's use of the accumulator: every chunk as it arrives, then the summary; after a
   failure nothing more is written and the failure is the summary.
   */
  method SummarizeChunks(reader: Reader, chunks: seq<string>) returns (summary: Result<Tally, ReadError>)
    ensures summary == SummaryOfText(reader, Concat(chunks))
  {
    hide Write, Finish, SummaryOfText;
    ChunkingDoesNotMatter(reader, chunks);
    var accumulator := new StructuredNodeSummaryAccumulator(reader);
    var k := 0;
    while k < |chunks|
      invariant k <= |chunks| && accumulator.reader == reader
      invariant WriteAll(reader, START, chunks) == WriteAll(reader, accumulator.View(), chunks[k..])
    {
      assert chunks[k..][1..] == chunks[k + 1..];
      var status := accumulator.WriteChunk(chunks[k]);
      if status.Err? {
        return Err(status.error);
      }
      k := k + 1;
    }
    summary := accumulator.FinishSummary();
  }
}
