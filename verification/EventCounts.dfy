/** What every number of a summary counts, by the lines of the text. */
module EventCounts {
  import opened Prelude
  import opened EventLines
  import opened EventAccumulator
  import opened EventTheorems

  // ---- What a line reports ----

  /** The line is an event line and decodes to this event. */
  predicate Reports(reader: Reader, line: string, event: NodeEvent) {
    "PDPP_TEST_ACCOUNTING_EVENT " <= line && reader.decode(line[27..]) == Event(event)
  }

  /** The event is the end of a test, and not of a suite or anything else. */
  predicate EndsTest(event: NodeEvent) {
    event.isTest && (event.kind == TestPass || event.kind == TestFail)
  }

  function EventOf(reader: Reader, line: string): Option<NodeEvent> {
    if "PDPP_TEST_ACCOUNTING_EVENT " <= line && reader.decode(line[27..]).Event? then
      Some(reader.decode(line[27..]).event)
    else None
  }

  predicate ReportsPass(reader: Reader, line: string) {
    var e := EventOf(reader, line);
    e.Some? && e.value.isTest && e.value.kind == TestPass && e.value.skip == NoSkip
  }

  predicate ReportsFailure(reader: Reader, line: string) {
    var e := EventOf(reader, line);
    e.Some? && e.value.isTest && e.value.kind == TestFail && e.value.skip == NoSkip
  }

  predicate ReportsSkip(reader: Reader, line: string) {
    var e := EventOf(reader, line);
    e.Some? && EndsTest(e.value) && e.value.skip != NoSkip
  }

  /** The reason a skip is counted under: its own text, else its title's, else the one of an exact named row. */
  predicate ReasonIs(reader: Reader, event: NodeEvent, reason: string) {
    && reason != ""
    && match event.skip
       case NoSkip => false
       case Because(text) => reader.trim(text) == reason
       case Flag =>
         && event.name.Some?
         && (if reader.titleReason(event.name.value) in {None, Some("")} then
               reader.namedReason(event.name.value) == Some(reason)
             else reader.titleReason(event.name.value) == Some(reason))
  }

  predicate ReportsSkipBecause(reader: Reader, line: string, reason: string) {
    ReportsSkip(reader, line) && ReasonIs(reader, EventOf(reader, line).value, reason)
  }

  /** The skip is explained by a named row only, which it uses up. */
  predicate UsesRow(reader: Reader, line: string) {
    ReportsSkip(reader, line) &&
    var event := EventOf(reader, line).value;
    event.skip == Flag && event.name.Some? && reader.titleReason(event.name.value) in {None, Some("")}
  }

  /** The names every object has in JavaScript. */
  predicate MemberOfObjects(name: string) {
    name in {"__proto__", "__defineGetter__", "__defineSetter__", "__lookupGetter__", "__lookupSetter__", "constructor",
             "hasOwnProperty", "isPrototypeOf", "propertyIsEnumerable", "toLocaleString", "toString", "valueOf"}
  }

  /** How many of the lines have the property. */
  function Count(lines: seq<string>, p: string -> bool): nat {
    if lines == [] then 0 else (if p(lines[0]) then 1 else 0) + Count(lines[1..], p)
  }

  function RowOf(reader: Reader, line: string): seq<string> {
    if UsesRow(reader, line) then [EventOf(reader, line).value.name.value] else []
  }

  /** The names of the rows used up, in order. */
  function RowsUsed(reader: Reader, lines: seq<string>): seq<string> {
    if lines == [] then []
    else RowOf(reader, lines[0]) + RowsUsed(reader, lines[1..])
  }

  // ---- One line ----

  /** What the line adds to a tally. */
  ghost predicate Adds(reader: Reader, line: string, before: Tally, after: Tally) {
    && after.passed == before.passed + (if ReportsPass(reader, line) then 1 else 0)
    && after.failed == before.failed + (if ReportsFailure(reader, line) then 1 else 0)
    && after.skipped == before.skipped + (if ReportsSkip(reader, line) then 1 else 0)
    && (after.sawEvent <==> before.sawEvent || EventOf(reader, line).Some?)
    && after.consumed == before.consumed + RowOf(reader, line)
    && (forall reason :: !MemberOfObjects(reason) ==>
          CountOf(after.skipReasons, reason)
          == CountOf(before.skipReasons, reason) + if ReportsSkipBecause(reader, line, reason) then 1 else 0)
  }

  lemma PrefixIs()
    ensures EventPrefix() == "PDPP_TEST_ACCOUNTING_EVENT " && |EventPrefix()| == 27
  {
  }

  lemma EventOfMeans(reader: Reader, line: string)
    ensures EventOf(reader, line).Some? <==> IsEventLine(line) && reader.decode(line[|EventPrefix()|..]).Event?
    ensures EventOf(reader, line).Some? ==> EventOf(reader, line).value == reader.decode(line[|EventPrefix()|..]).event
  {
    PrefixIs();
  }

  lemma ReasonMeans(reader: Reader, event: NodeEvent, reason: string)
    requires !event.skip.NoSkip?
    ensures ResolveSkip(reader, event.skip, event.name).reason == Some(reason) <==> ReasonIs(reader, event, reason)
  {
  }

  lemma ConsumedMeans(reader: Reader, event: NodeEvent)
    requires !event.skip.NoSkip? && ResolveSkip(reader, event.skip, event.name).reason.Some?
    ensures var consumed := ResolveSkip(reader, event.skip, event.name).consumed;
            if event.skip == Flag && event.name.Some? && reader.titleReason(event.name.value) in {None, Some("")}
            then consumed == event.name else consumed == None
  {
  }

  lemma InheritedMeans()
    ensures forall name :: Inherited(name) <==> MemberOfObjects(name)
  {
  }

  lemma SkipAdds(reader: Reader, line: string, tally: Tally)
    requires ReportsSkip(reader, line) && CountSkip(reader, tally, EventOf(reader, line).value).Ok?
    requires tally.sawEvent
    ensures Adds(reader, line, tally, CountSkip(reader, tally, EventOf(reader, line).value).value)
  {
    InheritedMeans();
    hide Inherited, MemberOfObjects, ResolveSkip, EventOf, ReasonIs;
    var event := EventOf(reader, line).value;
    ConsumedMeans(reader, event);
    forall reason
      ensures ResolveSkip(reader, event.skip, event.name).reason == Some(reason) <==> ReasonIs(reader, event, reason)
    {
      ReasonMeans(reader, event, reason);
    }
  }

  lemma EventAdds(reader: Reader, line: string, tally: Tally)
    requires EventOf(reader, line).Some? && tally.sawEvent && CountEvent(reader, tally, EventOf(reader, line).value).Ok?
    ensures Adds(reader, line, tally, CountEvent(reader, tally, EventOf(reader, line).value).value)
  {
    var event := EventOf(reader, line).value;
    if ReportsSkip(reader, line) {
      hide EventOf, Inherited, MemberOfObjects, CountSkip, ReportsSkipBecause, UsesRow;
      var t := tally.(assertions := tally.assertions + 1);
      SkipAdds(reader, line, t);
    } else {
      hide EventOf, Inherited, MemberOfObjects, CountSkip, ReasonIs;
    }
  }

  lemma LineAdds(reader: Reader, tally: Tally, line: string)
    requires ConsumeLine(reader, tally, line).Ok?
    ensures Adds(reader, line, tally, ConsumeLine(reader, tally, line).value)
  {
    EventOfMeans(reader, line);
    hide EventPrefix, ByteLength, CountEvent, EventOf, Inherited, MemberOfObjects, ReasonIs;
    if EventOf(reader, line).Some? {
      var t := tally.(sawEvent := true);
      EventAdds(reader, line, t);
      hide ReportsPass, ReportsFailure, ReportsSkip, ReportsSkipBecause, UsesRow;
    }
  }

  // ---- All lines ----

  /** What the lines add up to. */
  ghost predicate AddUp(reader: Reader, lines: seq<string>, before: Tally, after: Tally) {
    && after.passed == before.passed + Count(lines, line => ReportsPass(reader, line))
    && after.failed == before.failed + Count(lines, line => ReportsFailure(reader, line))
    && after.skipped == before.skipped + Count(lines, line => ReportsSkip(reader, line))
    && (after.sawEvent <==> before.sawEvent || exists line :: line in lines && EventOf(reader, line).Some?)
    && after.consumed == before.consumed + RowsUsed(reader, lines)
    && (forall reason :: !MemberOfObjects(reason) ==>
          CountOf(after.skipReasons, reason)
          == CountOf(before.skipReasons, reason) + Count(lines, line => ReportsSkipBecause(reader, line, reason)))
  }

  lemma NothingAddsUp(reader: Reader, tally: Tally)
    ensures AddUp(reader, [], tally, tally)
  {
    hide MemberOfObjects, ReportsPass, ReportsFailure, ReportsSkip, ReportsSkipBecause;
    assert tally.consumed + [] == tally.consumed;
  }

  lemma OneMoreAddsUp(reader: Reader, lines: seq<string>, before: Tally, next: Tally, after: Tally)
    requires lines != [] && Adds(reader, lines[0], before, next) && AddUp(reader, lines[1..], next, after)
    ensures AddUp(reader, lines, before, after)
  {
    hide MemberOfObjects, ReportsPass, ReportsFailure, ReportsSkip, ReportsSkipBecause, RowOf, EventOf;
    assert forall line :: line in lines <==> line == lines[0] || line in lines[1..];
    var own := RowOf(reader, lines[0]);
    var rest := RowsUsed(reader, lines[1..]);
    assert before.consumed + own + rest == before.consumed + (own + rest);
  }

  lemma {:induction false} LinesAddUpTo(reader: Reader, tally: Tally, lines: seq<string>)
    requires ConsumeLines(reader, tally, lines).Ok?
    ensures AddUp(reader, lines, tally, ConsumeLines(reader, tally, lines).value)
    decreases |lines|
  {
    hide ConsumeLine, AddUp, Adds;
    if lines == [] {
      NothingAddsUp(reader, tally);
    } else {
      LineAdds(reader, tally, lines[0]);
      var next := ConsumeLine(reader, tally, lines[0]).value;
      LinesAddUpTo(reader, next, lines[1..]);
      OneMoreAddsUp(reader, lines, tally, next, ConsumeLines(reader, tally, lines).value);
    }
  }

  /**
   For every text whose summary succeeds, each number counts lines of the text: tests that passed or failed without a
   skip, tests that were skipped, skips by reason, and the named rows in the order in which skips used them up.
   */
  lemma SummaryCountsLines(reader: Reader, text: string)
    requires SummaryOfText(reader, text).Ok?
    ensures var tally, lines := SummaryOfText(reader, text).value, Split(text);
            && tally.passed == Count(lines, line => ReportsPass(reader, line))
            && tally.failed == Count(lines, line => ReportsFailure(reader, line))
            && tally.skipped == Count(lines, line => ReportsSkip(reader, line))
            && tally.assertions == tally.passed + tally.failed + tally.skipped
            && tally.consumed == RowsUsed(reader, lines)
            && (forall reason :: !MemberOfObjects(reason) ==>
                  CountOf(tally.skipReasons, reason) == Count(lines, line => ReportsSkipBecause(reader, line, reason)))
  {
    hide ConsumeLines, Count, RowsUsed, KeepsReasons, Split;
    LinesAddUpTo(reader, EMPTY, Split(text));
    LinesAddUp(reader, Split(text));
  }

  /** The same of a text that arrives in chunks. */
  lemma ChunksCountLines(reader: Reader, chunks: seq<string>)
    requires Summarize(reader, chunks).Ok?
    ensures var tally, lines := Summarize(reader, chunks).value, Split(Concat(chunks));
            && tally.passed == Count(lines, line => ReportsPass(reader, line))
            && tally.failed == Count(lines, line => ReportsFailure(reader, line))
            && tally.skipped == Count(lines, line => ReportsSkip(reader, line))
  {
    hide Summarize, SummaryOfText, Count, Split, Concat;
    ChunkingDoesNotMatter(reader, chunks);
    SummaryCountsLines(reader, Concat(chunks));
  }

  // ---- When there is a summary ----

  /** The line can be counted: no event, or one of at most 1 MiB that decodes and whose skip, if any, has a reason. */
  ghost predicate Countable(reader: Reader, line: string) {
    "PDPP_TEST_ACCOUNTING_EVENT " <= line ==>
      && ByteLength(line) <= 1048576
      && reader.decode(line[27..]).Event?
      && (ReportsSkip(reader, line) ==> exists reason :: ReportsSkipBecause(reader, line, reason))
  }

  lemma CountableMeans(reader: Reader, tally: Tally, line: string)
    ensures ConsumeLine(reader, tally, line).Ok? <==> Countable(reader, line)
  {
    PrefixIs();
    hide EventPrefix, ByteLength, Inherited;
    if IsEventLine(line) && reader.decode(line[27..]).Event? && ReportsSkip(reader, line) {
      var event := EventOf(reader, line).value;
      var resolved := ResolveSkip(reader, event.skip, event.name).reason;
      if resolved.Some? {
        ReasonMeans(reader, event, resolved.value);
        assert ReportsSkipBecause(reader, line, resolved.value);
      }
      if reason :| ReportsSkipBecause(reader, line, reason) {
        ReasonMeans(reader, event, reason);
      }
    }
  }

  lemma {:induction false} AllCountable(reader: Reader, tally: Tally, lines: seq<string>)
    ensures ConsumeLines(reader, tally, lines).Ok? <==> forall line :: line in lines ==> Countable(reader, line)
    decreases |lines|
  {
    hide ConsumeLine, Countable;
    if lines != [] {
      CountableMeans(reader, tally, lines[0]);
      assert forall line :: line in lines <==> line == lines[0] || line in lines[1..];
      if ConsumeLine(reader, tally, lines[0]).Ok? {
        AllCountable(reader, ConsumeLine(reader, tally, lines[0]).value, lines[1..]);
      }
    }
  }

  /** There is a summary exactly when every line can be counted and one of them is an event. */
  lemma SummaryExactlyWhen(reader: Reader, text: string)
    ensures SummaryOfText(reader, text).Ok? <==>
              && (forall line :: line in Split(text) ==> Countable(reader, line))
              && (exists line :: line in Split(text) && EventOf(reader, line).Some?)
  {
    hide ConsumeLines, Countable, EventOf, Split, Count, RowsUsed, MemberOfObjects;
    AllCountable(reader, EMPTY, Split(text));
    if ConsumeLines(reader, EMPTY, Split(text)).Ok? {
      LinesAddUpTo(reader, EMPTY, Split(text));
    }
  }

  // ---- Why there is none ----

  /** What is wrong with a line: an event of more than 1 MiB, one that does not decode, or a skip without a reason. */
  ghost function Fault(reader: Reader, line: string): Option<ReadError> {
    if !("PDPP_TEST_ACCOUNTING_EVENT " <= line) then None
    else if ByteLength(line) > 1048576 then Some(Oversized)
    else if reader.decode(line[27..]) == NotJson then Some(ReadError.Malformed)
    else if reader.decode(line[27..]) == Null then Some(NullEvent)
    else if ReportsSkip(reader, line) && !exists reason :: ReportsSkipBecause(reader, line, reason) then
      Some(UnexplainedSkip)
    else None
  }

  lemma FaultMeans(reader: Reader, tally: Tally, line: string)
    ensures match ConsumeLine(reader, tally, line)
            case Err(error) => Fault(reader, line) == Some(error)
            case Ok(_) => Fault(reader, line) == None
  {
    PrefixIs();
    CountableMeans(reader, tally, line);
    hide EventPrefix, ByteLength, Inherited, ReportsSkipBecause;
  }

  lemma {:induction false} FirstFault(reader: Reader, tally: Tally, lines: seq<string>, k: nat)
    requires k < |lines| && Fault(reader, lines[k]).Some?
    requires forall j :: 0 <= j < k ==> Fault(reader, lines[j]) == None
    ensures ConsumeLines(reader, tally, lines) == Err(Fault(reader, lines[k]).value)
    decreases |lines|
  {
    hide ConsumeLine, Fault;
    FaultMeans(reader, tally, lines[0]);
    if k > 0 {
      var rest := lines[1..];
      assert rest[k - 1] == lines[k] && forall j :: 0 <= j < k - 1 ==> rest[j] == lines[j + 1];
      FirstFault(reader, ConsumeLine(reader, tally, lines[0]).value, rest, k - 1);
    }
  }

  /** The first faulty line decides the error; without one, a text without any event has none to summarize. */
  lemma FirstFaultDecides(reader: Reader, text: string)
    ensures forall k :: 0 <= k < |Split(text)| && Fault(reader, Split(text)[k]).Some?
                        && (forall j :: 0 <= j < k ==> Fault(reader, Split(text)[j]) == None) ==>
              SummaryOfText(reader, text) == Err(Fault(reader, Split(text)[k]).value)
    ensures (forall line :: line in Split(text) ==> Fault(reader, line) == None)
            && (forall line :: line in Split(text) ==> EventOf(reader, line).None?) ==>
              SummaryOfText(reader, text) == Err(NoEvents)
  {
    hide ConsumeLines, Fault, Split, EventOf, Countable;
    var lines := Split(text);
    forall k | 0 <= k < |lines| && Fault(reader, lines[k]).Some?
               && (forall j :: 0 <= j < k ==> Fault(reader, lines[j]) == None)
      ensures SummaryOfText(reader, text) == Err(Fault(reader, lines[k]).value)
    {
      FirstFault(reader, EMPTY, lines, k);
    }
    if forall line :: line in lines ==> Fault(reader, line) == None {
      forall line | line in lines ensures Countable(reader, line) {
        FaultMeans(reader, EMPTY, line);
        CountableMeans(reader, EMPTY, line);
      }
      AllCountable(reader, EMPTY, lines);
      SummaryExactlyWhen(reader, text);
    }
  }

  // ---- The bytes of a text ----

  /** One scalar value in UTF-8 (RFC 3629, section 3). */
  function Utf8(c: char): seq<int> {
    var u := c as int;
    if u <= 0x7F then [u]
    else if u <= 0x7FF then [0xC0 + u / 0x40, 0x80 + u % 0x40]
    else if u <= 0xFFFF then [0xE0 + u / 0x1000, 0x80 + u / 0x40 % 0x40, 0x80 + u % 0x40]
    else [0xF0 + u / 0x40000, 0x80 + u / 0x1000 % 0x40, 0x80 + u / 0x40 % 0x40, 0x80 + u % 0x40]
  }

  function Encoded(s: string): seq<int> {
    if s == "" then [] else Utf8(s[0]) + Encoded(s[1..])
  }

  lemma {:induction false} ByteLengthIsEncodedLength(s: string)
    ensures ByteLength(s) == |Encoded(s)|
  {
    if s != "" {
      ByteLengthIsEncodedLength(s[1..]);
    }
  }
}
