/** Lines, byte lengths and the tally of structured reporter events. */
module EventLines {
  import opened Prelude

  const MAX_EVENT_LINE_BYTES: nat := 1024 * 1024
  datatype ReadError = Oversized | Malformed | NullEvent | UnexplainedSkip | NoEvents

  function EventPrefix(): (prefix: string)
    ensures |prefix| == 27 && '\n' !in prefix
  {
    "PDPP_TEST_ACCOUNTING_EVENT "
  }

  /** The UTF-8 length of one scalar value. */
  function CharBytes(c: char): nat {
    var u := c as int;
    if u < 0x80 then 1 else if u < 0x800 then 2 else if u < 0x10000 then 3 else 4
  }

  function ByteLength(s: string): nat {
    if s == "" then 0 else CharBytes(s[0]) + ByteLength(s[1..])
  }

  lemma {:induction false} ByteLengthBound(s: string)
    ensures ByteLength(s) <= 4 * |s|
  {
    if s != "" {
      ByteLengthBound(s[1..]);
    }
  }

  lemma {:induction false} ByteLengthConcat(a: string, b: string)
    ensures ByteLength(a + b) == ByteLength(a) + ByteLength(b)
  {
    if a == "" {
      assert a + b == b;
    } else {
      assert (a + b)[1..] == a[1..] + b;
      ByteLengthConcat(a[1..], b);
    }
  }

  /** The position of the first newline, or the length. */
  function NewlineAt(s: string): (at: nat)
    ensures at <= |s| && '\n' !in s[..at] && (at < |s| ==> s[at] == '\n')
  {
    if s == "" || s[0] == '\n' then 0
    else
      var at := 1 + NewlineAt(s[1..]);
      assert s[..at] == [s[0]] + s[1..][..at - 1];
      at
  }

  /** A text cut at every newline; the last part is what follows the last one. */
  function Split(s: string): (parts: seq<string>)
    ensures |parts| >= 1
    decreases |s|
  {
    var at := NewlineAt(s);
    if at == |s| then [s] else [s[..at]] + Split(s[at + 1..])
  }

  function Complete(s: string): seq<string> {
    Split(s)[..|Split(s)| - 1]
  }

  function Rest(s: string): string {
    Split(s)[|Split(s)| - 1]
  }

  lemma {:induction false} NewlineConcat(a: string, b: string)
    ensures NewlineAt(a + b) == if NewlineAt(a) < |a| then NewlineAt(a) else |a| + NewlineAt(b)
  {
    if a == "" {
      assert a + b == b;
    } else {
      assert (a + b)[1..] == a[1..] + b;
      NewlineConcat(a[1..], b);
    }
  }

  lemma SplitStep(s: string)
    requires NewlineAt(s) < |s|
    ensures Split(s) == [s[..NewlineAt(s)]] + Split(s[NewlineAt(s) + 1..])
  {
    hide NewlineAt;
  }

  lemma SplitParts(s: string)
    ensures var at := NewlineAt(s);
            if at == |s| then Complete(s) == [] && Rest(s) == s
            else Complete(s) == [s[..at]] + Complete(s[at + 1..]) && Rest(s) == Rest(s[at + 1..])
  {
    var at := NewlineAt(s);
    if at < |s| {
      hide Split, NewlineAt;
      SplitStep(s);
      var rest := Split(s[at + 1..]);
      assert ([s[..at]] + rest)[..|rest|] == [s[..at]] + rest[..|rest| - 1];
    }
  }

  /** Cutting a text in two and going on from the open part of the first half cuts it all. */
  lemma {:induction false} SplitConcat(a: string, b: string)
    ensures Split(a + b) == Complete(a) + Split(Rest(a) + b)
    decreases |a|
  {
    hide NewlineAt, Complete, Rest;
    NewlineConcat(a, b);
    SplitParts(a);
    var at := NewlineAt(a);
    if at < |a| {
      var rest := a[at + 1..];
      assert (a + b)[at + 1..] == rest + b && (a + b)[..at] == a[..at];
      SplitConcat(rest, b);
      ConcatAssociates([a[..at]], Complete(rest), Split(Rest(rest) + b));
    }
  }

  lemma ConcatAssociates(a: seq<string>, b: seq<string>, c: seq<string>)
    ensures a + (b + c) == (a + b) + c
  {
  }

  // ---- Events ----

  datatype Kind = TestPass | TestFail | OtherKind

  /** `Flag` is any skip value but a string, `false`, `null` or `undefined`. */
  datatype Skip = NoSkip | Flag | Because(text: string)

  datatype NodeEvent = NodeEvent(kind: Kind, isTest: bool, skip: Skip, name: Option<string>)

  /** What parsing a line's JSON gives. */
  datatype Decoded = NotJson | Null | Event(event: NodeEvent)

  /** The parts of the reader that are not modelled: JSON, trimming, the title pattern and the named rows. */
  datatype Reader = Reader(
    decode: string -> Decoded,
    trim: string -> string,
    titleReason: string -> Option<string>,
    namedReason: string -> Option<string>
  )

  datatype Resolved = Resolved(reason: Option<string>, consumed: Option<string>)

  /** A skip's reason: its own text, its title, or an exact named row, which it then consumes. */
  function ResolveSkip(reader: Reader, skip: Skip, name: Option<string>): Resolved
    requires !skip.NoSkip?
  {
    if skip.Because? then Resolved(NonEmpty(Some(reader.trim(skip.text))), None)
    else if name.None? then Resolved(None, None)
    else
      match NonEmpty(reader.titleReason(name.value))
      case Some(reason) => Resolved(Some(reason), None)
      case None =>
        match reader.namedReason(name.value)
        case Some(reason) => Resolved(NonEmpty(Some(reason)), name)
        case None => Resolved(None, None)
  }

  function NonEmpty(s: Option<string>): Option<string> {
    if s == Some("") then None else s
  }

  /** Names that every JavaScript object inherits: counting under one of them never yields a number. */
  predicate Inherited(reason: string) {
    reason in {"constructor", "hasOwnProperty", "isPrototypeOf", "propertyIsEnumerable", "toLocaleString",
               "toString", "valueOf", "__proto__", "__defineGetter__", "__defineSetter__",
               "__lookupGetter__", "__lookupSetter__"}
  }

  datatype Tally = Tally(
    sawEvent: bool,
    assertions: nat,
    passed: nat,
    failed: nat,
    skipped: nat,
    skipReasons: map<string, nat>,
    uncounted: nat,            // skips whose reason is an inherited name
    consumed: seq<string>
  )

  const EMPTY := Tally(false, 0, 0, 0, 0, map[], 0, [])

  predicate IsEventLine(line: string) {
    EventPrefix() <= line
  }

  function CountOf(reasons: map<string, nat>, reason: string): nat {
    if reason in reasons then reasons[reason] else 0
  }

  function CountSkip(reader: Reader, tally: Tally, event: NodeEvent): Result<Tally, ReadError>
    requires !event.skip.NoSkip?
  {
    var resolved := ResolveSkip(reader, event.skip, event.name);
    match resolved.reason
    case None => Err(UnexplainedSkip)
    case Some(reason) =>
      var t := tally.(skipped := tally.skipped + 1,
                      consumed := if resolved.consumed.Some? then tally.consumed + [resolved.consumed.value]
                                  else tally.consumed);
      Ok(if Inherited(reason) then t.(uncounted := t.uncounted + 1)
         else t.(skipReasons := t.skipReasons[reason := CountOf(t.skipReasons, reason) + 1]))
  }

  function CountEvent(reader: Reader, tally: Tally, event: NodeEvent): Result<Tally, ReadError> {
    if event.kind.OtherKind? || !event.isTest then Ok(tally)
    else
      var t := tally.(assertions := tally.assertions + 1);
      if !event.skip.NoSkip? then CountSkip(reader, t, event)
      else if event.kind.TestPass? then Ok(t.(passed := t.passed + 1))
      else Ok(t.(failed := t.failed + 1))
  }

  function ConsumeLine(reader: Reader, tally: Tally, line: string): Result<Tally, ReadError> {
    if !IsEventLine(line) then Ok(tally)
    else if ByteLength(line) > MAX_EVENT_LINE_BYTES then Err(Oversized)
    else
      match reader.decode(line[|EventPrefix()|..])
      case NotJson => Err(Malformed)
      case Null => Err(NullEvent)
      case Event(event) => CountEvent(reader, tally.(sawEvent := true), event)
  }

  function ConsumeLines(reader: Reader, tally: Tally, lines: seq<string>): Result<Tally, ReadError>
    decreases |lines|
  {
    if lines == [] then Ok(tally)
    else
      match ConsumeLine(reader, tally, lines[0])
      case Err(error) => Err(error)
      case Ok(next) => ConsumeLines(reader, next, lines[1..])
  }

  lemma {:induction false} ConsumeLinesConcat(reader: Reader, tally: Tally, first: seq<string>, second: seq<string>)
    ensures ConsumeLines(reader, tally, first + second) ==
            match ConsumeLines(reader, tally, first)
            case Err(error) => Err(error)
            case Ok(next) => ConsumeLines(reader, next, second)
    decreases |first|
  {
    hide ConsumeLine;
    if first == [] {
      assert first + second == second;
    } else {
      assert (first + second)[1..] == first[1..] + second;
      if ConsumeLine(reader, tally, first[0]).Ok? {
        ConsumeLinesConcat(reader, ConsumeLine(reader, tally, first[0]).value, first[1..], second);
      }
    }
  }
}
