/**
 What the structured-header scan computes when its work budget is never exhausted, and how many
 character inspections it is charged for. Characters are compared one by one, so a string stands
 for the sequence of units the scan inspects.
 */
module HeaderSpec {
  import opened Prelude

  const KEY_SCAN_LENGTH: nat := 32
  const SEPARATOR_SCAN_LENGTH: nat := 64
  const ESCAPED_UNICODE_LENGTH: nat := 5
  const REDACTED := "[REDACTED]"
  const BUDGET_EXHAUSTED_MARKER := "[REDACTED scan budget exhausted]"
  const MALFORMED_MARKER := "[REDACTED malformed sensitive header]"
  const HEADER_KEYS: set<string> := {"authorization", "cookie", "set-cookie"}

  predicate IsQuote(c: char) {
    c == '"' || c == '\''
  }

  /** Where the scan stops to look for a header pair. */
  predicate IsCandidate(c: char) {
    c == '\\' || IsQuote(c)
  }

  predicate IsAt(s: string, i: nat, c: char) {
    i < |s| && s[i] == c
  }

  /** White space and line terminators, with the Unicode separators. */
  predicate IsSpace(c: char) {
    var u := c as int;
    9 <= u <= 13 || u == 0x20 || u == 0xA0 || u == 0x1680 || 0x2000 <= u <= 0x200A ||
    u == 0x2028 || u == 0x2029 || u == 0x202F || u == 0x205F || u == 0x3000 || u == 0xFEFF
  }

  /** Lower case, as far as it can make an ASCII letter: the Kelvin sign becomes `k`. */
  function Lower(c: char): char {
    if 'A' <= c <= 'Z' then c - 'A' + 'a' else if c as int == 0x212A then 'k' else c
  }

  function LowerAll(s: string): string {
    seq(|s|, i requires 0 <= i < |s| => Lower(s[i]))
  }

  predicate IsHeaderKey(key: string) {
    LowerAll(key) in HEADER_KEYS
  }

  /** The end of the backslash run that starts at `i`. */
  function RunEnd(s: string, i: nat, limit: nat): (end: nat)
    requires i <= limit <= |s|
    ensures i <= end <= limit
    ensures forall k | i <= k < end :: s[k] == '\\'
    ensures end < limit ==> s[end] != '\\'
    decreases limit - i
  {
    if i < limit && s[i] == '\\' then RunEnd(s, i + 1, limit) else i
  }

  /** A position, or nothing, and the inspections it took to find out. */
  datatype Found = Found(at: Option<nat>, cost: nat)

  function Charge(cost: nat, found: Found): Found {
    Found(found.at, cost + found.cost)
  }

  /** The start of the closing run of a string body with the opening run's depth and quote. */
  function BodyEnd(s: string, cursor: nat, depth: nat, quote: char, limit: nat): (found: Found)
    requires cursor <= limit <= |s|
    ensures found.at.Some? ==>
              cursor <= found.at.value < limit && found.at.value + depth < |s| &&
              s[found.at.value + depth] == quote
    decreases limit - cursor
  {
    if cursor == limit then Found(None, 0)
    else if s[cursor] == '\\' then
      var end := RunEnd(s, cursor, limit);
      if end - cursor == depth && IsAt(s, end, quote) then Found(Some(cursor), depth + 1)
      else Charge(end - cursor + 1, BodyEnd(s, if end < limit then end + 1 else end, depth, quote, limit))
    else if depth == 0 && s[cursor] == quote then Found(Some(cursor), 1)
    else Charge(1, BodyEnd(s, cursor + 1, depth, quote, limit))
  }

  lemma BodyAtEnd(s: string, depth: nat, quote: char, limit: nat)
    requires limit <= |s|
    ensures BodyEnd(s, limit, depth, quote, limit) == Found(None, 0)
  {
  }

  lemma BodyAtCharacter(s: string, cursor: nat, depth: nat, quote: char, limit: nat)
    requires cursor < limit <= |s| && s[cursor] != '\\'
    ensures BodyEnd(s, cursor, depth, quote, limit)
         == if depth == 0 && s[cursor] == quote then Found(Some(cursor), 1)
            else Charge(1, BodyEnd(s, cursor + 1, depth, quote, limit))
  {
  }

  lemma BodyAtRun(s: string, cursor: nat, depth: nat, quote: char, limit: nat)
    requires cursor < limit <= |s| && s[cursor] == '\\'
    ensures var end := RunEnd(s, cursor, limit);
            && cursor < end
            && BodyEnd(s, cursor, depth, quote, limit)
               == if end - cursor == depth && IsAt(s, end, quote) then Found(Some(cursor), depth + 1)
                  else Charge(end - cursor + 1,
                              BodyEnd(s, if end < limit then end + 1 else end, depth, quote, limit))
  {
    hide RunEnd;
  }

  predicate IsEscapedSeparator(code: string) {
    LowerAll(code) in {"u2028", "u2029", "u00a0", "ufeff"}
  }

  /** The end of an escaped white-space unit whose backslash run ends at `end`. */
  function EscapedUnit(s: string, end: nat, limit: nat): (found: Found)
    requires end <= limit <= |s|
    ensures found.at.Some? ==> end < found.at.value <= limit
  {
    if end == limit then Found(None, 0)
    else if s[end] in {'t', 'n', 'r'} then Found(Some(end + 1), 1)
    else if s[end] != 'u' || end + ESCAPED_UNICODE_LENGTH > limit then Found(None, 1)
    else
      var unit := s[end..end + ESCAPED_UNICODE_LENGTH];
      Found(if IsEscapedSeparator(unit) then Some(end + ESCAPED_UNICODE_LENGTH) else None, ESCAPED_UNICODE_LENGTH)
  }

  /** The end of the separator at `cursor`. */
  datatype Skipped = Skipped(at: nat, cost: nat)

  function SkipSpace(s: string, cursor: nat, limit: nat): (skipped: Skipped)
    requires cursor <= limit <= |s|
    ensures cursor <= skipped.at <= limit
    decreases limit - cursor
  {
    if cursor == limit then Skipped(cursor, 0)
    else if IsSpace(s[cursor]) then
      var rest := SkipSpace(s, cursor + 1, limit);
      Skipped(rest.at, 1 + rest.cost)
    else if s[cursor] != '\\' then Skipped(cursor, 1)
    else
      var end := RunEnd(s, cursor, limit);
      var unit := EscapedUnit(s, end, limit);
      var cost := 1 + (end - cursor) + unit.cost;
      if unit.at.None? then Skipped(cursor, cost)
      else
        var rest := SkipSpace(s, unit.at.value, limit);
        Skipped(rest.at, cost + rest.cost)
  }

  datatype Match =
    | NotAKey
    | FailClosed
    | Redact(openEnd: nat, closeEnd: nat, terminated: bool)

  datatype Matched = Matched(result: Match, cost: nat)

  /** Does a quote follow the run that ends at `end`? */
  predicate QuoteAfter(s: string, end: nat) {
    end < |s| && IsQuote(s[end])
  }

  /** The limit of a bounded scan from `i`. */
  function ScanLimit(s: string, i: nat, length: nat): (limit: nat)
    requires i <= |s|
    ensures i <= limit <= |s|
  {
    Min(|s|, i + length)
  }

  /** The closing run of the key that opens after the run `[start, end)`. */
  function KeyEnd(s: string, start: nat, end: nat): (found: Found)
    requires start <= end && QuoteAfter(s, end)
    ensures found.at.Some? ==> end < found.at.value && found.at.value + (end - start) < |s|
  {
    BodyEnd(s, end + 1, end - start, s[end], ScanLimit(s, end + 1, KEY_SCAN_LENGTH))
  }

  /** A recognized header key opens at the run `[start, end)`. */
  predicate OpensKey(s: string, start: nat, end: nat) {
    && start <= end
    && QuoteAfter(s, end)
    && KeyEnd(s, start, end).at.Some?
    && IsHeaderKey(s[end + 1..KeyEnd(s, start, end).at.value])
  }

  /** The colon that may follow a key, looked for from its closing end. */
  function ColonAt(s: string, closeEnd: nat): (skipped: Skipped)
    requires closeEnd <= |s|
    ensures closeEnd <= skipped.at <= |s|
  {
    SkipSpace(s, closeEnd, ScanLimit(s, closeEnd, SEPARATOR_SCAN_LENGTH))
  }

  /** The quoted value at `at`. */
  function MatchQuoted(s: string, at: nat): (m: Matched)
    requires at <= |s|
    ensures !m.result.NotAKey?
    ensures m.result.Redact? ==> at < m.result.openEnd <= m.result.closeEnd <= |s|
    ensures m.result.Redact? && m.result.terminated ==> m.result.openEnd < m.result.closeEnd
  {
    var end := RunEnd(s, at, |s|);
    var cost := end - at + 1;
    if !QuoteAfter(s, end) then Matched(FailClosed, cost)
    else
      var close := BodyEnd(s, end + 1, end - at, s[end], |s|);
      Matched(if close.at.None? then Redact(end + 1, |s|, false)
              else Redact(end + 1, close.at.value + (end - at) + 1, true), cost + close.cost)
  }

  /** Separator, colon, separator and quoted value after a recognized key. */
  function MatchValue(s: string, closeEnd: nat): (m: Matched)
    requires closeEnd <= |s|
    ensures !m.result.NotAKey?
    ensures m.result.Redact? ==> closeEnd < m.result.openEnd <= m.result.closeEnd <= |s|
    ensures m.result.Redact? && m.result.terminated ==> m.result.openEnd < m.result.closeEnd
  {
    var colon := ColonAt(s, closeEnd);
    if !IsAt(s, colon.at, ':') then Matched(FailClosed, colon.cost)
    else
      var value := ColonAt(s, colon.at + 1);
      var quoted := MatchQuoted(s, value.at);
      Matched(quoted.result, colon.cost + value.cost + quoted.cost)
  }

  /** Tries the run `[start, end)` as the opening of a header pair. */
  function MatchHeader(s: string, start: nat, end: nat): (m: Matched)
    requires start <= end <= |s|
    ensures m.result.Redact? ==> end + 1 < m.result.openEnd <= m.result.closeEnd <= |s|
    ensures m.result.Redact? && m.result.terminated ==> m.result.openEnd < m.result.closeEnd
  {
    if !QuoteAfter(s, end) then Matched(NotAKey, 1)
    else
      var key := KeyEnd(s, start, end);
      if !OpensKey(s, start, end) then Matched(NotAKey, 1 + key.cost)
      else
        var value := MatchValue(s, key.at.value + (end - start) + 1);
        Matched(value.result, 1 + key.cost + value.cost)
  }

  /** A header pair whose value is replaced: `[start, closeEnd)`, the value opening at `openEnd`. */
  datatype Pair = Pair(start: nat, openEnd: nat, closeEnd: nat, terminated: bool)

  datatype Scan =
    | Text(output: string, pairs: seq<Pair>)
    | Malformed(at: nat)

  datatype Scanned = Scanned(result: Scan, cost: nat)

  /** A scan that has already produced `output` and `pairs`. */
  function Prepend(output: string, pairs: seq<Pair>, rest: Scan): Scan {
    match rest
    case Text(more, others) => Text(output + more, pairs + others)
    case Malformed(at) => Malformed(at)
  }

  function Emit(cost: nat, chunk: string, pairs: seq<Pair>, rest: Scanned): Scanned {
    Scanned(Prepend(chunk, pairs, rest.result), cost + rest.cost)
  }

  function CandidateEnd(s: string, i: nat): (end: nat)
    requires i < |s|
    ensures i <= end <= |s|
    ensures s[i] == '\\' <==> i < end
  {
    if s[i] == '\\' then RunEnd(s, i, |s|) else i
  }

  /** The replacement of a pair: all up to the value's opening, the marker, and the closing quote. */
  function PairText(s: string, pair: Pair): string
    requires pair.start <= pair.openEnd <= pair.closeEnd <= |s| && (pair.terminated ==> pair.openEnd < pair.closeEnd)
  {
    s[pair.start..pair.openEnd] + REDACTED + (if pair.terminated then s[pair.closeEnd - 1..pair.closeEnd] else "")
  }

  /** What the scan does at a candidate: copy it and go on, replace a value, or give up. */
  datatype Step =
    | Copy(chunk: string, next: nat)
    | Replace(pair: Pair)
    | Stop

  datatype Stepped = Stepped(step: Step, cost: nat)

  function StepAt(s: string, i: nat): (r: Stepped)
    requires i < |s| && IsCandidate(s[i])
    ensures r.step.Copy? ==> i < r.step.next <= |s|
    ensures r.step.Replace? ==>
              var pair := r.step.pair;
              && pair.start == i && i + 2 < pair.openEnd <= pair.closeEnd <= |s|
              && (pair.terminated ==> pair.openEnd < pair.closeEnd)
  {
    var end := CandidateEnd(s, i);
    var m := MatchHeader(s, i, end);
    Stepped(match m.result
            case FailClosed => Stop
            case Redact(openEnd, closeEnd, terminated) => Replace(Pair(i, openEnd, closeEnd, terminated))
            case NotAKey => if i < end then Copy(s[i..end], end) else Copy([s[i]], i + 1),
            end - i + m.cost)
  }

  /** The scan from position `i` on. */
  function ScanFrom(s: string, i: nat): (scanned: Scanned)
    requires i <= |s|
    ensures i < |s| ==> scanned.cost >= 1
    decreases |s| - i
  {
    if i == |s| then Scanned(Text("", []), 0)
    else if !IsCandidate(s[i]) then Emit(1, [s[i]], [], ScanFrom(s, i + 1))
    else
      var r := StepAt(s, i);
      match r.step
      case Stop => Scanned(Malformed(i), 1 + r.cost)
      case Replace(pair) => Emit(1 + r.cost, PairText(s, pair), [pair], ScanFrom(s, pair.closeEnd))
      case Copy(chunk, next) => Emit(1 + r.cost, chunk, [], ScanFrom(s, next))
  }

  /** The text a completed scan returns. */
  function Rendered(scan: Scan): string {
    match scan
    case Text(output, _) => output
    case Malformed(_) => MALFORMED_MARKER
  }

  /** What a scan with a budget returns: the exhaustion marker, or what an unlimited scan does. */
  function WithBudget(s: string, totalOperations: int): string {
    var scan := ScanFrom(s, 0);
    if scan.cost > Max(totalOperations, 0) then BUDGET_EXHAUSTED_MARKER else Rendered(scan.result)
  }
}
