/**
 The scan itself: loops that move a cursor, and one budget charged by every helper. Each method
 is proved against `HeaderSpec`: it ends exhausted exactly when the charges exceed what was left.
 */
module HeaderScanner {
  import opened Prelude
  import opened HeaderSpec

  const SCAN_BUDGET_MULTIPLIER: nat := 8

  /** What `cost` charges leave of a budget. */
  ghost predicate Spent(before: int, cost: nat, after: int) {
    if cost <= before then after == before - cost else after < 0
  }

  class ScanBudget {
    var remaining: int
    var exhausted: bool

    constructor (totalOperations: int)
      ensures remaining == totalOperations && !exhausted
    {
      remaining, exhausted := totalOperations, false;
    }

    /** Once charged, a budget is exhausted exactly when it is overdrawn. */
    ghost predicate Valid()
      reads this
    {
      exhausted <==> remaining < 0
    }

    method Consume(count: nat) returns (nowExhausted: bool)
      modifies this
      ensures remaining == old(remaining) - count
      ensures nowExhausted == exhausted && Valid()
    {
      remaining := remaining - count;
      exhausted := remaining < 0;
      return exhausted;
    }
  }

  method CountBackslashRun(s: string, index: nat, limit: nat, budget: ScanBudget) returns (end: nat)
    requires index <= limit <= |s|
    requires budget.Valid() && !budget.exhausted
    modifies budget
    ensures index <= end <= limit
    ensures budget.Valid() && Spent(old(budget.remaining), RunEnd(s, index, limit) - index, budget.remaining)
    ensures !budget.exhausted ==> end == RunEnd(s, index, limit)
  {
    end := index;
    while end < limit && s[end] == '\\'
      invariant index <= end <= limit
      invariant budget.Valid() && !budget.exhausted
      invariant budget.remaining == old(budget.remaining) - (end - index)
      invariant RunEnd(s, end, limit) == RunEnd(s, index, limit)
    {
      var overdrawn := budget.Consume(1);
      if overdrawn {
        return;
      }
      end := end + 1;
    }
  }

  method QuoteAfterRun(s: string, end: nat, budget: ScanBudget) returns (found: bool)
    requires budget.Valid()
    modifies budget
    ensures budget.Valid() && budget.remaining == old(budget.remaining) - 1
    ensures found == (!budget.exhausted && QuoteAfter(s, end))
  {
    var overdrawn := budget.Consume(1);
    if overdrawn {
      return false;
    }
    return end < |s| && (s[end] == '"' || s[end] == '\'');
  }

  /** One backslash run inside a string body: is it the closing run, and where does the scan go on? */
  method ResolveStringBodyRun(s: string, cursor: nat, depth: nat, quote: char, limit: nat, budget: ScanBudget)
      returns (isClose: bool, next: nat)
    requires cursor < limit <= |s| && s[cursor] == '\\'
    requires budget.Valid() && !budget.exhausted
    modifies budget
    ensures budget.Valid() && Spent(old(budget.remaining), RunEnd(s, cursor, limit) - cursor + 1, budget.remaining)
    ensures !budget.exhausted ==>
              var end := RunEnd(s, cursor, limit);
              && isClose == (end - cursor == depth && IsAt(s, end, quote))
              && (!isClose ==> next == if end < limit then end + 1 else end)
  {
    var end := CountBackslashRun(s, cursor, limit, budget);
    if budget.exhausted {
      return false, cursor;
    }
    var overdrawn := budget.Consume(1);
    if overdrawn {
      return false, cursor;
    }
    if end - cursor == depth && end < |s| && s[end] == quote {
      return true, cursor;
    }
    return false, if end < limit then end + 1 else end;
  }

  method ScanStringBody(s: string, start: nat, depth: nat, quote: char, limit: nat, budget: ScanBudget)
      returns (close: Option<nat>)
    requires start <= limit <= |s|
    requires budget.Valid() && !budget.exhausted
    modifies budget
    ensures budget.Valid()
    ensures Spent(old(budget.remaining), BodyEnd(s, start, depth, quote, limit).cost, budget.remaining)
    ensures if budget.exhausted then close == None else close == BodyEnd(s, start, depth, quote, limit).at
  {
    hide RunEnd, BodyEnd;
    BodyAtEnd(s, depth, quote, limit);
    var cursor := start;
    while cursor < limit
      invariant start <= cursor <= limit
      invariant budget.Valid() && !budget.exhausted
      invariant BodyEnd(s, start, depth, quote, limit).at == BodyEnd(s, cursor, depth, quote, limit).at
      invariant old(budget.remaining) - BodyEnd(s, start, depth, quote, limit).cost ==
                budget.remaining - BodyEnd(s, cursor, depth, quote, limit).cost
    {
      if s[cursor] == '\\' {
        BodyAtRun(s, cursor, depth, quote, limit);
        var isClose, next := ResolveStringBodyRun(s, cursor, depth, quote, limit, budget);
        if budget.exhausted {
          return None;
        }
        if isClose {
          return Some(cursor);
        }
        cursor := next;
      } else {
        BodyAtCharacter(s, cursor, depth, quote, limit);
        var overdrawn := budget.Consume(1);
        if overdrawn {
          return None;
        }
        if depth == 0 && s[cursor] == quote {
          return Some(cursor);
        }
        cursor := cursor + 1;
      }
    }
    return None;
  }

  method MatchEscapedUnit(s: string, end: nat, limit: nat, budget: ScanBudget) returns (unitEnd: Option<nat>)
    requires end <= limit <= |s|
    requires budget.Valid() && !budget.exhausted
    modifies budget
    ensures budget.Valid() && Spent(old(budget.remaining), EscapedUnit(s, end, limit).cost, budget.remaining)
    ensures if budget.exhausted then unitEnd == None else unitEnd == EscapedUnit(s, end, limit).at
  {
    if end >= limit {
      return None;
    }
    var letter := s[end];
    var overdrawn := budget.Consume(1);
    if overdrawn {
      return None;
    }
    if letter == 't' || letter == 'n' || letter == 'r' {
      return Some(end + 1);
    }
    if letter != 'u' || end + ESCAPED_UNICODE_LENGTH > limit {
      return None;
    }
    var unit := s[end..end + ESCAPED_UNICODE_LENGTH];
    overdrawn := budget.Consume(ESCAPED_UNICODE_LENGTH - 1);
    if overdrawn {
      return None;
    }
    return if IsEscapedSeparator(unit) then Some(end + ESCAPED_UNICODE_LENGTH) else None;
  }

  method SkipStructuredWhitespace(s: string, index: nat, limit: nat, budget: ScanBudget) returns (cursor: nat)
    requires index <= limit <= |s|
    requires budget.Valid() && !budget.exhausted
    modifies budget
    ensures cursor <= limit
    ensures budget.Valid() && Spent(old(budget.remaining), SkipSpace(s, index, limit).cost, budget.remaining)
    ensures !budget.exhausted ==> cursor == SkipSpace(s, index, limit).at
  {
    cursor := index;
    while true
      invariant index <= cursor <= limit
      invariant budget.Valid() && !budget.exhausted
      invariant SkipSpace(s, index, limit).at == SkipSpace(s, cursor, limit).at
      invariant old(budget.remaining) - SkipSpace(s, index, limit).cost ==
                budget.remaining - SkipSpace(s, cursor, limit).cost
      decreases limit - cursor
    {
      if cursor >= limit {
        return;
      }
      var overdrawn := budget.Consume(1);
      if overdrawn {
        return;
      }
      if IsSpace(s[cursor]) {
        cursor := cursor + 1;
        continue;
      }
      if s[cursor] != '\\' {
        return;
      }
      var end := CountBackslashRun(s, cursor, limit, budget);
      if budget.exhausted {
        return;
      }
      var unitEnd := MatchEscapedUnit(s, end, limit, budget);
      if unitEnd.None? {
        return;
      }
      cursor := unitEnd.value;
    }
  }

  method MatchQuotedValue(s: string, at: nat, budget: ScanBudget) returns (m: Match)
    requires at <= |s|
    requires budget.Valid() && !budget.exhausted
    modifies budget
    ensures budget.Valid() && Spent(old(budget.remaining), MatchQuoted(s, at).cost, budget.remaining)
    ensures !budget.exhausted ==> m == MatchQuoted(s, at).result
  {
    var limit := |s|;
    var end := CountBackslashRun(s, at, limit, budget);
    var opens := QuoteAfterRun(s, end, budget);
    if !opens || budget.exhausted {
      return FailClosed;
    }
    var depth := end - at;
    var close := ScanStringBody(s, end + 1, depth, s[end], limit, budget);
    if close.None? {
      return Redact(end + 1, limit, false);
    }
    return Redact(end + 1, close.value + depth + 1, true);
  }

  /** From a recognized key's closing end to the end of its value. */
  method MatchHeaderValue(s: string, closeEnd: nat, budget: ScanBudget) returns (m: Match)
    requires closeEnd <= |s|
    requires budget.Valid() && !budget.exhausted
    modifies budget
    ensures budget.Valid() && Spent(old(budget.remaining), MatchValue(s, closeEnd).cost, budget.remaining)
    ensures !budget.exhausted ==> m == MatchValue(s, closeEnd).result
  {
    var colon := SkipStructuredWhitespace(s, closeEnd, ScanLimit(s, closeEnd, SEPARATOR_SCAN_LENGTH), budget);
    if budget.exhausted || colon >= |s| || s[colon] != ':' {
      return FailClosed;
    }
    var valueStart := SkipStructuredWhitespace(s, colon + 1, ScanLimit(s, colon + 1, SEPARATOR_SCAN_LENGTH), budget);
    if budget.exhausted {
      return FailClosed;
    }
    m := MatchQuotedValue(s, valueStart, budget);
  }

  method MatchStructuredHeader(s: string, start: nat, end: nat, budget: ScanBudget) returns (m: Match)
    requires start <= end <= |s|
    requires budget.Valid() && !budget.exhausted
    modifies budget
    ensures budget.Valid() && Spent(old(budget.remaining), MatchHeader(s, start, end).cost, budget.remaining)
    ensures !budget.exhausted ==> m == MatchHeader(s, start, end).result
  {
    hide IsHeaderKey, MatchValue, BodyEnd;
    var opens := QuoteAfterRun(s, end, budget);
    if !opens || budget.exhausted {
      return NotAKey;
    }
    var depth := end - start;
    var keyLimit := ScanLimit(s, end + 1, KEY_SCAN_LENGTH);
    var keyEnd := ScanStringBody(s, end + 1, depth, s[end], keyLimit, budget);
    if keyEnd.None? {
      return NotAKey;
    }
    if !IsHeaderKey(s[end + 1..keyEnd.value]) {
      return NotAKey;
    }
    m := MatchHeaderValue(s, keyEnd.value + depth + 1, budget);
  }

  datatype Outcome =
    | Advance(chunk: string, next: nat)
    | FailClosedBudget
    | FailClosedMalformedKey

  function OutcomeOf(s: string, step: Step): Outcome
    requires step.Replace? ==>
               step.pair.start <= step.pair.openEnd <= step.pair.closeEnd <= |s| &&
               (step.pair.terminated ==> step.pair.openEnd < step.pair.closeEnd)
  {
    match step
    case Copy(chunk, next) => Advance(chunk, next)
    case Replace(pair) => Advance(PairText(s, pair), pair.closeEnd)
    case Stop => FailClosedMalformedKey
  }

  method ResolveOuterCandidate(s: string, index: nat, budget: ScanBudget) returns (outcome: Outcome)
    requires index < |s| && IsCandidate(s[index])
    requires budget.Valid() && !budget.exhausted
    modifies budget
    ensures budget.Valid() && Spent(old(budget.remaining), StepAt(s, index).cost, budget.remaining)
    ensures budget.exhausted ==> outcome == FailClosedBudget
    ensures !budget.exhausted ==> outcome == OutcomeOf(s, StepAt(s, index).step)
  {
    hide MatchHeader;
    var end := index;
    if s[index] == '\\' {
      end := CountBackslashRun(s, index, |s|, budget);
    }
    if budget.exhausted {
      return FailClosedBudget;
    }
    var m := MatchStructuredHeader(s, index, end, budget);
    if budget.exhausted {
      return FailClosedBudget;
    }
    match m
    case FailClosed => return FailClosedMalformedKey;
    case Redact(openEnd, closeEnd, terminated) =>
      var closing := if terminated then s[closeEnd - 1..closeEnd] else "";
      return Advance(s[index..openEnd] + REDACTED + closing, closeEnd);
    case NotAKey =>
      if s[index] == '\\' {
        return Advance(s[index..end], end);
      }
      return Advance([s[index]], index + 1);
  }

  lemma PrependTwice(output: string, pairs: seq<Pair>, chunk: string, more: seq<Pair>, rest: Scan)
    ensures Prepend(output, pairs, Prepend(chunk, more, rest)) == Prepend(output + chunk, pairs + more, rest)
  {
    if rest.Text? {
      assert output + (chunk + rest.output) == output + chunk + rest.output;
      assert pairs + (more + rest.pairs) == pairs + more + rest.pairs;
    }
  }

  lemma ScanEnds(s: string)
    ensures ScanFrom(s, |s|) == Scanned(Text("", []), 0)
  {
  }

  lemma ScanCopies(s: string, i: nat)
    requires i < |s| && !IsCandidate(s[i])
    ensures ScanFrom(s, i) == Emit(1, [s[i]], [], ScanFrom(s, i + 1))
  {
  }

  lemma ScanSteps(s: string, i: nat)
    requires i < |s| && IsCandidate(s[i])
    ensures var r := StepAt(s, i);
            && (r.step.Stop? ==> ScanFrom(s, i) == Scanned(Malformed(i), 1 + r.cost))
            && (r.step.Copy? ==> ScanFrom(s, i) == Emit(1 + r.cost, r.step.chunk, [], ScanFrom(s, r.step.next)))
            && (r.step.Replace? ==>
                  ScanFrom(s, i) == Emit(1 + r.cost, PairText(s, r.step.pair), [r.step.pair],
                                         ScanFrom(s, r.step.pair.closeEnd)))
  {
    hide StepAt;
  }

  /**
   The scan with its budget: either the exhaustion marker, or exactly what the scan with an
   unlimited budget returns, and the former exactly when the charges exceed the budget.
   */
  method ScanAndRedact(s: string, totalOperations: int) returns (text: string)
    ensures text == WithBudget(s, totalOperations)
  {
    hide StepAt, PairText, IsCandidate, MatchHeader, ScanFrom;
    var budget := new ScanBudget(totalOperations);
    var output, index := "", 0;
    ghost var pairs: seq<Pair> := [];
    while index < |s|
      invariant 0 <= index <= |s|
      invariant !budget.exhausted
      invariant index == 0 ==> budget.remaining == totalOperations
      invariant index > 0 ==> budget.Valid() && totalOperations >= 0
      invariant totalOperations - ScanFrom(s, 0).cost == budget.remaining - ScanFrom(s, index).cost
      invariant ScanFrom(s, 0).result == Prepend(output, pairs, ScanFrom(s, index).result)
    {
      var overdrawn := budget.Consume(1);
      if overdrawn {
        return BUDGET_EXHAUSTED_MARKER;
      }
      if !IsCandidate(s[index]) {
        ScanCopies(s, index);
        PrependTwice(output, pairs, [s[index]], [], ScanFrom(s, index + 1).result);
        output := output + [s[index]];
        index := index + 1;
        continue;
      }
      ScanSteps(s, index);
      var outcome := ResolveOuterCandidate(s, index, budget);
      match outcome
      case FailClosedBudget => return BUDGET_EXHAUSTED_MARKER;
      case FailClosedMalformedKey => return MALFORMED_MARKER;
      case Advance(chunk, next) =>
        ghost var step := StepAt(s, index).step;
        ghost var more := if step.Replace? then [step.pair] else [];
        PrependTwice(output, pairs, chunk, more, ScanFrom(s, next).result);
        pairs := pairs + more;
        output := output + chunk;
        index := next;
    }
    ScanEnds(s);
    return output;
  }

  /** Production sizes the budget to a fixed multiple of the input's length. */
  method RedactStructuredHeaders(s: string) returns (text: string)
    ensures text == WithBudget(s, 8 * |s|)
  {
    text := ScanAndRedact(s, |s| * SCAN_BUDGET_MULTIPLIER);
  }
}
