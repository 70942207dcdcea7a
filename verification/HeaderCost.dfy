/** The work of a scan is linear in its input, although the scanner is full of nested loops. */
module HeaderCost {
  import opened Prelude
  import opened HeaderSpec

  /** Where a body scan goes on behind the run at `cursor`: behind the character that ends it. */
  function BehindRun(s: string, cursor: nat, limit: nat): (next: nat)
    requires cursor < limit <= |s| && s[cursor] == '\\'
    ensures cursor < next <= limit
  {
    var end := RunEnd(s, cursor, limit);
    if end < limit then end + 1 else end
  }

  /** What a body scan finds and costs, one step unfolded. */
  lemma BodyStep(s: string, cursor: nat, depth: nat, quote: char, limit: nat)
    requires cursor <= limit <= |s|
    ensures var found := BodyEnd(s, cursor, depth, quote, limit);
            if cursor == limit then found.at.None? && found.cost == 0
            else if found.at == Some(cursor) then found.cost == depth + 1 && cursor + depth <= limit
            else
              var next := if s[cursor] != '\\' then cursor + 1 else BehindRun(s, cursor, limit);
              var rest := BodyEnd(s, next, depth, quote, limit);
              found.at == rest.at && next - cursor <= found.cost - rest.cost <= next - cursor + 1
              && (next < limit || s[cursor] != '\\' ==> found.cost == rest.cost + (next - cursor))
              && (next == limit ==> rest == Found(None, 0))
  {
    hide RunEnd;
  }

  /** Every character of a body is charged once, and so is the one that ends a last run. */
  lemma {:induction false} BodyCost(s: string, cursor: nat, depth: nat, quote: char, limit: nat)
    requires cursor <= limit <= |s|
    ensures var found := BodyEnd(s, cursor, depth, quote, limit);
            if found.at.Some? then
              found.cost == found.at.value + depth + 1 - cursor && found.at.value + depth <= limit
            else limit - cursor <= found.cost <= limit - cursor + 1
    decreases limit - cursor
  {
    hide *;
    BodyStep(s, cursor, depth, quote, limit);
    if cursor < limit {
      if s[cursor] != '\\' {
        BodyCost(s, cursor + 1, depth, quote, limit);
      } else {
        BodyCost(s, BehindRun(s, cursor, limit), depth, quote, limit);
      }
    }
  }

  lemma {:induction false} RunEndGrows(s: string, i: nat, limit: nat)
    requires i <= limit <= |s|
    ensures RunEnd(s, i, limit) <= RunEnd(s, i, |s|)
    decreases limit - i
  {
    if i < limit && s[i] == '\\' {
      RunEndGrows(s, i + 1, limit);
    }
  }

  /** A separator costs at most twice its length, and the run behind it that turned out to be no white space. */
  lemma {:induction false} SkipCost(s: string, cursor: nat, limit: nat)
    requires cursor <= limit <= |s|
    ensures var skipped := SkipSpace(s, cursor, limit);
            skipped.cost <= 2 * (skipped.at - cursor) + (RunEnd(s, skipped.at, |s|) - skipped.at) + 6
    decreases limit - cursor
  {
    if cursor < limit {
      if IsSpace(s[cursor]) {
        SkipCost(s, cursor + 1, limit);
      } else if s[cursor] == '\\' {
        RunEndGrows(s, cursor, limit);
        EscapeCost(s, cursor, limit);
        var unit := EscapedUnit(s, RunEnd(s, cursor, limit), limit);
        hide EscapedUnit, RunEnd;
        if unit.at.Some? {
          SkipCost(s, unit.at.value, limit);
        }
      }
    }
  }

  lemma EscapeCost(s: string, cursor: nat, limit: nat)
    requires cursor < limit <= |s| && s[cursor] == '\\'
    ensures var end := RunEnd(s, cursor, limit);
            var unit := EscapedUnit(s, end, limit);
            cursor < end && unit.cost <= 5 && (unit.at.Some? ==> unit.at.value == end + unit.cost)
  {
    hide RunEnd, IsEscapedSeparator;
  }

  lemma QuotedCost(s: string, at: nat)
    requires at <= |s|
    ensures var m := MatchQuoted(s, at);
            && m.cost <= |s| - at + 1
            && (m.result.Redact? ==> m.cost <= m.result.closeEnd - at + 1)
  {
    hide RunEnd, BodyEnd;
    var end := RunEnd(s, at, |s|);
    if QuoteAfter(s, end) {
      BodyCost(s, end + 1, end - at, s[end], |s|);
    }
  }

  /** The run in front of a value is part of it. */
  lemma QuotedHoldsRun(s: string, at: nat)
    requires at <= |s|
    ensures MatchQuoted(s, at).result.Redact? ==> RunEnd(s, at, |s|) < MatchQuoted(s, at).result.closeEnd
  {
    hide RunEnd, BodyEnd;
  }

  lemma NoRunAt(s: string, at: nat)
    requires IsAt(s, at, ':')
    ensures RunEnd(s, at, |s|) == at
  {
  }

  /** What follows a key costs at most twice what it takes up, and a constant. */
  lemma ValueCost(s: string, closeEnd: nat)
    requires closeEnd <= |s|
    ensures var m := MatchValue(s, closeEnd);
            && m.cost <= 2 * ((if m.result.Redact? then m.result.closeEnd else |s|) - closeEnd) + 11
            && (m.result.Redact? ==> m.result.closeEnd >= closeEnd + 2)
  {
    hide SkipSpace, MatchQuoted, RunEnd;
    SkipCost(s, closeEnd, ScanLimit(s, closeEnd, SEPARATOR_SCAN_LENGTH));
    var colon := ColonAt(s, closeEnd);
    if IsAt(s, colon.at, ':') {
      NoRunAt(s, colon.at);
      SkipCost(s, colon.at + 1, ScanLimit(s, colon.at + 1, SEPARATOR_SCAN_LENGTH));
      QuotedCost(s, ColonAt(s, colon.at + 1).at);
      QuotedHoldsRun(s, ColonAt(s, colon.at + 1).at);
    }
  }

  lemma KeyCost(s: string, start: nat, end: nat)
    requires start <= end && QuoteAfter(s, end)
    ensures KeyEnd(s, start, end).cost <= KEY_SCAN_LENGTH + 1
    ensures KeyEnd(s, start, end).at.Some? ==>
              KeyEnd(s, start, end).cost == KeyEnd(s, start, end).at.value - start
  {
    hide BodyEnd, RunEnd;
    BodyCost(s, end + 1, end - start, s[end], ScanLimit(s, end + 1, KEY_SCAN_LENGTH));
  }

  /** What a candidate costs, and how far the scan advances past a replaced value. */
  lemma StepCost(s: string, i: nat)
    requires i < |s| && IsCandidate(s[i])
    ensures var r := StepAt(s, i);
            match r.step
            case Copy(_, next) => CandidateEnd(s, i) <= next && r.cost <= 2 * (next - i) + KEY_SCAN_LENGTH + 1
            case Replace(pair) => pair.closeEnd > CandidateEnd(s, i) && r.cost <= 2 * (pair.closeEnd - i) + 11
            case Stop => r.cost <= 2 * (|s| - i) + 11
  {
    hide IsHeaderKey, KeyEnd, MatchValue, RunEnd;
    var end := CandidateEnd(s, i);
    if QuoteAfter(s, end) {
      KeyCost(s, i, end);
      if OpensKey(s, i, end) {
        ValueCost(s, KeyEnd(s, i, end).at.value + (end - i) + 1);
      }
    }
  }

  lemma KeyLength(key: string)
    requires IsHeaderKey(key)
    ensures 6 <= |key| <= 13
  {
    assert |LowerAll(key)| == |key|;
  }

  /** The quotes and the backslash runs from `i` on, a run counted where it ends. */
  function Candidates(s: string, i: nat): (n: nat)
    requires i <= |s|
    ensures n <= |s| - i
    decreases |s| - i
  {
    if i == |s| then 0
    else (if IsQuote(s[i]) || (s[i] == '\\' && !IsAt(s, i + 1, '\\')) then 1 else 0) + Candidates(s, i + 1)
  }

  lemma {:induction false} CandidatesFewer(s: string, i: nat, j: nat)
    requires i <= j <= |s|
    ensures Candidates(s, j) <= Candidates(s, i)
    decreases j - i
  {
    if i < j {
      CandidatesFewer(s, i + 1, j);
    }
  }

  lemma {:induction false} RunIsOneCandidate(s: string, i: nat)
    requires i < |s| && s[i] == '\\'
    ensures i < RunEnd(s, i, |s|) && Candidates(s, i) == 1 + Candidates(s, RunEnd(s, i, |s|))
    decreases |s| - i
  {
    if IsAt(s, i + 1, '\\') {
      RunIsOneCandidate(s, i + 1);
    }
  }

  lemma CandidateCounts(s: string, i: nat, next: nat)
    requires i < |s| && IsCandidate(s[i]) && i < next <= |s| && CandidateEnd(s, i) <= next
    ensures Candidates(s, i) >= 1 + Candidates(s, next)
  {
    hide RunEnd;
    if s[i] == '\\' {
      RunIsOneCandidate(s, i);
      CandidatesFewer(s, RunEnd(s, i, |s|), next);
    } else {
      CandidatesFewer(s, i + 1, next);
    }
  }

  /** For every input the charges are bounded by its length and by the places where a key may open. */
  lemma {:induction false} ScanCost(s: string, i: nat)
    requires i <= |s|
    ensures ScanFrom(s, i).cost <= 2 * (|s| - i) + 34 * Candidates(s, i)
    decreases |s| - i
  {
    hide StepAt, IsCandidate, CandidateEnd, Candidates;
    if i < |s| {
      CandidatesFewer(s, i, i + 1);
      if !IsCandidate(s[i]) {
        ScanCost(s, i + 1);
      } else {
        StepCost(s, i);
        match StepAt(s, i).step
        case Copy(_, next) =>
          CandidateCounts(s, i, next);
          ScanCost(s, next);
        case Replace(pair) =>
          CandidateCounts(s, i, pair.closeEnd);
          ScanCost(s, pair.closeEnd);
        case Stop =>
          CandidateCounts(s, i, |s|);
      }
    }
  }

  /** So they are linear in the length, and the key and separator scans add no more than a constant each. */
  lemma ScanCostLinear(s: string)
    ensures ScanFrom(s, 0).cost <= 36 * |s|
  {
    hide *;
    ScanCost(s, 0);
  }

  /** Production does not give up on a text with at most three quotes and backslash runs in seventeen characters. */
  lemma FewCandidatesSuffice(s: string)
    ensures 17 * Candidates(s, 0) <= 3 * |s| ==> WithBudget(s, 8 * |s|) == Rendered(ScanFrom(s, 0).result)
  {
    hide *;
    ScanCost(s, 0);
    WithinBudget(s, 8 * |s|);
  }

  lemma WithinBudget(s: string, totalOperations: nat)
    ensures WithBudget(s, totalOperations)
         == if ScanFrom(s, 0).cost <= totalOperations then Rendered(ScanFrom(s, 0).result) else BUDGET_EXHAUSTED_MARKER
  {
    hide ScanFrom, Rendered, BUDGET_EXHAUSTED_MARKER;
  }

  // ---- Without backslashes ----

  ghost predicate Plain(s: string) {
    '\\' !in s
  }

  /** Where the next quote of one kind stands. */
  function NextQuote(s: string, i: nat, quote: char): (at: nat)
    requires i <= |s|
    ensures i <= at <= |s| && quote !in s[i..at]
    ensures at < |s| ==> s[at] == quote
    decreases |s| - i
  {
    if i == |s| || s[i] == quote then i
    else
      var at := NextQuote(s, i + 1, quote);
      assert s[i..at] == [s[i]] + s[i + 1..at];
      at
  }

  lemma {:induction false} PlainBody(s: string, cursor: nat, quote: char, limit: nat)
    requires Plain(s) && cursor <= limit <= |s|
    ensures var found := BodyEnd(s, cursor, 0, quote, limit);
            var next := NextQuote(s, cursor, quote);
            found == if next < limit then Found(Some(next), next + 1 - cursor) else Found(None, limit - cursor)
    decreases limit - cursor
  {
    if cursor < limit {
      assert s[cursor] in s;
      PlainBody(s, cursor + 1, quote, limit);
    }
  }

  lemma {:induction false} PlainSkip(s: string, cursor: nat, limit: nat)
    requires Plain(s) && cursor <= limit <= |s|
    ensures var skipped := SkipSpace(s, cursor, limit);
            && skipped.cost <= skipped.at - cursor + 1
            && (forall k | cursor <= k < skipped.at :: IsSpace(s[k]))
            && (skipped.at < limit ==> !IsSpace(s[skipped.at]))
    decreases limit - cursor
  {
    if cursor < limit {
      assert s[cursor] in s;
      if IsSpace(s[cursor]) {
        PlainSkip(s, cursor + 1, limit);
      }
    }
  }

  lemma {:induction false} PlainRun(s: string, i: nat)
    requires Plain(s) && i <= |s|
    ensures RunEnd(s, i, |s|) == i
  {
    if i < |s| {
      assert s[i] in s;
    }
  }

  lemma PlainQuotedCost(s: string, at: nat)
    requires Plain(s) && at <= |s|
    ensures var m := MatchQuoted(s, at);
            if m.result.Redact? then m.cost <= m.result.closeEnd - at else m.cost == 1
  {
    PlainRun(s, at);
    if QuoteAfter(s, at) {
      PlainBody(s, at + 1, s[at], |s|);
    }
  }

  lemma PlainValueCost(s: string, closeEnd: nat)
    requires Plain(s) && closeEnd <= |s|
    ensures var m := MatchValue(s, closeEnd);
            m.cost <= (if m.result.Redact? then m.result.closeEnd else |s|) - closeEnd + 2
  {
    hide SkipSpace, MatchQuoted;
    PlainSkip(s, closeEnd, ScanLimit(s, closeEnd, SEPARATOR_SCAN_LENGTH));
    var colon := ColonAt(s, closeEnd);
    if IsAt(s, colon.at, ':') {
      PlainSkip(s, colon.at + 1, ScanLimit(s, colon.at + 1, SEPARATOR_SCAN_LENGTH));
      PlainQuotedCost(s, ColonAt(s, colon.at + 1).at);
    }
  }

  lemma PlainKeyCost(s: string, i: nat)
    requires Plain(s) && i < |s| && IsQuote(s[i])
    ensures var key := KeyEnd(s, i, i);
            && key.cost <= NextQuote(s, i + 1, s[i]) - i
            && (key.at.Some? ==> key.at.value == NextQuote(s, i + 1, s[i]) && key.cost == key.at.value - i)
  {
    hide BodyEnd;
    PlainBody(s, i + 1, s[i], ScanLimit(s, i + 1, KEY_SCAN_LENGTH));
  }

  /** A quote that opens no key is charged for the characters up to the next quote of its kind. */
  lemma PlainStepCost(s: string, i: nat)
    requires Plain(s) && i < |s| && IsCandidate(s[i])
    ensures IsQuote(s[i])
    ensures var r := StepAt(s, i);
            match r.step
            case Copy(_, next) => next == i + 1 && r.cost <= 1 + NextQuote(s, i + 1, s[i]) - i
            case Replace(pair) => pair.closeEnd >= i + 10 && r.cost <= pair.closeEnd - i + 3
            case Stop => |s| >= i + 8 && r.cost <= |s| - i + 3
  {
    hide IsHeaderKey, KeyEnd, MatchValue, NextQuote, RunEnd;
    assert s[i] in s;
    PlainKeyCost(s, i);
    if OpensKey(s, i, i) {
      KeyLength(s[i + 1..KeyEnd(s, i, i).at.value]);
      PlainValueEnd(s, KeyEnd(s, i, i).at.value + 1);
    }
  }

  lemma PlainValueEnd(s: string, closeEnd: nat)
    requires Plain(s) && closeEnd <= |s|
    ensures var m := MatchValue(s, closeEnd);
            && m.cost <= (if m.result.Redact? then m.result.closeEnd else |s|) - closeEnd + 2
            && (m.result.Redact? ==> m.result.closeEnd >= closeEnd + 2)
  {
    PlainValueCost(s, closeEnd);
    hide MatchValue;
    if MatchValue(s, closeEnd).result.Redact? {
      RedactOpens(s, closeEnd);
    }
  }

  lemma RedactOpens(s: string, closeEnd: nat)
    requires closeEnd <= |s| && MatchValue(s, closeEnd).result.Redact?
    ensures MatchValue(s, closeEnd).result.openEnd >= closeEnd + 2
  {
  }

  /** The characters from the next quote of either kind on: what key scans may still be charged for. */
  function Ahead(s: string, i: nat): (ahead: nat)
    requires i <= |s|
    ensures ahead <= 2 * (|s| - i)
  {
    2 * |s| - NextQuote(s, i, '"') - NextQuote(s, i, '\'')
  }

  lemma {:induction false} NextQuoteMonotone(s: string, i: nat, j: nat, quote: char)
    requires i <= j <= |s|
    ensures NextQuote(s, i, quote) <= NextQuote(s, j, quote)
    decreases j - i
  {
    if i < j && s[i] != quote {
      NextQuoteMonotone(s, i + 1, j, quote);
    }
  }

  lemma AheadMonotone(s: string, i: nat, j: nat)
    requires i <= j <= |s|
    ensures Ahead(s, j) <= Ahead(s, i)
  {
    NextQuoteMonotone(s, i, j, '"');
    NextQuoteMonotone(s, i, j, '\'');
  }

  lemma {:induction false} PlainScanCost(s: string, i: nat)
    requires Plain(s) && i <= |s|
    ensures ScanFrom(s, i).cost <= 2 * (|s| - i) + Ahead(s, i)
    decreases |s| - i
  {
    hide StepAt;
    if i < |s| {
      AheadMonotone(s, i, i + 1);
      if !IsCandidate(s[i]) {
        PlainScanCost(s, i + 1);
      } else {
        PlainStepCost(s, i);
        match StepAt(s, i).step
        case Copy(_, next) => PlainScanCost(s, next);
        case Replace(pair) =>
          PlainScanCost(s, pair.closeEnd);
          AheadMonotone(s, i, pair.closeEnd);
        case Stop =>
      }
    }
  }

  /** Without backslashes half of the production budget of eight times the length is enough. */
  lemma PlainBudgetSuffices(s: string)
    requires Plain(s)
    ensures ScanFrom(s, 0).cost <= 4 * |s|
  {
    PlainScanCost(s, 0);
  }

  // ---- With backslashes the production factor is too small ----

  /** `n` escaped quotes: no header key anywhere. */
  function EscapedQuotes(n: nat): (s: string)
    ensures |s| == 2 * n
    ensures forall k | 0 <= k < |s| :: s[k] == if k % 2 == 0 then '\\' else '"'
  {
    if n == 0 then "" else "\\\"" + EscapedQuotes(n - 1)
  }

  /** A bare quote never closes among escaped ones, and the search is charged for every character. */
  lemma {:induction false} EscapedNeverClose(s: string, cursor: nat, limit: nat)
    requires forall k | 0 <= k < |s| :: s[k] == if k % 2 == 0 then '\\' else '"'
    requires cursor <= limit <= |s| && cursor % 2 == 0 && limit % 2 == 0
    ensures BodyEnd(s, cursor, 0, '"', limit) == Found(None, limit - cursor)
    decreases limit - cursor
  {
    if cursor < limit {
      assert cursor + 2 <= limit && RunEnd(s, cursor, limit) == cursor + 1;
      EscapedNeverClose(s, cursor + 2, limit);
    }
  }

  lemma EmptyIsNoKey()
    ensures !IsHeaderKey("")
  {
    assert |LowerAll("")| == 0;
  }

  ghost predicate Escaped(s: string) {
    |s| % 2 == 0 && forall k | 0 <= k < |s| :: s[k] == if k % 2 == 0 then '\\' else '"'
  }

  /** An escaped quote is tried as a delimiter of depth one: it closes at once, or never. */
  lemma EscapedRunStep(s: string, p: nat)
    requires Escaped(s) && p % 2 == 0 && p < |s|
    ensures p + 2 <= |s| && IsCandidate(s[p])
    ensures StepAt(s, p) == Stepped(Copy(s[p..p + 1], p + 1), if p + 2 < |s| then 4 else 2)
  {
    hide IsHeaderKey, MatchValue, RunEnd;
    EmptyIsNoKey();
    assert s[p + 1] == '"' && s[p] == '\\';
    assert CandidateEnd(s, p) == p + 1;
    assert s[p + 2..p + 2] == "";
    EscapedDepthOne(s, p + 2, ScanLimit(s, p + 2, KEY_SCAN_LENGTH));
  }

  lemma EscapedDepthOne(s: string, c: nat, limit: nat)
    requires Escaped(s) && c % 2 == 0 && c <= limit <= |s| && (c < |s| ==> c + 2 <= limit)
    ensures BodyEnd(s, c, 1, '"', limit) == if c < |s| then Found(Some(c), 2) else Found(None, 0)
  {
    if c < |s| {
      assert s[c] == '\\' && s[c + 1] == '"' && RunEnd(s, c, limit) == c + 1;
    }
  }

  /** Then its quote is tried on its own, and the key scan runs to its bound. */
  lemma EscapedQuoteStep(s: string, p: nat)
    requires Escaped(s) && p % 2 == 0 && p < |s|
    ensures p + 2 <= |s| && IsCandidate(s[p + 1])
    ensures StepAt(s, p + 1) == Stepped(Copy([s[p + 1]], p + 2), 1 + Min(KEY_SCAN_LENGTH, |s| - p - 2))
  {
    hide IsHeaderKey, BodyEnd, MatchValue, RunEnd;
    assert s[p + 1] == '"' && CandidateEnd(s, p + 1) == p + 1;
    EscapedNeverClose(s, p + 2, ScanLimit(s, p + 2, KEY_SCAN_LENGTH));
  }

  /** The charges of `n` escaped quotes. */
  function EscapedCost(n: nat): nat {
    if n == 0 then 0 else EscapedCost(n - 1) + if n == 1 then 5 else 7 + Min(KEY_SCAN_LENGTH, 2 * (n - 1))
  }

  lemma {:induction false} EscapedCostQuadratic(n: nat)
    requires 1 <= n <= 17
    ensures EscapedCost(n) == n * n + 6 * n - 2
  {
    if n > 1 {
      EscapedCostQuadratic(n - 1);
    }
  }

  lemma {:induction false} EscapedCostGrows(n: nat)
    ensures EscapedCost(n) > 16 * n <==> n >= 11
  {
    if n == 0 {
    } else if n <= 11 {
      EscapedCostQuadratic(n);
      assert n * n + 6 * n - 2 > 16 * n <==> n >= 11 by {
        if n <= 10 {
          assert n * n <= 10 * n;
        }
      }
    } else {
      EscapedCostGrows(n - 1);
    }
  }

  lemma ScanCopies(s: string, i: nat, chunk: string, next: nat)
    requires i < |s| && IsCandidate(s[i]) && StepAt(s, i).step == Copy(chunk, next)
    ensures i < next <= |s|
    ensures ScanFrom(s, i) == Emit(1 + StepAt(s, i).cost, chunk, [], ScanFrom(s, next))
  {
    hide StepAt, IsCandidate;
  }

  /** Two steps take an escaped quote and charge for it. */
  lemma EscapedTwoSteps(s: string, p: nat)
    requires Escaped(s) && p % 2 == 0 && p < |s|
    ensures p + 2 <= |s|
    ensures ScanFrom(s, p) == Emit(if p + 2 < |s| then 7 + Min(KEY_SCAN_LENGTH, |s| - p - 2) else 5,
                                   s[p..p + 2], [], ScanFrom(s, p + 2))
  {
    EscapedRunStep(s, p);
    EscapedQuoteStep(s, p);
    hide StepAt, ScanFrom, Escaped, IsCandidate;
    ScanCopies(s, p, s[p..p + 1], p + 1);
    ScanCopies(s, p + 1, [s[p + 1]], p + 2);
    EmitTwice(s, p, 1 + if p + 2 < |s| then 4 else 2, 2 + Min(KEY_SCAN_LENGTH, |s| - p - 2), ScanFrom(s, p + 2));
  }

  lemma EmitTwice(s: string, p: nat, m: nat, n: nat, rest: Scanned)
    requires p + 2 <= |s|
    ensures Emit(m, s[p..p + 1], [], Emit(n, [s[p + 1]], [], rest)) == Emit(m + n, s[p..p + 2], [], rest)
  {
    assert s[p..p + 2] == s[p..p + 1] + [s[p + 1]];
    if rest.result.Text? {
      var output := rest.result.output;
      assert s[p..p + 1] + ([s[p + 1]] + output) == s[p..p + 2] + output;
      assert [] + ([] + rest.result.pairs) == [] + rest.result.pairs;
    }
  }

  lemma {:induction false} EscapedScan(s: string, p: nat, n: nat)
    requires Escaped(s) && |s| - p == 2 * n && p % 2 == 0
    ensures ScanFrom(s, p) == Scanned(Text(s[p..], []), EscapedCost(n))
    decreases n
  {
    hide StepAt, Escaped, IsCandidate;
    if n == 0 {
      assert s[p..] == "";
    } else {
      hide ScanFrom;
      EscapedTwoSteps(s, p);
      EscapedScan(s, p + 2, n - 1);
      var rest := ScanFrom(s, p + 2).result;
      assert s[p..] == s[p..p + 2] + rest.output && [] + rest.pairs == [];
    }
  }

  /**
   Factor 8 is not enough for every harmless input: `n` escaped quotes hold no header, an unlimited scan returns
   them as they are, and production gives up on them exactly from the eleventh on.
   */
  lemma EscapedQuotesExhaustBudget(n: nat)
    ensures var s := EscapedQuotes(n);
            && Rendered(ScanFrom(s, 0).result) == s
            && WithBudget(s, 8 * |s|) == if n >= 11 then BUDGET_EXHAUSTED_MARKER else s
  {
    var s := EscapedQuotes(n);
    assert Escaped(s) && s[0..] == s && |s| == 2 * n;
    EscapedScan(s, 0, n);
    hide ScanFrom, EscapedQuotes, EscapedCost, BUDGET_EXHAUSTED_MARKER;
    EscapedCostGrows(n);
    WithinBudget(s, 8 * |s|);
  }
}
