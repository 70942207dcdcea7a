/** The value behind a key that opens again: replaced at the same place, or swallowing its closing quote. */
module HeaderValues {
  import opened Prelude
  import opened HeaderSpec
  import opened HeaderCost
  import opened HeaderKeys
  import opened HeaderRescan

  // ---- Separators ----

  /** The end of a separator is not taken for white space: no space, and a run there stands before a quote. */
  predicate Visible(s: string, x: nat) {
    x < |s| && !IsSpace(s[x]) && (s[x] == '\\' ==> QuoteAfter(s, RunEnd(s, x, |s|)))
  }

  /** The last character one has to see to know that. */
  function SeenTo(s: string, x: nat): (end: nat)
    requires x < |s|
    ensures x <= end <= |s|
  {
    if s[x] == '\\' then RunEnd(s, x, |s|) else x
  }

  /** A separator whose end is seen ends at the same place in a text that agrees that far. */
  lemma {:induction false} SeparatorAgain(s: string, c: nat, t: string, d: nat, m: nat, w: nat)
    requires Agree(s, c, t, d, m)
    requires var x := SkipSpace(s, c, ScanLimit(s, c, w)).at; Visible(s, x) && SeenTo(s, x) < c + m
    ensures SkipSpace(t, d, ScanLimit(t, d, w)).at - d == SkipSpace(s, c, ScanLimit(s, c, w)).at - c
    decreases w
  {
    hide *;
    AgreeIn(s, c, t, d, m);
    if w == 0 {
      SkipsNothing(s, c);
      SkipsNothing(t, d);
    } else {
      SeenBehind(s, SkipSpace(s, c, ScanLimit(s, c, w)).at);
      AgreeAt(s, c, t, d, m, 0);
      SkipsOne(s, c, w);
      SkipsOne(t, d, w);
      if IsSpace(s[c]) {
        AgreeBehind(s, c, t, d, m, 1);
        SeparatorAgain(s, c + 1, t, d + 1, m - 1, w - 1);
      } else if s[c] == '\\' {
        EscapeAgain(s, c, t, d, m, w);
      }
    }
  }

  lemma SkipsNothing(s: string, c: nat)
    requires c <= |s|
    ensures SkipSpace(s, c, ScanLimit(s, c, 0)).at == c
  {
  }

  lemma SkipsOne(s: string, c: nat, w: nat)
    requires c < |s| && w > 0
    ensures IsSpace(s[c]) ==>
              SkipSpace(s, c, ScanLimit(s, c, w)).at == SkipSpace(s, c + 1, ScanLimit(s, c + 1, w - 1)).at
    ensures !IsSpace(s[c]) && s[c] != '\\' ==> SkipSpace(s, c, ScanLimit(s, c, w)).at == c
  {
    hide IsSpace;
  }

  lemma AgreeIn(s: string, c: nat, t: string, d: nat, m: nat)
    requires Agree(s, c, t, d, m)
    ensures c + m <= |s| && d + m <= |t|
  {
  }

  /** The escaped white space at `c`, if any. */
  function UnitAt(s: string, c: nat, w: nat): Option<nat>
    requires c <= |s|
  {
    var limit := ScanLimit(s, c, w);
    EscapedUnit(s, RunEnd(s, c, limit), limit).at
  }

  lemma SkipsUnit(s: string, c: nat, w: nat)
    requires c < |s| && s[c] == '\\' && w > 0
    ensures UnitAt(s, c, w).None? ==> SkipSpace(s, c, ScanLimit(s, c, w)).at == c
    ensures UnitAt(s, c, w).Some? ==>
              var u := UnitAt(s, c, w).value;
              && c < u <= ScanLimit(s, c, w) && u - c <= w && ScanLimit(s, u, w - (u - c)) == ScanLimit(s, c, w)
              && SkipSpace(s, c, ScanLimit(s, c, w)).at == SkipSpace(s, u, ScanLimit(s, u, w - (u - c))).at
  {
    hide EscapedUnit;
    assert !IsSpace('\\');
  }

  lemma EscapeAgain(s: string, c: nat, t: string, d: nat, m: nat, w: nat)
    requires Agree(s, c, t, d, m) && c < |s| && d < |t| && w > 0 && s[c] == t[d] == '\\'
    requires var x := SkipSpace(s, c, ScanLimit(s, c, w)).at; Visible(s, x) && SeenTo(s, x) < c + m
    ensures SkipSpace(t, d, ScanLimit(t, d, w)).at - d == SkipSpace(s, c, ScanLimit(s, c, w)).at - c
    decreases w, 0
  {
    hide *;
    SkipsUnit(s, c, w);
    SkipsUnit(t, d, w);
    SeenBehind(s, SkipSpace(s, c, ScanLimit(s, c, w)).at);
    if UnitAt(s, c, w).Some? {
      var u := UnitAt(s, c, w).value;
      UnitAgain(s, c, t, d, m, w);
      AgreeBehind(s, c, t, d, m, u - c);
      SeparatorAgain(s, u, t, d + (u - c), m - (u - c), w - (u - c));
    } else {
      NoUnitAgain(s, c, t, d, m, w);
    }
  }

  lemma SeenBehind(s: string, x: nat)
    requires Visible(s, x)
    ensures x < |s| && x <= SeenTo(s, x)
  {
  }

  lemma UnitAgain(s: string, c: nat, t: string, d: nat, m: nat, w: nat)
    requires Agree(s, c, t, d, m) && c < |s| && s[c] == '\\'
    requires UnitAt(s, c, w).Some? && UnitAt(s, c, w).value - c < m
    ensures UnitAt(t, d, w) == Some(UnitAt(s, c, w).value - c + d)
  {
    hide Agree, IsEscapedSeparator;
    AgreeAll(s, c, t, d, m);
    var u, limit := UnitAt(s, c, w).value, ScanLimit(s, c, w);
    var end := RunEnd(s, c, limit);
    var e := end - c + d;
    forall k | d <= k < e
      ensures t[k] == '\\'
    {
      assert t[k] == s[k - d + c];
    }
    assert t[e] == s[end];
    RunEndIs(t, d, e, ScanLimit(t, d, w));
    if u == end + ESCAPED_UNICODE_LENGTH {
      assert t[e..e + ESCAPED_UNICODE_LENGTH] == s[end..u];
    }
  }

  /** A run in front of a quote is no escaped white space. */
  lemma NoUnitAgain(s: string, c: nat, t: string, d: nat, m: nat, w: nat)
    requires Agree(s, c, t, d, m) && Visible(s, c) && s[c] == '\\' && SeenTo(s, c) < c + m
    ensures d < |t| && UnitAt(t, d, w).None?
  {
    hide Agree, IsEscapedSeparator;
    RunAgain(s, c, t, d, m);
    var e, limit := RunEnd(t, d, |t|), ScanLimit(t, d, w);
    if e <= limit {
      RunEndIs(t, d, e, limit);
    } else {
      RunEndIs(t, d, limit, limit);
    }
  }

  /** A run in front of a quote, copied. */
  lemma RunAgain(s: string, c: nat, t: string, d: nat, m: nat)
    requires Agree(s, c, t, d, m) && c <= |s| && QuoteAfter(s, RunEnd(s, c, |s|)) && RunEnd(s, c, |s|) < c + m
    ensures d < |t| && RunEnd(t, d, |t|) - d == RunEnd(s, c, |s|) - c
    ensures QuoteAfter(t, RunEnd(t, d, |t|)) && t[RunEnd(t, d, |t|)] == s[RunEnd(s, c, |s|)]
  {
    hide Agree;
    AgreeAll(s, c, t, d, m);
    var end := RunEnd(s, c, |s|);
    var e := end - c + d;
    forall k | d <= k < e
      ensures t[k] == '\\'
    {
      assert t[k] == s[k - d + c];
    }
    assert t[e] == s[end];
    RunEndIs(t, d, e, |t|);
  }

  /** A separator never ends behind a backslash. */
  lemma {:induction false} NoBackslashBefore(s: string, c: nat, limit: nat)
    requires c <= limit <= |s|
    ensures var x := SkipSpace(s, c, limit).at; x > c ==> s[x - 1] != '\\'
    decreases limit - c
  {
    hide IsEscapedSeparator;
    if c < limit {
      if IsSpace(s[c]) {
        NoBackslashBefore(s, c + 1, limit);
      } else if s[c] == '\\' {
        var end := RunEnd(s, c, limit);
        var unit := EscapedUnit(s, end, limit).at;
        if unit.Some? {
          UnitLetters(s, end, limit);
          NoBackslashBefore(s, unit.value, limit);
        }
      }
    }
  }

  lemma UnitLetters(s: string, end: nat, limit: nat)
    requires end <= limit <= |s| && EscapedUnit(s, end, limit).at.Some?
    ensures s[EscapedUnit(s, end, limit).at.value - 1] != '\\'
  {
    if s[end] == 'u' {
      var unit := s[end..end + ESCAPED_UNICODE_LENGTH];
      assert LowerAll(unit)[4] == Lower(unit[4]);
    }
  }

  // ---- A replaced value read again ----

  /** The value opens behind a run of backslashes and is closed: its replacement drops the closing run. */
  predicate DropsRun(s: string, pair: Pair) {
    pair.terminated && 2 <= pair.openEnd <= |s| && s[pair.openEnd - 2] == '\\'
  }

  /** Separator, colon and separator stand between `close` and `at`, and the run `[at, q)` before a quote. */
  predicate ValueOpens(s: string, close: nat, at: nat, q: nat) {
    && close <= |s| && IsAt(s, ColonAt(s, close).at, ':')
    && at == ColonAt(s, ColonAt(s, close).at + 1).at
    && q == RunEnd(s, at, |s|) && QuoteAfter(s, q)
  }

  /** The key at the run `[i, end)` closes at `close`. */
  predicate KeyCloses(s: string, i: nat, end: nat, close: nat) {
    KeyText(s, i, end) && close == FirstCandidate(s, end + 1) + (end - i) + 1
  }

  /** Where the parts of a replaced pair stand: the key's end, the run in front of the value, its quote. */
  lemma PairParts(s: string, i: nat, pair: Pair) returns (close: nat, at: nat, q: nat)
    requires i < |s| && IsCandidate(s[i]) && StepAt(s, i).step == Replace(pair)
    ensures KeyCloses(s, i, CandidateEnd(s, i), close) && ValueOpens(s, close, at, q)
    ensures pair.start == i < close < at <= q < |s| && pair.openEnd == q + 1
    ensures if pair.terminated then pair.openEnd < pair.closeEnd <= |s| && s[pair.closeEnd - 1] == s[q]
            else pair.closeEnd == |s|
  {
    hide *;
    var end := CandidateEnd(s, i);
    StepShape(s, i);
    OpensKeyIsKeyText(s, i, end);
    OpenKeyCloses(s, i, end);
    KeyTextParts(s, i, end);
    close := KeyEnd(s, i, end).at.value + (end - i) + 1;
    KeyClosesAt(s, i, end, close);
    at, q := ValueParts(s, close);
  }

  lemma KeyClosesAt(s: string, i: nat, end: nat, close: nat)
    requires KeyText(s, i, end) && close == FirstCandidate(s, end + 1) + (end - i) + 1
    ensures KeyCloses(s, i, end, close)
  {
  }

  lemma ValueParts(s: string, close: nat) returns (at: nat, q: nat)
    requires close <= |s| && MatchValue(s, close).result.Redact?
    ensures ValueOpens(s, close, at, q) && close < at <= q < |s|
    ensures var m := MatchValue(s, close).result;
            m.openEnd == q + 1 &&
            if m.terminated then m.openEnd < m.closeEnd <= |s| && s[m.closeEnd - 1] == s[q] else m.closeEnd == |s|
  {
    hide SkipSpace, RunEnd;
    at := ColonAt(s, ColonAt(s, close).at + 1).at;
    q := RunEnd(s, at, |s|);
  }

  /** The character two before the value tells whether a run opens it. */
  lemma RunBeforeValue(s: string, close: nat, at: nat, q: nat)
    requires ValueOpens(s, close, at, q)
    ensures close < at <= q < |s| && (s[q - 1] == '\\' <==> at < q)
  {
    hide SkipSpace;
    var colon := ColonAt(s, close).at;
    NoBackslashBefore(s, colon + 1, ScanLimit(s, colon + 1, SEPARATOR_SCAN_LENGTH));
  }

  /** The text of a replaced pair in the output. */
  lemma PairInOutput(s: string, pair: Pair, t: string, j: nat, rest: string)
    requires pair.start <= pair.openEnd <= pair.closeEnd <= |s| && (pair.terminated ==> pair.openEnd < pair.closeEnd)
    requires j <= |t| && t[j..] == PairText(s, pair) + rest
    ensures var at := j + (pair.openEnd - pair.start);
            && Agree(s, pair.start, t, j, pair.openEnd - pair.start)
            && Marked(t, at)
            && (if pair.terminated then IsAt(t, at + 10, s[pair.closeEnd - 1]) && t[at + 11..] == rest
                else t[at + 10..] == rest)
  {
    MarkerHasNoQuote();
    hide REDACTED, Quotes;
    var text, m := PairText(s, pair), pair.openEnd - pair.start;
    BehindChunk(t, j, text, rest);
    assert t[j..j + |text|][..m] == t[j..j + m];
    assert t[j + m..j + m + 10] == REDACTED;
    if pair.terminated {
      assert text[m + 10] == s[pair.closeEnd - 1];
    }
  }

  /** The marker stands at `at`. */
  predicate Marked(t: string, at: nat) {
    at + 10 <= |t| && t[at..at + 10] == REDACTED
  }

  lemma MarkedLetters(t: string, at: nat)
    requires Marked(t, at)
    ensures at + 10 <= |t| && forall k | at <= k < at + 10 :: !IsCandidate(t[k])
  {
    MarkerHasNoQuote();
    hide REDACTED, IsCandidate;
    forall k | at <= k < at + 10
      ensures !IsCandidate(t[k])
    {
      assert t[k] == t[at..at + 10][k - at];
    }
  }

  /** Separators and the value's opening read the same in the output. */
  lemma ValueOpensAgain(s: string, close: nat, at: nat, q: nat, t: string, c: nat, m: nat)
    requires ValueOpens(s, close, at, q) && close <= q && Agree(s, close, t, c, m) && q + 1 == close + m
    ensures close < at && ValueOpens(t, c, at - close + c, q - close + c) && t[q - close + c] == s[q]
  {
    hide *;
    var colon := ColonBefore(s, close, at, q);
    SeparatorAgain(s, close, t, c, m, SEPARATOR_SCAN_LENGTH);
    AgreeAt(s, close, t, c, m, colon - close);
    var n := colon + 1 - close;
    AgreeBehind(s, close, t, c, m, n);
    SeparatorAgain(s, colon + 1, t, c + n, m - n, SEPARATOR_SCAN_LENGTH);
    AgreeBehind(s, close, t, c, m, at - close);
    RunAgain(s, at, t, at - close + c, m - (at - close));
    OpensFromParts(t, c, colon - close + c, at - close + c);
  }

  lemma ColonBefore(s: string, close: nat, at: nat, q: nat) returns (colon: nat)
    requires ValueOpens(s, close, at, q)
    ensures close <= colon < at <= q < |s| && s[colon] == ':' && RunEnd(s, at, |s|) == q && QuoteAfter(s, q)
    ensures colon == SkipSpace(s, close, ScanLimit(s, close, SEPARATOR_SCAN_LENGTH)).at
    ensures at == SkipSpace(s, colon + 1, ScanLimit(s, colon + 1, SEPARATOR_SCAN_LENGTH)).at
    ensures Visible(s, colon) && SeenTo(s, colon) == colon
    ensures Visible(s, at) && SeenTo(s, at) == q
  {
    hide SkipSpace;
    colon := ColonAt(s, close).at;
  }

  lemma OpensFromParts(t: string, c: nat, colon: nat, at: nat)
    requires c <= colon < |t| && t[colon] == ':'
    requires colon == SkipSpace(t, c, ScanLimit(t, c, SEPARATOR_SCAN_LENGTH)).at
    requires at == SkipSpace(t, colon + 1, ScanLimit(t, colon + 1, SEPARATOR_SCAN_LENGTH)).at
    requires at <= |t| && QuoteAfter(t, RunEnd(t, at, |t|))
    ensures ValueOpens(t, c, at, RunEnd(t, at, |t|))
  {
    hide SkipSpace, RunEnd;
  }

  /** The key reads the same in the output. */
  lemma KeyAgain(s: string, i: nat, close: nat, t: string, j: nat, m: nat)
    requires i < |s| && IsCandidate(s[i]) && KeyCloses(s, i, CandidateEnd(s, i), close)
    requires Agree(s, i, t, j, m) && close <= i + m
    ensures j < |t| && IsCandidate(t[j]) && i < close && KeyCloses(t, j, CandidateEnd(t, j), close - i + j)
  {
    hide FirstCandidate, IsHeaderKey, Agree, KeyText;
    var end := CandidateEnd(s, i);
    KeyTextParts(s, i, end);
    AgreeShorter(s, i, t, j, m, KeyLengthAt(s, i, end));
    KeyIsLocal(s, i, end, t, j);
    CandidateAgain(s, i, t, j, m);
  }

  lemma CandidateAgain(s: string, i: nat, t: string, j: nat, m: nat)
    requires i < |s| && IsCandidate(s[i]) && QuoteAfter(s, CandidateEnd(s, i)) && CandidateEnd(s, i) < i + m
    requires Agree(s, i, t, j, m)
    ensures j < |t| && IsCandidate(t[j]) && CandidateEnd(t, j) - j == CandidateEnd(s, i) - i
  {
    hide RunEnd, Agree;
    AgreeAll(s, i, t, j, m);
    assert t[j] == s[j - j + i];
    if s[i] == '\\' {
      RunAgain(s, i, t, j, m);
    }
  }

  /** A key and an opened value make a replacement that ends where the value's body does. */
  lemma KeyAndValueReplace(t: string, j: nat, c: nat, at: nat, q: nat)
    requires j < |t| && IsCandidate(t[j]) && KeyCloses(t, j, CandidateEnd(t, j), c) && ValueOpens(t, c, at, q)
    ensures at <= q < |t|
    ensures var body := BodyEnd(t, q + 1, q - at, t[q], |t|).at;
            StepAt(t, j).step
            == Replace(if body.None? then Pair(j, q + 1, |t|, false)
                       else Pair(j, q + 1, body.value + (q - at) + 1, true))
  {
    hide *;
    StepAtKey(t, j, c);
    ValueOpensRedacts(t, c, at, q);
  }

  lemma StepAtKey(t: string, j: nat, c: nat)
    requires j < |t| && IsCandidate(t[j]) && KeyCloses(t, j, CandidateEnd(t, j), c)
    ensures c <= |t|
    ensures var value := MatchValue(t, c).result;
            StepAt(t, j).step
            == if value.Redact? then Replace(Pair(j, value.openEnd, value.closeEnd, value.terminated)) else Stop
  {
    hide *;
    KeyClosesWhere(t, j, CandidateEnd(t, j), c);
    KeyOpens(t, j);
  }

  lemma StepCostAtKey(t: string, j: nat, c: nat)
    requires j < |t| && IsCandidate(t[j]) && KeyCloses(t, j, CandidateEnd(t, j), c)
    ensures c <= |t| && StepAt(t, j).cost <= CandidateEnd(t, j) - j + 34 + MatchValue(t, c).cost
  {
    hide *;
    KeyClosesWhere(t, j, CandidateEnd(t, j), c);
    StepCostWithKey(t, j);
  }

  lemma StepCostWithKey(t: string, j: nat)
    requires j < |t| && IsCandidate(t[j])
    requires var end := CandidateEnd(t, j); OpensKey(t, j, end)
    ensures var end := CandidateEnd(t, j);
            StepAt(t, j).cost
            <= end - j + 34 + MatchValue(t, KeyEnd(t, j, end).at.value + (end - j) + 1).cost
  {
    hide MatchValue, KeyEnd, RunEnd, IsHeaderKey;
    KeyCost(t, j, CandidateEnd(t, j));
  }

  lemma KeyClosesWhere(t: string, j: nat, end: nat, c: nat)
    requires KeyCloses(t, j, end, c)
    ensures OpensKey(t, j, end) && j <= end && QuoteAfter(t, end) && KeyEnd(t, j, end).at.Some?
    ensures c == KeyEnd(t, j, end).at.value + (end - j) + 1
  {
    assert KeyText(t, j, end) && c == FirstCandidate(t, end + 1) + (end - j) + 1;
    hide *;
    OpensKeyIsKeyText(t, j, end);
    OpenKeyCloses(t, j, end);
  }

  lemma ValueOpensRedacts(t: string, c: nat, at: nat, q: nat)
    requires ValueOpens(t, c, at, q)
    ensures c <= |t| && at <= q < |t|
    ensures var body := BodyEnd(t, q + 1, q - at, t[q], |t|).at;
            MatchValue(t, c).result
            == if body.None? then Redact(q + 1, |t|, false) else Redact(q + 1, body.value + (q - at) + 1, true)
  {
    hide SkipSpace, RunEnd, BodyEnd;
  }

  /** Behind the marker a body closes at the first quote, unless it needs a run. */
  lemma BodyPastMarker(t: string, p: nat, depth: nat, quote: char)
    requires Marked(t, p) && IsQuote(quote)
    ensures p + 10 == |t| ==> BodyEnd(t, p, depth, quote, |t|).at.None?
    ensures IsAt(t, p + 10, quote) ==>
              var body := BodyEnd(t, p, depth, quote, |t|).at;
              if depth == 0 then body == Some(p + 10) else body.None? || body.value > p + 10
  {
    hide BodyEnd, FirstCandidate, REDACTED;
    MarkedLetters(t, p);
    BodyToCandidate(t, p, depth, quote, |t|);
    if IsAt(t, p + 10, quote) {
      FirstCandidateIs(t, p, p + 10);
      BodyAtCandidate(t, p + 10, depth, quote, |t|);
    }
  }

  lemma DropsRunWhen(s: string, pair: Pair, close: nat, at: nat, q: nat)
    requires ValueOpens(s, close, at, q) && pair.openEnd == q + 1
    ensures close < at <= q < |s| && IsQuote(s[q])
    ensures DropsRun(s, pair) <==> pair.terminated && at < q
  {
    hide ColonAt, RunEnd;
    RunBeforeValue(s, close, at, q);
  }

  /** A second scan opens the replaced value where the first one did, behind a run as long. */
  lemma OpensAgain(s: string, i: nat, pair: Pair, t: string, j: nat) returns (depth: nat, quote: char)
    requires i < |s| && IsCandidate(s[i]) && StepAt(s, i).step == Replace(pair) && i < pair.openEnd
    requires Agree(s, i, t, j, pair.openEnd - i)
    ensures j < |t| && IsCandidate(t[j]) && pair.start == i && IsQuote(quote)
    ensures pair.terminated ==> pair.openEnd < pair.closeEnd <= |s| && s[pair.closeEnd - 1] == quote
    ensures DropsRun(s, pair) <==> pair.terminated && depth > 0
    ensures var p := pair.openEnd - i + j;
            p <= |t| &&
            var body := BodyEnd(t, p, depth, quote, |t|).at;
            StepAt(t, j).step
            == Replace(if body.None? then Pair(j, p, |t|, false) else Pair(j, p, body.value + depth + 1, true))
  {
    hide *;
    var close, at, q := PairParts(s, i, pair);
    KeyAgain(s, i, close, t, j, pair.openEnd - i);
    AgreeBehind(s, i, t, j, pair.openEnd - i, close - i);
    ValueOpensAgain(s, close, at, q, t, close - i + j, pair.openEnd - close);
    DropsRunWhen(s, pair, close, at, q);
    KeyAndValueReplace(t, j, close - i + j, at - i + j, q - i + j);
    depth, quote := q - at, s[q];
  }

  /** What a second scan makes of a replaced pair. */
  lemma ReplacedAgain(s: string, i: nat, pair: Pair, t: string, j: nat, rest: string)
    requires i < |s| && IsCandidate(s[i]) && StepAt(s, i).step == Replace(pair)
    requires i == pair.start < pair.openEnd <= pair.closeEnd <= |s|
    requires pair.terminated ==> pair.openEnd < pair.closeEnd
    requires j <= |t| && t[j..] == PairText(s, pair) + rest && (!pair.terminated ==> rest == "")
    ensures j < |t| && IsCandidate(t[j]) && StepAt(t, j).step.Replace?
    ensures var again := StepAt(t, j).step.pair;
            var p := pair.openEnd - i + j;
            && again.start == j && again.openEnd == p && Marked(t, p)
            && (if DropsRun(s, pair) then
                  && p + 10 < |t| && IsQuote(t[p + 10]) && again.closeEnd <= |t|
                  && (if again.terminated then p + 11 < again.closeEnd else p + 11 <= again.closeEnd)
                else
                  again.terminated == pair.terminated && again.closeEnd == p + 10 + if pair.terminated then 1 else 0)
  {
    hide *;
    PairInOutput(s, pair, t, j, rest);
    var depth, quote := OpensAgain(s, i, pair, t, j);
    var p := pair.openEnd - i + j;
    BodyPastMarker(t, p, depth, quote);
    MarkedLetters(t, p);
    if pair.terminated {
      IsAtMeans(t, p + 10, quote);
    } else {
      assert |t[p + 10..]| == 0;
      NeverDropsRun(s, pair);
    }
  }

  lemma IsAtMeans(t: string, p: nat, quote: char)
    ensures IsAt(t, p, quote) <==> p < |t| && t[p] == quote
  {
  }

  lemma NeverDropsRun(s: string, pair: Pair)
    ensures DropsRun(s, pair) ==> pair.terminated
  {
  }
}
