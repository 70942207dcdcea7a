/** When redacting what has been redacted changes nothing: exactly when no closed value opens behind a backslash. */
module HeaderIdempotence {
  import opened Prelude
  import opened HeaderSpec
  import opened HeaderCost
  import opened HeaderKeys
  import opened HeaderRescan
  import opened HeaderSafety
  import opened HeaderValues

  // ---- Quotes never come from nowhere ----

  lemma {:induction false} QuotesNeverGrow(s: string, i: nat)
    requires i <= |s| && ScanFrom(s, i).result.Text?
    ensures Quotes(ScanFrom(s, i).result.output) <= Quotes(s[i..])
    decreases |s| - i
  {
    hide *;
    if i == |s| {
      ScanEmpty(s);
      NoQuotes("");
    } else {
      ScanStep(s, i);
      if !IsCandidate(s[i]) {
        QuotesNeverGrow(s, i + 1);
        ChunkQuotes(s, i, i + 1, ScanFrom(s, i + 1).result.output);
      } else {
        var step := StepAt(s, i).step;
        if step.Copy? {
          CopiedChunk(s, i);
          QuotesNeverGrow(s, step.next);
          ChunkQuotes(s, i, step.next, ScanFrom(s, step.next).result.output);
        } else {
          StepBounds(s, i);
          QuotesNeverGrow(s, step.pair.closeEnd);
          PairQuotesFewer(s, step.pair);
          QuotesConcat(PairText(s, step.pair), ScanFrom(s, step.pair.closeEnd).result.output);
          QuotesSplit(s, i, step.pair.closeEnd);
        }
      }
    }
  }

  lemma StepBounds(s: string, i: nat)
    requires i < |s| && IsCandidate(s[i])
    ensures var step := StepAt(s, i).step;
            && (step.Copy? ==> i < step.next <= |s|)
            && (step.Replace? ==>
                  && i == step.pair.start < step.pair.openEnd <= step.pair.closeEnd <= |s|
                  && (step.pair.terminated ==> step.pair.openEnd < step.pair.closeEnd))
  {
    hide *;
  }

  lemma ChunkQuotes(s: string, i: nat, next: nat, rest: string)
    requires i <= next <= |s| && Quotes(rest) <= Quotes(s[next..])
    ensures Quotes(s[i..next] + rest) <= Quotes(s[i..])
    ensures next == i + 1 ==> [s[i]] == s[i..next]
  {
    hide Quotes;
    QuotesConcat(s[i..next], rest);
    QuotesSplit(s, i, next);
  }

  // ---- The scan of an output ----

  /** Some closed value opens behind a backslash. */
  predicate DropsSomeRun(s: string, pairs: seq<Pair>) {
    exists pair :: pair in pairs && DropsRun(s, pair)
  }

  lemma DropsFirstOrLater(s: string, pair: Pair, rest: seq<Pair>)
    ensures DropsSomeRun(s, [pair] + rest) <==> DropsRun(s, pair) || DropsSomeRun(s, rest)
  {
    hide DropsRun;
    var pairs := [pair] + rest;
    assert pairs[0] in pairs;
    assert forall other | other in rest :: other in pairs;
    assert forall other | other in pairs :: other == pair || other in rest;
  }

  /** A second scan repeats the text, or it has to lose a quote of it. */
  ghost predicate Repeats(t: string, j: nat, drops: bool)
    requires j <= |t|
  {
    var again := ScanFrom(t, j).result;
    if drops then Quotes(t[j..]) >= 1 && (again.Text? ==> Quotes(again.output) < Quotes(t[j..]))
    else again.Text? && again.output == t[j..]
  }

  lemma {:induction false} ScanAgain(s: string, i: nat, t: string, j: nat)
    requires i <= |s| && j <= |t|
    requires ScanFrom(s, i).result.Text? && t[j..] == ScanFrom(s, i).result.output
    ensures Repeats(t, j, DropsSomeRun(s, ScanFrom(s, i).result.pairs))
    decreases |s| - i, 1
  {
    hide *;
    if i == |s| {
      ScanEmpty(s);
      ScanEmpty(t);
      NothingDropped(s, t, j);
    } else {
      ScanStep(s, i);
      if !IsCandidate(s[i]) {
        BehindChunk(t, j, [s[i]], ScanFrom(s, i + 1).result.output);
        ScanAgain(s, i + 1, t, j + 1);
        PlainAgain(t, j, DropsSomeRun(s, ScanFrom(s, i).result.pairs));
      } else {
        StepBounds(s, i);
        var step := StepAt(s, i).step;
        if step.Copy? {
          CopyAgain(s, i, t, j);
          StepBounds(t, j);
          ScanAgain(s, step.next, t, StepAt(t, j).step.next);
          CopiedAgain(t, j, DropsSomeRun(s, ScanFrom(s, i).result.pairs));
        } else {
          PairAgain(s, i, step.pair, t, j);
        }
      }
    }
  }

  lemma NothingDropped(s: string, t: string, j: nat)
    requires j <= |t| && t[j..] == "" && ScanFrom(t, |t|).result == Text("", [])
    ensures Repeats(t, j, DropsSomeRun(s, []))
  {
    hide ScanFrom;
    assert j == |t|;
  }

  lemma ScanOnward(t: string, j: nat)
    requires j < |t|
    ensures !IsCandidate(t[j]) ==> ScanFrom(t, j).result == Prepend([t[j]], [], ScanFrom(t, j + 1).result)
    ensures IsCandidate(t[j]) ==>
              var step := StepAt(t, j).step;
              && (step.Copy? ==> ScanFrom(t, j).result == Prepend(step.chunk, [], ScanFrom(t, step.next).result))
              && (step.Replace? ==>
                    ScanFrom(t, j).result
                    == Prepend(PairText(t, step.pair), [step.pair], ScanFrom(t, step.pair.closeEnd).result))
  {
    hide StepAt, PairText, IsCandidate, Prepend;
  }

  /** A scan that copies a chunk repeats the text as far as it does behind it. */
  lemma ChunkRepeats(t: string, j: nat, next: nat, pairs: seq<Pair>, drops: bool)
    requires j <= next <= |t| && Repeats(t, next, drops)
    requires ScanFrom(t, j).result == Prepend(t[j..next], pairs, ScanFrom(t, next).result)
    ensures Repeats(t, j, drops)
  {
    hide ScanFrom, Quotes;
    assert t[j..] == t[j..next] + t[next..];
    QuotesConcat(t[j..next], t[next..]);
    if ScanFrom(t, next).result.Text? {
      QuotesConcat(t[j..next], ScanFrom(t, next).result.output);
    }
  }

  lemma PlainAgain(t: string, j: nat, drops: bool)
    requires j < |t| && !IsCandidate(t[j]) && Repeats(t, j + 1, drops)
    ensures Repeats(t, j, drops)
  {
    hide *;
    ScanOnward(t, j);
    assert t[j..j + 1] == [t[j]];
    ChunkRepeats(t, j, j + 1, [], drops);
  }

  lemma CopiedAgain(t: string, j: nat, drops: bool)
    requires j < |t| && IsCandidate(t[j]) && StepAt(t, j).step.Copy?
    requires Repeats(t, StepAt(t, j).step.next, drops)
    ensures Repeats(t, j, drops)
  {
    hide *;
    ScanOnward(t, j);
    CopiedChunk(t, j);
    ChunkRepeats(t, j, StepAt(t, j).step.next, [], drops);
  }

  /** A pair whose replacement reads as it did. */
  lemma MarkedAgain(t: string, j: nat, drops: bool)
    requires j < |t| && IsCandidate(t[j]) && StepAt(t, j).step.Replace?
    requires var again := StepAt(t, j).step.pair;
             Marked(t, again.openEnd) && again.closeEnd == again.openEnd + 10 + (if again.terminated then 1 else 0)
    requires Repeats(t, StepAt(t, j).step.pair.closeEnd, drops)
    ensures Repeats(t, j, drops)
  {
    hide *;
    ScanOnward(t, j);
    StepBounds(t, j);
    var again := StepAt(t, j).step.pair;
    MarkedPairText(t, again);
    ChunkRepeats(t, j, again.closeEnd, [again], drops);
  }

  lemma MarkedPairText(t: string, pair: Pair)
    requires pair.start <= pair.openEnd && Marked(t, pair.openEnd) && pair.closeEnd <= |t|
    requires pair.closeEnd == pair.openEnd + 10 + (if pair.terminated then 1 else 0)
    ensures PairText(t, pair) == t[pair.start..pair.closeEnd]
  {
    MarkerHasNoQuote();
    hide REDACTED, Quotes;
    assert t[pair.start..pair.closeEnd]
        == t[pair.start..pair.openEnd] + t[pair.openEnd..pair.openEnd + 10] + t[pair.openEnd + 10..pair.closeEnd];
  }

  /** A value whose closing run was dropped swallows the quote behind the marker. */
  lemma LosesQuote(t: string, j: nat)
    requires j < |t| && IsCandidate(t[j]) && StepAt(t, j).step.Replace?
    requires var again := StepAt(t, j).step.pair;
             var q := again.openEnd + 10;
             again.start == j && q < |t| && IsQuote(t[q]) &&
             if again.terminated then q + 1 < again.closeEnd else q + 1 <= again.closeEnd
    ensures Repeats(t, j, true)
  {
    hide *;
    StepBounds(t, j);
    var again := StepAt(t, j).step.pair;
    PairLosesQuote(t, again);
    QuotesSplit(t, j, again.closeEnd);
    if ScanFrom(t, j).result.Text? {
      ScanStep(t, j);
      QuotesNeverGrow(t, again.closeEnd);
      QuotesConcat(PairText(t, again), ScanFrom(t, again.closeEnd).result.output);
    }
    RepeatsWithFewer(t, j);
  }

  lemma RepeatsWithFewer(t: string, j: nat)
    requires j <= |t| && Quotes(t[j..]) >= 1
    requires ScanFrom(t, j).result.Text? ==> Quotes(ScanFrom(t, j).result.output) < Quotes(t[j..])
    ensures Repeats(t, j, true)
  {
  }

  lemma PairLosesQuote(t: string, pair: Pair)
    requires pair.start <= pair.openEnd <= pair.openEnd + 10 < pair.closeEnd <= |t| && IsQuote(t[pair.openEnd + 10])
    requires pair.terminated ==> pair.openEnd + 11 < pair.closeEnd
    ensures Quotes(PairText(t, pair)) < Quotes(t[pair.start..pair.closeEnd])
  {
    hide *;
    PairQuotes(t, pair);
    QuotesBetween(t, pair.start, pair.openEnd, pair.closeEnd);
    var last := if pair.terminated then pair.closeEnd - 1 else pair.closeEnd;
    var span := t[pair.openEnd..last];
    assert span[10] == t[pair.openEnd + 10];
    QuoteCounts(span, 10);
    if pair.terminated {
      QuotesBetween(t, pair.openEnd, last, pair.closeEnd);
      assert t[last..pair.closeEnd] == [t[last]];
    }
  }

  /** A value that never closes is replaced to the end of the input. */
  lemma Unclosed(s: string, i: nat, pair: Pair)
    requires i < |s| && IsCandidate(s[i]) && StepAt(s, i).step == Replace(pair)
    ensures !pair.terminated ==> pair.closeEnd == |s| && ScanFrom(s, |s|).result == Text("", [])
  {
    hide *;
    var close, at, q := PairParts(s, i, pair);
    ScanEmpty(s);
  }

  lemma PairAgain(s: string, i: nat, pair: Pair, t: string, j: nat)
    requires i < |s| && IsCandidate(s[i]) && j <= |t| && StepAt(s, i).step == Replace(pair)
    requires i == pair.start < pair.openEnd <= pair.closeEnd <= |s|
    requires pair.terminated ==> pair.openEnd < pair.closeEnd
    requires ScanFrom(s, i).result.Text? && t[j..] == ScanFrom(s, i).result.output
    ensures Repeats(t, j, DropsSomeRun(s, ScanFrom(s, i).result.pairs))
    decreases |s| - i, 0
  {
    hide *;
    ScanStep(s, i);
    var rest := ScanFrom(s, pair.closeEnd).result;
    Unclosed(s, i, pair);
    ReplacedAgain(s, i, pair, t, j, rest.output);
    DropsFirstOrLater(s, pair, rest.pairs);
    if DropsRun(s, pair) {
      LosesQuote(t, j);
    } else {
      PairInOutput(s, pair, t, j, rest.output);
      ScanAgain(s, pair.closeEnd, t, StepAt(t, j).step.pair.closeEnd);
      MarkedAgain(t, j, DropsSomeRun(s, rest.pairs));
    }
  }

  // ---- Redacting twice ----

  lemma {:induction false} NothingToRedact(t: string, j: nat)
    requires j <= |t| && forall k | j <= k < |t| :: !IsCandidate(t[k])
    ensures ScanFrom(t, j) == Scanned(Text(t[j..], []), |t| - j)
    decreases |t| - j
  {
    if j < |t| {
      NothingToRedact(t, j + 1);
      var rest := ScanFrom(t, j + 1).result;
      assert t[j..] == [t[j]] + rest.output && [] + rest.pairs == [];
    } else {
      assert t[j..] == "";
    }
  }

  lemma MalformedMarkerLetter(k: nat)
    requires k < |MALFORMED_MARKER|
    ensures !IsCandidate(MALFORMED_MARKER[k])
  {
  }

  lemma ExhaustedMarkerLetter(k: nat)
    requires k < |BUDGET_EXHAUSTED_MARKER|
    ensures !IsCandidate(BUDGET_EXHAUSTED_MARKER[k])
  {
  }

  lemma MarkerStays(t: string)
    requires t == MALFORMED_MARKER || t == BUDGET_EXHAUSTED_MARKER
    ensures ScanFrom(t, 0) == Scanned(Text(t, []), |t|) && Quotes(t) == 0
  {
    hide *;
    forall k | 0 <= k < |t|
      ensures !IsCandidate(t[k]) && !IsQuote(t[k])
    {
      if t == MALFORMED_MARKER {
        MalformedMarkerLetter(k);
      } else {
        ExhaustedMarkerLetter(k);
      }
      QuotesAreCandidates(t[k]);
    }
    NothingToRedact(t, 0);
    assert t[0..] == t;
    NoQuotes(t);
  }

  lemma QuotesAreCandidates(c: char)
    ensures IsQuote(c) ==> IsCandidate(c)
  {
  }

  /** Some closed value of the input opens behind a backslash, so its replacement loses the closing run. */
  predicate LosesClosingRun(s: string) {
    ScanFrom(s, 0).result.Text? && DropsSomeRun(s, ScanFrom(s, 0).result.pairs)
  }

  /** For every input: redacting the result of an unlimited scan changes nothing exactly when no closing run is lost. */
  lemma RescanReturnsExactlyWhen(s: string)
    ensures var once := Rendered(ScanFrom(s, 0).result);
            Rendered(ScanFrom(once, 0).result) == once <==> !LosesClosingRun(s)
  {
    hide ScanFrom, Quotes, DropsSomeRun, MALFORMED_MARKER;
    var once := Rendered(ScanFrom(s, 0).result);
    MarkerStays(MALFORMED_MARKER);
    assert once[0..] == once;
    if ScanFrom(s, 0).result.Text? {
      ScanAgain(s, 0, once, 0);
    }
  }

  /**
   For every input of the production scan: its result is a fixed point exactly when the scan gave up, or no closing run
   was dropped and the shorter text still affords its own scan.
   */
  lemma RedactingTwiceExactlyWhen(s: string)
    ensures var once := WithBudget(s, 8 * |s|);
            WithBudget(once, 8 * |once|) == once <==>
            ScanFrom(s, 0).cost > 8 * |s| || (!LosesClosingRun(s) && ScanFrom(once, 0).cost <= 8 * |once|)
  {
    hide ScanFrom, Quotes, LosesClosingRun, BUDGET_EXHAUSTED_MARKER;
    var once := WithBudget(s, 8 * |s|);
    MarkerStays(BUDGET_EXHAUSTED_MARKER);
    RescanReturnsExactlyWhen(s);
  }

  // ---- Texts without backslashes ----

  lemma {:induction false} OutputIsPlain(s: string, i: nat)
    requires Plain(s) && i <= |s| && ScanFrom(s, i).result.Text?
    ensures Plain(ScanFrom(s, i).result.output)
    decreases |s| - i
  {
    hide StepAt, PairText, IsCandidate, ScanFrom;
    if i == |s| {
      ScanEmpty(s);
    } else {
      ScanStep(s, i);
      if !IsCandidate(s[i]) {
        OutputIsPlain(s, i + 1);
      } else {
        StepBounds(s, i);
        var step := StepAt(s, i).step;
        if step.Copy? {
          CopiedChunk(s, i);
          OutputIsPlain(s, step.next);
        } else {
          PairIsPlain(s, step.pair);
          OutputIsPlain(s, step.pair.closeEnd);
        }
      }
    }
  }

  lemma PairIsPlain(s: string, pair: Pair)
    requires Plain(s)
    requires pair.start <= pair.openEnd <= pair.closeEnd <= |s| && (pair.terminated ==> pair.openEnd < pair.closeEnd)
    ensures Plain(PairText(s, pair))
  {
    assert Plain(REDACTED);
    hide REDACTED;
  }

  lemma MarkerIsPlain()
    ensures Plain(MALFORMED_MARKER)
  {
    hide *;
    forall k | 0 <= k < |MALFORMED_MARKER|
      ensures MALFORMED_MARKER[k] != '\\'
    {
      MalformedMarkerLetter(k);
      BackslashIsCandidate();
    }
    PlainByIndex(MALFORMED_MARKER);
  }

  lemma BackslashIsCandidate()
    ensures IsCandidate('\\')
  {
  }

  lemma PlainByIndex(s: string)
    requires forall k | 0 <= k < |s| :: s[k] != '\\'
    ensures Plain(s)
  {
  }

  lemma PlainDropsNothing(s: string)
    requires Plain(s)
    ensures !LosesClosingRun(s)
  {
    hide ScanFrom;
    forall pair: Pair
      ensures !DropsRun(s, pair)
    {
      if 2 <= pair.openEnd <= |s| {
        assert s[pair.openEnd - 2] in s;
      }
    }
  }

  /** Without backslashes the production scan never gives up for lack of budget; redacting twice is redacting once. */
  lemma RedactingTwiceIsRedactingOnce(s: string)
    requires Plain(s)
    ensures var once := WithBudget(s, 8 * |s|);
            && once == Rendered(ScanFrom(s, 0).result)
            && Plain(once)
            && WithBudget(once, 8 * |once|) == once
  {
    hide ScanFrom, LosesClosingRun, Plain;
    PlainBudgetSuffices(s);
    var once := WithBudget(s, 8 * |s|);
    if ScanFrom(s, 0).result.Text? {
      OutputIsPlain(s, 0);
    } else {
      MarkerIsPlain();
    }
    PlainBudgetSuffices(once);
    PlainDropsNothing(s);
    RedactingTwiceExactlyWhen(s);
  }
}
