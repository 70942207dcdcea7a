/** What a second scan makes of the output of a first one. */
module HeaderRescan {
  import opened Prelude
  import opened HeaderSpec
  import opened HeaderKeys

  // ---- Quotes ----

  function Quotes(s: string): nat {
    if s == "" then 0 else (if IsQuote(s[0]) then 1 else 0) + Quotes(s[1..])
  }

  lemma {:induction false} QuotesConcat(a: string, b: string)
    ensures Quotes(a + b) == Quotes(a) + Quotes(b)
  {
    if a == "" {
      assert a + b == b;
    } else {
      assert (a + b)[0] == a[0] && (a + b)[1..] == a[1..] + b;
      QuotesConcat(a[1..], b);
    }
  }

  lemma QuotesSplit(s: string, i: nat, k: nat)
    requires i <= k <= |s|
    ensures Quotes(s[i..]) == Quotes(s[i..k]) + Quotes(s[k..])
  {
    assert s[i..] == s[i..k] + s[k..];
    QuotesConcat(s[i..k], s[k..]);
  }

  lemma QuotesBetween(s: string, i: nat, k: nat, l: nat)
    requires i <= k <= l <= |s|
    ensures Quotes(s[i..l]) == Quotes(s[i..k]) + Quotes(s[k..l])
  {
    assert s[i..l] == s[i..k] + s[k..l];
    QuotesConcat(s[i..k], s[k..l]);
  }

  lemma {:induction false} QuoteCounts(s: string, k: nat)
    requires k < |s| && IsQuote(s[k])
    ensures Quotes(s) >= 1
  {
    if k > 0 {
      QuoteCounts(s[1..], k - 1);
    }
  }

  lemma MarkerLetter(k: nat)
    requires k < |REDACTED|
    ensures |REDACTED| == 10 && !IsCandidate(REDACTED[k])
  {
  }

  lemma MarkerHasNoQuote()
    ensures Quotes(REDACTED) == 0 && |REDACTED| == 10
    ensures forall k | 0 <= k < 10 :: !IsCandidate(REDACTED[k])
  {
    assert |REDACTED| == 10;
    hide REDACTED, Quotes;
    forall k | 0 <= k < 10
      ensures !IsCandidate(REDACTED[k])
    {
      MarkerLetter(k);
    }
    NoQuotes(REDACTED);
  }

  lemma {:induction false} NoQuotes(s: string)
    requires forall k | 0 <= k < |s| :: !IsQuote(s[k])
    ensures Quotes(s) == 0
  {
    if s != "" {
      NoQuotes(s[1..]);
    }
  }

  /** The replaced text of a pair keeps the quotes before the value, and the closing one. */
  lemma PairQuotes(s: string, pair: Pair)
    requires pair.start <= pair.openEnd <= pair.closeEnd <= |s| && (pair.terminated ==> pair.openEnd < pair.closeEnd)
    ensures Quotes(PairText(s, pair))
         == Quotes(s[pair.start..pair.openEnd]) + if pair.terminated then Quotes([s[pair.closeEnd - 1]]) else 0
  {
    MarkerHasNoQuote();
    hide REDACTED;
    var head := s[pair.start..pair.openEnd];
    QuotesConcat(head, REDACTED);
    if pair.terminated {
      assert s[pair.closeEnd - 1..pair.closeEnd] == [s[pair.closeEnd - 1]];
      QuotesConcat(head + REDACTED, [s[pair.closeEnd - 1]]);
    } else {
      assert head + REDACTED + "" == head + REDACTED;
    }
  }

  lemma PairQuotesFewer(s: string, pair: Pair)
    requires pair.start <= pair.openEnd <= pair.closeEnd <= |s| && (pair.terminated ==> pair.openEnd < pair.closeEnd)
    ensures Quotes(PairText(s, pair)) <= Quotes(s[pair.start..pair.closeEnd])
  {
    hide PairText, Quotes;
    PairQuotes(s, pair);
    QuotesBetween(s, pair.start, pair.openEnd, pair.closeEnd);
    if pair.terminated {
      QuotesBetween(s, pair.openEnd, pair.closeEnd - 1, pair.closeEnd);
      assert s[pair.closeEnd - 1..pair.closeEnd] == [s[pair.closeEnd - 1]];
    }
  }

  // ---- One step of a scan ----

  lemma ScanStep(s: string, i: nat)
    requires i < |s| && ScanFrom(s, i).result.Text?
    ensures !IsCandidate(s[i]) ==>
              && ScanFrom(s, i + 1).result.Text?
              && ScanFrom(s, i).result.output == [s[i]] + ScanFrom(s, i + 1).result.output
              && ScanFrom(s, i).result.pairs == ScanFrom(s, i + 1).result.pairs
    ensures IsCandidate(s[i]) ==>
              var step := StepAt(s, i).step;
              && !step.Stop?
              && (step.Copy? ==>
                    && ScanFrom(s, step.next).result.Text?
                    && ScanFrom(s, i).result.output == step.chunk + ScanFrom(s, step.next).result.output
                    && ScanFrom(s, i).result.pairs == ScanFrom(s, step.next).result.pairs)
              && (step.Replace? ==>
                    && ScanFrom(s, step.pair.closeEnd).result.Text?
                    && ScanFrom(s, i).result.output
                       == PairText(s, step.pair) + ScanFrom(s, step.pair.closeEnd).result.output
                    && ScanFrom(s, i).result.pairs == [step.pair] + ScanFrom(s, step.pair.closeEnd).result.pairs)
  {
    hide StepAt, PairText, IsCandidate;
  }

  lemma ScanEmpty(s: string)
    ensures ScanFrom(s, |s|).result == Text("", [])
  {
  }

  /** What a candidate is copied as, and what a replaced one is a pair of. */
  lemma StepShape(s: string, i: nat)
    requires i < |s| && IsCandidate(s[i])
    ensures var end := CandidateEnd(s, i); var step := StepAt(s, i).step;
            && (step.Copy? <==> !OpensKey(s, i, end))
            && (step.Copy? ==> step == (if i < end then Copy(s[i..end], end) else Copy([s[i]], i + 1)))
            && (step.Replace? ==>
                  && step.pair.start == i && end + 1 < step.pair.openEnd
                  && MatchValue(s, KeyEnd(s, i, end).at.value + (end - i) + 1).result
                     == Redact(step.pair.openEnd, step.pair.closeEnd, step.pair.terminated))
  {
    hide MatchValue, KeyEnd, RunEnd, IsHeaderKey;
  }

  lemma KeyOpens(s: string, i: nat)
    requires i < |s| && IsCandidate(s[i]) && OpensKey(s, i, CandidateEnd(s, i))
    ensures var end := CandidateEnd(s, i);
            var value := MatchValue(s, KeyEnd(s, i, end).at.value + (end - i) + 1).result;
            StepAt(s, i).step
            == if value.Redact? then Replace(Pair(i, value.openEnd, value.closeEnd, value.terminated)) else Stop
  {
    hide MatchValue, KeyEnd, RunEnd, IsHeaderKey;
  }

  /** A scan's output starts with the character it starts at. */
  lemma FirstCharacter(s: string, i: nat)
    requires i < |s| && ScanFrom(s, i).result.Text?
    ensures ScanFrom(s, i).result.output != "" && ScanFrom(s, i).result.output[0] == s[i]
  {
    hide OpensKey, MatchValue, KeyEnd, ScanFrom, MatchHeader;
    ScanStep(s, i);
    if IsCandidate(s[i]) {
      StepShape(s, i);
      hide StepAt;
    }
  }

  // ---- What is copied whatever happens behind it ----

  /** The end of the text up to the next candidate, with its run and the character behind it. */
  function Reach(s: string, i: nat): (reach: nat)
    requires i <= |s|
    ensures i <= reach <= |s|
  {
    var f := FirstCandidate(s, i);
    if f == |s| || CandidateEnd(s, f) == |s| then |s| else CandidateEnd(s, f) + 1
  }

  predicate ReachesEnd(s: string, i: nat)
    requires i <= |s|
  {
    FirstCandidate(s, i) == |s| || CandidateEnd(s, FirstCandidate(s, i)) == |s|
  }

  /** The output agrees with the input up to there, and has no more if the input has no more. */
  ghost predicate Copied(s: string, i: nat, output: string)
    requires i <= |s|
  {
    && Agree(s, i, output, 0, Reach(s, i) - i)
    && (ReachesEnd(s, i) ==> |output| == |s| - i)
  }

  lemma {:induction false} CopiesThroughCandidate(s: string, i: nat)
    requires i <= |s| && ScanFrom(s, i).result.Text?
    ensures Copied(s, i, ScanFrom(s, i).result.output)
    decreases |s| - i
  {
    hide ScanFrom, StepAt, IsCandidate, CandidateEnd;
    if i == |s| {
      ScanEmpty(s);
    } else {
      ScanStep(s, i);
      var output := ScanFrom(s, i).result.output;
      if !IsCandidate(s[i]) {
        CopiesThroughCandidate(s, i + 1);
        CopiedOneMore(s, i, ScanFrom(s, i + 1).result.output);
      } else {
        CandidateCopied(s, i);
      }
    }
  }

  lemma CopiedOneMore(s: string, i: nat, rest: string)
    requires i < |s| && !IsCandidate(s[i]) && Copied(s, i + 1, rest)
    ensures Copied(s, i, [s[i]] + rest)
  {
    hide CandidateEnd;
    var m := Reach(s, i) - i;
    assert Reach(s, i) == Reach(s, i + 1);
    assert s[i..i + m] == [s[i]] + s[i + 1..i + m];
    assert ([s[i]] + rest)[..m] == [s[i]] + rest[..m - 1];
  }

  lemma CandidateCopied(s: string, i: nat)
    requires i < |s| && IsCandidate(s[i]) && ScanFrom(s, i).result.Text?
    ensures Copied(s, i, ScanFrom(s, i).result.output)
  {
    hide ScanFrom, StepAt, MatchHeader, OpensKey, MatchValue, KeyEnd, PairText, RunEnd, Copied, CandidateEnd;
    ScanStep(s, i);
    StepShape(s, i);
    var output, end, step := ScanFrom(s, i).result.output, CandidateEnd(s, i), StepAt(s, i).step;
    if step.Replace? {
      hide Agree;
      PairHead(s, step.pair, ScanFrom(s, step.pair.closeEnd).result.output);
      AgreeShorter(s, i, output, 0, step.pair.openEnd - i, end + 1 - i);
      CopiedWith(s, i, output);
    } else if end == i {
      AgreeFirst(s, i, ScanFrom(s, i + 1).result.output);
      CopiedWith(s, i, output);
    } else {
      RunCopied(s, i, end, output, ScanFrom(s, end).result.output);
      CopiedWith(s, i, output);
    }
  }

  lemma CopiedWith(s: string, i: nat, output: string)
    requires i < |s| && IsCandidate(s[i])
    requires CandidateEnd(s, i) < |s| ==> Agree(s, i, output, 0, CandidateEnd(s, i) + 1 - i)
    requires CandidateEnd(s, i) == |s| ==> Agree(s, i, output, 0, |s| - i) && |output| == |s| - i
    ensures Copied(s, i, output)
  {
    hide CandidateEnd, Agree;
  }

  lemma RunCopied(s: string, i: nat, end: nat, output: string, rest: string)
    requires i < end <= |s| && output == s[i..end] + rest
    requires ScanFrom(s, end).result.Text? && rest == ScanFrom(s, end).result.output
    ensures end < |s| ==> Agree(s, i, output, 0, end + 1 - i)
    ensures end == |s| ==> Agree(s, i, output, 0, end - i) && |output| == end - i
  {
    hide *;
    if end < |s| {
      FirstCharacter(s, end);
      AgreeThrough(s, i, end, rest);
    } else {
      ScanEmpty(s);
      AgreeUpTo(s, i, end, rest);
    }
  }

  lemma AgreeFirst(s: string, i: nat, rest: string)
    requires i < |s|
    ensures Agree(s, i, [s[i]] + rest, 0, 1)
  {
    assert ([s[i]] + rest)[0..0 + 1] == [s[i]] == s[i..i + 1];
  }

  lemma AgreeThrough(s: string, i: nat, end: nat, rest: string)
    requires i <= end < |s| && rest != "" && rest[0] == s[end]
    ensures Agree(s, i, s[i..end] + rest, 0, end + 1 - i)
  {
    assert (s[i..end] + rest)[0..0 + (end + 1 - i)] == s[i..end] + [rest[0]] == s[i..end + 1];
  }

  lemma AgreeUpTo(s: string, i: nat, end: nat, rest: string)
    requires i <= end <= |s|
    ensures Agree(s, i, s[i..end] + rest, 0, end - i)
  {
    assert (s[i..end] + rest)[0..0 + (end - i)] == s[i..end];
  }

  lemma PairHead(s: string, pair: Pair, rest: string)
    requires pair.start <= pair.openEnd <= pair.closeEnd <= |s| && (pair.terminated ==> pair.openEnd < pair.closeEnd)
    ensures Agree(s, pair.start, PairText(s, pair) + rest, 0, pair.openEnd - pair.start)
  {
    var m := pair.openEnd - pair.start;
    assert (PairText(s, pair) + rest)[0..0 + m] == s[pair.start..pair.openEnd];
  }

  // ---- A candidate that is copied is copied again ----

  /** No key opens at a copied candidate after the values behind it were replaced. */
  lemma CopyAgain(s: string, i: nat, t: string, j: nat)
    requires i < |s| && IsCandidate(s[i]) && ScanFrom(s, i).result.Text? && StepAt(s, i).step.Copy?
    requires j <= |t| && t[j..] == ScanFrom(s, i).result.output
    ensures j < |t| && IsCandidate(t[j]) && t[j] == s[i]
    ensures CandidateEnd(t, j) - j == CandidateEnd(s, i) - i
    ensures StepAt(t, j).step.Copy? && |StepAt(t, j).step.chunk| == StepAt(s, i).step.next - i
    ensures StepAt(t, j).step.next - j == StepAt(s, i).step.next - i
    ensures StepAt(t, j).step.chunk == t[j..StepAt(t, j).step.next]
    ensures t[StepAt(t, j).step.next..] == ScanFrom(s, StepAt(s, i).step.next).result.output
  {
    hide ScanFrom, StepAt, MatchHeader, OpensKey, MatchValue, KeyEnd, IsHeaderKey, FirstCandidate;
    var next, end := StepAt(s, i).step.next, CandidateEnd(s, i);
    ScanStep(s, i);
    StepShape(s, i);
    SameCandidate(s, i, t, j);
    if OpensKey(t, j, CandidateEnd(t, j)) {
      OpensKeyIsKeyText(t, j, CandidateEnd(t, j));
      KeyWasThere(s, i, t, j);
      OpensKeyIsKeyText(s, i, end);
    }
    StepShape(t, j);
    var rest := ScanFrom(s, next).result.output;
    assert t[j..][next - i..] == rest;
  }

  lemma SameCandidate(s: string, i: nat, t: string, j: nat)
    requires i < |s| && IsCandidate(s[i]) && ScanFrom(s, i).result.Text?
    requires j <= |t| && t[j..] == ScanFrom(s, i).result.output
    ensures j < |t| && t[j] == s[i] && CandidateEnd(t, j) - j == CandidateEnd(s, i) - i
    ensures CandidateEnd(s, i) < |s| ==> CandidateEnd(t, j) < |t| && t[CandidateEnd(t, j)] == s[CandidateEnd(s, i)]
    ensures CandidateEnd(s, i) == |s| ==> CandidateEnd(t, j) == |t|
  {
    hide ScanFrom, RunEnd, FirstCandidate;
    CopiesThroughCandidate(s, i);
    assert FirstCandidate(s, i) == i;
    var end := CandidateEnd(s, i);
    var m := Reach(s, i) - i;
    assert t[j..][..m] == t[j..j + m];
    assert Agree(s, i, t, j, m);
    AgreeAll(s, i, t, j, m);
    assert t[j] == s[j - j + i];
    if s[i] == '\\' {
      forall k | j <= k < j + (end - i)
        ensures t[k] == '\\'
      {
        assert t[k] == s[k - j + i];
      }
      if end < |s| {
        assert t[j + (end - i)] == s[end];
      }
      RunEndIs(t, j, j + (end - i), |t|);
    }
  }

  /** A key that opens in the output opened in the input. */
  lemma KeyWasThere(s: string, i: nat, t: string, j: nat)
    requires i < |s| && IsCandidate(s[i]) && ScanFrom(s, i).result.Text? && StepAt(s, i).step.Copy?
    requires j < |t| && t[j..] == ScanFrom(s, i).result.output && t[j] == s[i]
    requires CandidateEnd(t, j) - j == CandidateEnd(s, i) - i
    requires KeyText(t, j, CandidateEnd(t, j))
    ensures KeyText(s, i, CandidateEnd(s, i))
  {
    hide *;
    var end, e := CandidateEnd(s, i), CandidateEnd(t, j);
    SameCandidate(s, i, t, j);
    KeyTextParts(t, j, e);
    AgreesOnKey(s, i, t, j);
    AgreeSwap(s, i, t, j, KeyLengthAt(t, j, e));
    KeyIsLocal(t, j, e, s, i);
  }

  /** The texts agree as far as a key in the output can need. */
  lemma AgreesOnKey(s: string, i: nat, t: string, j: nat)
    requires i < |s| && IsCandidate(s[i]) && ScanFrom(s, i).result.Text? && StepAt(s, i).step.Copy?
    requires j < |t| && t[j..] == ScanFrom(s, i).result.output
    requires CandidateEnd(t, j) - j == CandidateEnd(s, i) - i
    requires CandidateEnd(s, i) < |s| && CandidateEnd(t, j) < |t|
    requires t[CandidateEnd(t, j)] == s[CandidateEnd(s, i)]
    requires KeyText(t, j, CandidateEnd(t, j))
    ensures Agree(s, i, t, j, KeyLengthAt(t, j, CandidateEnd(t, j)))
  {
    hide *;
    var end, e := CandidateEnd(s, i), CandidateEnd(t, j);
    QuoteIsCopied(s, i, t, j);
    KeyTextParts(t, j, e);
    CopiesThroughCandidate(s, end + 1);
    var m := KeyLengthAt(t, j, e);
    BodyAgrees(s, end, t, e, m - (e - j), e - j);
    RunAgrees(s, i, end, t, j, e, m);
  }

  /** In front of a key in the output stands a quote that was copied, not the start of a pair. */
  lemma QuoteIsCopied(s: string, i: nat, t: string, j: nat)
    requires i < |s| && IsCandidate(s[i]) && ScanFrom(s, i).result.Text? && StepAt(s, i).step.Copy?
    requires j < |t| && t[j..] == ScanFrom(s, i).result.output
    requires CandidateEnd(t, j) - j == CandidateEnd(s, i) - i
    requires CandidateEnd(s, i) < |s| && CandidateEnd(t, j) < |t|
    requires t[CandidateEnd(t, j)] == s[CandidateEnd(s, i)]
    requires KeyText(t, j, CandidateEnd(t, j))
    ensures s[i..CandidateEnd(s, i)] == t[j..CandidateEnd(t, j)]
    ensures ScanFrom(s, CandidateEnd(s, i) + 1).result.Text?
    ensures t[CandidateEnd(t, j) + 1..] == ScanFrom(s, CandidateEnd(s, i) + 1).result.output
  {
    hide ScanFrom, StepAt, RunEnd, FirstCandidate, IsHeaderKey, MatchHeader, OpensKey, Agree, MatchValue, KeyEnd,
         PairText,
         KeyText;
    var end, e := CandidateEnd(s, i), CandidateEnd(t, j);
    ScanStep(s, i);
    StepShape(s, i);
    KeyTextQuote(t, j, e);
    if end == i {
      BehindChunk(t, j, [s[i]], ScanFrom(s, i + 1).result.output);
      assert s[i..end] == [] == t[j..e];
    } else {
      BehindChunk(t, j, s[i..end], ScanFrom(s, end).result.output);
      BareQuote(s, end, t, j, e);
      BehindChunk(t, e, [s[end]], ScanFrom(s, end + 1).result.output);
    }
  }

  lemma KeyTextParts(t: string, j: nat, e: nat)
    requires KeyText(t, j, e)
    ensures j <= e && QuoteAfter(t, e) && e < |t| && FirstCandidate(t, e + 1) + (e - j) < |t|
    ensures KeyLengthAt(t, j, e) == FirstCandidate(t, e + 1) + (e - j) + 1 - j
    ensures forall k | FirstCandidate(t, e + 1) <= k < FirstCandidate(t, e + 1) + (e - j) :: t[k] == '\\'
    ensures IsQuote(t[FirstCandidate(t, e + 1) + (e - j)])
  {
    hide FirstCandidate, IsHeaderKey;
  }

  lemma KeyTextQuote(t: string, j: nat, e: nat)
    ensures KeyText(t, j, e) ==> e < |t| && IsQuote(t[e])
  {
    hide FirstCandidate, IsHeaderKey;
  }

  lemma BehindChunk(t: string, j: nat, chunk: string, rest: string)
    requires j <= |t| && t[j..] == chunk + rest
    ensures j + |chunk| <= |t| && t[j..j + |chunk|] == chunk && t[j + |chunk|..] == rest
  {
    assert t[j..][..|chunk|] == t[j..j + |chunk|];
    assert t[j..][|chunk|..] == t[j + |chunk|..];
  }

  /** Behind a copied run, the quote of the output's key is copied too. */
  lemma BareQuote(s: string, end: nat, t: string, j: nat, e: nat)
    requires end < |s| && IsQuote(s[end]) && j < e < |t| && KeyText(t, j, e)
    requires ScanFrom(s, end).result.Text? && t[e..] == ScanFrom(s, end).result.output
    ensures ScanFrom(s, end + 1).result.Text?
    ensures ScanFrom(s, end).result.output == [s[end]] + ScanFrom(s, end + 1).result.output
  {
    hide ScanFrom, StepAt, RunEnd, MatchHeader, OpensKey, MatchValue, KeyEnd, PairText, KeyText;
    ScanStep(s, end);
    StepShape(s, end);
    if StepAt(s, end).step.Replace? {
      NoBareKeyInside(s, end, t, j, e, StepAt(s, end).step.pair);
    }
  }

  /** A bare quote that starts a pair closes its key with a bare quote, and a run is needed here. */
  lemma NoBareKeyInside(s: string, end: nat, t: string, j: nat, e: nat, pair: Pair)
    requires end < |s| && IsQuote(s[end]) && IsCandidate(s[end]) && CandidateEnd(s, end) == end
    requires StepAt(s, end).step == Replace(pair) && j < e < |t|
    requires ScanFrom(s, pair.closeEnd).result.Text?
    requires t[e..] == PairText(s, pair) + ScanFrom(s, pair.closeEnd).result.output
    ensures !KeyText(t, j, e)
  {
    hide *;
    KeyBeforeValue(s, end, pair);
    PairHead(s, pair, ScanFrom(s, pair.closeEnd).result.output);
    AgreeMoved(s, end, t, e, pair.openEnd - end, t[e..]);
    BareKeyIsCopied(s, end, t, e, pair.openEnd - end);
    NeedsRun(t, j, e);
  }

  lemma NeedsRun(t: string, j: nat, e: nat)
    requires j < e < |t| && FirstCandidate(t, e + 1) < |t| && IsQuote(t[FirstCandidate(t, e + 1)])
    ensures !KeyText(t, j, e)
  {
    hide FirstCandidate, IsHeaderKey;
  }

  lemma BareKeyIsCopied(s: string, end: nat, t: string, e: nat, m: nat)
    requires KeyText(s, end, end) && Agree(s, end, t, e, m) && FirstCandidate(s, end + 1) + 1 < end + m
    ensures e < |t| && FirstCandidate(t, e + 1) < |t| && IsQuote(t[FirstCandidate(t, e + 1)])
  {
    hide IsHeaderKey, Agree, FirstCandidate;
    AgreeAll(s, end, t, e, m);
    var close := FirstCandidate(s, end + 1);
    var at := e + (close - end);
    assert t[at] == s[at - e + end];
    forall k | e + 1 <= k < at
      ensures !IsCandidate(t[k])
    {
      assert t[k] == s[k - e + end];
    }
    FirstCandidateIs(t, e + 1, at);
  }

  lemma AgreeMoved(s: string, i: nat, t: string, e: nat, m: nat, output: string)
    requires e <= |t| && t[e..] == output && Agree(s, i, output, 0, m)
    ensures Agree(s, i, t, e, m)
  {
    assert t[e..e + m] == t[e..][0..0 + m];
  }

  /** The value opens behind the key's close. */
  lemma KeyBeforeValue(s: string, i: nat, pair: Pair)
    requires i < |s| && IsCandidate(s[i]) && StepAt(s, i).step == Replace(pair)
    ensures var end := CandidateEnd(s, i);
            && pair.start == i && KeyText(s, i, end)
            && FirstCandidate(s, end + 1) + (end - i) + 1 < pair.openEnd
  {
    hide StepAt, MatchValue, KeyEnd, RunEnd, FirstCandidate, IsHeaderKey, OpensKey;
    StepShape(s, i);
    OpensKeyIsKeyText(s, i, CandidateEnd(s, i));
    OpenKeyCloses(s, i, CandidateEnd(s, i));
    ValueBehind(s, KeyEnd(s, i, CandidateEnd(s, i)).at.value + (CandidateEnd(s, i) - i) + 1);
  }

  lemma OpenKeyCloses(s: string, i: nat, end: nat)
    requires OpensKey(s, i, end)
    ensures QuoteAfter(s, end) && KeyEnd(s, i, end).at.Some?
  {
  }

  lemma ValueBehind(s: string, closeEnd: nat)
    requires closeEnd <= |s|
    ensures MatchValue(s, closeEnd).result.Redact? ==> closeEnd < MatchValue(s, closeEnd).result.openEnd
  {
  }

  /** Behind a copied quote the texts agree through the body of a key, its closing run and its closing quote. */
  lemma BodyAgrees(s: string, end: nat, t: string, e: nat, m: nat, depth: nat)
    requires end < |s| && e < |t| && t[e] == s[end]
    requires Copied(s, end + 1, t[e + 1..])
    requires QuoteAfter(t, e) && FirstCandidate(t, e + 1) + depth < |t|
    requires m == FirstCandidate(t, e + 1) + depth + 1 - e
    requires forall k | FirstCandidate(t, e + 1) <= k < FirstCandidate(t, e + 1) + depth :: t[k] == '\\'
    requires IsQuote(t[FirstCandidate(t, e + 1) + depth])
    ensures Agree(s, end, t, e, m)
  {
    hide *;
    CopiedMoved(s, end, t, e);
    SameFirstCandidate(s, end, t, e);
    RunReached(s, FirstCandidate(s, end + 1), t, FirstCandidate(t, e + 1), depth, e, end);
    AgreeShorter(s, end + 1, t, e + 1, Reach(s, end + 1) - (end + 1), m - 1);
    AgreeFront(s, end, t, e, m);
  }

  lemma CopiedMoved(s: string, end: nat, t: string, e: nat)
    requires end < |s| && e < |t| && Copied(s, end + 1, t[e + 1..])
    ensures Agree(s, end + 1, t, e + 1, Reach(s, end + 1) - (end + 1))
  {
    hide Reach, Agree;
    AgreeMoved(s, end + 1, t, e + 1, Reach(s, end + 1) - (end + 1), t[e + 1..]);
  }

  /** The candidate of the output is where the texts still agree, so it is the input's. */
  lemma SameFirstCandidate(s: string, end: nat, t: string, e: nat)
    requires end < |s| && e < |t| && Copied(s, end + 1, t[e + 1..]) && FirstCandidate(t, e + 1) < |t|
    ensures FirstCandidate(s, end + 1) < |s| && IsCandidate(s[FirstCandidate(s, end + 1)])
    ensures FirstCandidate(t, e + 1) - e == FirstCandidate(s, end + 1) - end
  {
    hide CandidateEnd, Agree, IsCandidate;
    var n := Reach(s, end + 1) - (end + 1);
    CopiedMoved(s, end, t, e);
    AgreeAll(s, end + 1, t, e + 1, n);
    var f, g := FirstCandidate(s, end + 1), FirstCandidate(t, e + 1);
    forall k | e + 1 <= k < e + (f - end) && k < |t|
      ensures !IsCandidate(t[k])
    {
      assert t[k] == s[k - e + end];
    }
    if f < |s| {
      assert t[f - end + e] == s[f];
    }
  }

  lemma AgreeFront(s: string, end: nat, t: string, e: nat, m: nat)
    requires end < |s| && e < |t| && t[e] == s[end] && m >= 1 && Agree(s, end + 1, t, e + 1, m - 1)
    ensures Agree(s, end, t, e, m)
  {
    assert s[end..end + m] == [s[end]] + s[end + 1..end + m];
    assert t[e..e + m] == [t[e]] + t[e + 1..e + m];
  }

  /** The closing run of the output's key is the input's whole run, and the quote behind it is reached. */
  lemma RunReached(s: string, f: nat, t: string, g: nat, depth: nat, e: nat, end: nat)
    requires end < f < |s| && e < g && g - e == f - end && g + depth < |t| && IsCandidate(s[f])
    requires f == FirstCandidate(s, end + 1) && Copied(s, end + 1, t[e + 1..])
    requires forall k | g <= k < g + depth :: t[k] == '\\'
    requires IsQuote(t[g + depth])
    ensures Reach(s, end + 1) >= f + depth + 1
  {
    hide FirstCandidate, RunEnd;
    var n := Reach(s, end + 1) - (end + 1);
    CopiedMoved(s, end, t, e);
    AgreeAll(s, end + 1, t, e + 1, n);
    var h := CandidateEnd(s, f);
    forall k | f <= k < f + depth && k < Reach(s, end + 1)
      ensures s[k] == '\\'
    {
      assert t[k - f + g] == s[k - f + g - e + end];
    }
    if h < |s| {
      RunStops(s, f);
    }
  }

  lemma RunStops(s: string, f: nat)
    requires f < |s| && CandidateEnd(s, f) < |s|
    ensures s[CandidateEnd(s, f)] != '\\'
  {
  }

  lemma RunAgrees(s: string, i: nat, end: nat, t: string, j: nat, e: nat, m: nat)
    requires i <= end <= |s| && j <= e <= |t| && s[i..end] == t[j..e] && e - j <= m
    requires Agree(s, end, t, e, m - (e - j))
    ensures Agree(s, i, t, j, m)
  {
    assert |s[i..end]| == |t[j..e]|;
    assert s[i..i + m] == s[i..end] + s[end..i + m];
    assert t[j..j + m] == t[j..e] + t[e..j + m];
  }
}
