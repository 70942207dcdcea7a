/** A text that a second redaction changes. */
module HeaderTwice {
  import opened Prelude
  import opened HeaderSpec
  import opened HeaderCost
  import opened HeaderKeys
  import opened HeaderRescan
  import opened HeaderValues
  import opened HeaderIdempotence

  /** An escaped pair with an escaped value, and text behind it. */
  const ESCAPED_PAIR := "\\\"cookie\\\":\\\"x\\\" kept"
  /** Its replacement drops the backslash of the closing run. */

  const REDACTED_ONCE := "\\\"cookie\\\":\\\"[REDACTED]\" kept"
  /** So the value no longer closes, and a second redaction takes the text behind it. */
  const REDACTED_TWICE := "\\\"cookie\\\":\\\"[REDACTED]"

  predicate StartsEscapedPair(t: string) {
    |t| >= 13 && t[..13] == "\\\"cookie\\\":\\\""
  }

  lemma EscapedPairOpens(t: string)
    requires StartsEscapedPair(t)
    ensures KeyCloses(t, 0, CandidateEnd(t, 0), 10) && ValueOpens(t, 10, 11, 12)
    ensures IsCandidate(t[0]) && t[12] == '"' && CandidateEnd(t, 0) == 1
  {
    hide IsHeaderKey, SkipSpace;
    EscapedLetters(t);
    RunEndIs(t, 0, 1, |t|);
    FirstCandidateIs(t, 2, 8);
    CookieIsKey();
    assert t[2..8] == t[..13][2..8] == "cookie";
    EscapedSeparators(t);
    RunEndIs(t, 11, 12, |t|);
  }

  lemma EscapedLetters(t: string)
    requires StartsEscapedPair(t)
    ensures t[0] == t[8] == t[11] == '\\' && t[1] == t[9] == t[12] == '"' && t[10] == ':'
    ensures forall k | 2 <= k < 8 :: !IsCandidate(t[k])
  {
    var head := t[..13];
    assert forall k | 0 <= k < 13 :: t[k] == head[k];
  }

  lemma CookieIsKey()
    ensures IsHeaderKey("cookie")
  {
    assert LowerAll("cookie") == "cookie";
  }

  lemma EscapedSeparators(t: string)
    requires |t| >= 13 && t[10] == ':' && t[11] == '\\' && t[12] == '"'
    ensures ColonAt(t, 10).at == 10 && ColonAt(t, 11).at == 11
  {
    RunEndIs(t, 11, 12, ScanLimit(t, 11, SEPARATOR_SCAN_LENGTH));
  }

  /** A pair at the front and no candidate behind it. */
  lemma OnePairThenPlain(s: string, pair: Pair)
    requires |s| > 0 && IsCandidate(s[0]) && StepAt(s, 0).step == Replace(pair)
    requires pair.start <= pair.openEnd <= pair.closeEnd <= |s| && (pair.terminated ==> pair.openEnd < pair.closeEnd)
    requires forall k | pair.closeEnd <= k < |s| :: !IsCandidate(s[k])
    ensures Rendered(ScanFrom(s, 0).result) == PairText(s, pair) + s[pair.closeEnd..]
    ensures ScanFrom(s, 0).cost == 1 + StepAt(s, 0).cost + (|s| - pair.closeEnd)
  {
    hide StepAt, IsCandidate, PairText;
    NothingToRedact(s, pair.closeEnd);
  }

  lemma EscapedPairCost(s: string)
    requires |s| >= 10 && IsCandidate(s[0]) && CandidateEnd(s, 0) == 1 && KeyCloses(s, 0, CandidateEnd(s, 0), 10)
    ensures StepAt(s, 0).cost <= 2 * |s| + 27
  {
    hide *;
    StepCostAtKey(s, 0, 10);
    ValueCost(s, 10);
  }

  lemma RunCloses(s: string, c: nat)
    requires c + 3 <= |s| && s[c + 1] == '\\' && s[c + 2] == '"' && !IsCandidate(s[c])
    ensures BodyEnd(s, c, 1, '"', |s|).at == Some(c + 1)
  {
    RunEndIs(s, c + 1, c + 2, |s|);
  }

  /** Without a backslash a body that needs one never closes. */
  lemma {:induction false} BareNeverCloses(s: string, c: nat)
    requires c <= |s| && forall k | c <= k < |s| :: s[k] != '\\'
    ensures BodyEnd(s, c, 1, '"', |s|).at.None?
    decreases |s| - c
  {
    if c < |s| {
      BareNeverCloses(s, c + 1);
    }
  }

  lemma FirstText()
    ensures StartsEscapedPair(ESCAPED_PAIR) && |ESCAPED_PAIR| == 21
    ensures ESCAPED_PAIR[14] == '\\' && ESCAPED_PAIR[15] == '"' && !IsCandidate(ESCAPED_PAIR[13])
    ensures forall k | 16 <= k < 21 :: !IsCandidate(ESCAPED_PAIR[k])
  {
  }

  lemma FirstOutput()
    ensures |ESCAPED_PAIR| == 21 && PairText(ESCAPED_PAIR, Pair(0, 13, 16, true)) + ESCAPED_PAIR[16..] == REDACTED_ONCE
  {
  }

  lemma FirstRedaction()
    ensures WithBudget(ESCAPED_PAIR, 8 * |ESCAPED_PAIR|) == REDACTED_ONCE
  {
    hide *;
    FirstText();
    FirstOutput();
    EscapedPairOpens(ESCAPED_PAIR);
    RunCloses(ESCAPED_PAIR, 13);
    KeyAndValueReplace(ESCAPED_PAIR, 0, 10, 11, 12);
    OnePairThenPlain(ESCAPED_PAIR, Pair(0, 13, 16, true));
    EscapedPairCost(ESCAPED_PAIR);
    WithinBudget(ESCAPED_PAIR, 8 * |ESCAPED_PAIR|);
  }

  lemma SecondText()
    ensures StartsEscapedPair(REDACTED_ONCE) && |REDACTED_ONCE| == 29
    ensures forall k | 13 <= k < 29 :: REDACTED_ONCE[k] != '\\'
  {
  }

  lemma SecondOutput()
    ensures |REDACTED_ONCE| == 29
    ensures PairText(REDACTED_ONCE, Pair(0, 13, 29, false)) + REDACTED_ONCE[29..] == REDACTED_TWICE
  {
  }

  lemma SecondRedaction()
    ensures WithBudget(REDACTED_ONCE, 8 * |REDACTED_ONCE|) == REDACTED_TWICE
  {
    hide *;
    SecondText();
    SecondOutput();
    EscapedPairOpens(REDACTED_ONCE);
    BareNeverCloses(REDACTED_ONCE, 13);
    KeyAndValueReplace(REDACTED_ONCE, 0, 10, 11, 12);
    OnePairThenPlain(REDACTED_ONCE, Pair(0, 13, 29, false));
    EscapedPairCost(REDACTED_ONCE);
    WithinBudget(REDACTED_ONCE, 8 * |REDACTED_ONCE|);
  }

  /** With the production budget: the second redaction takes the text that the first one kept. */
  lemma RedactingTwiceLosesText()
    ensures WithBudget(ESCAPED_PAIR, 8 * |ESCAPED_PAIR|) == REDACTED_ONCE
    ensures WithBudget(REDACTED_ONCE, 8 * |REDACTED_ONCE|) == REDACTED_TWICE != REDACTED_ONCE
  {
    FirstRedaction();
    SecondRedaction();
    assert |REDACTED_TWICE| < |REDACTED_ONCE|;
  }
}
