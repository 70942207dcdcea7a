/** What production redaction does to a quoted key with a quoted value, in plain text. */
module HeaderPromises {
  import opened Prelude
  import opened HeaderSpec
  import opened HeaderCost
  import opened HeaderKeys
  import opened HeaderRescan
  import opened HeaderValues
  import opened HeaderIdempotence
  import opened HeaderNames

  // ---- A header is redacted ----

  lemma BareDelimiter()
    ensures Delimiter("\"") && |"\""| == 1 && "\""[0] == '"' && Separator("") && ["\""[0]] == "\""
  {
  }

  lemma PlainHeader(before: string, k: string, value: string, after: string)
    ensures before + HeaderText("\"", k, "", "", "\"", value, after)
         == before + "\"" + k + "\":\"" + value + "\"" + after
    ensures before + RedactedText("\"", k, "", "", "\"", after)
         == before + "\"" + k + "\":\"[REDACTED]\"" + after
  {
    var tail := value + ("\"" + after);
    assert "\"" + ("" + (":" + ("" + ("\"" + tail)))) == "\":\"" + tail;
    assert before + "\"" + k + "\":\"" + value + "\"" + after == before + ("\"" + (k + ("\":\"" + tail)));
    var closed := "[REDACTED]" + (["\""[0]] + after);
    assert "\"" + ("" + (":" + ("" + ("\"" + closed)))) == "\":\"" + closed;
    assert "\":\"" + closed == "\":\"[REDACTED]\"" + after;
    assert before + "\"" + k + ("\":\"[REDACTED]\"" + after) == before + ("\"" + (k + ("\":\"" + closed)));
  }

  lemma PlainParts(before: string, k: string, value: string, after: string)
    requires Quoteless(before) && Quoteless(k) && Quoteless(value) && Quoteless(after)
    ensures Plain(before + "\"" + k + "\":\"" + value + "\"" + after)
  {
  }

  lemma {:induction false} PlainIsInside(value: string)
    requires Quoteless(value)
    ensures Inside(value, 0, '"')
    decreases |value|
  {
    if value != "" {
      PlainIsInside(value[1..]);
    }
  }

  lemma NamesAreQuoteless(k: string)
    requires NamesHeader(k)
    ensures Quoteless(k)
  {
    hide *;
    HeaderKeyMeans(k);
    KeyLetters(k);
    QuotelessMeans(k);
  }

  /**
   For every text without other quotes: the value of a quoted `authorization`, `cookie` or `set-cookie`, in any case,
   is replaced, with the unlimited scan and in production.
   */
  lemma HeaderIsRedacted(before: string, k: string, value: string, after: string)
    requires Quoteless(before) && Quoteless(value) && Quoteless(after) && NamesHeader(k)
    ensures var text := before + "\"" + k + "\":\"" + value + "\"" + after;
            && Rendered(ScanFrom(text, 0).result) == before + "\"" + k + "\":\"[REDACTED]\"" + after
            && WithBudget(text, 8 * |text|) == before + "\"" + k + "\":\"[REDACTED]\"" + after
  {
    hide *;
    BareDelimiter();
    NameBounds(k);
    NamesAreQuoteless(k);
    PlainIsInside(value);
    PlainHeader(before, k, value, after);
    HeaderValueReplaced(before, "\"", k, "", "", "\"", value, after);
    PlainParts(before, k, value, after);
    var text := before + "\"" + k + "\":\"" + value + "\"" + after;
    PlainBudgetSuffices(text);
    WithinBudget(text, 8 * |text|);
  }

  // ---- Any other key is copied ----

  /** A quote behind which no header name is quoted is copied, with the plain text up to the next one. */
  lemma QuoteIsCopied(s: string, p: nat, next: nat)
    requires p < next <= |s| && IsQuote(s[p]) && next == FirstCandidate(s, p + 1)
    requires next == |s| || !NamesHeader(s[p + 1..next])
    ensures ScanFrom(s, p).result == Prepend(s[p..next], [], ScanFrom(s, next).result)
  {
    hide *;
    NoKeyOpens(s, p, next);
    QuotesAreCandidates(s[p]);
    BareCandidate(s, p);
    StepShape(s, p);
    ScanOnward(s, p);
    CopiesPlain(s, p + 1, next);
    PrependTwice([s[p]], s[p + 1..next], ScanFrom(s, next).result);
    assert s[p..next] == [s[p]] + s[p + 1..next];
  }

  lemma BareCandidate(s: string, p: nat)
    requires p < |s| && IsQuote(s[p])
    ensures CandidateEnd(s, p) == p
  {
  }

  lemma NoKeyOpens(s: string, p: nat, next: nat)
    requires p < next <= |s| && IsQuote(s[p]) && next == FirstCandidate(s, p + 1)
    requires next == |s| || !NamesHeader(s[p + 1..next])
    ensures !OpensKey(s, p, p)
  {
    OpensKeyIsKeyText(s, p, p);
    if next < |s| {
      HeaderKeyMeans(s[p + 1..next]);
    }
    hide OpensKey, FirstCandidate, IsHeaderKey, NamesHeader;
  }

  /** The four quotes of a plain pair, and what stands between them. */
  predicate FourQuotes(s: string, a: nat, b: nat, c: nat, d: nat) {
    && a < b < c < d < |s| && s[a] == s[b] == s[c] == s[d] == '"' && c == b + 2 && s[b + 1] == ':'
    && (forall k | 0 <= k < |s| && k != a && k != b && k != c && k != d :: !IsCandidate(s[k]))
  }

  lemma NextQuotes(s: string, a: nat, b: nat, c: nat, d: nat)
    requires FourQuotes(s, a, b, c, d)
    ensures FirstCandidate(s, a + 1) == b && FirstCandidate(s, b + 1) == c && FirstCandidate(s, c + 1) == d
    ensures FirstCandidate(s, d + 1) == |s|
  {
    FirstCandidateIs(s, a + 1, b);
    FirstCandidateIs(s, b + 1, c);
    FirstCandidateIs(s, c + 1, d);
    hide IsCandidate;
  }

  lemma ColonIsNoName(s: string, b: nat)
    requires b + 2 <= |s|
    ensures !NamesHeader(s[b + 1..b + 2])
  {
    hide Spells;
    var k := s[b + 1..b + 2];
    if NamesHeader(k) {
      NameBounds(k);
    }
  }

  /** The scan copies `s` from `i` up to `j`. */
  predicate CopiedTo(s: string, i: nat, j: nat) {
    i <= j <= |s| && ScanFrom(s, i).result == Prepend(s[i..j], [], ScanFrom(s, j).result)
  }

  lemma CopiedFurther(s: string, i: nat, j: nat, k: nat)
    requires CopiedTo(s, i, j) && CopiedTo(s, j, k)
    ensures CopiedTo(s, i, k)
  {
    hide ScanFrom, Prepend;
    PrependTwice(s[i..j], s[j..k], ScanFrom(s, k).result);
    assert s[i..j] + s[j..k] == s[i..k];
  }

  lemma CopiedWhole(s: string)
    requires CopiedTo(s, 0, |s|)
    ensures Rendered(ScanFrom(s, 0).result) == s
  {
    ScanEmpty(s);
    hide ScanFrom;
    PrependRest(s[0..|s|], "", []);
    assert s[0..|s|] + "" == s;
  }

  lemma QuoteCopied(s: string, p: nat, next: nat)
    requires p < next <= |s| && IsQuote(s[p]) && next == FirstCandidate(s, p + 1)
    requires next == |s| || !NamesHeader(s[p + 1..next])
    ensures CopiedTo(s, p, next)
  {
    hide ScanFrom, Prepend, FirstCandidate, NamesHeader;
    QuoteIsCopied(s, p, next);
  }

  /** Up to its third quote such a pair is copied if its key is no header name. */
  lemma KeyIsCopied(s: string, a: nat, b: nat, c: nat, d: nat)
    requires FourQuotes(s, a, b, c, d) && !NamesHeader(s[a + 1..b])
    ensures CopiedTo(s, 0, c)
  {
    QuotesThere(s, a, b, c, d);
    CopiesPlain(s, 0, a);
    assert CopiedTo(s, 0, a);
    hide *;
    NextQuotes(s, a, b, c, d);
    ColonIsNoName(s, b);
    QuoteCopied(s, a, b);
    QuoteCopied(s, b, c);
    CopiedFurther(s, 0, a, b);
    CopiedFurther(s, 0, b, c);
  }

  /** And the rest as well, if its value is none either. */
  lemma PairIsCopied(s: string, a: nat, b: nat, c: nat, d: nat)
    requires FourQuotes(s, a, b, c, d) && !NamesHeader(s[a + 1..b]) && !NamesHeader(s[c + 1..d])
    ensures Rendered(ScanFrom(s, 0).result) == s
  {
    hide *;
    QuotesThere(s, a, b, c, d);
    NextQuotes(s, a, b, c, d);
    KeyIsCopied(s, a, b, c, d);
    QuoteCopied(s, c, d);
    QuoteCopied(s, d, |s|);
    CopiedFurther(s, 0, c, d);
    CopiedFurther(s, 0, d, |s|);
    CopiedWhole(s);
  }

  lemma QuotesThere(s: string, a: nat, b: nat, c: nat, d: nat)
    requires FourQuotes(s, a, b, c, d)
    ensures a < b < c < d < |s| && c == b + 2 && IsQuote(s[a]) && IsQuote(s[b]) && IsQuote(s[c]) && IsQuote(s[d])
    ensures forall k | 0 <= k < a :: !IsCandidate(s[k])
  {
  }

  /** A header name without a value behind it gives up: there is no quote left for a value to open with. */
  lemma NoValueFailsClosed(s: string, c: nat, d: nat)
    requires c < d < |s| && s[c] == s[d] == '"' && FirstCandidate(s, c + 1) == d && FirstCandidate(s, d + 1) == |s|
    requires NamesHeader(s[c + 1..d])
    ensures ScanFrom(s, c).result == Malformed(c)
  {
    KeyClosesPlain(s, c, d);
    BareCandidate(s, c);
    StepAtKey(s, c, d + 1);
    ValueNeedsQuote(s, d + 1);
    hide StepAt, MatchValue, FirstCandidate, NamesHeader;
  }

  lemma ValueNeedsQuote(s: string, close: nat)
    requires close <= |s|
    ensures MatchValue(s, close).result.Redact? ==> FirstCandidate(s, close) < |s|
  {
    hide *;
    if MatchValue(s, close).result.Redact? {
      var at, q := ValueParts(s, close);
      QuoteBehind(s, close, at, q);
    }
  }

  lemma KeyClosesPlain(s: string, c: nat, d: nat)
    requires c < d < |s| && s[c] == s[d] == '"' && FirstCandidate(s, c + 1) == d && NamesHeader(s[c + 1..d])
    ensures KeyCloses(s, c, c, d + 1)
  {
    hide *;
    HeaderKeyMeans(s[c + 1..d]);
    NameBounds(s[c + 1..d]);
    PlainQuote();
    KeyClosesFrom(s, c, c, d, s[c + 1..d], d + 1);
  }

  lemma PlainQuote()
    ensures IsQuote('"') && IsCandidate('"')
  {
  }

  lemma QuoteBehind(s: string, close: nat, at: nat, q: nat)
    requires ValueOpens(s, close, at, q) && close <= |s|
    ensures close < q < |s| && IsCandidate(s[q]) && FirstCandidate(s, close) < |s|
  {
    RunBeforeValue(s, close, at, q);
    hide ColonAt, RunEnd;
    assert IsCandidate(s[q]);
  }

  lemma FourQuotesStand(before: string, k: string, value: string, after: string)
    returns (a: nat, b: nat, c: nat, d: nat)
    requires Quoteless(before) && Quoteless(k) && Quoteless(value) && Quoteless(after)
    ensures var s := before + "\"" + k + "\":\"" + value + "\"" + after;
            FourQuotes(s, a, b, c, d) && s[a + 1..b] == k && s[c + 1..d] == value
  {
    a, b := |before|, |before| + 1 + |k|;
    c, d := b + 2, b + 3 + |value|;
    var s := before + "\"" + k + "\":\"" + value + "\"" + after;
    QuotelessMeans(before);
    QuotelessMeans(k);
    QuotelessMeans(value);
    QuotelessMeans(after);
    hide Quoteless, IsCandidate;
    assert s[a] == s[b] == s[c] == s[d] == '"' && s[b + 1] == ':';
    forall n | 0 <= n < |s| && n != a && n != b && n != c && n != d
      ensures !IsCandidate(s[n])
    {
      if n == b + 1 {
        ColonIsPlain();
      } else if n < a {
        assert s[n] == before[n];
      } else if n < b {
        assert s[n] == k[n - a - 1];
      } else if n < d {
        assert s[n] == value[n - c - 1];
      } else {
        assert s[n] == after[n - d - 1];
      }
    }
  }

  lemma ColonIsPlain()
    ensures !IsCandidate(':')
  {
  }

  /**
   For every text without other quotes: a quoted pair whose key is none of the three names comes back as it was, with
   the unlimited scan and in production, exactly when its value is none of them either; a value that is one of them is
   taken for a key without a value.
   */
  lemma OtherKeysAreCopied(before: string, k: string, value: string, after: string)
    requires Quoteless(before) && Quoteless(k) && Quoteless(value) && Quoteless(after) && !NamesHeader(k)
    ensures var text := before + "\"" + k + "\":\"" + value + "\"" + after;
            var result := if NamesHeader(value) then "[REDACTED malformed sensitive header]" else text;
            Rendered(ScanFrom(text, 0).result) == result && WithBudget(text, 8 * |text|) == result
  {
    hide *;
    var a, b, c, d := FourQuotesStand(before, k, value, after);
    var text := before + "\"" + k + "\":\"" + value + "\"" + after;
    QuotesThere(text, a, b, c, d);
    if NamesHeader(value) {
      NextQuotes(text, a, b, c, d);
      KeyIsCopied(text, a, b, c, d);
      QuotesMean(text, a, b, c, d);
      NoValueFailsClosed(text, c, d);
      MalformedWhole(text, c);
    } else {
      PairIsCopied(text, a, b, c, d);
    }
    PlainParts(before, k, value, after);
    PlainBudgetSuffices(text);
    WithinBudget(text, 8 * |text|);
  }

  lemma QuotesMean(s: string, a: nat, b: nat, c: nat, d: nat)
    requires FourQuotes(s, a, b, c, d)
    ensures c < d < |s| && s[c] == s[d] == '"'
  {
  }

  lemma MalformedWhole(s: string, c: nat)
    requires CopiedTo(s, 0, c) && ScanFrom(s, c).result == Malformed(c)
    ensures Rendered(ScanFrom(s, 0).result) == "[REDACTED malformed sensitive header]"
  {
    hide ScanFrom;
  }
}
