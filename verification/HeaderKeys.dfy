/** Whether a header key opens depends only on the text up to its closing quote, at any escape depth. */
module HeaderKeys {
  import opened Prelude
  import opened HeaderSpec

  /** `s` from `i` and `t` from `j` agree on `m` characters. */
  ghost predicate Agree(s: string, i: nat, t: string, j: nat, m: nat) {
    i + m <= |s| && j + m <= |t| && s[i..i + m] == t[j..j + m]
  }

  lemma AgreeAt(s: string, i: nat, t: string, j: nat, m: nat, k: nat)
    requires Agree(s, i, t, j, m) && k < m
    ensures s[i + k] == t[j + k]
  {
    assert s[i..i + m][k] == t[j..j + m][k];
  }

  lemma AgreeAll(s: string, i: nat, t: string, j: nat, m: nat)
    requires Agree(s, i, t, j, m)
    ensures i + m <= |s| && j + m <= |t|
    ensures forall k | j <= k < j + m :: t[k] == s[k - j + i]
  {
    forall k | j <= k < j + m
      ensures t[k] == s[k - j + i]
    {
      AgreeAt(s, i, t, j, m, k - j);
    }
  }

  lemma AgreeShorter(s: string, i: nat, t: string, j: nat, m: nat, n: nat)
    requires Agree(s, i, t, j, m) && n <= m
    ensures Agree(s, i, t, j, n)
  {
    assert s[i..i + n] == s[i..i + m][..n];
    assert t[j..j + n] == t[j..j + m][..n];
  }

  lemma AgreeSwap(s: string, i: nat, t: string, j: nat, m: nat)
    requires Agree(s, i, t, j, m)
    ensures Agree(t, j, s, i, m)
  {
  }

  lemma AgreeBehind(s: string, i: nat, t: string, j: nat, m: nat, n: nat)
    requires Agree(s, i, t, j, m) && n <= m
    ensures Agree(s, i + n, t, j + n, m - n)
  {
    assert s[i + n..i + m] == s[i..i + m][n..];
    assert t[j + n..j + m] == t[j..j + m][n..];
  }

  // ---- The next place where the scan stops to look ----

  function FirstCandidate(s: string, i: nat): (at: nat)
    requires i <= |s|
    ensures i <= at <= |s|
    ensures forall k | i <= k < at :: !IsCandidate(s[k])
    ensures at < |s| ==> IsCandidate(s[at])
    decreases |s| - i
  {
    if i == |s| || IsCandidate(s[i]) then i else FirstCandidate(s, i + 1)
  }

  lemma FirstCandidateIs(s: string, i: nat, at: nat)
    requires i <= at < |s| && IsCandidate(s[at])
    requires forall k | i <= k < at :: !IsCandidate(s[k])
    ensures FirstCandidate(s, i) == at
  {
  }

  /** A run of backslashes with something else behind it, seen whole. */
  lemma {:induction false} RunEndIs(s: string, i: nat, end: nat, limit: nat)
    requires i <= end <= limit <= |s|
    requires forall k | i <= k < end :: s[k] == '\\'
    requires end < limit ==> s[end] != '\\'
    ensures RunEnd(s, i, limit) == end
    decreases end - i
  {
    if i < end {
      RunEndIs(s, i + 1, end, limit);
    }
  }

  // ---- A key spelled out ----

  /** Behind the opening run `[start, end)` and its quote: a key without run or quote, then the same run and quote. */
  predicate KeyText(s: string, start: nat, end: nat) {
    && start <= end && QuoteAfter(s, end)
    && var close := FirstCandidate(s, end + 1);
       var depth := end - start;
       && close < end + 1 + KEY_SCAN_LENGTH && close + depth <= end + 1 + KEY_SCAN_LENGTH
       && close + depth < |s|
       && (forall k | close <= k < close + depth :: s[k] == '\\')
       && s[close + depth] == s[end]
       && IsHeaderKey(s[end + 1..close])
  }

  lemma KeyLetters(key: string)
    ensures IsHeaderKey(key) ==> forall k | 0 <= k < |key| :: !IsCandidate(key[k])
  {
    if IsHeaderKey(key) {
      forall k | 0 <= k < |key|
        ensures !IsCandidate(key[k])
      {
        NameLetters(LowerAll(key), k);
      }
    }
  }

  lemma NameLetters(name: string, k: nat)
    requires name in HEADER_KEYS && k < |name|
    ensures !IsCandidate(name[k])
  {
  }

  /** A body scan passes over everything before the next candidate. */
  lemma {:induction false} BodyToCandidate(s: string, cursor: nat, depth: nat, quote: char, limit: nat)
    requires cursor <= limit <= |s| && IsQuote(quote)
    ensures var f := FirstCandidate(s, cursor);
            BodyEnd(s, cursor, depth, quote, limit).at
            == if f < limit then BodyEnd(s, f, depth, quote, limit).at else None
    decreases limit - cursor
  {
    if cursor < limit && !IsCandidate(s[cursor]) {
      BodyToCandidate(s, cursor + 1, depth, quote, limit);
    }
  }

  /** At a candidate a body closes there, or later, or not at all. */
  lemma BodyAtCandidate(s: string, f: nat, depth: nat, quote: char, limit: nat)
    requires f < limit <= |s| && IsCandidate(s[f]) && IsQuote(quote)
    ensures var at := BodyEnd(s, f, depth, quote, limit).at;
            if f + depth <= limit && f + depth < |s| && s[f + depth] == quote
               && (forall k | f <= k < f + depth :: s[k] == '\\')
            then at == Some(f) else at.None? || at.value > f
  {
    hide FirstCandidate;
    if s[f] == '\\' {
      var end := RunEnd(s, f, limit);
      if && f + depth <= limit && f + depth < |s| && s[f + depth] == quote
         && forall k | f <= k < f + depth :: s[k] == '\\' {
        RunEndIs(s, f, f + depth, limit);
      }
    }
  }

  lemma OpensKeyIsKeyText(s: string, start: nat, end: nat)
    ensures OpensKey(s, start, end) <==> KeyText(s, start, end)
    ensures OpensKey(s, start, end) ==> KeyEnd(s, start, end).at.value == FirstCandidate(s, end + 1)
  {
    hide IsHeaderKey, BodyEnd, FirstCandidate;
    if start <= end && QuoteAfter(s, end) {
      var f, depth := FirstCandidate(s, end + 1), end - start;
      var limit := ScanLimit(s, end + 1, KEY_SCAN_LENGTH);
      BodyToCandidate(s, end + 1, depth, s[end], limit);
      if f < limit {
        BodyAtCandidate(s, f, depth, s[end], limit);
      }
      var at := KeyEnd(s, start, end).at;
      if at.Some? && at.value > f {
        NoKeyAcross(s, end + 1, f, at.value);
      }
    }
  }

  lemma NoKeyAcross(s: string, from: nat, f: nat, to: nat)
    requires from <= f < to <= |s| && IsCandidate(s[f])
    ensures !IsHeaderKey(s[from..to])
  {
    hide IsHeaderKey;
    KeyLetters(s[from..to]);
    assert s[from..to][f - from] == s[f];
  }

  /** The text a key needs: from its opening run through its closing quote. */
  function KeyLengthAt(s: string, start: nat, end: nat): nat
    requires start <= end && QuoteAfter(s, end)
  {
    FirstCandidate(s, end + 1) + (end - start) + 1 - start
  }

  /** Where two texts agree on a key, it opens in both and closes at the same place. */
  lemma KeyIsLocal(s: string, start: nat, end: nat, t: string, j: nat)
    requires KeyText(s, start, end) && Agree(s, start, t, j, KeyLengthAt(s, start, end))
    ensures KeyText(t, j, j + (end - start))
    ensures FirstCandidate(t, j + (end - start) + 1) - j == FirstCandidate(s, end + 1) - start
  {
    hide IsHeaderKey, Agree, FirstCandidate;
    var m, depth := KeyLengthAt(s, start, end), end - start;
    var close, at := FirstCandidate(s, end + 1), j + (FirstCandidate(s, end + 1) - start);
    AgreeAll(s, start, t, j, m);
    assert t[j + depth] == s[end] && t[at] == s[close] && t[at + depth] == s[close + depth];
    forall k | at <= k < at + depth
      ensures t[k] == '\\'
    {
      assert t[k] == s[k - j + start];
    }
    forall k | j + depth + 1 <= k < at
      ensures !IsCandidate(t[k])
    {
      assert t[k] == s[k - j + start];
    }
    FirstCandidateIs(t, j + depth + 1, at);
    assert t[j + depth + 1..at] == s[end + 1..close];
  }
}
