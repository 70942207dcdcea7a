/** What a redaction has read: every replaced value stands behind one of the three names, a colon and its quotes. */
module HeaderPairs {
  import opened Prelude
  import opened HeaderSpec
  import opened HeaderKeys
  import opened HeaderValues
  import opened HeaderNames

  // ---- What is skipped ----

  lemma CodeIsBlank(s: string, end: nat, limit: nat)
    requires end <= limit <= |s| && EscapedUnit(s, end, limit).at.Some?
    ensures var u := EscapedUnit(s, end, limit).at.value; end < u <= limit && BlankCode(s[end..u])
  {
    var u := EscapedUnit(s, end, limit).at.value;
    var code := s[end..u];
    if s[end] in {'t', 'n', 'r'} {
      assert code == [s[end]];
    } else {
      CodeMeans(code);
      hide IsEscapedSeparator, Spells;
      assert code[0] == s[end];
    }
  }

  lemma RunIsRun(s: string, i: nat, end: nat)
    requires i <= end <= |s| && forall k | i <= k < end :: s[k] == '\\'
    ensures Run(s[i..end])
  {
  }

  lemma EscapeIsSeparator(w: string, r: nat, n: nat)
    requires EscapedBlank(w, r, n) && Separator(w[n..])
    ensures Separator(w)
  {
    hide Blank, BlankCode;
  }

  lemma BlankIsSeparator(w: string)
    requires w != "" && Blank(w[0]) && Separator(w[1..])
    ensures Separator(w)
  {
    hide Blank;
  }

  lemma SkipsEscape(s: string, c: nat, limit: nat)
    requires c < limit <= |s| && !IsSpace(s[c])
    ensures var x := SkipSpace(s, c, limit).at;
            x == c || (s[c] == '\\'
                       && var u := EscapedUnit(s, RunEnd(s, c, limit), limit).at;
                          u.Some? && c < RunEnd(s, c, limit) < u.value <= limit
                          && x == SkipSpace(s, u.value, limit).at)
  {
    hide IsSpace, EscapedUnit;
  }

  lemma SkipsBlank(s: string, c: nat, limit: nat)
    requires c < limit <= |s| && IsSpace(s[c])
    ensures SkipSpace(s, c, limit).at == SkipSpace(s, c + 1, limit).at
  {
    hide IsSpace;
  }

  lemma BlankSkipped(s: string, c: nat, x: nat)
    requires c < x <= |s| && IsSpace(s[c]) && Separator(s[c + 1..x])
    ensures Separator(s[c..x])
  {
    BlankIsSpace(s[c]);
    assert s[c..x][0] == s[c] && s[c..x][1..] == s[c + 1..x];
    hide *;
    BlankIsSeparator(s[c..x]);
  }

  lemma EscapeSkipped(s: string, c: nat, end: nat, u: nat, x: nat)
    requires c < end < u <= x <= |s| && Run(s[c..end]) && BlankCode(s[end..u]) && Separator(s[u..x])
    ensures Separator(s[c..x])
  {
    hide *;
    var w := s[c..x];
    SliceOf(s, c, w, 0, end - c);
    SliceOf(s, c, w, end - c, u - c);
    SliceOf(s, c, w, u - c, x - c);
    assert w[u - c..x - c] == w[u - c..];
    assert w[0..end - c] == w[..end - c];
    EscapeOfParts(w, end - c, u - c);
    EscapeIsSeparator(w, end - c, u - c);
  }

  /** All that is skipped in front of a colon or a value is a separator. */
  lemma {:induction false} SkippedIsSeparator(s: string, c: nat, limit: nat)
    requires c <= limit <= |s|
    ensures var x := SkipSpace(s, c, limit).at; c <= x <= limit && Separator(s[c..x])
    decreases limit - c
  {
    hide *;
    var x := SkipSpace(s, c, limit).at;
    if x == c {
      assert s[c..x] == "";
      EmptySeparator();
    } else if IsSpace(s[c]) {
      SkipsBlank(s, c, limit);
      SkippedIsSeparator(s, c + 1, limit);
      BlankSkipped(s, c, x);
    } else {
      SkipsEscape(s, c, limit);
      var end := RunEnd(s, c, limit);
      var u := EscapedUnit(s, end, limit).at.value;
      SkippedIsSeparator(s, u, limit);
      CodeIsBlank(s, end, limit);
      RunIsRun(s, c, end);
      EscapeSkipped(s, c, end, u, x);
    }
  }

  lemma EmptySeparator()
    ensures Separator("")
  {
  }

  lemma EscapeOfParts(w: string, r: nat, n: nat)
    requires 0 < r < n <= |w| && Run(w[..r]) && BlankCode(w[r..n])
    ensures EscapedBlank(w, r, n)
  {
    hide Run, BlankCode;
  }

  // ---- What is replaced ----

  lemma OneInside(value: string, depth: nat, quote: char)
    requires value != "" && value[0] != '\\' && !(depth == 0 && value[0] == quote) && Inside(value[1..], depth, quote)
    ensures Inside(value, depth, quote)
  {
  }

  lemma EscapeInside(value: string, r: nat, depth: nat, quote: char)
    requires 0 < r < |value| && Run(value[..r]) && value[r] != '\\' && !(r == depth && value[r] == quote)
    requires Inside(value[r + 1..], depth, quote)
    ensures Inside(value, depth, quote)
  {
    hide Run;
    assert EscapesAt(value, r);
  }

  // The contents end here: nothing is left but a run of backslashes with no character behind it.
  predicate OnlyRunLeft(s: string, at: nat) {
    at <= |s| && forall k | at <= k < |s| :: s[k] == '\\'
  }

  /** Up to the closing delimiter a body scan finds, or up to a last run, all is contents. */
  lemma {:induction false} BodyIsInside(s: string, c: nat, depth: nat, quote: char) returns (stop: nat)
    requires c <= |s|
    ensures c <= stop <= |s| && Inside(s[c..stop], depth, quote)
    ensures var found := BodyEnd(s, c, depth, quote, |s|).at;
            if found.Some? then stop == found.value else OnlyRunLeft(s, stop)
    decreases |s| - c
  {
    hide Inside, Run, EscapesAt, BodyEnd;
    stop := c;
    assert s[c..c] == "";
    EmptyInside(depth, quote);
    if c == |s| {
      BodyAtEnd(s, depth, quote, |s|);
    } else if s[c] != '\\' {
      BodyAtCharacter(s, c, depth, quote, |s|);
      if !(depth == 0 && s[c] == quote) {
        stop := BodyIsInside(s, c + 1, depth, quote);
        OneTaken(s, c, stop, depth, quote);
      }
    } else {
      BodyAtRun(s, c, depth, quote, |s|);
      var end := RunEnd(s, c, |s|);
      if end == |s| {
        BodyAtEnd(s, depth, quote, |s|);
      } else if !(end - c == depth && s[end] == quote) {
        stop := BodyIsInside(s, end + 1, depth, quote);
        RunIsRun(s, c, end);
        EscapeTaken(s, c, end, stop, depth, quote);
      }
    }
  }

  lemma OneTaken(s: string, c: nat, stop: nat, depth: nat, quote: char)
    requires c < stop <= |s| && s[c] != '\\' && !(depth == 0 && s[c] == quote) && Inside(s[c + 1..stop], depth, quote)
    ensures Inside(s[c..stop], depth, quote)
  {
    hide *;
    assert s[c..stop][1..] == s[c + 1..stop];
    OneInside(s[c..stop], depth, quote);
  }

  lemma EscapeTaken(s: string, c: nat, end: nat, stop: nat, depth: nat, quote: char)
    requires c < end < stop <= |s| && Run(s[c..end]) && s[end] != '\\' && !(end - c == depth && s[end] == quote)
    requires Inside(s[end + 1..stop], depth, quote)
    ensures Inside(s[c..stop], depth, quote)
  {
    hide *;
    var value := s[c..stop];
    assert value[..end - c] == s[c..end];
    assert value[end - c] == s[end];
    assert value[end - c + 1..] == s[end + 1..stop];
    EscapeInside(value, end - c, depth, quote);
  }

  lemma EmptyInside(depth: nat, quote: char)
    ensures Inside("", depth, quote)
  {
  }

  // ---- A pair ----

  /** At `i` stands a quoted header name, `o k o`, that ends at `close`. */
  ghost predicate KeyReads(s: string, i: nat, close: nat) {
    exists o: string, k: string :: Delimiter(o) && NamesHeader(k) && close == i + |o| + |k| + |o| <= |s|
                                   && s[i..close] == o + k + o
  }

  /** From `close` to `at` stands a colon between separators. */
  ghost predicate ColonReads(s: string, close: nat, at: nat) {
    exists colon: nat :: close <= colon < at <= |s| && s[colon] == ':'
                         && Separator(s[close..colon]) && Separator(s[colon + 1..at])
  }

  /** At `at` opens a value at `q`, and what is replaced are its contents, up to the same delimiter or to the end. */
  ghost predicate ValueReads(s: string, at: nat, pair: Pair) {
    && at < pair.openEnd <= pair.closeEnd <= |s| && Delimiter(s[at..pair.openEnd])
    && var depth, quote := pair.openEnd - 1 - at, s[pair.openEnd - 1];
       exists stop: nat :: pair.openEnd <= stop <= |s| && Inside(s[pair.openEnd..stop], depth, quote)
         && if pair.terminated then pair.closeEnd == stop + depth + 1 && s[stop..pair.closeEnd] == s[at..pair.openEnd]
            else pair.closeEnd == |s| && OnlyRunLeft(s, stop)
  }

  ghost predicate ReadsAsHeader(s: string, pair: Pair) {
    exists close: nat, at: nat :: pair.start <= close <= at <= |s| && KeyReads(s, pair.start, close)
                                  && ColonReads(s, close, at) && ValueReads(s, at, pair)
  }

  lemma DelimiterOf(s: string, i: nat, q: nat)
    requires i <= q < |s| && IsQuote(s[q]) && forall k | i <= k < q :: s[k] == '\\'
    ensures Delimiter(s[i..q + 1])
  {
    var o := s[i..q + 1];
    RunIsRun(s, i, q);
    assert o[..|o| - 1] == s[i..q];
  }

  lemma KeyTextReads(s: string, i: nat, end: nat, close: nat)
    requires i < |s| && end == CandidateEnd(s, i) && KeyCloses(s, i, end, close)
    ensures KeyReads(s, i, close)
  {
    hide *;
    var c := KeyClosesParts(s, i, end, close);
    RunOfCandidate(s, i);
    DelimiterOf(s, i, end);
    HeaderKeyMeans(s[end + 1..c]);
    SameText(s, i, c, end + 1 - i);
    KeyReadsOf(s, i, end, c, close);
  }

  lemma RunOfCandidate(s: string, i: nat)
    requires i < |s|
    ensures forall j | i <= j < CandidateEnd(s, i) :: s[j] == '\\'
  {
  }

  lemma KeyClosesParts(s: string, i: nat, end: nat, close: nat) returns (c: nat)
    requires KeyCloses(s, i, end, close)
    ensures i <= end < c && close == c + (end - i) + 1 <= |s| && IsQuote(s[end]) && s[close - 1] == s[end]
    ensures (forall k | c <= k < close - 1 :: s[k] == '\\') && IsHeaderKey(s[end + 1..c])
  {
    hide IsHeaderKey, IsQuote;
    c := FirstCandidate(s, end + 1);
  }

  lemma KeyReadsOf(s: string, i: nat, end: nat, c: nat, close: nat)
    requires i <= end < c && close == c + (end - i) + 1 <= |s| && s[i..i + (end + 1 - i)] == s[c..c + (end + 1 - i)]
    requires Delimiter(s[i..end + 1]) && NamesHeader(s[end + 1..c])
    ensures KeyReads(s, i, close)
  {
    hide Delimiter, NamesHeader;
    var o, k := s[i..end + 1], s[end + 1..c];
    assert s[c..close] == o;
    assert s[i..close] == o + k + o;
  }

  /** Two backslash runs of one length with the same character behind them. */
  lemma SameText(s: string, i: nat, j: nat, n: nat)
    requires n > 0 && i + n <= |s| && j + n <= |s| && s[i + n - 1] == s[j + n - 1]
    requires forall k | i <= k < i + n - 1 :: s[k] == '\\'
    requires forall k | j <= k < j + n - 1 :: s[k] == '\\'
    ensures s[i..i + n] == s[j..j + n]
  {
    var a, b := s[i..i + n], s[j..j + n];
    assert forall k :: 0 <= k < n - 1 ==> a[k] == '\\' == b[k];
    assert a[n - 1] == b[n - 1];
  }

  lemma ColonTextReads(s: string, close: nat, at: nat, q: nat)
    requires ValueOpens(s, close, at, q)
    ensures ColonReads(s, close, at) && close <= at
  {
    var colon := ColonAt(s, close).at;
    SkippedIsSeparator(s, close, ScanLimit(s, close, SEPARATOR_SCAN_LENGTH));
    SkippedIsSeparator(s, colon + 1, ScanLimit(s, colon + 1, SEPARATOR_SCAN_LENGTH));
    hide SkipSpace, Separator, RunEnd;
  }

  lemma ValueTextReads(s: string, close: nat, at: nat, q: nat, pair: Pair)
    requires ValueOpens(s, close, at, q) && pair.openEnd == q + 1 && at <= q < |s|
    requires MatchQuoted(s, at).result == Redact(pair.openEnd, pair.closeEnd, pair.terminated)
    ensures ValueReads(s, at, pair)
  {
    hide ColonAt, BodyEnd;
    DelimiterOf(s, at, q);
    var stop := BodyIsInside(s, q + 1, q - at, s[q]);
    if pair.terminated {
      ClosesLike(s, at, q, stop);
    }
    hide Inside, Delimiter, OnlyRunLeft, RunEnd;
  }

  lemma ClosesLike(s: string, at: nat, q: nat, stop: nat)
    requires at <= q < |s| && q == RunEnd(s, at, |s|)
    requires BodyEnd(s, q + 1, q - at, s[q], |s|).at == Some(stop)
    ensures stop + (q - at) + 1 <= |s| && s[stop..stop + (q - at) + 1] == s[at..q + 1]
  {
    hide *;
    BodyClosesBy(s, q + 1, q - at, s[q]);
    SameText(s, at, stop, q - at + 1);
  }

  lemma {:induction false} BodyClosesBy(s: string, c: nat, depth: nat, quote: char)
    requires c <= |s| && BodyEnd(s, c, depth, quote, |s|).at.Some?
    ensures var stop := BodyEnd(s, c, depth, quote, |s|).at.value;
            stop + depth < |s| && s[stop + depth] == quote && forall k | stop <= k < stop + depth :: s[k] == '\\'
    decreases |s| - c
  {
    hide BodyEnd;
    if c == |s| {
      BodyAtEnd(s, depth, quote, c);
    } else if s[c] == '\\' {
      BodyAtRun(s, c, depth, quote, |s|);
      var end := RunEnd(s, c, |s|);
      if !(end - c == depth && IsAt(s, end, quote)) {
        BodyClosesBy(s, if end < |s| then end + 1 else end, depth, quote);
      }
    } else {
      BodyAtCharacter(s, c, depth, quote, |s|);
      if !(depth == 0 && s[c] == quote) {
        BodyClosesBy(s, c + 1, depth, quote);
      }
    }
  }

  lemma PairIsMatched(s: string, i: nat, pair: Pair, close: nat, at: nat, q: nat)
    requires i < |s| && IsCandidate(s[i]) && StepAt(s, i).step == Replace(pair)
    requires KeyCloses(s, i, CandidateEnd(s, i), close) && ValueOpens(s, close, at, q)
    ensures at <= |s| && MatchQuoted(s, at).result == Redact(pair.openEnd, pair.closeEnd, pair.terminated)
  {
    hide *;
    StepAtKey(s, i, close);
    ValueIsQuoted(s, close, at, q);
  }

  lemma ValueIsQuoted(s: string, close: nat, at: nat, q: nat)
    requires ValueOpens(s, close, at, q)
    ensures at <= |s| && MatchValue(s, close).result == MatchQuoted(s, at).result
  {
    hide MatchQuoted, SkipSpace, RunEnd;
  }

  /** A replaced pair is a quoted header name, a colon between separators, and the quoted value that is replaced. */
  lemma StepReadsAsHeader(s: string, i: nat, pair: Pair)
    requires i < |s| && IsCandidate(s[i]) && StepAt(s, i).step == Replace(pair)
    ensures pair.start == i && ReadsAsHeader(s, pair)
  {
    hide *;
    var close, at, q := PairParts(s, i, pair);
    KeyTextReads(s, i, CandidateEnd(s, i), close);
    ColonTextReads(s, close, at, q);
    PairIsMatched(s, i, pair, close, at, q);
    ValueTextReads(s, close, at, q, pair);
    ReadsTogether(s, pair, close, at);
  }

  lemma ReadsTogether(s: string, pair: Pair, close: nat, at: nat)
    requires pair.start <= close <= at <= |s|
    requires KeyReads(s, pair.start, close) && ColonReads(s, close, at) && ValueReads(s, at, pair)
    ensures ReadsAsHeader(s, pair)
  {
    hide KeyReads, ColonReads, ValueReads;
  }

  /** Whatever the input, only values of the three headers are replaced. */
  lemma {:induction false} OnlyHeadersAreReplaced(s: string, i: nat, pair: Pair)
    requires i <= |s| && ScanFrom(s, i).result.Text? && pair in ScanFrom(s, i).result.pairs
    ensures i <= pair.start && ReadsAsHeader(s, pair)
    decreases |s| - i
  {
    hide StepAt, ReadsAsHeader, IsCandidate;
    if i < |s| {
      if !IsCandidate(s[i]) {
        OnlyHeadersAreReplaced(s, i + 1, pair);
      } else {
        match StepAt(s, i).step
        case Copy(_, next) => OnlyHeadersAreReplaced(s, next, pair);
        case Replace(first) =>
          StepReadsAsHeader(s, i, first);
          if pair != first {
            OnlyHeadersAreReplaced(s, first.closeEnd, pair);
          }
        case Stop =>
      }
    }
  }
}
