/** What a completed scan leaves in its output. */
module HeaderSafety {
  import opened HeaderSpec

  // ---- The output is the input with disjoint value spans replaced ----

  /** The end of the span a pair replaces: all but the closing quote, or all that is left. */
  function SpanEnd(pair: Pair): nat {
    if pair.terminated && pair.closeEnd > 0 then pair.closeEnd - 1 else pair.closeEnd
  }

  /** `pairs` are disjoint, in order, and start at or after `from`. */
  ghost predicate InOrder(s: string, pairs: seq<Pair>, from: nat) {
    pairs == [] ||
    (var pair := pairs[0];
     && from <= pair.start < pair.openEnd <= SpanEnd(pair) <= pair.closeEnd <= |s|
     && InOrder(s, pairs[1..], pair.closeEnd))
  }

  /** `s[from..]` with the value span of every pair replaced by the marker. */
  function ReplaceSpans(s: string, pairs: seq<Pair>, from: nat): string
    requires from <= |s|
  {
    if pairs == [] then s[from..]
    else if from <= pairs[0].openEnd <= SpanEnd(pairs[0]) <= |s| then
      s[from..pairs[0].openEnd] + REDACTED + ReplaceSpans(s, pairs[1..], SpanEnd(pairs[0]))
    else ""
  }

  lemma {:induction false} ReplaceFrom(s: string, pairs: seq<Pair>, from: nat, to: nat)
    requires from <= to <= |s| && InOrder(s, pairs, to)
    ensures ReplaceSpans(s, pairs, from) == s[from..to] + ReplaceSpans(s, pairs, to)
  {
    if pairs == [] {
      assert s[from..] == s[from..to] + s[to..];
    } else {
      var rest := REDACTED + ReplaceSpans(s, pairs[1..], SpanEnd(pairs[0]));
      assert s[from..pairs[0].openEnd] == s[from..to] + s[to..pairs[0].openEnd];
      assert ReplaceSpans(s, pairs, from) == s[from..pairs[0].openEnd] + rest;
      assert ReplaceSpans(s, pairs, to) == s[to..pairs[0].openEnd] + rest;
    }
  }

  lemma {:induction false} InOrderFrom(s: string, pairs: seq<Pair>, from: nat, to: nat)
    requires from <= to && InOrder(s, pairs, to)
    ensures InOrder(s, pairs, from)
  {
  }

  /** For every input whose result is not a marker, the output replaces the pairs' values and nothing else. */
  lemma {:induction false} OutputReplacesValues(s: string, i: nat)
    requires i <= |s| && ScanFrom(s, i).result.Text?
    ensures var text := ScanFrom(s, i).result;
            InOrder(s, text.pairs, i) && text.output == ReplaceSpans(s, text.pairs, i)
    decreases |s| - i
  {
    hide StepAt;
    if i < |s| {
      if !IsCandidate(s[i]) {
        OutputReplacesValues(s, i + 1);
        CopyKeepsReplacement(s, i, i + 1, ScanFrom(s, i + 1).result);
      } else {
        match StepAt(s, i).step
        case Copy(chunk, next) =>
          OutputReplacesValues(s, next);
          CopiedChunk(s, i);
          CopyKeepsReplacement(s, i, next, ScanFrom(s, next).result);
        case Replace(pair) =>
          OutputReplacesValues(s, pair.closeEnd);
          PairKeepsReplacement(s, pair, ScanFrom(s, pair.closeEnd).result);
        case Stop =>
      }
    }
  }

  lemma CopiedChunk(s: string, i: nat)
    requires i < |s| && IsCandidate(s[i]) && StepAt(s, i).step.Copy?
    ensures StepAt(s, i).step.chunk == s[i..StepAt(s, i).step.next]
  {
    hide MatchHeader;
  }

  lemma CopyKeepsReplacement(s: string, i: nat, next: nat, rest: Scan)
    requires i <= next <= |s| && rest.Text?
    requires InOrder(s, rest.pairs, next) && rest.output == ReplaceSpans(s, rest.pairs, next)
    ensures InOrder(s, [] + rest.pairs, i)
    ensures s[i..next] + rest.output == ReplaceSpans(s, [] + rest.pairs, i)
  {
    assert [] + rest.pairs == rest.pairs;
    InOrderFrom(s, rest.pairs, i, next);
    ReplaceFrom(s, rest.pairs, i, next);
  }

  lemma PairKeepsReplacement(s: string, pair: Pair, rest: Scan)
    requires pair.start < pair.openEnd <= pair.closeEnd <= |s| && (pair.terminated ==> pair.openEnd < pair.closeEnd)
    requires rest.Text? && InOrder(s, rest.pairs, pair.closeEnd)
    requires rest.output == ReplaceSpans(s, rest.pairs, pair.closeEnd)
    ensures InOrder(s, [pair] + rest.pairs, pair.start)
    ensures PairText(s, pair) + rest.output == ReplaceSpans(s, [pair] + rest.pairs, pair.start)
  {
    var pairs := [pair] + rest.pairs;
    assert pairs[0] == pair && pairs[1..] == rest.pairs;
    ReplaceFrom(s, rest.pairs, SpanEnd(pair), pair.closeEnd);
    PairTextSpan(s, pair, rest.output);
    hide PairText, REDACTED;
  }

  lemma PairTextSpan(s: string, pair: Pair, rest: string)
    requires pair.start <= pair.openEnd <= pair.closeEnd <= |s| && (pair.terminated ==> pair.openEnd < pair.closeEnd)
    ensures PairText(s, pair) + rest
         == s[pair.start..pair.openEnd] + REDACTED + (s[SpanEnd(pair)..pair.closeEnd] + rest)
  {
    hide REDACTED;
  }

  // ---- No recognized key is copied with its value ----

  /** A maximal backslash run, or a quote taken on its own, starts at `p`. */
  predicate Opening(s: string, p: nat) {
    p < |s| && IsCandidate(s[p]) && (s[p] == '\\' && p > 0 ==> s[p - 1] != '\\')
  }

  predicate Outside(pairs: seq<Pair>, p: nat) {
    forall pair | pair in pairs :: !(pair.start <= p < pair.closeEnd)
  }

  /** A recognized key opens at `p`. */
  predicate KeyAt(s: string, p: nat) {
    p < |s| && IsCandidate(s[p]) && OpensKey(s, p, CandidateEnd(s, p))
  }

  /** The separator and value that follow the key at `p`. */
  function ValueAfter(s: string, p: nat): Match
    requires KeyAt(s, p)
  {
    var end := CandidateEnd(s, p);
    MatchValue(s, KeyEnd(s, p, end).at.value + (end - p) + 1).result
  }

  /** The scan visits a position only at the start of a run. */
  predicate Boundary(s: string, i: nat) {
    i <= |s| && (0 < i < |s| && s[i] == '\\' ==> s[i - 1] != '\\')
  }

  lemma StepFacts(s: string, i: nat)
    requires i < |s| && IsCandidate(s[i])
    ensures match StepAt(s, i).step
            case Copy(_, next) =>
              !KeyAt(s, i) && Boundary(s, next) && (next == i + 1 || forall k | i <= k < next :: s[k] == '\\')
            case Replace(pair) =>
              && KeyAt(s, i)
              && ValueAfter(s, i) == Redact(pair.openEnd, pair.closeEnd, pair.terminated)
              && Boundary(s, pair.closeEnd)
            case Stop => KeyAt(s, i) && ValueAfter(s, i) == FailClosed
  {
    hide IsHeaderKey, MatchValue, BodyEnd, SkipSpace;
    if KeyAt(s, i) && ValueAfter(s, i).Redact? {
      var end := CandidateEnd(s, i);
      ClosesWithQuote(s, KeyEnd(s, i, end).at.value + (end - i) + 1);
    }
  }

  lemma ClosesWithQuote(s: string, closeEnd: nat)
    requires closeEnd <= |s|
    ensures var m := MatchValue(s, closeEnd).result;
            m.Redact? ==> if m.terminated then IsQuote(s[m.closeEnd - 1]) else m.closeEnd == |s|
  {
    hide SkipSpace;
  }

  /**
   For every input whose result is not a marker, no run-plus-quote or bare quote that is copied
   outside a redacted pair opens a recognized header key.
   */
  lemma {:induction false} NoKeyIsCopied(s: string, i: nat, p: nat)
    requires Boundary(s, i) && ScanFrom(s, i).result.Text?
    requires i <= p && Opening(s, p) && Outside(ScanFrom(s, i).result.pairs, p)
    ensures !KeyAt(s, p)
    decreases |s| - i
  {
    hide StepAt, OpensKey;
    if !IsCandidate(s[i]) {
      NoKeyIsCopied(s, i + 1, p);
    } else {
      StepFacts(s, i);
      match StepAt(s, i).step
      case Copy(_, next) =>
        if i < p {
          NoKeyIsCopied(s, next, p);
        }
      case Replace(pair) =>
        var rest := ScanFrom(s, pair.closeEnd).result;
        assert pair in [pair] + rest.pairs;
        assert forall other | other in rest.pairs :: other in [pair] + rest.pairs;
        NoKeyIsCopied(s, pair.closeEnd, p);
      case Stop =>
    }
  }

  /** Every replaced pair is a recognized key with the value that parses after it. */
  lemma {:induction false} PairsAreHeaders(s: string, i: nat, pair: Pair)
    requires i <= |s| && ScanFrom(s, i).result.Text? && pair in ScanFrom(s, i).result.pairs
    ensures i <= pair.start && KeyAt(s, pair.start)
    ensures ValueAfter(s, pair.start) == Redact(pair.openEnd, pair.closeEnd, pair.terminated)
    decreases |s| - i
  {
    hide StepAt, OpensKey;
    if i < |s| {
      if !IsCandidate(s[i]) {
        PairsAreHeaders(s, i + 1, pair);
      } else {
        StepFacts(s, i);
        match StepAt(s, i).step
        case Copy(_, next) => PairsAreHeaders(s, next, pair);
        case Replace(first) =>
          if pair != first {
            PairsAreHeaders(s, first.closeEnd, pair);
          }
        case Stop =>
      }
    }
  }

  /** A scan gives up only at a recognized key whose value does not parse. */
  lemma {:induction false} MalformedHasKey(s: string, i: nat)
    requires i <= |s| && ScanFrom(s, i).result.Malformed?
    ensures var at := ScanFrom(s, i).result.at;
            i <= at && KeyAt(s, at) && ValueAfter(s, at) == FailClosed
    decreases |s| - i
  {
    hide StepAt, OpensKey;
    if !IsCandidate(s[i]) {
      MalformedHasKey(s, i + 1);
    } else {
      StepFacts(s, i);
      match StepAt(s, i).step
      case Copy(_, next) => MalformedHasKey(s, next);
      case Replace(pair) => MalformedHasKey(s, pair.closeEnd);
      case Stop =>
    }
  }

  /**
   A recognized key with no parseable value always costs the whole field, unless it lies inside
   the pair of an earlier key: its text is never copied.
   */
  lemma UnparseableKeyFailsClosed(s: string, p: nat)
    requires Opening(s, p) && KeyAt(s, p) && ValueAfter(s, p) == FailClosed
    ensures match ScanFrom(s, 0).result
            case Malformed(_) => Rendered(ScanFrom(s, 0).result) == MALFORMED_MARKER
            case Text(_, pairs) =>
              exists pair :: pair in pairs && pair.start < p < pair.closeEnd && KeyAt(s, pair.start) &&
                             ValueAfter(s, pair.start).Redact?
  {
    hide StepAt, OpensKey, MatchValue;
    var scan := ScanFrom(s, 0).result;
    if scan.Text? {
      if Outside(scan.pairs, p) {
        NoKeyIsCopied(s, 0, p);
      } else {
        var pair :| pair in scan.pairs && pair.start <= p < pair.closeEnd;
        PairsAreHeaders(s, 0, pair);
      }
    }
  }
}
