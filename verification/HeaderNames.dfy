/** Which headers are redacted: the three names, in any case, at any escape depth, with their values. */
module HeaderNames {
  import opened Prelude
  import opened HeaderSpec
  import opened HeaderCost
  import opened HeaderKeys
  import opened HeaderRescan
  import opened HeaderValues
  import opened HeaderIdempotence

  // ---- The names ----

  /** The word in upper and lower case; the Kelvin sign is a `k` as well. */
  predicate Spells(k: string, name: string) {
    && |k| == |name|
    && forall i | 0 <= i < |name| ::
         || k[i] == name[i]
         || ('a' <= name[i] <= 'z' && k[i] as int == name[i] as int - 32)
         || (name[i] == 'k' && k[i] == '\U{212A}')
  }

  predicate NamesHeader(k: string) {
    Spells(k, "authorization") || Spells(k, "cookie") || Spells(k, "set-cookie")
  }

  /** Nothing in the word is in upper case. */
  predicate LowerCase(name: string) {
    forall i | 0 <= i < |name| :: 'a' <= name[i] <= 'z' || '0' <= name[i] <= '9' || name[i] == '-'
  }

  lemma LowerMeans(c: char, n: char)
    requires 'a' <= n <= 'z' || '0' <= n <= '9' || n == '-'
    ensures Lower(c) == n <==>
              c == n || ('a' <= n <= 'z' && c as int == n as int - 32) || (n == 'k' && c == '\U{212A}')
  {
  }

  lemma LowerSpells(k: string, name: string)
    requires LowerCase(name)
    ensures LowerAll(k) == name <==> Spells(k, name)
  {
    hide Lower;
    forall i | 0 <= i < |k| && i < |name|
      ensures LowerAll(k)[i] == name[i] <==>
                || k[i] == name[i]
                || ('a' <= name[i] <= 'z' && k[i] as int == name[i] as int - 32)
                || (name[i] == 'k' && k[i] == '\U{212A}')
    {
      LowerMeans(k[i], name[i]);
    }
    if Spells(k, name) {
      assert LowerAll(k) == name;
    }
  }

  lemma NamesAreLowerCase()
    ensures LowerCase("authorization") && LowerCase("cookie") && LowerCase("set-cookie")
  {
  }

  /** A recognized key is one of the three names. */
  lemma HeaderKeyMeans(k: string)
    ensures IsHeaderKey(k) <==> NamesHeader(k)
  {
    NamesAreLowerCase();
    LowerSpells(k, "authorization");
    LowerSpells(k, "cookie");
    LowerSpells(k, "set-cookie");
    hide LowerAll, Spells;
  }

  lemma NameBounds(k: string)
    requires NamesHeader(k)
    ensures 6 <= |k| <= 13
  {
    hide Spells;
    SpellsLength(k, "authorization");
    SpellsLength(k, "cookie");
    SpellsLength(k, "set-cookie");
  }

  lemma SpellsLength(k: string, name: string)
    ensures Spells(k, name) ==> |k| == |name|
  {
  }

  // ---- Plain text around a header ----

  /** No quote and no backslash. */
  predicate Quoteless(s: string) {
    forall i | 0 <= i < |s| :: s[i] != '"' && s[i] != '\'' && s[i] != '\\'
  }

  lemma QuotelessMeans(s: string)
    ensures Quoteless(s) <==> forall i | 0 <= i < |s| :: !IsCandidate(s[i])
  {
  }

  lemma {:induction false} CopiesPlain(s: string, i: nat, j: nat)
    requires i <= j <= |s| && forall k | i <= k < j :: !IsCandidate(s[k])
    ensures ScanFrom(s, i).result == Prepend(s[i..j], [], ScanFrom(s, j).result)
    decreases j - i
  {
    hide *;
    var rest := ScanFrom(s, j).result;
    if i < j {
      CopiesPlain(s, i + 1, j);
      ScanOnward(s, i);
      PrependTwice([s[i]], s[i + 1..j], rest);
      assert s[i..j] == [s[i]] + s[i + 1..j];
    } else {
      PrependNothing(rest);
      assert s[i..j] == "";
    }
  }

  lemma PrependTwice(a: string, b: string, rest: Scan)
    ensures Prepend(a, [], Prepend(b, [], rest)) == Prepend(a + b, [], rest)
  {
    if rest.Text? {
      assert a + (b + rest.output) == a + b + rest.output;
      assert [] + ([] + rest.pairs) == [] + rest.pairs;
    }
  }

  lemma PrependNothing(rest: Scan)
    ensures Prepend("", [], rest) == rest
  {
    if rest.Text? {
      assert "" + rest.output == rest.output && [] + rest.pairs == rest.pairs;
    }
  }

  // ---- Separators ----

  /** White space as JavaScript's `\s` has it. */
  predicate Blank(c: char) {
    c as int in {9, 10, 11, 12, 13, 0x20, 0xA0, 0x1680, 0x2000, 0x2001, 0x2002, 0x2003, 0x2004, 0x2005, 0x2006, 0x2007,
                 0x2008, 0x2009, 0x200A, 0x2028, 0x2029, 0x202F, 0x205F, 0x3000, 0xFEFF}
  }

  lemma BlankIsSpace(c: char)
    ensures Blank(c) <==> IsSpace(c)
  {
  }

  predicate Run(s: string) {
    forall i | 0 <= i < |s| :: s[i] == '\\'
  }

  /** The code of a white-space character as an escape spells it. */
  predicate BlankCode(code: string) {
    code in {"t", "n", "r"} ||
    (code != "" && code[0] == 'u' &&
     (Spells(code, "u2028") || Spells(code, "u2029") || Spells(code, "u00a0") || Spells(code, "ufeff")))
  }

  /** `w` starts with `r` backslashes and such a code, up to `n`. */
  predicate EscapedBlank(w: string, r: nat, n: nat) {
    0 < r < n <= |w| && Run(w[..r]) && BlankCode(w[r..n])
  }

  /** White space, literal or escaped behind any run of backslashes. */
  ghost predicate Separator(w: string)
    decreases |w|
  {
    || w == ""
    || (Blank(w[0]) && Separator(w[1..]))
    || (exists r: nat, n: nat :: EscapedBlank(w, r, n) && n <= |w| && 0 < n && Separator(w[n..]))
  }

  lemma CodesAreLowerCase()
    ensures LowerCase("u2028") && LowerCase("u2029") && LowerCase("u00a0") && LowerCase("ufeff")
  {
  }

  lemma CodeMeans(code: string)
    ensures IsEscapedSeparator(code) <==>
              Spells(code, "u2028") || Spells(code, "u2029") || Spells(code, "u00a0") || Spells(code, "ufeff")
  {
    CodesAreLowerCase();
    LowerSpells(code, "u2028");
    LowerSpells(code, "u2029");
    LowerSpells(code, "u00a0");
    LowerSpells(code, "ufeff");
    hide LowerAll, Spells;
  }

  lemma BlankCodeRead(s: string, end: nat, limit: nat, n: nat)
    requires end < n <= limit <= |s| && BlankCode(s[end..n])
    ensures s[end] != '\\' && EscapedUnit(s, end, limit).at == Some(n)
  {
    var code := s[end..n];
    assert code[0] == s[end];
    if code !in {"t", "n", "r"} {
      CodeMeans(code);
      SpellsLength(code, "u2028");
      SpellsLength(code, "u2029");
      SpellsLength(code, "u00a0");
      SpellsLength(code, "ufeff");
      hide Spells, IsEscapedSeparator;
      assert |code| == 5;
    } else {
      hide Spells, IsEscapedSeparator;
      assert |code| == 1;
    }
  }

  lemma SliceOf(s: string, c: nat, w: string, i: nat, j: nat)
    requires c + |w| <= |s| && s[c..c + |w|] == w && i <= j <= |w|
    ensures s[c + i..c + j] == w[i..j]
  {
    var n := |w|;
    forall k | 0 <= k < j - i
      ensures s[c + i..c + j][k] == w[i..j][k]
    {
      assert s[c..c + n][i + k] == w[i + k];
    }
  }

  lemma EscapeRead(s: string, c: nat, w: string, r: nat, n: nat, bound: nat)
    requires c + |w| <= |s| && s[c..c + |w|] == w && EscapedBlank(w, r, n) && n <= bound
    ensures c < |s| && s[c] == '\\' && UnitAt(s, c, bound) == Some(c + n)
  {
    hide BlankCode, EscapedUnit;
    var limit := ScanLimit(s, c, bound);
    forall k | c <= k < c + r
      ensures s[k] == '\\'
    {
      assert s[k] == w[..r][k - c];
    }
    SliceOf(s, c, w, r, n);
    BlankCodeRead(s, c + r, limit, c + n);
    RunEndIs(s, c, c + r, limit);
  }

  lemma VisibleStops(s: string, x: nat, bound: nat)
    requires Visible(s, x)
    ensures SkipSpace(s, x, ScanLimit(s, x, bound)).at == x
  {
    if bound > 0 {
      if s[x] == '\\' {
        assert Agree(s, x, s, x, |s| - x);
        NoUnitAgain(s, x, s, x, |s| - x, bound);
        SkipsUnit(s, x, bound);
      } else {
        SkipsOne(s, x, bound);
      }
    }
    hide *;
  }

  /** A separator within the bound is skipped, up to the first visible character. */
  lemma {:induction false} SeparatorSkipped(s: string, c: nat, w: string, bound: nat)
    requires c + |w| <= |s| && s[c..c + |w|] == w && Separator(w) && |w| <= bound
    requires Visible(s, c + |w|)
    ensures SkipSpace(s, c, ScanLimit(s, c, bound)).at == c + |w|
    decreases |w|
  {
    hide *;
    if w == "" {
      VisibleStops(s, c, bound);
    } else {
      var n, escaped := FirstPiece(w);
      SliceOf(s, c, w, n, |w|);
      assert |w[n..]| == |w| - n;
      SeparatorSkipped(s, c + n, w[n..], bound - n);
      if escaped > 0 {
        EscapeRead(s, c, w, escaped, n, bound);
        SkipsUnit(s, c, bound);
      } else {
        assert s[c] == s[c..c + |w|][0] == w[0];
        BlankIsSpace(w[0]);
        SkipsOne(s, c, bound);
      }
    }
  }

  /** The first piece of a separator ends at `n`: an escape with `r` backslashes, or a single character. */
  lemma FirstPiece(w: string) returns (n: nat, r: nat)
    requires w != "" && Separator(w)
    ensures 0 < n <= |w| && Separator(w[n..])
    ensures if r > 0 then EscapedBlank(w, r, n) else n == 1 && Blank(w[0])
  {
    hide Blank, BlankCode, Run;
    if Blank(w[0]) && Separator(w[1..]) {
      n, r := 1, 0;
    } else {
      var a: nat, b: nat :| EscapedBlank(w, a, b) && b <= |w| && 0 < b && Separator(w[b..]);
      n, r := b, a;
    }
  }

  // ---- A header with its value ----

  /** A quote of either kind behind any number of backslashes. */
  predicate Delimiter(o: string) {
    o != "" && Run(o[..|o| - 1]) && (o[|o| - 1] == '"' || o[|o| - 1] == '\'')
  }

  /** `o1 k o1 w1 : w2 o2 value o2`: a quoted key, a colon between separators, a quoted value. */
  function HeaderText(o1: string, k: string, w1: string, w2: string, o2: string, value: string, after: string): string {
    o1 + (k + (o1 + (w1 + (":" + (w2 + (o2 + (value + (o2 + after))))))))
  }

  predicate Holds(s: string, c: nat, p: string) {
    c + |p| <= |s| && s[c..c + |p|] == p
  }

  lemma HoldsEach(s: string, c: nat, p: string)
    requires Holds(s, c, p)
    ensures c + |p| <= |s| && forall k | c <= k < c + |p| :: s[k] == p[k - c]
  {
    forall k | c <= k < c + |p|
      ensures s[k] == p[k - c]
    {
      assert s[k] == s[c..c + |p|][k - c];
    }
  }

  lemma HoldsNext(s: string, c: nat, p: string, rest: string)
    requires c <= |s| && s[c..] == p + rest
    ensures Holds(s, c, p) && c + |p| <= |s| && s[c + |p|..] == rest
  {
    BehindChunk(s, c, p, rest);
  }

  predicate KeyPart(s: string, c: nat, o: string, k: string, end: nat) {
    && Holds(s, c, o) && Holds(s, c + |o|, k) && Holds(s, c + |o| + |k|, o)
    && end == c + |o| + |k| + |o|
  }

  predicate ColonPart(s: string, c: nat, w1: string, w2: string, end: nat) {
    && Holds(s, c, w1) && Holds(s, c + |w1|, ":") && Holds(s, c + |w1| + 1, w2)
    && end == c + |w1| + 1 + |w2|
  }

  /** A key and a value, with separators and a colon between them. */
  lemma LaysOut(s: string, i: nat, o1: string, k: string, w1: string, w2: string, o2: string, value: string,
                after: string)
      returns (close: nat, at: nat, behind: nat)
    requires i <= |s| && s[i..] == HeaderText(o1, k, w1, w2, o2, value, after)
    ensures KeyPart(s, i, o1, k, close) && ColonPart(s, close, w1, w2, at) && KeyPart(s, at, o2, value, behind)
    ensures behind <= |s| && s[behind..] == after
    ensures i <= close <= at <= behind
  {
    hide Holds;
    var tail := o2 + (value + (o2 + after));
    var middle := w1 + (":" + (w2 + tail));
    assert s[i..] == o1 + (k + (o1 + middle));
    close := KeyLaid(s, i, o1, k, middle);
    at := ColonLaid(s, close, w1, w2, tail);
    behind := KeyLaid(s, at, o2, value, after);
  }

  lemma KeyLaid(s: string, c: nat, o: string, k: string, rest: string) returns (end: nat)
    requires c <= |s| && s[c..] == o + (k + (o + rest))
    ensures KeyPart(s, c, o, k, end) && c <= end <= |s| && s[end..] == rest
  {
    hide Holds;
    HoldsNext(s, c, o, k + (o + rest));
    HoldsNext(s, c + |o|, k, o + rest);
    HoldsNext(s, c + |o| + |k|, o, rest);
    end := c + |o| + |k| + |o|;
  }

  lemma ColonLaid(s: string, c: nat, w1: string, w2: string, rest: string) returns (end: nat)
    requires c <= |s| && s[c..] == w1 + (":" + (w2 + rest))
    ensures ColonPart(s, c, w1, w2, end) && c <= end <= |s| && s[end..] == rest
  {
    hide Holds;
    HoldsNext(s, c, w1, ":" + (w2 + rest));
    HoldsNext(s, c + |w1|, ":", w2 + rest);
    HoldsNext(s, c + |w1| + 1, w2, rest);
    end := c + |w1| + 1 + |w2|;
  }

  /** A delimiter in place: its run, and its quote. */
  lemma DelimiterAt(s: string, c: nat, o: string)
    requires Holds(s, c, o) && Delimiter(o)
    ensures |o| > 0 && c + |o| <= |s| && (forall k | c <= k < c + |o| - 1 :: s[k] == '\\')
    ensures s[c + |o| - 1] == o[|o| - 1] && IsQuote(o[|o| - 1]) && IsCandidate(s[c])
    ensures RunEnd(s, c, |s|) == c + |o| - 1 && CandidateEnd(s, c) == c + |o| - 1
  {
    hide Holds;
    HoldsEach(s, c, o);
    var n := |o| - 1;
    assert s[c + n] == o[c + n - c];
    forall k | c <= k < c + n
      ensures s[k] == '\\'
    {
      assert s[k] == o[k - c] == o[..n][k - c];
    }
    RunEndIs(s, c, c + n, |s|);
  }

  /** Between the delimiters, a text without candidates: they are the next candidates. */
  lemma InsideDelimiters(s: string, c: nat, o: string, k: string, end: nat)
    requires KeyPart(s, c, o, k, end) && Delimiter(o) && forall n | 0 <= n < |k| :: !IsCandidate(k[n])
    ensures end <= |s| && FirstCandidate(s, c + |o|) == c + |o| + |k|
  {
    hide Holds, Delimiter, FirstCandidate, IsCandidate;
    DelimiterAt(s, c + |o| + |k|, o);
    HoldsEach(s, c + |o|, k);
    forall n | c + |o| <= n < c + |o| + |k|
      ensures !IsCandidate(s[n])
    {
      assert s[n] == k[n - (c + |o|)];
    }
    FirstCandidateIs(s, c + |o|, c + |o| + |k|);
  }

  lemma KeyIsClosed(s: string, c: nat, o: string, k: string, end: nat)
    requires KeyPart(s, c, o, k, end) && Delimiter(o) && NamesHeader(k) && |k| + |o| <= 33
    ensures c < |s| && IsCandidate(s[c]) && KeyCloses(s, c, CandidateEnd(s, c), end)
  {
    hide *;
    HeaderKeyMeans(k);
    NameBounds(k);
    KeyLetters(k);
    PartHolds(s, c, o, k, end);
    DelimiterAt(s, c, o);
    DelimiterAt(s, c + |o| + |k|, o);
    InsideDelimiters(s, c, o, k, end);
    KeyClosesFrom(s, c, c + |o| - 1, c + |o| + |k|, k, end);
  }

  lemma KeyClosesFrom(s: string, c: nat, e: nat, close: nat, k: string, end: nat)
    requires c <= e < close < end <= |s| && IsQuote(s[e]) && s[end - 1] == s[e] && end - 1 - close == e - c
    requires FirstCandidate(s, e + 1) == close && IsHeaderKey(k) && s[e + 1..close] == k
    requires |k| + (e - c) <= 32 && |k| < 32
    requires forall n | close <= n < end - 1 :: s[n] == '\\'
    ensures KeyCloses(s, c, e, end)
  {
    hide FirstCandidate, IsHeaderKey;
  }

  lemma ColonIsRead(s: string, close: nat, w1: string, w2: string, at: nat, o: string)
    requires ColonPart(s, close, w1, w2, at) && Holds(s, at, o) && Delimiter(o)
    requires Separator(w1) && Separator(w2) && |w1| <= 64 && |w2| <= 64
    ensures o != "" && ValueOpens(s, close, at, at + |o| - 1)
  {
    hide *;
    var colon := close + |w1|;
    ColonParts(s, close, w1, w2, at);
    DelimiterVisible(s, at, o);
    SeparatorSkipped(s, close, w1, 64);
    SeparatorSkipped(s, colon + 1, w2, 64);
    SeparatorBound();
    OpensFromParts(s, close, colon, at);
  }

  lemma SeparatorBound()
    ensures SEPARATOR_SCAN_LENGTH == 64
  {
  }

  lemma ColonParts(s: string, close: nat, w1: string, w2: string, at: nat)
    requires ColonPart(s, close, w1, w2, at)
    ensures var colon := close + |w1|;
            && colon < at <= |s| && at == colon + 1 + |w2| && s[colon] == ':' && Visible(s, colon)
            && s[close..colon] == w1 && s[colon + 1..at] == w2
  {
    var colon := close + |w1|;
    assert s[colon..colon + 1][0] == ':';
    hide IsSpace;
    BlankIsSpace(':');
  }

  lemma DelimiterVisible(s: string, at: nat, o: string)
    requires Holds(s, at, o) && Delimiter(o)
    ensures o != "" && at + |o| <= |s| && Visible(s, at)
    ensures RunEnd(s, at, |s|) == at + |o| - 1 && QuoteAfter(s, RunEnd(s, at, |s|))
  {
    DelimiterAt(s, at, o);
    hide RunEnd, Delimiter, Holds;
  }

  /**
   The contents of a string whose delimiter has `depth` backslashes and this quote: a run of any length and the
   character behind it go together, and are not that delimiter.
   */
  ghost predicate Inside(value: string, depth: nat, quote: char)
    decreases |value|
  {
    || value == ""
    || (value[0] != '\\' && !(depth == 0 && value[0] == quote) && Inside(value[1..], depth, quote))
    || (exists r: nat :: EscapesAt(value, r) && r < |value| && !(r == depth && value[r] == quote)
                         && Inside(value[r + 1..], depth, quote))
  }

  /** A run of `r` backslashes, and another character behind it. */
  predicate EscapesAt(value: string, r: nat) {
    0 < r < |value| && Run(value[..r]) && value[r] != '\\'
  }

  lemma FirstInside(value: string, depth: nat, quote: char) returns (r: nat)
    requires value != "" && Inside(value, depth, quote)
    ensures r < |value| && Inside(value[r + 1..], depth, quote) && Run(value[..r]) && value[r] != '\\'
    ensures !(r == depth && value[r] == quote)
  {
    hide Run;
    if value[0] != '\\' && !(depth == 0 && value[0] == quote) && Inside(value[1..], depth, quote) {
      r := 0;
      NoRun(value);
    } else {
      r :| EscapesAt(value, r) && r < |value| && !(r == depth && value[r] == quote)
           && Inside(value[r + 1..], depth, quote);
    }
  }

  lemma NoRun(value: string)
    ensures Run(value[..0])
  {
  }

  lemma HoldsBehind(s: string, c: nat, p: string, n: nat)
    requires Holds(s, c, p) && n <= |p|
    ensures Holds(s, c + n, p[n..])
  {
    assert s[c..c + |p|][n..] == s[c + n..c + |p|];
  }

  /** A body scan passes over such contents. */
  lemma {:induction false} InsidePassed(s: string, c: nat, value: string, depth: nat, quote: char)
    requires Holds(s, c, value) && Inside(value, depth, quote)
    ensures c + |value| <= |s|
    ensures BodyEnd(s, c, depth, quote, |s|).at == BodyEnd(s, c + |value|, depth, quote, |s|).at
    decreases |value|
  {
    hide *;
    HoldsEach(s, c, value);
    if value != "" {
      var r := FirstInside(value, depth, quote);
      HoldsBehind(s, c, value, r + 1);
      assert |value[r + 1..]| == |value| - (r + 1);
      InsidePassed(s, c + (r + 1), value[r + 1..], depth, quote);
      PiecePassed(s, c, value, depth, quote, r);
    }
  }

  lemma PiecePassed(s: string, c: nat, value: string, depth: nat, quote: char, r: nat)
    requires r < |value| && c + |value| <= |s| && (forall k | c <= k < c + |value| :: s[k] == value[k - c])
    requires Run(value[..r]) && value[r] != '\\' && !(r == depth && value[r] == quote)
    ensures BodyEnd(s, c, depth, quote, |s|).at == BodyEnd(s, c + (r + 1), depth, quote, |s|).at
  {
    hide BodyEnd;
    forall k | c <= k < c + r
      ensures s[k] == '\\'
    {
      assert s[k] == value[k - c] == value[..r][k - c];
    }
    assert s[c + r] == value[c + r - c];
    RunEndIs(s, c, c + r, |s|);
    if r == 0 {
      BodyAtCharacter(s, c, depth, quote, |s|);
    } else {
      BodyAtRun(s, c, depth, quote, |s|);
    }
  }

  lemma ValueIsClosed(s: string, at: nat, o: string, value: string, behind: nat)
    requires KeyPart(s, at, o, value, behind) && Delimiter(o) && Inside(value, |o| - 1, o[|o| - 1])
    ensures o != "" && behind <= |s| && s[at + |o| - 1] == o[|o| - 1]
    ensures BodyEnd(s, at + |o|, |o| - 1, o[|o| - 1], |s|).at == Some(at + |o| + |value|)
  {
    hide Delimiter, BodyEnd, IsCandidate, Inside, Holds;
    DelimiterAt(s, at, o);
    DelimiterAt(s, at + |o| + |value|, o);
    InsidePassed(s, at + |o|, value, |o| - 1, o[|o| - 1]);
    BodyAtCandidate(s, at + |o| + |value|, |o| - 1, o[|o| - 1], |s|);
  }

  lemma ValueClosesAt(s: string, at: nat, o: string, value: string, behind: nat, q: nat)
    requires KeyPart(s, at, o, value, behind) && Delimiter(o) && Inside(value, |o| - 1, o[|o| - 1]) && q + 1 == at + |o|
    ensures at <= q < behind <= |s|
    ensures BodyEnd(s, q + 1, q - at, s[q], |s|).at == Some(behind - (q - at) - 1)
  {
    hide Delimiter, BodyEnd, Inside, Holds;
    DelimiterAt(s, at, o);
    ValueIsClosed(s, at, o, value, behind);
  }

  lemma ReplaceAt(s: string, i: nat, close: nat, at: nat, q: nat, behind: nat)
    requires i < |s| && IsCandidate(s[i]) && KeyCloses(s, i, CandidateEnd(s, i), close) && ValueOpens(s, close, at, q)
    requires at <= q < behind <= |s| && BodyEnd(s, q + 1, q - at, s[q], |s|).at == Some(behind - (q - at) - 1)
    ensures StepAt(s, i).step == Replace(Pair(i, q + 1, behind, true))
  {
    hide *;
    KeyAndValueReplace(s, i, close, at, q);
  }

  lemma HeaderStep(s: string, i: nat, o1: string, k: string, w1: string, w2: string, o2: string, value: string,
                   close: nat, at: nat, behind: nat)
    requires KeyPart(s, i, o1, k, close) && ColonPart(s, close, w1, w2, at) && KeyPart(s, at, o2, value, behind)
    requires Delimiter(o1) && Delimiter(o2) && Inside(value, |o2| - 1, o2[|o2| - 1])
    requires NamesHeader(k) && |k| + |o1| <= 33 && Separator(w1) && Separator(w2) && |w1| <= 64 && |w2| <= 64
    ensures i < |s| && IsCandidate(s[i])
    ensures StepAt(s, i).step == Replace(Pair(i, at + |o2|, behind, true))
  {
    hide *;
    PartHolds(s, at, o2, value, behind);
    DelimiterVisible(s, at, o2);
    var q := at + |o2| - 1;
    KeyIsClosed(s, i, o1, k, close);
    ColonIsRead(s, close, w1, w2, at, o2);
    ValueClosesAt(s, at, o2, value, behind, q);
    ReplaceAt(s, i, close, at, q, behind);
  }

  lemma PartHolds(s: string, c: nat, o: string, k: string, end: nat)
    requires KeyPart(s, c, o, k, end)
    ensures Holds(s, c, o) && Holds(s, c + |o| + |k|, o) && end == c + |o| + |k| + |o| <= |s|
    ensures s[c + |o|..c + |o| + |k|] == k
  {
  }

  lemma {:induction false} QuotelessAt(s: string, c: nat, p: string)
    requires Holds(s, c, p) && Quoteless(p)
    ensures c + |p| <= |s| && forall k | c <= k < c + |p| :: !IsCandidate(s[k])
  {
    hide Holds, Quoteless, IsCandidate;
    HoldsEach(s, c, p);
    QuotelessMeans(p);
    forall k | c <= k < c + |p|
      ensures !IsCandidate(s[k])
    {
      assert s[k] == p[k - c];
    }
  }

  /** The scan of a text with one closed pair, plain before and behind it. */
  lemma OnePairScanned(s: string, i: nat, open: nat, behind: nat)
    requires i < open < behind <= |s| && IsCandidate(s[i]) && StepAt(s, i).step == Replace(Pair(i, open, behind, true))
    requires forall k | 0 <= k < i :: !IsCandidate(s[k])
    requires forall k | behind <= k < |s| :: !IsCandidate(s[k])
    ensures Rendered(ScanFrom(s, 0).result) == s[..open] + "[REDACTED]" + s[behind - 1..]
  {
    hide *;
    var pair, rest := Pair(i, open, behind, true), s[i..open] + "[REDACTED]" + s[behind - 1..];
    CopiesPlain(s, 0, i);
    ScanOnward(s, i);
    NothingToRedact(s, behind);
    PairJoins(s, i, open, behind);
    PrependRest(s[0..i], rest, [pair]);
    RenderedText(s[0..i] + rest, [pair]);
    SliceJoins(s, i, open, "[REDACTED]", s[behind - 1..]);
  }

  lemma RenderedText(output: string, pairs: seq<Pair>)
    ensures Rendered(Text(output, pairs)) == output
  {
  }

  lemma SliceJoins(s: string, i: nat, open: nat, m: string, tail: string)
    requires i <= open <= |s|
    ensures s[0..i] + (s[i..open] + m + tail) == s[..i] + (s[i..open] + m + tail) == s[..open] + m + tail
  {
    assert s[..open] == s[..i] + s[i..open] && s[0..i] == s[..i];
  }

  lemma PairJoins(s: string, i: nat, open: nat, behind: nat)
    requires i < open < behind <= |s|
    ensures var pair := Pair(i, open, behind, true);
            Prepend(PairText(s, pair), [pair], Text(s[behind..], []))
            == Text(s[i..open] + "[REDACTED]" + s[behind - 1..], [pair])
  {
    var pair := Pair(i, open, behind, true);
    assert REDACTED == "[REDACTED]";
    hide REDACTED;
    assert [pair] + [] == [pair];
    assert s[behind - 1..] == s[behind - 1..behind] + s[behind..];
    assert s[i..open] + "[REDACTED]" + s[behind - 1..behind] + s[behind..]
        == s[i..open] + "[REDACTED]" + (s[behind - 1..behind] + s[behind..]);
  }

  lemma PrependRest(a: string, b: string, pairs: seq<Pair>)
    ensures Prepend(a, [], Text(b, pairs)) == Text(a + b, pairs)
  {
    assert [] + pairs == pairs;
  }

  /** The text with the value and the closing run replaced; the quote that closes the value stays. */
  function RedactedText(o1: string, k: string, w1: string, w2: string, o2: string, after: string): string
    requires o2 != ""
  {
    o1 + (k + (o1 + (w1 + (":" + (w2 + (o2 + ("[REDACTED]" + ([o2[|o2| - 1]] + after))))))))
  }

  /**
   For every text without other quotes: a quoted header name in any case, at any escape depth within the key bound,
   separators of at most 64 characters around a colon, and a quoted value with any contents at any escape depth: the
   value is replaced, escaped quotes in it included, or a budget that is too small gives its marker.
   */
  lemma HeaderValueReplaced(before: string, o1: string, k: string, w1: string, w2: string, o2: string, value: string,
                            after: string)
    requires Quoteless(before) && Quoteless(after) && Delimiter(o1) && Delimiter(o2)
    requires Inside(value, |o2| - 1, o2[|o2| - 1])
    requires NamesHeader(k) && |k| + |o1| <= 33 && Separator(w1) && Separator(w2) && |w1| <= 64 && |w2| <= 64
    ensures o2 != ""
    ensures Rendered(ScanFrom(before + HeaderText(o1, k, w1, w2, o2, value, after), 0).result)
         == before + RedactedText(o1, k, w1, w2, o2, after)
    ensures forall budget: int :: WithBudget(before + HeaderText(o1, k, w1, w2, o2, value, after), budget)
              in {before + RedactedText(o1, k, w1, w2, o2, after), "[REDACTED scan budget exhausted]"}
  {
    hide *;
    var i, text := |before|, HeaderText(o1, k, w1, w2, o2, value, after);
    var s := before + text;
    assert s[i..] == text && s[..i] == before;
    HeaderScanned(s, i, o1, k, w1, w2, o2, value, after);
    forall budget: int
      ensures WithBudget(s, budget) in {Rendered(ScanFrom(s, 0).result), "[REDACTED scan budget exhausted]"}
    {
      BudgetOrMarker(s, budget);
    }
  }

  lemma BudgetOrMarker(s: string, budget: int)
    ensures WithBudget(s, budget) in {Rendered(ScanFrom(s, 0).result), "[REDACTED scan budget exhausted]"}
  {
    hide ScanFrom, Rendered;
  }

  lemma HeaderScanned(s: string, i: nat, o1: string, k: string, w1: string, w2: string, o2: string, value: string,
                      after: string)
    requires i <= |s| && s[i..] == HeaderText(o1, k, w1, w2, o2, value, after)
    requires Quoteless(s[..i]) && Quoteless(after) && Delimiter(o1) && Delimiter(o2)
    requires Inside(value, |o2| - 1, o2[|o2| - 1])
    requires NamesHeader(k) && |k| + |o1| <= 33 && Separator(w1) && Separator(w2) && |w1| <= 64 && |w2| <= 64
    ensures o2 != "" && Rendered(ScanFrom(s, 0).result) == s[..i] + RedactedText(o1, k, w1, w2, o2, after)
  {
    hide *;
    var open, behind := HeaderFound(s, i, o1, k, w1, w2, o2, value, after);
    PlainAround(s, i, behind, after);
    OnePairScanned(s, i, open, behind);
    SliceJoins(s, i, open, "[REDACTED]", s[behind - 1..]);
  }

  /** The pair the scan replaces, and what is left of the text. */
  lemma HeaderFound(s: string, i: nat, o1: string, k: string, w1: string, w2: string, o2: string, value: string,
                    after: string)
      returns (open: nat, behind: nat)
    requires i <= |s| && s[i..] == HeaderText(o1, k, w1, w2, o2, value, after)
    requires Delimiter(o1) && Delimiter(o2) && Inside(value, |o2| - 1, o2[|o2| - 1])
    requires NamesHeader(k) && |k| + |o1| <= 33 && Separator(w1) && Separator(w2) && |w1| <= 64 && |w2| <= 64
    ensures o2 != "" && i < open < behind <= |s| && IsCandidate(s[i]) && s[behind..] == after
    ensures StepAt(s, i).step == Replace(Pair(i, open, behind, true))
    ensures s[i..open] + "[REDACTED]" + s[behind - 1..] == RedactedText(o1, k, w1, w2, o2, after)
  {
    hide *;
    var close, at, end := LaysOut(s, i, o1, k, w1, w2, o2, value, after);
    HeaderStep(s, i, o1, k, w1, w2, o2, value, close, at, end);
    PartHolds(s, at, o2, value, end);
    DelimiterVisible(s, at, o2);
    Rejoined(s, i, o1, k, w1, w2, o2, value, after, close, at, end);
    open, behind := at + |o2|, end;
  }

  lemma PlainAround(s: string, i: nat, behind: nat, after: string)
    requires i <= |s| && behind <= |s| && Quoteless(s[..i]) && s[behind..] == after && Quoteless(after)
    ensures forall k | 0 <= k < i :: !IsCandidate(s[k])
    ensures forall k | behind <= k < |s| :: !IsCandidate(s[k])
  {
    hide *;
    WholeHolds(s, i);
    QuotelessAt(s, 0, s[..i]);
    HoldsRest(s, behind, after);
    QuotelessAt(s, behind, after);
  }

  lemma WholeHolds(s: string, i: nat)
    requires i <= |s|
    ensures Holds(s, 0, s[..i])
  {
  }

  lemma HoldsRest(s: string, c: nat, rest: string)
    requires c <= |s| && s[c..] == rest
    ensures Holds(s, c, rest) && c + |rest| == |s|
  {
  }

  lemma Rejoined(s: string, i: nat, o1: string, k: string, w1: string, w2: string, o2: string, value: string,
                 after: string, close: nat, at: nat, behind: nat)
    requires KeyPart(s, i, o1, k, close) && ColonPart(s, close, w1, w2, at) && KeyPart(s, at, o2, value, behind)
    requires o2 != "" && behind <= |s| && s[behind..] == after
    ensures i <= close <= at < at + |o2| < behind + 1 && behind > 0
    ensures s[i..at + |o2|] + "[REDACTED]" + s[behind - 1..] == RedactedText(o1, k, w1, w2, o2, after)
  {
    KeyJoins(s, i, o1, k, close);
    ColonJoins(s, close, w1, w2, at);
    LastJoins(s, at, o2, value, behind, after);
    hide *;
    var closing := [o2[|o2| - 1]] + after;
    ThreeJoin(s, i, close, at, at + |o2|, "[REDACTED]", closing);
    Regroup(w1, ":", w2, o2 + ("[REDACTED]" + closing));
    Regroup(o1, k, o1, w1 + (":" + (w2 + (o2 + ("[REDACTED]" + closing)))));
  }

  lemma Regroup(a: string, b: string, c: string, d: string)
    ensures a + (b + c) + d == a + (b + (c + d))
  {
  }

  lemma ThreeJoin(s: string, i: nat, j: nat, k: nat, l: nat, m: string, tail: string)
    requires i <= j <= k <= l <= |s|
    ensures s[i..l] + m + tail == s[i..j] + (s[j..k] + (s[k..l] + (m + tail)))
  {
    assert s[i..l] == s[i..j] + s[j..k] + s[k..l];
  }

  lemma KeyJoins(s: string, c: nat, o: string, k: string, end: nat)
    requires KeyPart(s, c, o, k, end)
    ensures c <= end <= |s| && s[c..end] == o + (k + o)
  {
  }

  lemma ColonJoins(s: string, c: nat, w1: string, w2: string, end: nat)
    requires ColonPart(s, c, w1, w2, end)
    ensures c <= end <= |s| && s[c..end] == w1 + (":" + w2)
  {
  }

  lemma LastJoins(s: string, at: nat, o: string, value: string, behind: nat, after: string)
    requires KeyPart(s, at, o, value, behind) && o != "" && behind <= |s| && s[behind..] == after
    ensures at < at + |o| <= behind - |o| && behind - 1 >= at + |o| && s[at..at + |o|] == o
    ensures s[behind - 1..] == [o[|o| - 1]] + after
  {
    var c := at + |o| + |value|;
    assert s[behind - 1] == s[c..c + |o|][|o| - 1];
  }
}
