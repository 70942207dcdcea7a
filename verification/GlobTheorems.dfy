/** The expression written for a glob accepts exactly the paths its segments describe. */
module GlobTheorems {
  import opened Glob

  // ---- One segment ----

  // The run of a star: zero characters, or one and the star again.
  lemma StarTakesOneMore(pattern: string, s: string)
    requires pattern != [] && pattern[0] == '*'
    ensures SegmentMatches(pattern, s)
       <==> SegmentMatches(pattern[1..], s) || (s != [] && SegmentMatches(pattern, s[1..]))
  {
    if SegmentMatches(pattern, s) {
      var k :| 0 <= k <= |s| && SegmentMatches(pattern[1..], s[k..]);
      if k == 0 {
        assert s[0..] == s;
      } else {
        assert s[1..][k - 1..] == s[k..];
      }
    }
    if SegmentMatches(pattern[1..], s) {
      assert s[0..] == s;
    }
    if s != [] && SegmentMatches(pattern, s[1..]) {
      var k :| 0 <= k <= |s[1..]| && SegmentMatches(pattern[1..], s[1..][k..]);
      assert s[1..][k..] == s[k + 1..];
    }
  }

  // An expression that can only go on at a slash, or not at all.
  predicate GoesOnAtSlash(re: seq<Atom>) {
    re == [] || re[0] == Lit('/')
  }

  predicate EndsOrSlash(rest: string) {
    rest == [] || rest[0] == '/'
  }

  /** The atoms of one segment read exactly the text up to the next slash. */
  lemma {:induction false} SegmentReads(pattern: string, s: string, re: seq<Atom>, rest: string)
    requires SlashFree(pattern) && NoDoubleStar(pattern) && SlashFree(s)
    requires GoesOnAtSlash(re) && EndsOrSlash(rest)
    ensures Accepts(Compiled(pattern) + re, s + rest) <==> SegmentMatches(pattern, s) && Accepts(re, rest)
    decreases |pattern|, |s|
  {
    if pattern == [] {
      assert Compiled(pattern) + re == re;
      if s == [] {
        assert s + rest == rest;
      } else {
        assert (s + rest)[0] == s[0];
        assert s[0] in s;
      }
    } else {
      var tail := pattern[1..];
      assert NoDoubleStar(tail) by {
        forall i | 0 <= i < |tail| - 1 ensures !(tail[i] == '*' && tail[i + 1] == '*') {
          assert tail[i] == pattern[i + 1] && tail[i + 1] == pattern[i + 2];
        }
      }
      var all := Compiled(pattern) + re;
      assert all[1..] == Compiled(tail) + re by {
        assert Compiled(pattern)[1..] == Compiled(tail);
      }
      assert all[0] == Compiled(pattern)[0];
      if pattern[0] == '*' {
        SegmentReads(tail, s, re, rest);
        StarTakesOneMore(pattern, s);
      }
      if s != [] {
        assert s[0] in s;
        assert (s + rest)[1..] == s[1..] + rest && (s + rest)[0] == s[0];
        if pattern[0] == '*' {
          SegmentReads(pattern, s[1..], re, rest);
        } else {
          SegmentReads(tail, s[1..], re, rest);
        }
      } else {
        assert s + rest == rest;
        assert pattern[0] in pattern;
      }
    }
  }

  // ---- A double star ----

  lemma {:induction false} AnythingReads(s: string)
    ensures Accepts([Anything], s) <==> OneLine(s)
  {
    if s != [] {
      AnythingReads(s[1..]);
      assert s == [s[0]] + s[1..];
    }
  }

  lemma OneLineJoin(a: string, b: string)
    ensures OneLine(a + b) <==> OneLine(a) && OneLine(b)
  {
    if OneLine(a + b) {
      assert forall i :: 0 <= i < |a| ==> a[i] == (a + b)[i];
      assert forall i :: 0 <= i < |b| ==> b[i] == (a + b)[|a| + i];
    }
  }

  lemma {:induction false} JoinOneLine(path: seq<string>)
    requires path != []
    ensures OneLine(Join(path)) <==> OneLineEach(path)
  {
    if |path| > 1 {
      JoinOneLine(path[1..]);
      OneLineJoin(path[0], ['/']);
      OneLineJoin(path[0] + ['/'], Join(path[1..]));
      assert path == [path[0]] + path[1..];
    }
  }

  // `.*/` has to cover the first segment if there is a slash to find, and can then stop or go on.
  lemma {:induction false} FoldersCoverOne(re: seq<Atom>, s: string, u: string)
    requires SlashFree(s)
    ensures AcceptsAfterFolders(re, s + (['/'] + u))
       <==> OneLine(s) && (Accepts(re, u) || AcceptsAfterFolders(re, u))
    decreases |s|
  {
    hide Accepts;
    if s == [] {
      assert s + (['/'] + u) == ['/'] + u;
      assert (['/'] + u)[1..] == u;
    } else {
      assert s[0] in s;
      assert (s + (['/'] + u))[1..] == s[1..] + (['/'] + u);
      FoldersCoverOne(re, s[1..], u);
      OneLineJoin([s[0]], s[1..]);
      assert s == [s[0]] + s[1..];
      assert OneLine([s[0]]) <==> Dot(s[0]) by {
        assert [s[0]][0] == s[0];
      }
    }
  }

  lemma {:induction false} NoFolders(re: seq<Atom>, s: string)
    requires SlashFree(s)
    ensures !AcceptsAfterFolders(re, s)
    decreases |s|
  {
    if s != [] {
      assert s[0] in s;
      NoFolders(re, s[1..]);
    }
  }

  // The expression accepts what is left of the path after its first k segments, which hold no line break.
  predicate AcceptsFrom(re: seq<Atom>, path: seq<string>, k: int) {
    0 <= k < |path| && OneLineEach(path[..k]) && Accepts(re, Join(path[k..]))
  }

  lemma {:induction false} FoldersRead(re: seq<Atom>, path: seq<string>)
    requires path != [] && Segments(path)
    ensures AcceptsAfterFolders(re, Join(path)) <==> exists k :: 1 <= k && AcceptsFrom(re, path, k)
    decreases |path|
  {
    hide Accepts;
    if |path| == 1 {
      NoFolders(re, path[0]);
    } else {
      var rest := path[1..];
      assert Join(path) == path[0] + (['/'] + Join(rest));
      FoldersCoverOne(re, path[0], Join(rest));
      FoldersRead(re, rest);
      assert path[1..] == rest && rest[0..] == rest;
      if AcceptsAfterFolders(re, Join(path)) {
        if Accepts(re, Join(rest)) {
          assert path[..1] == [path[0]];
          assert AcceptsFrom(re, path, 1);
        } else {
          var k :| 1 <= k && AcceptsFrom(re, rest, k);
          assert path[..k + 1] == [path[0]] + rest[..k] && path[k + 1..] == rest[k..];
          assert AcceptsFrom(re, path, k + 1);
        }
      }
      if k :| 1 <= k && AcceptsFrom(re, path, k) {
        assert path[..k][0] == path[0];
        assert path[k..] == rest[k - 1..];
        assert AcceptsFrom(re, rest, k - 1) by {
          assert rest[..k - 1] == path[..k][1..];
        }
      }
    }
  }

  // ---- The whole pattern ----

  // A character that is not the first of two stars is read on its own.
  function Single(c: char): Atom {
    if c == '*' then NotSlashes else if c == '?' then NotSlash else Lit(c)
  }

  lemma CompiledSingle(glob: string)
    requires glob != [] && !(|glob| > 1 && glob[0] == '*' && glob[1] == '*')
    ensures Compiled(glob) == [Single(glob[0])] + Compiled(glob[1..])
  {
  }

  lemma {:induction false} CompiledSegment(pattern: string, rest: string)
    requires SlashFree(pattern) && NoDoubleStar(pattern) && EndsOrSlash(rest)
    ensures Compiled(pattern + rest) == Compiled(pattern) + Compiled(rest)
    decreases |pattern|
  {
    hide Compiled, Single;
    var all := pattern + rest;
    if pattern == [] {
      CompiledEmpty();
      assert all == rest && pattern == [];
    } else {
      var tail := pattern[1..];
      assert NoDoubleStar(tail) by {
        forall i | 0 <= i < |tail| - 1 ensures !(tail[i] == '*' && tail[i + 1] == '*') {
          assert tail[i] == pattern[i + 1] && tail[i + 1] == pattern[i + 2];
        }
      }
      CompiledSegment(tail, rest);
      assert all[1..] == tail + rest && all[0] == pattern[0];
      if |all| > 1 {
        assert all[1] == if |pattern| > 1 then pattern[1] else rest[0];
      }
      CompiledSingle(pattern);
      CompiledSingle(all);
    }
  }

  lemma CompiledDoubleStar(rest: string)
    ensures Compiled(DOUBLE_STAR + (['/'] + rest)) == [Folders] + Compiled(rest)
    ensures Compiled(DOUBLE_STAR) == [Anything]
  {
    var all := DOUBLE_STAR + (['/'] + rest);
    assert all[0] == '*' && all[1] == '*' && all[2] == '/' && all[3..] == rest;
    assert DOUBLE_STAR[2..] == [];
  }

  lemma SlashReads(re: seq<Atom>, rest: string)
    ensures Accepts([Lit('/')] + re, ['/'] + rest) <==> Accepts(re, rest)
    ensures !Accepts([Lit('/')] + re, [])
  {
    var all := [Lit('/')] + re;
    assert all[0] == Lit('/') && all[1..] == re;
    assert (['/'] + rest)[1..] == rest;
  }

  lemma {:induction false} LastSegmentReads(segment: string, path: seq<string>)
    requires SlashFree(segment) && NoDoubleStar(segment)
    requires path != [] && Segments(path)
    ensures Accepts(Compiled(segment), Join(path)) <==> |path| == 1 && SegmentMatches(segment, path[0])
  {
    assert Compiled(segment) + [] == Compiled(segment);
    if |path| == 1 {
      assert path[0] + [] == path[0];
      SegmentReads(segment, path[0], [], []);
    } else {
      assert Join(path) == path[0] + (['/'] + Join(path[1..]));
      SegmentReads(segment, path[0], [], ['/'] + Join(path[1..]));
    }
  }

  lemma {:induction false} InnerSegmentReads(segment: string, rest: string, path: seq<string>)
    requires SlashFree(segment) && NoDoubleStar(segment)
    requires path != [] && Segments(path)
    ensures Accepts(Compiled(segment + (['/'] + rest)), Join(path))
       <==> |path| > 1 && SegmentMatches(segment, path[0]) && Accepts(Compiled(rest), Join(path[1..]))
  {
    hide Accepts;
    var re := [Lit('/')] + Compiled(rest);
    CompiledSegment(segment, ['/'] + rest);
    assert Compiled(['/'] + rest) == re by {
      assert (['/'] + rest)[1..] == rest;
    }
    if |path| == 1 {
      assert path[0] + [] == path[0];
      SegmentReads(segment, path[0], re, []);
      SlashReads(Compiled(rest), []);
    } else {
      assert Join(path) == path[0] + (['/'] + Join(path[1..]));
      SegmentReads(segment, path[0], re, ['/'] + Join(path[1..]));
      SlashReads(Compiled(rest), Join(path[1..]));
    }
  }

  /** Segment by segment, the compiled expression and the segment reading agree. */
  lemma {:induction false} SegmentsRead(pattern: seq<string>, path: seq<string>)
    requires pattern != [] && DoubleStarsStandAlone(pattern)
    requires path != [] && Segments(path)
    ensures Accepts(Compiled(Join(pattern)), Join(path)) <==> SegmentsMatch(pattern, path)
    decreases |pattern|
  {
    hide Accepts, Compiled, SegmentMatches, NoDoubleStar, OneLineEach;
    if |pattern| == 1 {
      if pattern[0] == DOUBLE_STAR {
        CompiledDoubleStar([]);
        AnythingReads(Join(path));
        JoinOneLine(path);
        assert pattern == [DOUBLE_STAR];
      } else {
        LastSegmentReads(pattern[0], path);
        assert pattern[1..] == [];
        assert path[1..] == [] <==> |path| == 1;
      }
    } else {
      var rest := pattern[1..];
      assert DoubleStarsStandAlone(rest);
      assert Join(pattern) == pattern[0] + (['/'] + Join(rest));
      if pattern[0] == DOUBLE_STAR {
        InnerDoubleStarReads(pattern, path);
      } else {
        InnerSegmentReads(pattern[0], Join(rest), path);
        if |path| > 1 {
          SegmentsRead(rest, path[1..]);
        } else {
          assert path[1..] == [];
          NothingLeft(rest);
        }
      }
    }
  }

  lemma NothingLeft(pattern: seq<string>)
    requires pattern != []
    ensures !SegmentsMatch(pattern, [])
  {
    if pattern[0] == DOUBLE_STAR && |pattern| > 1 {
      var none: seq<string> := [];
      assert none[0..] == none;
      NothingLeft(pattern[1..]);
    }
  }

  lemma {:induction false} InnerDoubleStarReads(pattern: seq<string>, path: seq<string>)
    requires |pattern| > 1 && pattern[0] == DOUBLE_STAR && DoubleStarsStandAlone(pattern)
    requires path != [] && Segments(path)
    ensures Accepts(Compiled(Join(pattern)), Join(path)) <==> SegmentsMatch(pattern, path)
    decreases |pattern|, 0
  {
    hide Compiled, SegmentMatches, NoDoubleStar;
    var rest := pattern[1..];
    assert DoubleStarsStandAlone(rest);
    var re := Compiled(Join(rest));
    assert Join(pattern) == DOUBLE_STAR + (['/'] + Join(rest));
    CompiledDoubleStar(Join(rest));
    FoldersRead(re, path);
    assert ([Folders] + re)[1..] == re;
    assert Accepts([Folders] + re, Join(path)) <==> Accepts(re, Join(path)) || AcceptsAfterFolders(re, Join(path));
    hide Accepts, AcceptsAfterFolders;
    forall k | 0 <= k < |path|
      ensures AcceptsFrom(re, path, k) <==> OneLineEach(path[..k]) && SegmentsMatch(rest, path[k..])
    {
      SegmentsRead(rest, path[k..]);
    }
    assert path[0..] == path && OneLineEach(path[..0]);
    assert AcceptsFrom(re, path, 0) <==> Accepts(re, Join(path));
    assert Accepts(Compiled(Join(pattern)), Join(path)) <==> exists k :: AcceptsFrom(re, path, k);
    NothingLeft(rest);
    assert path[|path|..] == [];
    if k :| AcceptsFrom(re, path, k) {
      assert SegmentsMatch(rest, path[k..]);
    }
    if SegmentsMatch(pattern, path) {
      var k :| 0 <= k <= |path| && OneLineEach(path[..k]) && SegmentsMatch(rest, path[k..]);
      assert k < |path|;
      assert AcceptsFrom(re, path, k);
    }
  }

  /**
   * For every glob whose double stars stand alone between slashes and every path, the expression
   * accepts the path exactly when the glob matches it segment by segment.
   */
  lemma RegExpReadsSegments(glob: string, path: string)
    requires DoubleStarsStandAlone(Split(glob))
    ensures Accepts(Compiled(glob), path) <==> SegmentsMatch(Split(glob), Split(path))
  {
    hide Accepts, Compiled, SegmentsMatch, DoubleStarsStandAlone, Split, Join;
    JoinSplit(glob);
    JoinSplit(path);
    SegmentsRead(Split(glob), Split(path));
  }

  lemma {:induction false} SplitAlone(s: string)
    requires SlashFree(s)
    ensures Split(s) == [s]
  {
    if s != [] {
      assert s[0] in s;
      SplitAlone(s[1..]);
      assert s == [s[0]] + s[1..];
    }
  }

  lemma {:induction false} SplitFirst(s: string, rest: string)
    requires SlashFree(s)
    ensures Split(s + (['/'] + rest)) == [s] + Split(rest)
  {
    var all := s + (['/'] + rest);
    if s == [] {
      assert all[1..] == rest;
    } else {
      assert s[0] in s;
      SplitFirst(s[1..], rest);
      assert all[1..] == s[1..] + (['/'] + rest) && s == [s[0]] + s[1..];
    }
  }

  /** Inside a longer segment two stars do cross a slash, so the condition cannot be dropped. */
  lemma DoubleStarInsideASegmentCrossesSlashes()
    ensures !DoubleStarsStandAlone(Split(['a', '*', '*']))
    ensures Accepts(Compiled(['a', '*', '*']), ['a', '/', 'b'])
    ensures !SegmentsMatch(Split(['a', '*', '*']), Split(['a', '/', 'b']))
  {
    var glob: string, path: string := ['a', '*', '*'], ['a'] + (['/'] + ['b']);
    assert path == ['a', '/', 'b'];
    SplitAlone(glob);
    SplitAlone(['b']);
    SplitFirst(['a'], ['b']);
    assert [['a']] + [['b']] == [['a'], ['b']];
    assert !NoDoubleStar(glob) by {
      assert glob[1] == '*' && glob[1 + 1] == '*';
    }
    assert |glob| != |DOUBLE_STAR|;
    assert !DoubleStarsStandAlone([glob]) by {
      assert [glob][0] == glob;
    }
    assert Compiled(glob) == [Lit('a')] + Compiled(DOUBLE_STAR) == [Lit('a'), Anything] by {
      assert glob[1..] == DOUBLE_STAR;
      CompiledDoubleStar([]);
    }
    AnythingReads(path[1..]);
    assert path[1..] == ['/', 'b'];
    assert OneLine(path[1..]);
    assert [Lit('a'), Anything][1..] == [Anything];
    assert Accepts([Lit('a'), Anything], path);
  }
}
