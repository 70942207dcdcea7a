/** What the paths, keys and suites of receipts mean, in terms of their characters. */
module ReceiptPaths {
  import opened Prelude
  import opened ReceiptLedger
  import Glob

  // ---- Segments of a path ----

  /** The path's piece at `i` is this one: it starts the path or follows a slash, and ends it or precedes one. */
  predicate SegmentAt(path: string, i: nat, segment: string) {
    && i + |segment| <= |path| && path[i..i + |segment|] == segment
    && (i > 0 ==> path[i - 1] == '/')
    && (i + |segment| < |path| ==> path[i + |segment|] == '/')
  }

  predicate HasSegment(path: string, segment: string) {
    exists i :: 0 <= i <= |path| && SegmentAt(path, i, segment)
  }

  lemma AtStart(path: string, segment: string)
    ensures SegmentAt(path, 0, segment) <==> segment <= path && (|segment| < |path| ==> path[|segment|] == '/')
  {
    if |segment| <= |path| {
      assert path[0..0 + |segment|] == path[..|segment|];
    }
  }

  lemma {:induction false} FirstSegment(path: string, segment: string)
    requires '/' !in segment
    ensures Glob.Split(path)[0] == segment <==> SegmentAt(path, 0, segment)
  {
    hide SegmentAt;
    AtStart(path, segment);
    if path != "" && path[0] != '/' && segment != "" {
      FirstSegment(path[1..], segment[1..]);
      AtStart(path[1..], segment[1..]);
      assert segment == [segment[0]] + segment[1..] && path == [path[0]] + path[1..];
    }
  }

  predicate LaterSegment(path: string, segment: string) {
    exists i :: 1 <= i <= |path| && SegmentAt(path, i, segment)
  }

  lemma ShiftSegment(path: string, i: nat, segment: string)
    requires path != "" && i > 1
    ensures SegmentAt(path, i, segment) <==> SegmentAt(path[1..], i - 1, segment)
  {
    if i + |segment| <= |path| {
      assert path[1..][i - 1..i - 1 + |segment|] == path[i..i + |segment|];
    }
  }

  lemma ShiftFirst(path: string, segment: string)
    requires path != "" && path[0] == '/'
    ensures SegmentAt(path, 1, segment) <==> SegmentAt(path[1..], 0, segment)
  {
    if 1 + |segment| <= |path| {
      assert path[1..][0..|segment|] == path[1..1 + |segment|];
    }
  }

  lemma LaterShifts(path: string, segment: string)
    requires path != ""
    ensures LaterSegment(path, segment) <==>
              LaterSegment(path[1..], segment) || (path[0] == '/' && SegmentAt(path[1..], 0, segment))
  {
    hide SegmentAt;
    if i :| 1 <= i <= |path| && SegmentAt(path, i, segment) {
      if i == 1 {
        SlashBefore(path, segment);
        ShiftFirst(path, segment);
      } else {
        ShiftSegment(path, i, segment);
      }
    }
    if i :| 1 <= i <= |path[1..]| && SegmentAt(path[1..], i, segment) {
      ShiftSegment(path, i + 1, segment);
    }
    if path[0] == '/' && SegmentAt(path[1..], 0, segment) {
      ShiftFirst(path, segment);
    }
  }

  lemma SlashBefore(path: string, segment: string)
    requires path != ""
    ensures SegmentAt(path, 1, segment) ==> path[0] == '/'
  {
  }

  lemma {:induction false} LaterSegments(path: string, segment: string)
    requires '/' !in segment
    ensures segment in Glob.Split(path)[1..] <==> LaterSegment(path, segment)
  {
    if path != "" {
      var rest := Glob.Split(path[1..]);
      LaterSegments(path[1..], segment);
      LaterShifts(path, segment);
      FirstSegment(path[1..], segment);
      assert rest == [rest[0]] + rest[1..];
      assert Glob.Split(path)[1..] == if path[0] == '/' then rest else rest[1..];
    }
  }

  /** The pieces of a path between its slashes. */
  lemma SegmentsMean(path: string, segment: string)
    requires '/' !in segment
    ensures segment in Glob.Split(path) <==> HasSegment(path, segment)
  {
    FirstSegment(path, segment);
    LaterSegments(path, segment);
    var all := Glob.Split(path);
    assert all == [all[0]] + all[1..];
    hide SegmentAt;
    if LaterSegment(path, segment) {
      var i :| 1 <= i <= |path| && SegmentAt(path, i, segment);
    }
  }

  // ---- Normalizing ----

  /** The path with every backslash turned into a slash. */
  predicate IsForward(path: string, q: string) {
    && |q| == |path|
    && forall i :: 0 <= i < |path| ==> q[i] == if path[i] == '\\' then '/' else path[i]
  }

  lemma {:induction false} ForwardMeans(path: string)
    ensures IsForward(path, Forward(path))
  {
    if path != "" {
      ForwardMeans(path[1..]);
    }
  }

  /** What is left of a path once it has forward slashes and its first `./` is gone. */
  function Bare(q: string): string {
    if "./" <= q then q[2..] else q
  }

  lemma BareMeans(q: string)
    ensures WithoutDotSlash(q) == Bare(q)
  {
  }

  /** A path is refused exactly when it is empty, or starts with a slash or climbs with `..` once it is bare. */
  lemma NormalizeMeans(path: string, q: string)
    requires IsForward(path, q)
    ensures NormalizePath(path)
         == if path == "" || "/" <= Bare(q) || HasSegment(Bare(q), "..") then None else Some(Bare(q))
  {
    ForwardMeans(path);
    assert q == Forward(path);
    BareMeans(q);
    SegmentsMean(Bare(q), "..");
    hide HasSegment;
  }

  /** Normalizing again changes nothing, except that a path left empty is refused and a second `./` goes as well. */
  lemma NormalizingAgain(path: string)
    requires NormalizePath(path).Some?
    ensures var p := NormalizePath(path).value;
            NormalizePath(p) == Some(p) <==> p != "" && !("./" <= p)
  {
    var q := Forward(path);
    ForwardMeans(path);
    NormalizeMeans(path, q);
    var p := NormalizePath(path).value;
    assert forall i :: 0 <= i < |p| ==> p[i] != '\\' by {
      assert forall i :: 0 <= i < |q| ==> q[i] != '\\';
    }
    assert IsForward(p, p);
    NormalizeMeans(p, p);
  }

  // ---- Keys ----

  /** A key is valid exactly when it is a suite and a profile, neither empty nor with a slash, joined by one. */
  lemma ValidKeyMeans(key: string)
    ensures ValidKey(key) <==>
              exists suite: string, profile: string :: suite != "" && profile != "" && '/' !in suite && '/' !in profile
                                                       && key == suite + "/" + profile
  {
    if ValidKey(key) {
      var i :| 0 < i < |key| - 1 && key[i] == '/' && forall j :: 0 <= j < |key| && j != i ==> key[j] != '/';
      var suite, profile := key[..i], key[i + 1..];
      assert key == suite + "/" + profile;
      assert forall j :: 0 <= j < |profile| ==> profile[j] == key[i + 1 + j];
      assert '/' !in suite && '/' !in profile;
    }
    if suite: string, profile: string :| suite != "" && profile != "" && '/' !in suite && '/' !in profile
                                         && key == suite + "/" + profile {
      var i := |suite|;
      assert forall j :: 0 <= j < i ==> key[j] == suite[j] && suite[j] in suite;
      assert forall j :: i < j < |key| ==> key[j] == profile[j - i - 1] && profile[j - i - 1] in profile;
      assert key[i] == '/';
    }
  }

  // ---- The suites a verification plans ----

  /** What a key says before its first slash. */
  predicate Names(key: string, suite: string) {
    && suite != "" && '/' !in suite && suite <= key
    && (|suite| < |key| ==> key[|suite|] == '/')
  }

  lemma KeyNames(key: string, suite: string)
    ensures Names(key, suite) <==> suite != "" && suite == Glob.Split(key)[0]
  {
    if suite == Glob.Split(key)[0] {
      assert Glob.SlashFree(suite);
    }
    if '/' !in suite {
      FirstSegment(key, suite);
      if suite <= key {
        assert key[0..|suite|] == suite;
      }
    }
  }

  /** The suites planned are those of the receipts and those the required keys name. */
  lemma {:induction false} SuitesPlanned(receipts: seq<Receipt>, keys: seq<string>, id: string)
    ensures id in SuiteIds(receipts, keys)
       <==> (exists r :: r in receipts && r.suite == id) || (exists key :: key in keys && Names(key, id))
    decreases |receipts|, |keys|
  {
    hide Names;
    if receipts != [] {
      SuitesPlanned(receipts[1..], keys, id);
      assert receipts == [receipts[0]] + receipts[1..];
    } else if keys != [] {
      KeyNames(keys[0], id);
      SuitesPlanned([], keys[1..], id);
      assert keys == [keys[0]] + keys[1..];
    }
  }
}
