/** What the splice editor's output is, for every list of edits it can hold. */
module MagicStringTheorems {
  import opened MagicString

  // Each edit starts at or after the cursor the one before it left.
  predicate Forward(sorted: seq<Edit>, cursor: nat) {
    sorted == [] || (cursor <= sorted[0].start && Forward(sorted[1..], sorted[0].end))
  }

  lemma {:induction false} NoBacktrackIsForward(sorted: seq<Edit>, cursor: nat)
    ensures Backtrack(sorted, cursor) == 0 <==> Forward(sorted, cursor)
  {
    if sorted != [] {
      NoBacktrackIsForward(sorted[1..], sorted[0].end);
    }
  }

  // ---- Length ----

  /** Every edit accounted for, and what is written twice is exactly the backtracking. */
  lemma {:induction false} RenderedLength(original: string, sorted: seq<Edit>, cursor: nat)
    requires AllInRange(sorted, original) && cursor <= |original|
    ensures |Rendered(original, sorted, cursor)| == |original| - cursor + Growth(sorted) + Backtrack(sorted, cursor)
  {
    if sorted != [] {
      assert InRange(sorted[0], original);
      RenderedLength(original, sorted[1..], sorted[0].end);
    }
  }

  lemma {:induction false} InsertGrowth(e: Edit, sorted: seq<Edit>)
    ensures Growth(Insert(e, sorted)) == Growth([e]) + Growth(sorted)
  {
    assert [e][1..] == [];
    assert ([e] + sorted)[1..] == sorted;
    if !(sorted == [] || e.start <= sorted[0].start) {
      InsertGrowth(e, sorted[1..]);
      assert ([sorted[0]] + Insert(e, sorted[1..]))[1..] == Insert(e, sorted[1..]);
    }
  }

  lemma {:induction false} SortedGrowth(edits: seq<Edit>)
    ensures Growth(ByStart(edits)) == Growth(edits)
  {
    if edits != [] {
      SortedGrowth(edits[1..]);
      InsertGrowth(edits[0], ByStart(edits[1..]));
      assert [edits[0]][1..] == [];
    }
  }

  // ---- When the pass stays ahead of itself ----

  predicate ApartFromAll(e: Edit, sorted: seq<Edit>) {
    forall i :: 0 <= i < |sorted| ==> Apart(e, sorted[i])
  }

  predicate SentBackByNone(e: Edit, sorted: seq<Edit>) {
    forall i :: 0 <= i < |sorted| ==> !SendsBack(e, sorted[i])
  }

  lemma {:induction false} InsertForward(e: Edit, sorted: seq<Edit>, cursor: nat, original: string)
    requires InRange(e, original) && AllInRange(sorted, original) && Ascending(sorted) && ApartFromAll(e, sorted)
    ensures Forward(Insert(e, sorted), cursor)
       <==> cursor <= e.start && Forward(sorted, cursor) && SentBackByNone(e, sorted)
    decreases |sorted|
  {
    if sorted == [] {
      assert ([e] + sorted)[1..] == [];
    } else {
      var first, rest := sorted[0], sorted[1..];
      assert InRange(first, original) && Apart(e, first);
      assert sorted == [first] + rest;
      if e.start <= first.start {
        assert ([e] + sorted)[1..] == sorted;
        assert e.end <= first.start <==> !SendsBack(e, first);
        if e.end <= first.start {
          assert SentBackByNone(e, sorted);
        }
      } else {
        InsertForward(e, rest, first.end, original);
        assert ([first] + Insert(e, rest))[1..] == Insert(e, rest);
        assert first.end <= e.start && !SendsBack(e, first);
        assert SentBackByNone(e, sorted) <==> SentBackByNone(e, rest);
      }
    }
  }

  lemma AcceptedTail(edits: seq<Edit>, original: string)
    requires Accepted(edits, original) && edits != []
    ensures Accepted(edits[1..], original) && InRange(edits[0], original)
    ensures ApartFromAll(edits[0], edits[1..])
  {
    hide Apart, InRange;
    var rest := edits[1..];
    assert forall i :: 0 <= i < |rest| ==> rest[i] == edits[i + 1];
  }

  lemma SendingBackTail(edits: seq<Edit>)
    requires edits != []
    ensures EmptyAfterNonEmpty(edits) <==> EmptyAfterNonEmpty(edits[1..]) || !SentBackByNone(edits[0], edits[1..])
  {
    hide SendsBack;
    var rest := edits[1..];
    if EmptyAfterNonEmpty(edits) {
      var i, j :| 0 <= i < j < |edits| && SendsBack(edits[i], edits[j]);
      assert rest[j - 1] == edits[j];
      if i > 0 {
        assert rest[i - 1] == edits[i];
      }
    }
    if EmptyAfterNonEmpty(rest) {
      var i, j :| 0 <= i < j < |rest| && SendsBack(rest[i], rest[j]);
      assert SendsBack(edits[i + 1], edits[j + 1]);
    }
    if i :| 0 <= i < |rest| && SendsBack(edits[0], rest[i]) {
      assert SendsBack(edits[0], edits[i + 1]);
    }
  }

  lemma SameElements(e: Edit, xs: seq<Edit>, ys: seq<Edit>)
    requires multiset(xs) == multiset(ys)
    ensures ApartFromAll(e, xs) ==> ApartFromAll(e, ys)
    ensures SentBackByNone(e, xs) ==> SentBackByNone(e, ys)
  {
    forall i | 0 <= i < |ys| ensures ys[i] in xs {
      assert ys[i] in multiset(ys);
    }
  }

  /** The pass goes back exactly when an empty edit was recorded after a non-empty one with its start. */
  lemma {:induction false} GoesBackExactlyWhen(edits: seq<Edit>, original: string)
    requires Accepted(edits, original)
    ensures Forward(ByStart(edits), 0) <==> !EmptyAfterNonEmpty(edits)
    decreases |edits|
  {
    hide Apart, SendsBack;
    if edits != [] {
      var e, rest := edits[0], edits[1..];
      AcceptedTail(edits, original);
      SendingBackTail(edits);
      GoesBackExactlyWhen(rest, original);
      ByStartSorts(rest);
      ByStartInRange(rest, original);
      SameElements(e, rest, ByStart(rest));
      SameElements(e, ByStart(rest), rest);
      InsertForward(e, ByStart(rest), 0, original);
    }
  }

  // ---- Right to left ----

  // Nothing that is applied later reaches below the position.
  predicate KeepsPrefix(sorted: seq<Edit>, position: nat) {
    forall i :: 0 <= i < |sorted| ==> position <= sorted[i].start
  }

  lemma {:induction false} ForwardKeeps(sorted: seq<Edit>, cursor: nat, original: string)
    requires Forward(sorted, cursor) && AllInRange(sorted, original)
    ensures KeepsPrefix(sorted, cursor)
  {
    if sorted != [] {
      assert InRange(sorted[0], original);
      ForwardKeeps(sorted[1..], sorted[0].end, original);
      assert sorted == [sorted[0]] + sorted[1..];
    }
  }

  lemma Splice(original: string, cursor: nat, e: Edit, tail: string)
    requires InRange(e, original) && cursor <= e.start
    ensures ApplyOne(original[..e.end] + tail, e)
         == original[..cursor] + (Slice(original, cursor, e.start) + e.replacement + tail)
  {
    var s := original[..e.end] + tail;
    assert s[..e.start] == original[..e.start] && s[e.end..] == tail;
    assert original[..e.start] == original[..cursor] + original[cursor..e.start];
  }

  /** Going forward, one pass from the cursor is what right-to-left application makes of the rest. */
  lemma {:induction false} PassIsRightToLeft(original: string, sorted: seq<Edit>, cursor: nat)
    requires AllInRange(sorted, original) && Forward(sorted, cursor) && cursor <= |original|
    ensures RightToLeft(original, sorted) == original[..cursor] + Rendered(original, sorted, cursor)
    decreases |sorted|
  {
    hide ApplyOne, Slice;
    if sorted == [] {
      assert original == original[..cursor] + original[cursor..];
    } else {
      var e := sorted[0];
      assert InRange(e, original);
      PassIsRightToLeft(original, sorted[1..], e.end);
      Splice(original, cursor, e, Rendered(original, sorted[1..], e.end));
    }
  }

  // Applying the edits never leaves less text than an edit before them needs.
  lemma {:induction false} RightToLeftLength(original: string, sorted: seq<Edit>, position: nat)
    requires AllInRange(sorted, original) && Ascending(sorted) && ApartInOrder(sorted)
    requires position <= |original|
    requires forall i :: 0 <= i < |sorted| ==> position <= sorted[i].start || sorted[i].start == sorted[i].end
    ensures |RightToLeft(original, sorted)| == |original| + Growth(sorted)
    ensures position <= |RightToLeft(original, sorted)|
    decreases |sorted|
  {
    if sorted != [] {
      var e, rest := sorted[0], sorted[1..];
      assert InRange(e, original);
      assert forall i :: 0 <= i < |rest| ==> rest[i] == sorted[i + 1] && Apart(e, rest[i]) && e.start <= rest[i].start;
      assert forall i :: 0 <= i < |rest| ==> e.end <= rest[i].start || rest[i].start == rest[i].end;
      assert ApartInOrder(rest);
      RightToLeftLength(original, rest, e.end);
      RightToLeftLength(original, rest, position);
    }
  }

  predicate ApartInOrder(sorted: seq<Edit>) {
    forall i, j :: 0 <= i < j < |sorted| ==> Apart(sorted[i], sorted[j])
  }

  lemma {:induction false} SortedApart(edits: seq<Edit>, original: string)
    requires Accepted(edits, original)
    ensures ApartInOrder(ByStart(edits))
    decreases |edits|
  {
    if edits != [] {
      AcceptedTail(edits, original);
      SortedApart(edits[1..], original);
      ByStartSorts(edits[1..]);
      SameElements(edits[0], edits[1..], ByStart(edits[1..]));
      InsertApart(edits[0], ByStart(edits[1..]));
    }
  }

  lemma {:induction false} InsertApart(e: Edit, sorted: seq<Edit>)
    requires ApartInOrder(sorted) && ApartFromAll(e, sorted)
    ensures ApartInOrder(Insert(e, sorted))
  {
    if !(sorted == [] || e.start <= sorted[0].start) {
      var rest := Insert(e, sorted[1..]);
      InsertApart(e, sorted[1..]);
      InsertElements(e, sorted[1..]);
      forall j | 0 <= j < |rest| ensures Apart(sorted[0], rest[j]) {
        assert rest[j] in multiset(rest);
        assert rest[j] == e || rest[j] in sorted[1..];
      }
    }
  }

  /**
   * For every list of edits the editor holds, its output is what applying the edits one at a time from
   * right to left gives, exactly when no empty edit was recorded after a non-empty one with the same
   * start.
   */
  lemma OutputIsRightToLeft(original: string, edits: seq<Edit>)
    requires Accepted(edits, original)
    ensures Output(original, edits) == RightToLeft(original, ByStart(edits)) <==> !EmptyAfterNonEmpty(edits)
  {
    hide Rendered, RightToLeft, ByStart;
    var sorted := ByStart(edits);
    ByStartInRange(edits, original);
    ByStartSorts(edits);
    GoesBackExactlyWhen(edits, original);
    NoBacktrackIsForward(sorted, 0);
    RenderedLength(original, sorted, 0);
    SortedApart(edits, original);
    RightToLeftLength(original, sorted, 0);
    if Forward(sorted, 0) {
      PassIsRightToLeft(original, sorted, 0);
      assert original[..0] + Output(original, edits) == Output(original, edits);
    }
  }

  /**
   * The output is as long as the original plus the replacements less the replaced ranges, exactly
   * under the same condition; otherwise it is longer.
   */
  lemma OutputLength(original: string, edits: seq<Edit>)
    requires Accepted(edits, original)
    ensures |Output(original, edits)| >= |original| + Growth(edits)
    ensures |Output(original, edits)| == |original| + Growth(edits) <==> !EmptyAfterNonEmpty(edits)
  {
    hide Rendered, ByStart;
    ByStartInRange(edits, original);
    GoesBackExactlyWhen(edits, original);
    NoBacktrackIsForward(ByStart(edits), 0);
    RenderedLength(original, ByStart(edits), 0);
    SortedGrowth(edits);
  }

  // ---- Where every character ends up ----

  lemma {:induction false} KeptEarlier(sorted: seq<Edit>, position: nat)
    requires forall i :: 0 <= i < |sorted| ==> position < sorted[i].end
    ensures GrowthBefore(sorted, position) == 0
  {
    if sorted != [] {
      KeptEarlier(sorted[1..], position);
    }
  }

  lemma {:induction false} CopiesOutside(original: string, sorted: seq<Edit>, cursor: nat, position: nat)
    requires AllInRange(sorted, original) && Forward(sorted, cursor)
    requires cursor <= position < |original| && Outside(sorted, position)
    ensures 0 <= position - cursor + GrowthBefore(sorted, position) < |Rendered(original, sorted, cursor)|
    ensures Rendered(original, sorted, cursor)[position - cursor + GrowthBefore(sorted, position)]
         == original[position]
    decreases |sorted|
  {
    if sorted != [] {
      var e, rest := sorted[0], sorted[1..];
      assert InRange(e, original);
      assert Outside(rest, position);
      if position < e.start {
        CopiesBeforeNext(original, sorted, cursor, position);
      } else {
        hide Slice, Outside;
        CopiesOutside(original, rest, e.end, position);
        var tail := Rendered(original, rest, e.end);
        var k := position - e.end + GrowthBefore(rest, position);
        var head := Slice(original, cursor, e.start) + e.replacement;
        assert |Slice(original, cursor, e.start)| == e.start - cursor by { SliceLength(original, cursor, e.start); }
        assert (head + tail)[|head| + k] == tail[k];
      }
    }
  }

  lemma SliceLength(s: string, from: nat, to: nat)
    requires from <= to <= |s|
    ensures |Slice(s, from, to)| == to - from
  {
  }

  lemma CopiesBeforeNext(original: string, sorted: seq<Edit>, cursor: nat, position: nat)
    requires AllInRange(sorted, original) && Forward(sorted, cursor) && sorted != []
    requires cursor <= position < sorted[0].start && position < |original|
    ensures GrowthBefore(sorted, position) == 0
    ensures position - cursor < |Rendered(original, sorted, cursor)|
    ensures Rendered(original, sorted, cursor)[position - cursor] == original[position]
  {
    hide GrowthBefore;
    var e, rest := sorted[0], sorted[1..];
    assert InRange(e, original);
    ForwardKeeps(rest, e.end, original);
    assert forall i :: 0 <= i < |rest| ==> InRange(rest[i], original);
    assert sorted == [e] + rest;
    KeptEarlier(sorted, position);
    assert Rendered(original, sorted, cursor)[position - cursor] == original[cursor..e.start][position - cursor];
  }

  /**
   * Outside the edits every character is copied, moved by the growth of the edits before it; this is
   * for edits of which none sends the pass back.
   */
  lemma KeepsEveryOtherPosition(original: string, edits: seq<Edit>, position: nat)
    requires Accepted(edits, original) && !EmptyAfterNonEmpty(edits)
    requires position < |original| && Outside(edits, position)
    ensures var at := position + GrowthBefore(edits, position);
            0 <= at < |Output(original, edits)| && Output(original, edits)[at] == original[position]
  {
    hide Rendered, ByStart, SendsBack;
    var sorted := ByStart(edits);
    ByStartInRange(edits, original);
    ByStartSorts(edits);
    GoesBackExactlyWhen(edits, original);
    hide Outside, Forward, EmptyAfterNonEmpty;
    SortedOutside(edits, position);
    CopiesOutside(original, sorted, 0, position);
    SortedGrowthBefore(edits, position);
  }

  lemma SortedOutside(edits: seq<Edit>, position: nat)
    requires Outside(edits, position)
    ensures Outside(ByStart(edits), position)
  {
    hide ByStart;
    ByStartSorts(edits);
    var sorted := ByStart(edits);
    forall i | 0 <= i < |sorted| ensures position < sorted[i].start || sorted[i].end <= position {
      assert sorted[i] in multiset(sorted);
      assert sorted[i] in edits;
    }
  }

  lemma {:induction false} InsertGrowthBefore(e: Edit, sorted: seq<Edit>, position: nat)
    ensures GrowthBefore(Insert(e, sorted), position) == GrowthBefore([e], position) + GrowthBefore(sorted, position)
  {
    assert [e][1..] == [];
    assert ([e] + sorted)[1..] == sorted;
    if !(sorted == [] || e.start <= sorted[0].start) {
      InsertGrowthBefore(e, sorted[1..], position);
      assert ([sorted[0]] + Insert(e, sorted[1..]))[1..] == Insert(e, sorted[1..]);
    }
  }

  lemma {:induction false} SortedGrowthBefore(edits: seq<Edit>, position: nat)
    ensures GrowthBefore(ByStart(edits), position) == GrowthBefore(edits, position)
  {
    if edits != [] {
      SortedGrowthBefore(edits[1..], position);
      InsertGrowthBefore(edits[0], ByStart(edits[1..]), position);
      assert [edits[0]][1..] == [];
    }
  }

  // ---- The order of recording ----

  predicate StartsDiffer(xs: seq<Edit>) {
    forall i, j :: 0 <= i < j < |xs| ==> xs[i].start != xs[j].start
  }

  lemma {:induction false} AscendingUnique(xs: seq<Edit>, ys: seq<Edit>)
    requires Ascending(xs) && Ascending(ys) && multiset(xs) == multiset(ys)
    requires StartsDiffer(xs)
    ensures xs == ys
    decreases |xs|
  {
    hide Ascending, StartsDiffer;
    assert |multiset(xs)| == |xs| && |multiset(ys)| == |ys|;
    if xs != [] {
      HeadsAgree(xs, ys);
      var e := xs[0];
      Tail(xs);
      Tail(ys);
      AscendingUnique(xs[1..], ys[1..]);
      assert xs == [e] + xs[1..] && ys == [e] + ys[1..];
    }
  }

  lemma Tail(xs: seq<Edit>)
    requires Ascending(xs) && xs != []
    ensures Ascending(xs[1..]) && multiset(xs[1..]) == multiset(xs) - multiset{xs[0]}
    ensures StartsDiffer(xs) ==> StartsDiffer(xs[1..])
  {
    assert xs == [xs[0]] + xs[1..];
  }

  lemma HeadsAgree(xs: seq<Edit>, ys: seq<Edit>)
    requires Ascending(xs) && Ascending(ys) && multiset(xs) == multiset(ys)
    requires StartsDiffer(xs)
    requires xs != [] && ys != []
    ensures xs[0] == ys[0]
  {
    assert ys[0] in multiset(xs) && xs[0] in multiset(ys);
    var j :| 0 <= j < |xs| && xs[j] == ys[0];
    var i :| 0 <= i < |ys| && ys[i] == xs[0];
    assert ys[0].start <= xs[0].start;
    assert xs[0].start <= xs[j].start;
  }

  lemma NonEmptyStartsDiffer(edits: seq<Edit>, original: string)
    requires Accepted(edits, original) && NonEmptyEdits(edits)
    ensures StartsDiffer(ByStart(edits))
  {
    hide ByStart;
    var s := ByStart(edits);
    SortedApart(edits, original);
    ByStartSorts(edits);
    forall i | 0 <= i < |s| ensures s[i].start < s[i].end {
      assert s[i] in multiset(s);
      assert s[i] in edits;
    }
    forall i, j | 0 <= i < j < |s| ensures s[i].start != s[j].start {
      assert Apart(s[i], s[j]);
    }
  }

  /** Non-empty edits give the same output in whatever order they are recorded. */
  lemma OrderDoesNotMatter(original: string, edits: seq<Edit>, reordered: seq<Edit>)
    requires Accepted(edits, original) && NonEmptyEdits(edits) && multiset(edits) == multiset(reordered)
    ensures AllInRange(reordered, original) && Output(original, reordered) == Output(original, edits)
  {
    hide ByStart, Rendered;
    forall i | 0 <= i < |reordered| ensures InRange(reordered[i], original) {
      assert reordered[i] in multiset(reordered);
      assert reordered[i] in edits;
    }
    ByStartSorts(edits);
    ByStartSorts(reordered);
    NonEmptyStartsDiffer(edits, original);
    AscendingUnique(ByStart(edits), ByStart(reordered));
  }

  /** An empty edit at the start of an earlier one makes the replaced text appear again. */
  lemma ReplacedTextComesBack()
    ensures var edits := [Edit(0, 1, ['x']), Edit(0, 0, ['y'])];
            Accepted(edits, ['a', 'b']) && Output(['a', 'b'], edits) == ['x', 'y', 'a', 'b']
  {
    var first, second := Edit(0, 1, ['x']), Edit(0, 0, ['y']);
    var edits := [first, second];
    assert edits[1..] == [second] && [second][1..] == [];
    assert ByStart([second]) == [second];
    assert ByStart(edits) == edits;
    var original: string := ['a', 'b'];
    assert Rendered(original, [second], 1) == ['y', 'a', 'b'] by {
      assert Rendered(original, [], 0) == original;
    }
    assert Rendered(original, edits, 0) == ['x', 'y', 'a', 'b'];
  }
}
