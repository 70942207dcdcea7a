/**
 * The splice editor of the migration tools: edits are recorded against the original text and realised
 * together when the text is asked for.
 */
module MagicString {
  import opened Prelude

  datatype Edit = Edit(start: nat, end: nat, replacement: string)

  datatype Refusal = InvalidRange | OverlappingEdits

  predicate InRange(e: Edit, original: string) {
    e.start <= e.end <= |original|
  }

  predicate Overlaps(start: int, end: int, existing: Edit) {
    start < existing.end && end > existing.start
  }

  // A later edit does not overlap an earlier one.
  predicate Apart(existing: Edit, e: Edit) {
    !Overlaps(e.start, e.end, existing)
  }

  // The edits the editor can hold: each in range, and none overlapping one recorded before it.
  predicate Accepted(edits: seq<Edit>, original: string) {
    && (forall i :: 0 <= i < |edits| ==> InRange(edits[i], original))
    && (forall i, j :: 0 <= i < j < |edits| ==> Apart(edits[i], edits[j]))
  }

  // ---- What the editor produces ----

  // JavaScript's slice on positions inside the text: nothing when the end comes before the start.
  function Slice(s: string, from: nat, to: nat): string
    requires from <= |s| && to <= |s|
  {
    if from <= to then s[from..to] else []
  }

  // Put an edit in front of the first one that does not start before it.
  function Insert(e: Edit, sorted: seq<Edit>): seq<Edit> {
    if sorted == [] || e.start <= sorted[0].start then [e] + sorted else [sorted[0]] + Insert(e, sorted[1..])
  }

  // The stable sort by start.
  function ByStart(edits: seq<Edit>): seq<Edit> {
    if edits == [] then [] else Insert(edits[0], ByStart(edits[1..]))
  }

  predicate AllInRange(edits: seq<Edit>, original: string) {
    forall i :: 0 <= i < |edits| ==> InRange(edits[i], original)
  }

  // What the pass over sorted edits still writes once it stands at the cursor.
  function Rendered(original: string, sorted: seq<Edit>, cursor: nat): string
    requires AllInRange(sorted, original) && cursor <= |original|
    decreases |sorted|
  {
    if sorted == [] then original[cursor..]
    else
      var e := sorted[0];
      assert InRange(e, original);
      Slice(original, cursor, e.start) + e.replacement + Rendered(original, sorted[1..], e.end)
  }

  predicate Ascending(edits: seq<Edit>) {
    forall i, j :: 0 <= i < j < |edits| ==> edits[i].start <= edits[j].start
  }

  lemma {:induction false} InsertElements(e: Edit, sorted: seq<Edit>)
    ensures multiset(Insert(e, sorted)) == multiset(sorted) + multiset{e}
  {
    if !(sorted == [] || e.start <= sorted[0].start) {
      InsertElements(e, sorted[1..]);
      assert sorted == [sorted[0]] + sorted[1..];
    }
  }

  lemma {:induction false} InsertHolds(e: Edit, sorted: seq<Edit>, x: Edit)
    ensures x in Insert(e, sorted) ==> x == e || x in sorted
  {
    if sorted != [] && sorted[0].start < e.start {
      InsertHolds(e, sorted[1..], x);
    }
  }

  lemma {:induction false} InsertAscending(e: Edit, sorted: seq<Edit>)
    requires Ascending(sorted)
    ensures Ascending(Insert(e, sorted))
  {
    if sorted != [] && sorted[0].start < e.start {
      InsertAscending(e, sorted[1..]);
      var rest := Insert(e, sorted[1..]);
      hide Insert;
      forall j | 0 <= j < |rest|
        ensures sorted[0].start <= rest[j].start
      {
        InsertHolds(e, sorted[1..], rest[j]);
      }
    }
  }

  lemma {:induction false} ByStartSorts(edits: seq<Edit>)
    ensures multiset(ByStart(edits)) == multiset(edits)
    ensures Ascending(ByStart(edits))
  {
    if edits != [] {
      ByStartSorts(edits[1..]);
      InsertElements(edits[0], ByStart(edits[1..]));
      InsertAscending(edits[0], ByStart(edits[1..]));
      assert edits == [edits[0]] + edits[1..];
    }
  }

  lemma ByStartInRange(edits: seq<Edit>, original: string)
    requires AllInRange(edits, original)
    ensures AllInRange(ByStart(edits), original)
  {
    ByStartSorts(edits);
    var sorted := ByStart(edits);
    forall i | 0 <= i < |sorted| ensures InRange(sorted[i], original) {
      assert sorted[i] in multiset(sorted);
      assert sorted[i] in edits;
    }
  }

  lemma RenderedStep(original: string, sorted: seq<Edit>, k: nat, cursor: nat)
    requires AllInRange(sorted, original) && cursor <= |original| && k < |sorted|
    ensures Rendered(original, sorted[k..], cursor)
         == Slice(original, cursor, sorted[k].start) + sorted[k].replacement
            + Rendered(original, sorted[k + 1..], sorted[k].end)
  {
    assert sorted[k..][1..] == sorted[k + 1..];
  }

  lemma RenderedEnd(original: string, cursor: nat)
    requires cursor <= |original|
    ensures Rendered(original, [], cursor) == original[cursor..]
  {
  }

  // The text an editor holding these edits yields.
  function Output(original: string, edits: seq<Edit>): string
    requires AllInRange(edits, original)
  {
    ByStartInRange(edits, original);
    Rendered(original, ByStart(edits), 0)
  }

  class Editor {
    const original: string
    var edits: seq<Edit>

    ghost predicate Valid()
      reads this
    {
      Accepted(edits, original)
    }

    constructor (text: string)
      ensures Valid() && original == text && edits == []
    {
      original := text;
      edits := [];
    }

    /** overwrite: record the edit, or refuse it and leave the editor as it was. */
    method Overwrite(start: int, end: int, replacement: string) returns (result: Result<(), Refusal>)
      requires Valid()
      modifies this`edits
      ensures Valid()
      ensures result == Err(InvalidRange) <==> !(0 <= start <= end <= |original|)
      ensures result.Ok? <==>
                && 0 <= start <= end <= |original|
                && forall i :: 0 <= i < |old(edits)| ==> !Overlaps(start, end, old(edits)[i])
      ensures edits == if result.Ok? then old(edits) + [Edit(start, end, replacement)] else old(edits)
    {
      if start < 0 || end > |original| || start > end {
        return Err(InvalidRange);
      }
      for k := 0 to |edits|
        invariant forall i :: 0 <= i < k ==> !Overlaps(start, end, edits[i])
      {
        if Overlaps(start, end, edits[k]) {
          return Err(OverlappingEdits);
        }
      }
      edits := edits + [Edit(start, end, replacement)];
      return Ok(());
    }

    /** toString: one pass over the edits in order of their starts. */
    method ToString() returns (result: string)
      requires Valid()
      ensures result == Output(original, edits)
    {
      hide Rendered, ByStart;
      ByStartInRange(edits, original);
      var sorted := ByStart(edits);
      result := [];
      var cursor: nat := 0;
      assert sorted[0..] == sorted;
      for k := 0 to |sorted|
        invariant cursor <= |original|
        invariant result + Rendered(original, sorted[k..], cursor) == Rendered(original, sorted, 0)
      {
        var edit := sorted[k];
        assert InRange(edit, original);
        RenderedStep(original, sorted, k, cursor);
        ghost var rest := Rendered(original, sorted[k + 1..], edit.end);
        assert result + (Slice(original, cursor, edit.start) + edit.replacement + rest)
            == (result + Slice(original, cursor, edit.start)) + edit.replacement + rest;
        result := result + Slice(original, cursor, edit.start);
        result := result + edit.replacement;
        cursor := edit.end;
      }
      RenderedEnd(original, cursor);
      assert sorted[|sorted|..] == [];
      result := result + original[cursor..];
    }
  }

  // ---- Applying edits one at a time ----

  function ApplyOne(s: string, e: Edit): string {
    s[..Min(e.start, |s|)] + e.replacement + s[Min(e.end, |s|)..]
  }

  // Apply the last edit first, so that no edit moves text another one still has to find.
  function RightToLeft(original: string, sorted: seq<Edit>): string {
    if sorted == [] then original else ApplyOne(RightToLeft(original, sorted[1..]), sorted[0])
  }

  // ---- When the pass goes back ----

  // An empty edit recorded after a non-empty one with the same start.
  predicate SendsBack(existing: Edit, e: Edit) {
    existing.start < existing.end && e.start == e.end == existing.start
  }

  predicate EmptyAfterNonEmpty(edits: seq<Edit>) {
    exists i, j :: 0 <= i < j < |edits| && SendsBack(edits[i], edits[j])
  }

  predicate NonEmptyEdits(edits: seq<Edit>) {
    forall i :: 0 <= i < |edits| ==> edits[i].start < edits[i].end
  }

  // How much longer the text gets.
  function Growth(edits: seq<Edit>): int {
    if edits == [] then 0
    else |edits[0].replacement| - (edits[0].end - edits[0].start) + Growth(edits[1..])
  }

  // How many characters of the original are written twice, from the cursor on.
  function Backtrack(sorted: seq<Edit>, cursor: nat): nat {
    if sorted == [] then 0 else Max(0, cursor - sorted[0].start) + Backtrack(sorted[1..], sorted[0].end)
  }

  // The growth caused by the edits that end at or before a position.
  function GrowthBefore(edits: seq<Edit>, position: nat): int {
    if edits == [] then 0
    else (if edits[0].end <= position then |edits[0].replacement| - (edits[0].end - edits[0].start) else 0)
         + GrowthBefore(edits[1..], position)
  }

  predicate Outside(edits: seq<Edit>, position: nat) {
    forall i :: 0 <= i < |edits| ==> position < edits[i].start || edits[i].end <= position
  }
}
