/** Splicing the replacements into the text of a clause gives the text of the rewritten clause. */
module CatchText {
  import opened MagicString
  import opened CatchRewrite

  // ---- The replacement's own text ----

  lemma TextOfName(n: string)
    ensures Text(Name(n)) == n
  {
    var node := Name(n);
    assert TextFrom(node, 0) == "";
    assert n + "" == n;
  }

  lemma TextOfOne(kind: Kind, a: Node)
    ensures Text(Node(kind, [a])) == Piece(kind, 1, 0) + (Text(a) + Piece(kind, 1, 1))
  {
    hide Piece;
    var node := Node(kind, [a]);
    assert TextFrom(node, 1) == "";
    assert Text(a) + Piece(kind, 1, 1) + "" == Text(a) + Piece(kind, 1, 1);
    assert TextFrom(node, 0) == Text(a) + Piece(kind, 1, 1);
  }

  lemma TextOfTwo(kind: Kind, a: Node, b: Node)
    ensures Text(Node(kind, [a, b]))
         == Piece(kind, 2, 0) + (Text(a) + Piece(kind, 2, 1) + (Text(b) + Piece(kind, 2, 2)))
  {
    hide Piece;
    var node := Node(kind, [a, b]);
    assert TextFrom(node, 2) == "";
    assert Text(b) + Piece(kind, 2, 2) + "" == Text(b) + Piece(kind, 2, 2);
    assert TextFrom(node, 1) == Text(b) + Piece(kind, 2, 2);
    assert TextFrom(node, 0) == Text(a) + Piece(kind, 2, 1) + TextFrom(node, 1);
  }

  lemma TextOfThree(kind: Kind, a: Node, b: Node, c: Node)
    ensures Text(Node(kind, [a, b, c]))
         == Piece(kind, 3, 0) + (Text(a) + Piece(kind, 3, 1)
            + (Text(b) + Piece(kind, 3, 2) + (Text(c) + Piece(kind, 3, 3))))
  {
    hide Piece;
    var node := Node(kind, [a, b, c]);
    assert TextFrom(node, 3) == "";
    assert Text(c) + Piece(kind, 3, 3) + "" == Text(c) + Piece(kind, 3, 3);
    assert TextFrom(node, 2) == Text(c) + Piece(kind, 3, 3);
    assert TextFrom(node, 1) == Text(b) + Piece(kind, 3, 2) + TextFrom(node, 2);
    assert TextFrom(node, 0) == Text(a) + Piece(kind, 3, 1) + TextFrom(node, 1);
  }

  lemma TextOfTest(param: string)
    ensures Text(Node(InstanceOf, [Name(param), Name(ERROR)])) == param + (" instanceof " + ERROR)
  {
    TextOfTwo(InstanceOf, Name(param), Name(ERROR));
    TextOfName(param);
    TextOfName(ERROR);
    hide Text, ERROR;
    assert "" + (param + " instanceof " + (ERROR + "")) == param + (" instanceof " + ERROR);
  }

  lemma TextOfRead(param: string)
    ensures Text(Node(Member(MESSAGE), [Name(param)])) == param + ("." + MESSAGE)
  {
    TextOfOne(Member(MESSAGE), Name(param));
    TextOfName(param);
    hide Text, MESSAGE;
    assert "" + (param + ("." + MESSAGE)) == param + ("." + MESSAGE);
  }

  lemma TextOfFallback(param: string)
    ensures Text(Node(Call, [Name(STRING), Name(param)])) == STRING + "(" + param + ")"
  {
    TextOfTwo(Call, Name(STRING), Name(param));
    TextOfName(param);
    TextOfName(STRING);
    hide Text;
    assert "" + (STRING + "(" + (param + ")")) == STRING + "(" + param + ")";
  }

  lemma Literals()
    ensures " instanceof " + ERROR + " ? " == " instanceof Error ? "
    ensures "." + MESSAGE + " : " + (STRING + "(") == ".message : String("
    ensures ")" + ")" == "))"
  {
  }

  lemma ConditionalPieces()
    ensures Piece(Conditional, 3, 0) == "(" && Piece(Conditional, 3, 1) == " ? "
    ensures Piece(Conditional, 3, 2) == " : " && Piece(Conditional, 3, 3) == ")"
  {
  }

  lemma TextOfReplacement(param: string)
    ensures Text(Replacement(param)) == ReplacementText(param)
  {
    hide Text, Piece, ERROR, MESSAGE;
    var test := Node(InstanceOf, [Name(param), Name(ERROR)]);
    var read := Node(Member(MESSAGE), [Name(param)]);
    var fallback := Node(Call, [Name(STRING), Name(param)]);
    TextOfTest(param);
    TextOfRead(param);
    TextOfFallback(param);
    TextOfThree(Conditional, test, read, fallback);
    ConditionalPieces();
    Literals();
    Regroup("(", param, " instanceof " + ERROR, " ? ", "." + MESSAGE, " : ", STRING + "(", ")");
  }

  lemma Regroup(open: string, p: string, a: string, b: string, c: string, d: string, e: string, close: string)
    ensures open + (p + a + b + (p + c + d + (e + p + close + close)))
         == open + p + (a + b) + p + (c + d + e) + p + (close + close)
  {
  }

  // ---- Where the accesses lie ----

  // One after the other, without overlap, between two positions.
  predicate Within(sites: seq<Access>, from: nat, to: nat) {
    && (forall i :: 0 <= i < |sites| ==> from <= sites[i].start < sites[i].end <= to)
    && (forall i, j :: 0 <= i < j < |sites| ==> sites[i].end <= sites[j].start)
  }

  lemma WithinConcat(a: seq<Access>, b: seq<Access>, from: nat, mid: nat, upto: nat)
    requires Within(a, from, mid) && Within(b, mid, upto) && from <= mid <= upto
    ensures Within(a + b, from, upto)
  {
  }

  lemma SiteText(node: Node, param: string)
    requires IsSite(node, param)
    ensures |Text(node)| > 0
    ensures forall guarded: bool, at: nat :: AccessesFrom(node, param, guarded, at, 0) == []
  {
    TextOfOne(Member(MESSAGE), Name(param));
    forall guarded: bool, at: nat ensures AccessesFrom(node, param, guarded, at, 0) == [] {
      hide Piece, Text;
      var name := Name(param);
      assert node.children[0] == name;
      forall g: bool, k: nat ensures Accesses(name, param, g, k) == [] {
        assert AccessesFrom(name, param, g, k + |Piece(name.kind, 0, 0)|, 0) == [];
      }
    }
  }

  lemma {:induction false} AccessesWithin(node: Node, param: string, guarded: bool, at: nat)
    requires AllMessages(Accesses(node, param, guarded, at))
    ensures Within(Accesses(node, param, guarded, at), at, at + |Text(node)|)
    decreases node, |node.children| + 1
  {
    hide Piece, AllMessages, IsAccessOn, IsSite, Within;
    var start := at + |Piece(node.kind, |node.children|, 0)|;
    var inner := AccessesFrom(node, param, guarded, start, 0);
    if !guarded && IsAccessOn(node, param) {
      OwnAccess(node, param, at);
    } else {
      assert [] + inner == inner;
      AccessesFromWithin(node, param, guarded, start, 0);
      WidenWithin(inner, start, at + |Text(node)|, at);
    }
  }

  lemma WidenWithin(sites: seq<Access>, from: nat, to: nat, lower: nat)
    requires Within(sites, from, to) && lower <= from
    ensures Within(sites, lower, to)
  {
  }

  lemma OwnAccess(node: Node, param: string, at: nat)
    requires AllMessages(Accesses(node, param, false, at)) && IsAccessOn(node, param)
    ensures IsSite(node, param)
    ensures Accesses(node, param, false, at) == [Access(at, at + |Text(node)|, MESSAGE)]
    ensures Within(Accesses(node, param, false, at), at, at + |Text(node)|) && |Text(node)| > 0
  {
    hide Text, Piece;
    var all := Accesses(node, param, false, at);
    assert all[0] == Access(at, at + |Text(node)|, PropertyOf(node));
    assert all[0].property == MESSAGE;
    MessageAccess(node, param);
    SiteText(node, param);
    assert all == [Access(at, at + |Text(node)|, MESSAGE)];
  }

  lemma EndWithin(node: Node, param: string, guarded: bool, at: nat)
    ensures Within(AccessesFrom(node, param, guarded, at, |node.children|), at, at)
    ensures TextFrom(node, |node.children|) == ""
  {
  }

  lemma {:induction false} AccessesFromWithin(node: Node, param: string, guarded: bool, at: nat, i: nat)
    requires i <= |node.children|
    requires AllMessages(AccessesFrom(node, param, guarded, at, i))
    ensures Within(AccessesFrom(node, param, guarded, at, i), at, at + |TextFrom(node, i)|)
    decreases node, |node.children| - i
  {
    hide *;
    if i == |node.children| {
      EndWithin(node, param, guarded, at);
    } else {
      AccessesFromStep(node, param, guarded, at, i);
      TextFromStep(node, i);
      var child := node.children[i];
      var g := GuardedAt(node, param, guarded, i);
      var mid := at + |Text(child)|;
      var next := mid + |Piece(node.kind, |node.children|, i + 1)|;
      var a, b := Accesses(child, param, g, at), AccessesFrom(node, param, guarded, next, i + 1);
      AllMessagesConcat(a, b);
      AccessesWithin(child, param, g, at);
      AccessesFromWithin(node, param, guarded, next, i + 1);
      WidenWithin(b, next, next + |TextFrom(node, i + 1)|, mid);
      WithinConcat(a, b, at, mid, next + |TextFrom(node, i + 1)|);
    }
  }

  // ---- One pass over the text ----

  predicate StartsAt(edits: seq<Edit>, position: nat) {
    edits == [] || position <= edits[0].start
  }

  // The text holds s at the position.
  predicate Holds(text: string, at: nat, s: string) {
    at + |s| <= |text| && text[at..at + |s|] == s
  }

  lemma Copies(text: string, edits: seq<Edit>, from: nat, to: nat)
    requires AllInRange(edits, text) && from <= to <= |text| && StartsAt(edits, to)
    ensures Rendered(text, edits, from) == text[from..to] + Rendered(text, edits, to)
  {
    if edits == [] {
      assert text[from..] == text[from..to] + text[to..];
    } else {
      assert InRange(edits[0], text);
      var e := edits[0];
      assert Slice(text, from, e.start) == text[from..to] + Slice(text, to, e.start);
      hide Slice, Rendered;
      RenderedHead(text, edits, from);
      RenderedHead(text, edits, to);
      Regroup3(text[from..to], Slice(text, to, e.start), e.replacement, Rendered(text, edits[1..], e.end));
    }
  }

  lemma RenderedHead(text: string, edits: seq<Edit>, cursor: nat)
    requires AllInRange(edits, text) && edits != [] && cursor <= |text|
    ensures edits[0].start <= edits[0].end <= |text|
    ensures Rendered(text, edits, cursor)
         == Slice(text, cursor, edits[0].start) + edits[0].replacement + Rendered(text, edits[1..], edits[0].end)
  {
    assert InRange(edits[0], text);
  }

  lemma Regroup3(a: string, b: string, c: string, d: string)
    ensures a + b + c + d == a + (b + c + d)
  {
  }

  lemma HoldsParts(text: string, at: nat, a: string, b: string)
    requires Holds(text, at, a + b)
    ensures Holds(text, at, a) && Holds(text, at + |a|, b)
  {
    assert text[at..at + |a + b|][..|a|] == a;
    assert text[at..at + |a + b|][|a|..] == b;
  }

  // From `at` on, the pass over these edits writes `written` and then stands at `end` with the rest.
  predicate Splices(text: string, edits: seq<Edit>, at: nat, written: string, rest: seq<Edit>, end: nat) {
    && AllInRange(edits, text) && AllInRange(rest, text)
    && at <= end <= |text| && StartsAt(edits, at)
    && Rendered(text, edits, at) == written + Rendered(text, rest, end)
  }

  lemma SplicesNothing(text: string, rest: seq<Edit>, at: nat)
    requires AllInRange(rest, text) && StartsAt(rest, at) && at <= |text|
    ensures Splices(text, rest, at, "", rest, at)
  {
    assert "" + Rendered(text, rest, at) == Rendered(text, rest, at);
  }

  lemma SplicesCopy(text: string, edits: seq<Edit>, at: nat, piece: string, written: string, rest: seq<Edit>, end: nat)
    requires Holds(text, at, piece) && Splices(text, edits, at + |piece|, written, rest, end)
    ensures Splices(text, edits, at, piece + written, rest, end)
  {
    hide Rendered, AllInRange;
    Copies(text, edits, at, at + |piece|);
    assert text[at..at + |piece|] == piece;
    assert piece + (written + Rendered(text, rest, end)) == piece + written + Rendered(text, rest, end);
  }

  lemma SplicesTogether(text: string, edits: seq<Edit>, at: nat, first: string, later: seq<Edit>, mid: nat,
                        second: string, rest: seq<Edit>, end: nat)
    requires Splices(text, edits, at, first, later, mid) && Splices(text, later, mid, second, rest, end)
    ensures Splices(text, edits, at, first + second, rest, end)
  {
    hide Rendered, AllInRange;
    assert first + (second + Rendered(text, rest, end)) == first + second + Rendered(text, rest, end);
  }

  /** Reading a node's text with its edits writes the rewritten node's text. */
  lemma {:induction false} NodeSplices(node: Node, param: string, guarded: bool, at: nat, text: string, rest: seq<Edit>)
    requires AllMessages(Accesses(node, param, guarded, at)) && Holds(text, at, Text(node))
    requires AllInRange(rest, text) && StartsAt(rest, at + |Text(node)|)
    ensures Splices(text, EditsOf(Accesses(node, param, guarded, at), param) + rest, at,
                    Text(Rewrite(node, param, guarded)), rest, at + |Text(node)|)
    decreases node, |node.children| + 1
  {
    hide Piece, AllMessages, IsAccessOn, IsSite, Rewrite, Holds, Splices, StartsAt, AllInRange;
    SiteIsAccess(node, param);
    if !guarded && IsAccessOn(node, param) {
      OwnAccess(node, param, at);
      SiteSplices(node, param, at, text, rest);
    } else {
      var first := Piece(node.kind, |node.children|, 0);
      var inner := AccessesFrom(node, param, guarded, at + |first|, 0);
      assert [] + inner == inner;
      HoldsParts(text, at, first, TextFrom(node, 0));
      ChildrenSplice(node, param, guarded, at + |first|, 0, text, rest);
      RewriteOfOther(node, param, guarded);
      var after := After(node, param, guarded);
      SplicesCopy(text, EditsOf(inner, param) + rest, at, first, TextFrom(after, 0), rest, at + |Text(node)|);
    }
  }

  lemma SiteIsAccess(node: Node, param: string)
    ensures IsSite(node, param) ==> IsAccessOn(node, param)
  {
  }

  lemma RewriteOfOther(node: Node, param: string, guarded: bool)
    requires !(!guarded && IsSite(node, param))
    ensures Rewrite(node, param, guarded) == After(node, param, guarded)
  {
  }

  lemma SiteSplices(node: Node, param: string, at: nat, text: string, rest: seq<Edit>)
    requires IsSite(node, param) && Holds(text, at, Text(node)) && |Text(node)| > 0
    requires AllInRange(rest, text)
    ensures Splices(text, EditsOf([Access(at, at + |Text(node)|, MESSAGE)], param) + rest, at,
                    Text(Rewrite(node, param, false)), rest, at + |Text(node)|)
  {
    hide Text, ReplacementText, MESSAGE;
    var e := Edit(at, at + |Text(node)|, ReplacementText(param));
    var edits := EditsOf([Access(at, at + |Text(node)|, MESSAGE)], param) + rest;
    assert edits == [e] + rest;
    assert edits[0] == e && edits[1..] == rest;
    TextOfReplacement(param);
    assert Slice(text, at, at) == [];
    assert [] + e.replacement == e.replacement;
  }

  // The node with every child rewritten.
  function After(node: Node, param: string, guarded: bool): Node {
    Node(node.kind, RewriteFrom(node, param, guarded, 0))
  }

  lemma TextFromStep(node: Node, i: nat)
    requires i < |node.children|
    ensures TextFrom(node, i)
         == Text(node.children[i]) + (Piece(node.kind, |node.children|, i + 1) + TextFrom(node, i + 1))
  {
    hide Text, Piece;
  }

  lemma AccessesFromStep(node: Node, param: string, guarded: bool, at: nat, i: nat)
    requires i < |node.children|
    ensures AccessesFrom(node, param, guarded, at, i)
         == Accesses(node.children[i], param, GuardedAt(node, param, guarded, i), at)
            + AccessesFrom(node, param, guarded,
                           at + |Text(node.children[i])| + |Piece(node.kind, |node.children|, i + 1)|, i + 1)
  {
    hide Text, Piece, Accesses, GuardedAt;
  }

  lemma AccessesFromEnd(node: Node, param: string, guarded: bool, at: nat)
    ensures EditsOf(AccessesFrom(node, param, guarded, at, |node.children|), param) == []
    ensures TextFrom(node, |node.children|) == ""
  {
  }

  lemma AfterStep(node: Node, param: string, guarded: bool, i: nat)
    requires i < |node.children|
    ensures var after := After(node, param, guarded);
            && |after.children| == |node.children|
            && TextFrom(after, i)
               == Text(Rewrite(node.children[i], param, GuardedAt(node, param, guarded, i)))
                  + (Piece(node.kind, |node.children|, i + 1) + TextFrom(after, i + 1))
  {
    hide Text, Piece, Rewrite, GuardedAt;
    TextFromStep(After(node, param, guarded), i);
  }

  lemma AfterSize(node: Node, param: string, guarded: bool)
    ensures |After(node, param, guarded).children| == |node.children|
    ensures TextFrom(After(node, param, guarded), |node.children|) == ""
  {
    hide Text, Piece, Rewrite;
  }

  lemma ChildJoins(text: string, edits: seq<Edit>, later: seq<Edit>, rest: seq<Edit>, at: nat, mid: nat, end: nat,
                   child: string, behind: string, tail: string)
    requires Splices(text, edits, at, child, later, mid) && Holds(text, mid, behind)
    requires Splices(text, later, mid + |behind|, tail, rest, end)
    ensures Splices(text, edits, at, child + (behind + tail), rest, end)
  {
    hide Splices, Holds;
    SplicesCopy(text, later, mid, behind, tail, rest, end);
    SplicesTogether(text, edits, at, child, later, mid, behind + tail, rest, end);
  }

  lemma {:induction false} ChildrenSplice(node: Node, param: string, guarded: bool, at: nat, i: nat,
                                          text: string, rest: seq<Edit>)
    requires i <= |node.children|
    requires AllMessages(AccessesFrom(node, param, guarded, at, i)) && Holds(text, at, TextFrom(node, i))
    requires AllInRange(rest, text) && StartsAt(rest, at + |TextFrom(node, i)|)
    ensures i <= |After(node, param, guarded).children|
    ensures Splices(text, EditsOf(AccessesFrom(node, param, guarded, at, i), param) + rest, at,
                    TextFrom(After(node, param, guarded), i), rest, at + |TextFrom(node, i)|)
    decreases node, |node.children| - i
  {
    hide *;
    AfterSize(node, param, guarded);
    var end := at + |TextFrom(node, i)|;
    if i == |node.children| {
      AccessesFromEnd(node, param, guarded, at);
      assert [] + rest == rest;
      HoldsBound(text, at, TextFrom(node, i));
      SplicesNothing(text, rest, at);
    } else {
      var child := node.children[i];
      var g := GuardedAt(node, param, guarded, i);
      var behind := Piece(node.kind, |node.children|, i + 1);
      var mid := at + |Text(child)|;
      var a, b := Accesses(child, param, g, at), AccessesFrom(node, param, guarded, mid + |behind|, i + 1);
      AccessesFromStep(node, param, guarded, at, i);
      TextFromStep(node, i);
      AllMessagesConcat(a, b);
      HoldsParts(text, at, Text(child), behind + TextFrom(node, i + 1));
      HoldsParts(text, mid, behind, TextFrom(node, i + 1));
      ChildrenSplice(node, param, guarded, mid + |behind|, i + 1, text, rest);
      var later := EditsOf(b, param) + rest;
      var tail := TextFrom(After(node, param, guarded), i + 1);
      LaterStarts(text, later, mid, behind, tail, rest, end);
      NodeSplices(child, param, g, at, text, later);
      EditsTogether(a, b, param, rest);
      ChildJoins(text, EditsOf(a, param) + later, later, rest, at, mid, end,
                 Text(Rewrite(child, param, g)), behind, tail);
      AfterStep(node, param, guarded, i);
    }
  }

  lemma LaterStarts(text: string, later: seq<Edit>, mid: nat, behind: string, tail: string, rest: seq<Edit>, end: nat)
    requires Holds(text, mid, behind) && Splices(text, later, mid + |behind|, tail, rest, end)
    ensures AllInRange(later, text) && StartsAt(later, mid)
  {
    hide Rendered;
  }

  lemma EditsTogether(a: seq<Access>, b: seq<Access>, param: string, rest: seq<Edit>)
    ensures EditsOf(a + b, param) + rest == EditsOf(a, param) + (EditsOf(b, param) + rest)
  {
    hide ReplacementText;
    assert EditsOf(a + b, param) == EditsOf(a, param) + EditsOf(b, param);
  }

  lemma HoldsBound(text: string, at: nat, s: string)
    requires Holds(text, at, s)
    ensures at + |s| <= |text|
  {
  }

  // ---- The whole clause ----

  lemma {:induction false} SortedAlready(edits: seq<Edit>)
    requires Ascending(edits)
    ensures ByStart(edits) == edits
  {
    if edits != [] {
      SortedAlready(edits[1..]);
      assert edits == [edits[0]] + edits[1..];
    }
  }

  lemma SitesAccepted(sites: seq<Access>, param: string, text: string)
    requires Within(sites, 0, |text|)
    ensures Accepted(EditsOf(sites, param), text) && Ascending(EditsOf(sites, param))
  {
    hide ReplacementText;
  }

  /**
   * For every body that is eligible, the editor accepts all replacements, and the text it produces is
   * the text of the rewritten tree.
   */
  lemma NarrowingTheTextNarrowsTheTree(body: Node, param: string, text: string)
    requires Classify(Named(param), body, 0).Eligible? && text == Text(body)
    ensures var edits := EditsOf(Classify(Named(param), body, 0).sites, param);
            Accepted(edits, text) && Output(text, edits) == Text(Rewrite(body, param, false))
  {
    hide Text, Accesses, Rewrite, ReplacementText, Rendered, ByStart;
    var sites := Accesses(body, param, false, 0);
    var edits := EditsOf(sites, param);
    AccessesWithin(body, param, false, 0);
    SitesAccepted(sites, param, text);
    SortedAlready(edits);
    assert text[0..|text|] == text;
    NodeSplices(body, param, false, 0, text, []);
    assert edits + [] == edits;
    RenderedEnd(text, |text|);
    assert text[|text|..] == [];
  }
}
