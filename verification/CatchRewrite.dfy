/**
 * Narrowing the caught value of a catch clause.
 *
 * In the body of `catch (name) { … }` every unguarded `name.message` becomes
 * `(name instanceof Error ? name.message : String(name))`.  The planner finds the accesses in the
 * syntax tree, the editor splices the replacements into the text.
 */
module CatchRewrite {
  import opened Prelude
  import opened MagicString

  // ---- Syntax ----

  datatype Kind =
    | Ident(name: string)
    | Member(property: string)   // object.property
    | ComputedMember             // object[index]
    | InstanceOf
    | Conditional
    | If
    | Assign
    | Call
    | While
    | Try(caught: string)        // block, and the handler of a catch clause with this name
    | Op(tag: nat)               // any other node: its children in order

  datatype Node = Node(kind: Kind, children: seq<Node>)

  function Name(n: string): Node {
    Node(Ident(n), [])
  }

  const ERROR: string := "Error"
  const MESSAGE: string := "message"
  const STRING: string := "String"

  // The text a node puts before its i-th child, or behind its last one.
  function Piece(kind: Kind, count: nat, i: nat): string {
    match kind
    case Ident(name) => name
    case Member(property) => if i == 0 then "" else "." + property
    case ComputedMember => if i == 0 then "" else if i == 1 then "[" else "]"
    case InstanceOf => if i == 1 then " instanceof " else ""
    case Conditional => if i == 0 then "(" else if i == 1 then " ? " else if i == 2 then " : " else ")"
    case If => if i == 0 then "if (" else if i == 1 then ") " else if i == count then "" else " else "
    case Assign => if i == 1 then " = " else ""
    case Call =>
      if i == 0 then "" else if i == count then (if i == 1 then "()" else ")") else if i == 1 then "(" else ", "
    case While => if i == 0 then "while (" else if i == 1 then ") " else ""
    case Try(caught) => if i == 0 then "try " else if i == 1 then " catch (" + caught + ") " else ""
    case Op(_) => if i == 0 then "{ " else if i == count then " }" else "; "
  }

  function Text(node: Node): string
    decreases node, |node.children| + 1
  {
    Piece(node.kind, |node.children|, 0) + TextFrom(node, 0)
  }

  // The children from the i-th on, each with the text behind it.
  function TextFrom(node: Node, i: nat): string
    requires i <= |node.children|
    decreases node, |node.children| - i
  {
    if i == |node.children| then ""
    else Text(node.children[i]) + Piece(node.kind, |node.children|, i + 1) + TextFrom(node, i + 1)
  }

  // ---- Finding the accesses ----

  datatype Access = Access(start: nat, end: nat, property: string)

  // isInstanceofErrorGuard
  predicate IsGuard(node: Node, param: string) {
    node == Node(InstanceOf, [Name(param), Name(ERROR)])
  }

  predicate IsAccessOn(node: Node, param: string) {
    || (node.kind.Member? && node.children == [Name(param)])
    || (node.kind.ComputedMember? && node.children != [] && node.children[0] == Name(param))
  }

  function PropertyOf(node: Node): string {
    if node.kind.Member? then node.kind.property else "[computed]"
  }

  // The second child of a conditional or an if stands under the guard its first child is.
  predicate GuardedAt(node: Node, param: string, guarded: bool, i: nat) {
    guarded
    || ((node.kind.Conditional? || node.kind.If?) && i == 1 && node.children != [] && IsGuard(node.children[0], param))
  }

  // findMemberAccessesOn, for a node whose text starts at `at`.
  function Accesses(node: Node, param: string, guarded: bool, at: nat): seq<Access>
    decreases node, |node.children| + 1
  {
    (if !guarded && IsAccessOn(node, param) then [Access(at, at + |Text(node)|, PropertyOf(node))] else [])
    + AccessesFrom(node, param, guarded, at + |Piece(node.kind, |node.children|, 0)|, 0)
  }

  function AccessesFrom(node: Node, param: string, guarded: bool, at: nat, i: nat): seq<Access>
    requires i <= |node.children|
    decreases node, |node.children| - i
  {
    if i == |node.children| then []
    else
      var next := at + |Text(node.children[i])| + |Piece(node.kind, |node.children|, i + 1)|;
      Accesses(node.children[i], param, GuardedAt(node, param, guarded, i), at)
      + AccessesFrom(node, param, guarded, next, i + 1)
  }

  /** findMemberAccessesOn: the walk, pushing every unguarded access on the results. */
  method FindMemberAccessesOn(node: Node, param: string, guarded: bool, at: nat, results: seq<Access>)
    returns (found: seq<Access>)
    ensures found == results + Accesses(node, param, guarded, at)
    decreases node
  {
    hide Piece, Text, IsGuard, IsAccessOn;
    found := results;
    if !guarded && IsAccessOn(node, param) {
      found := found + [Access(at, at + |Text(node)|, PropertyOf(node))];
    }
    ghost var own := found;
    var offset: nat := at + |Piece(node.kind, |node.children|, 0)|;
    ghost var all := AccessesFrom(node, param, guarded, offset, 0);
    for i := 0 to |node.children|
      invariant found + AccessesFrom(node, param, guarded, offset, i) == own + all
    {
      var child := node.children[i];
      ghost var next := offset + |Text(child)| + |Piece(node.kind, |node.children|, i + 1)|;
      ghost var rest := AccessesFrom(node, param, guarded, next, i + 1);
      ghost var here := Accesses(child, param, GuardedAt(node, param, guarded, i), offset);
      assert found + (here + rest) == found + here + rest;
      found := FindMemberAccessesOn(child, param, GuardedAt(node, param, guarded, i), offset, found);
      offset := offset + |Text(child)| + |Piece(node.kind, |node.children|, i + 1)|;
    }
    assert found + [] == found;
    assert own + all == results + Accesses(node, param, guarded, at) by {
      if !guarded && IsAccessOn(node, param) {
        assert results + [Access(at, at + |Text(node)|, PropertyOf(node))] + all
            == results + ([Access(at, at + |Text(node)|, PropertyOf(node))] + all);
      } else {
        assert [] + all == all;
      }
    }
  }

  // ---- Classifying a clause ----

  datatype Parameter = NoParameter | Destructured | Named(name: string)

  datatype Plan =
    | NothingToPlan | UnsupportedParameter | NoMemberAccess | NonMessageProperty
    | Eligible(sites: seq<Access>)

  predicate AllMessages(accesses: seq<Access>) {
    forall i :: 0 <= i < |accesses| ==> accesses[i].property == MESSAGE
  }

  // classifyCatchClause, for a clause whose body's text starts at `at`.
  function Classify(parameter: Parameter, body: Node, at: nat): Plan {
    match parameter
    case NoParameter => NothingToPlan
    case Destructured => UnsupportedParameter
    case Named(name) =>
      var accesses := Accesses(body, name, false, at);
      if accesses == [] then NoMemberAccess
      else if AllMessages(accesses) then Eligible(accesses)
      else NonMessageProperty
  }

  function ReplacementText(param: string): string {
    "(" + param + " instanceof Error ? " + param + ".message : String(" + param + "))"
  }

  function EditsOf(sites: seq<Access>, param: string): (edits: seq<Edit>)
    ensures |edits| == |sites|
    ensures forall i :: 0 <= i < |sites| ==> edits[i] == Edit(sites[i].start, sites[i].end, ReplacementText(param))
  {
    if sites == [] then []
    else [Edit(sites[0].start, sites[0].end, ReplacementText(param))] + EditsOf(sites[1..], param)
  }

  /** applyCatchClauseNarrowing: hand every site to the editor; a refused edit is an error. */
  method ApplyNarrowing(text: string, sites: seq<Access>, param: string) returns (result: Result<string, Refusal>)
    requires forall i :: 0 <= i < |sites| ==> sites[i].start <= sites[i].end <= |text|
    ensures result.Ok? <==> Accepted(EditsOf(sites, param), text)
    ensures result.Ok? ==> result.value == Output(text, EditsOf(sites, param))
  {
    hide Output, ReplacementText;
    ghost var edits := EditsOf(sites, param);
    var ms := new Editor(text);
    for k := 0 to |sites|
      invariant ms.Valid() && ms.original == text && ms.edits == edits[..k]
      invariant fresh(ms)
    {
      var refused := ms.Overwrite(sites[k].start, sites[k].end, ReplacementText(param));
      assert edits[..k + 1] == edits[..k] + [edits[k]];
      if refused.Err? {
        assert exists i :: 0 <= i < k && !Apart(edits[i], edits[k]) by {
          var i :| 0 <= i < k && Overlaps(sites[k].start, sites[k].end, edits[..k][i]);
          assert !Apart(edits[i], edits[k]);
        }
        return Err(refused.error);
      }
    }
    assert edits[..|sites|] == edits;
    var output := ms.ToString();
    return Ok(output);
  }

  // ---- The rewriting as a change of the tree ----

  predicate IsSite(node: Node, param: string) {
    node == Node(Member(MESSAGE), [Name(param)])
  }

  // An access on the caught value reads its message exactly when it is a site.
  lemma MessageAccess(node: Node, param: string)
    requires IsAccessOn(node, param)
    ensures PropertyOf(node) == MESSAGE <==> IsSite(node, param)
  {
    assert "[computed]"[0] == '[' && MESSAGE[0] == 'm';
  }

  lemma AllMessagesConcat(a: seq<Access>, b: seq<Access>)
    ensures AllMessages(a + b) <==> AllMessages(a) && AllMessages(b)
  {
    assert forall i :: 0 <= i < |a| ==> (a + b)[i] == a[i];
    assert forall i :: 0 <= i < |b| ==> (a + b)[|a| + i] == b[i];
  }

  function Replacement(param: string): Node {
    Node(Conditional, [
      Node(InstanceOf, [Name(param), Name(ERROR)]),
      Node(Member(MESSAGE), [Name(param)]),
      Node(Call, [Name(STRING), Name(param)])])
  }

  function Rewrite(node: Node, param: string, guarded: bool): Node
    decreases node, |node.children| + 1
  {
    if !guarded && IsSite(node, param) then Replacement(param)
    else Node(node.kind, RewriteFrom(node, param, guarded, 0))
  }

  function RewriteFrom(node: Node, param: string, guarded: bool, i: nat): (children: seq<Node>)
    requires i <= |node.children|
    ensures |children| == |node.children| - i
    ensures forall k :: 0 <= k < |children| ==>
              children[k] == Rewrite(node.children[i + k], param, GuardedAt(node, param, guarded, i + k))
    decreases node, |node.children| - i
  {
    if i == |node.children| then []
    else
      [Rewrite(node.children[i], param, GuardedAt(node, param, guarded, i))] + RewriteFrom(node, param, guarded, i + 1)
  }
}
