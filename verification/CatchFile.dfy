/** A file with several clauses: which plans the editor accepts. */
module CatchFile {
  import opened MagicString
  import opened CatchRewrite
  import opened CatchText

  // ---- All message accesses of a file, on whatever name ----

  predicate IsMessageRead(node: Node) {
    && node.kind == Member(MESSAGE) && |node.children| == 1
    && node.children[0].kind.Ident? && node.children[0].children == []
  }

  function Messages(node: Node, at: nat): seq<Access>
    decreases node, |node.children| + 1
  {
    (if IsMessageRead(node) then [Access(at, at + |Text(node)|, MESSAGE)] else [])
    + MessagesFrom(node, at + |Piece(node.kind, |node.children|, 0)|, 0)
  }

  function MessagesFrom(node: Node, at: nat, i: nat): seq<Access>
    requires i <= |node.children|
    decreases node, |node.children| - i
  {
    if i == |node.children| then []
    else
      Messages(node.children[i], at)
      + MessagesFrom(node, at + |Text(node.children[i])| + |Piece(node.kind, |node.children|, i + 1)|, i + 1)
  }

  lemma ReadIsAlone(node: Node, at: nat)
    requires IsMessageRead(node)
    ensures Messages(node, at) == [Access(at, at + |Text(node)|, MESSAGE)] && |Text(node)| > 0
  {
    var name := node.children[0];
    assert node.children == [name];
    TextOfOne(Member(MESSAGE), name);
    assert |Text(node)| > 0;
    hide Piece, Text;
    hide MESSAGE;
    NameHasNoMessage(name, at + |Piece(node.kind, 1, 0)|);
    assert MessagesFrom(node, at + |Piece(node.kind, 1, 0)|, 0) == [];
  }

  lemma NameHasNoMessage(name: Node, at: nat)
    requires name.kind.Ident? && name.children == []
    ensures Messages(name, at) == []
  {
    hide Piece, Text;
    assert MessagesFrom(name, at + |Piece(name.kind, 0, 0)|, 0) == [];
  }

  /** Message accesses lie one after the other, without overlap. */
  lemma {:induction false} MessagesWithin(node: Node, at: nat)
    ensures Within(Messages(node, at), at, at + |Text(node)|)
    decreases node, |node.children| + 1
  {
    hide Piece, IsMessageRead, Within;
    if IsMessageRead(node) {
      ReadIsAlone(node, at);
      OneWithin(at, at + |Text(node)|);
    } else {
      var start := at + |Piece(node.kind, |node.children|, 0)|;
      var inner := MessagesFrom(node, start, 0);
      assert [] + inner == inner;
      MessagesFromWithin(node, start, 0);
      WidenWithin(inner, start, at + |Text(node)|, at);
    }
  }

  lemma OneWithin(from: nat, to: nat)
    requires from < to
    ensures Within([Access(from, to, MESSAGE)], from, to)
  {
  }

  lemma {:induction false} MessagesFromWithin(node: Node, at: nat, i: nat)
    requires i <= |node.children|
    ensures Within(MessagesFrom(node, at, i), at, at + |TextFrom(node, i)|)
    decreases node, |node.children| - i
  {
    hide Piece, Text, Within, Messages;
    if i == |node.children| {
      EmptyWithin(at);
    } else {
      var child := node.children[i];
      var mid := at + |Text(child)|;
      var next := mid + |Piece(node.kind, |node.children|, i + 1)|;
      MessagesWithin(child, at);
      MessagesFromWithin(node, next, i + 1);
      var end := next + |TextFrom(node, i + 1)|;
      WidenWithin(MessagesFrom(node, next, i + 1), next, end, mid);
      WithinConcat(Messages(child, at), MessagesFrom(node, next, i + 1), at, mid, end);
    }
  }

  lemma EmptyWithin(at: nat)
    ensures Within([], at, at)
  {
  }

  // ---- The sites of a clause are among them ----

  predicate Among(sites: seq<Access>, all: seq<Access>) {
    forall site :: site in sites && site.property == MESSAGE ==> site in all
  }

  lemma {:induction false} AccessesAmong(node: Node, param: string, guarded: bool, at: nat)
    ensures Among(Accesses(node, param, guarded, at), Messages(node, at))
    decreases node, |node.children| + 1
  {
    hide Piece, Text, IsAccessOn, IsMessageRead, PropertyOf, MESSAGE;
    AccessesFromAmong(node, param, guarded, at + |Piece(node.kind, |node.children|, 0)|, 0);
    if !guarded && IsAccessOn(node, param) {
      MessageAccess(node, param);
      SiteIsRead(node, param);
    }
  }

  lemma SiteIsRead(node: Node, param: string)
    ensures IsSite(node, param) ==> IsMessageRead(node)
  {
  }

  lemma {:induction false} AccessesFromAmong(node: Node, param: string, guarded: bool, at: nat, i: nat)
    requires i <= |node.children|
    ensures Among(AccessesFrom(node, param, guarded, at, i), MessagesFrom(node, at, i))
    decreases node, |node.children| - i
  {
    hide Piece, Text, Accesses, Messages, GuardedAt, MESSAGE;
    if i < |node.children| {
      AccessesAmong(node.children[i], param, GuardedAt(node, param, guarded, i), at);
      var next := at + |Text(node.children[i])| + |Piece(node.kind, |node.children|, i + 1)|;
      AccessesFromAmong(node, param, guarded, next, i + 1);
    }
  }

  // ---- The plan of a file ----

  // One eligible entry: the site, and the name its replacement tests.
  datatype Entry = Entry(site: Access, param: string)

  function EntriesOf(sites: seq<Access>, param: string): (entries: seq<Entry>)
    ensures |entries| == |sites| && forall i :: 0 <= i < |sites| ==> entries[i] == Entry(sites[i], param)
  {
    seq(|sites|, i requires 0 <= i < |sites| => Entry(sites[i], param))
  }

  // Where the handler of a clause starts.
  function HandlerAt(node: Node, at: nat): nat
    requires node.kind.Try? && |node.children| == 2
  {
    at + |Piece(node.kind, 2, 0)| + |Text(node.children[0])| + |Piece(node.kind, 2, 1)|
  }

  function ClausePlan(name: string, handler: Node, at: nat): seq<Entry> {
    var plan := Classify(Named(name), handler, at);
    if plan.Eligible? then EntriesOf(plan.sites, name) else []
  }

  // planCatchClauseNarrowing: the eligible entries of all clauses, an outer clause before the ones inside it.
  function FilePlan(node: Node, at: nat): seq<Entry>
    decreases node, |node.children| + 1
  {
    (if node.kind.Try? && |node.children| == 2 then
       ClausePlan(node.kind.caught, node.children[1], HandlerAt(node, at))
     else [])
    + FilePlanFrom(node, at + |Piece(node.kind, |node.children|, 0)|, 0)
  }

  function FilePlanFrom(node: Node, at: nat, i: nat): seq<Entry>
    requires i <= |node.children|
    decreases node, |node.children| - i
  {
    if i == |node.children| then []
    else
      FilePlan(node.children[i], at)
      + FilePlanFrom(node, at + |Text(node.children[i])| + |Piece(node.kind, |node.children|, i + 1)|, i + 1)
  }

  predicate PlansMessages(entries: seq<Entry>, all: seq<Access>) {
    forall entry :: entry in entries ==> entry.site in all
  }

  lemma {:induction false} PlanAmong(node: Node, at: nat)
    ensures PlansMessages(FilePlan(node, at), Messages(node, at))
    decreases node, |node.children| + 1
  {
    hide Piece, Text, IsMessageRead, Classify, HandlerAt;
    PlanFromAmong(node, at + |Piece(node.kind, |node.children|, 0)|, 0);
    if node.kind.Try? && |node.children| == 2 {
      ClauseAmong(node, at);
    }
  }

  lemma ClauseAmong(node: Node, at: nat)
    requires node.kind.Try? && |node.children| == 2
    ensures PlansMessages(ClausePlan(node.kind.caught, node.children[1], HandlerAt(node, at)), Messages(node, at))
  {
    var handler, start := node.children[1], HandlerAt(node, at);
    AccessesAmong(handler, node.kind.caught, false, start);
    HandlerMessages(node, at);
    hide Piece, Text, IsMessageRead, HandlerAt, Accesses, Messages, MESSAGE;
  }

  lemma HandlerMessages(node: Node, at: nat)
    requires node.kind.Try? && |node.children| == 2
    ensures forall site :: site in Messages(node.children[1], HandlerAt(node, at)) ==> site in Messages(node, at)
  {
    hide Piece, Text, IsMessageRead;
    var start := at + |Piece(node.kind, 2, 0)|;
    var second := start + |Text(node.children[0])| + |Piece(node.kind, 2, 1)|;
    assert MessagesFrom(node, second, 1)
        == Messages(node.children[1], second)
           + MessagesFrom(node, second + |Text(node.children[1])| + |Piece(node.kind, 2, 2)|, 2);
    assert MessagesFrom(node, start, 0) == Messages(node.children[0], start) + MessagesFrom(node, second, 1);
  }

  lemma {:induction false} PlanFromAmong(node: Node, at: nat, i: nat)
    requires i <= |node.children|
    ensures PlansMessages(FilePlanFrom(node, at, i), MessagesFrom(node, at, i))
    decreases node, |node.children| - i
  {
    hide Piece, Text, FilePlan, Messages;
    if i < |node.children| {
      PlanAmong(node.children[i], at);
      PlanFromAmong(node, at + |Text(node.children[i])| + |Piece(node.kind, |node.children|, i + 1)|, i + 1);
    }
  }

  // ---- Which plans are accepted ----

  function PlanEdits(entries: seq<Entry>): (edits: seq<Edit>)
    ensures |edits| == |entries|
    ensures forall i :: 0 <= i < |entries| ==>
              edits[i] == Edit(entries[i].site.start, entries[i].site.end, ReplacementText(entries[i].param))
  {
    seq(|entries|, i requires 0 <= i < |entries| =>
      Edit(entries[i].site.start, entries[i].site.end, ReplacementText(entries[i].param)))
  }

  // No site is planned for two clauses.
  predicate PlannedOnce(entries: seq<Entry>) {
    forall i, j :: 0 <= i < j < |entries| ==> entries[i].site.start != entries[j].site.start
  }

  lemma SitesMeet(all: seq<Access>, from: nat, to: nat, a: Access, b: Access)
    requires Within(all, from, to) && a in all && b in all
    ensures a.start < a.end <= to && (a.start < b.end && b.start < a.end <==> a.start == b.start)
  {
    var i :| 0 <= i < |all| && all[i] == a;
    var j :| 0 <= j < |all| && all[j] == b;
    assert i < j ==> all[i].end <= all[j].start;
    assert j < i ==> all[j].end <= all[i].start;
  }

  /** For every file: the editor accepts the plan exactly when no site is planned for two clauses. */
  lemma PlanAcceptedExactlyWhen(file: Node)
    ensures var plan := FilePlan(file, 0);
            Accepted(PlanEdits(plan), Text(file)) <==> PlannedOnce(plan)
  {
    hide FilePlan, Messages, Text, Within, ReplacementText;
    var plan, all, edits := FilePlan(file, 0), Messages(file, 0), PlanEdits(FilePlan(file, 0));
    PlanAmong(file, 0);
    MessagesWithin(file, 0);
    forall i, j | 0 <= i < |plan| && 0 <= j < |plan|
      ensures InRange(edits[i], Text(file))
      ensures Apart(edits[i], edits[j]) <==> plan[i].site.start != plan[j].site.start
    {
      assert plan[i] in plan && plan[j] in plan;
      SitesMeet(all, 0, |Text(file)|, plan[i].site, plan[j].site);
    }
  }

  // ---- A plan that is refused ----

  // try { } catch (name) try { } catch (name) name.message
  function Block(): Node {
    Node(Op(0), [])
  }

  function InnerClause(name: string): Node {
    Node(Try(name), [Block(), Node(Member(MESSAGE), [Name(name)])])
  }

  function NestedClauses(name: string): Node {
    Node(Try(name), [Block(), InnerClause(name)])
  }

  /** The accesses in a block and a handler. */
  lemma TwoAccesses(kind: Kind, a: Node, b: Node, param: string, at: nat)
    requires kind.Try?
    ensures var node := Node(kind, [a, b]);
            Accesses(node, param, false, at)
            == Accesses(a, param, false, at + |Piece(kind, 2, 0)|) + Accesses(b, param, false, HandlerAt(node, at))
  {
    var node, start := Node(kind, [a, b]), at + |Piece(kind, 2, 0)|;
    var second := HandlerAt(node, at);
    assert second == start + |Text(a)| + |Piece(kind, 2, 1)|;
    hide *;
    TryAccesses(node, param, at);
    AccessesFromStep(node, param, false, start, 0);
    AccessesFromStep(node, param, false, second, 1);
  }

  lemma TryAccesses(node: Node, param: string, at: nat)
    requires node.kind.Try?
    ensures Accesses(node, param, false, at)
         == AccessesFrom(node, param, false, at + |Piece(node.kind, |node.children|, 0)|, 0)
    ensures forall k: nat :: AccessesFrom(node, param, false, k, |node.children|) == []
    ensures forall i: nat :: !GuardedAt(node, param, false, i)
  {
    hide Text, Piece;
  }

  /** The plan of a clause and of what its block and its handler hold. */
  lemma TwoPlans(kind: Kind, a: Node, b: Node, at: nat)
    requires kind.Try?
    ensures var node := Node(kind, [a, b]);
            FilePlan(node, at) == ClausePlan(kind.caught, b, HandlerAt(node, at))
                                  + (FilePlan(a, at + |Piece(kind, 2, 0)|) + FilePlan(b, HandlerAt(node, at)))
  {
    hide Text, Piece, ClausePlan;
    var node, start := Node(kind, [a, b]), at + |Piece(kind, 2, 0)|;
    var second := HandlerAt(node, at);
    assert FilePlanFrom(node, second, 1) == FilePlan(b, second) + [];
    assert FilePlanFrom(node, start, 0) == FilePlan(a, start) + FilePlanFrom(node, second, 1);
  }

  lemma BlockIsEmpty(param: string, at: nat)
    ensures Accesses(Block(), param, false, at) == [] && FilePlan(Block(), at) == []
  {
    hide Text, Piece;
  }

  lemma SiteAlone(name: string, at: nat)
    ensures var site := Node(Member(MESSAGE), [Name(name)]);
            && Accesses(site, name, false, at) == [Access(at, at + |Text(site)|, MESSAGE)]
            && FilePlan(site, at) == []
  {
    var site := Node(Member(MESSAGE), [Name(name)]);
    var start := at + |Piece(site.kind, 1, 0)|;
    SiteText(site, name);
    hide Text, Piece, MESSAGE;
    NameHasNoClause(name, start);
    assert FilePlanFrom(site, start, 0) == [];
  }

  lemma NameHasNoClause(name: string, at: nat)
    ensures FilePlan(Name(name), at) == []
  {
    hide Text, Piece;
    assert FilePlanFrom(Name(name), at + |Piece(Name(name).kind, 0, 0)|, 0) == [];
  }

  lemma OneSite(body: Node, name: string, at: nat, site: Access)
    requires Accesses(body, name, false, at) == [site] && site.property == MESSAGE
    ensures ClausePlan(name, body, at) == [Entry(site, name)]
  {
    hide Accesses;
  }

  /** The inner site, found from either clause. */
  lemma InnerSite(name: string, at: nat) returns (site: Access)
    ensures Accesses(InnerClause(name), name, false, at) == [site] && site.property == MESSAGE
    ensures FilePlan(InnerClause(name), at) == [Entry(site, name)]
  {
    var read, start := Node(Member(MESSAGE), [Name(name)]), HandlerAt(InnerClause(name), at);
    TwoAccesses(Try(name), Block(), read, name, at);
    TwoPlans(Try(name), Block(), read, at);
    hide *;
    BlockIsEmpty(name, at + |Piece(Try(name), 2, 0)|);
    SiteAlone(name, start);
    site := Access(start, start + |Text(read)|, MESSAGE);
    OneSite(read, name, start, site);
  }

  lemma NestedPlan(name: string) returns (entry: Entry)
    ensures FilePlan(NestedClauses(name), 0) == [entry, entry]
  {
    var outer := HandlerAt(NestedClauses(name), 0);
    TwoPlans(Try(name), Block(), InnerClause(name), 0);
    hide *;
    BlockIsEmpty(name, 0 + |Piece(Try(name), 2, 0)|);
    var site := InnerSite(name, outer);
    OneSite(InnerClause(name), name, outer, site);
    entry := Entry(site, name);
  }

  /** Two nested clauses with the same name both plan the inner access, and the editor refuses the second. */
  lemma NestedClausesAreRefused(name: string)
    ensures var plan := FilePlan(NestedClauses(name), 0);
            |plan| == 2 && plan[0] == plan[1] && !Accepted(PlanEdits(plan), Text(NestedClauses(name)))
  {
    var entry := NestedPlan(name);
    var plan := [entry, entry];
    assert plan[0].site.start == plan[1].site.start;
    assert !PlannedOnce(plan);
    hide *;
    PlanAcceptedExactlyWhen(NestedClauses(name));
  }
}
