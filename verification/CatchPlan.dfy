/** Which accesses a clause's plan holds, by where they stand in the syntax tree. */
module CatchPlan {
  import opened MagicString
  import opened CatchRewrite
  import opened CatchText
  import opened CatchFile

  // ---- Places in a tree ----

  /** The indices lead from the node to a node below it, one child after the other. */
  predicate Leads(node: Node, path: seq<nat>)
    decreases |path|
  {
    path == [] || (path[0] < |node.children| && Leads(node.children[path[0]], path[1..]))
  }

  function Below(node: Node, path: seq<nat>): Node
    requires Leads(node, path)
    decreases |path|
  {
    if path == [] then node else Below(node.children[path[0]], path[1..])
  }

  // How far behind the start of the node's text its i-th child starts.
  function ChildOffset(node: Node, i: nat): nat
    requires i <= |node.children|
  {
    if i == 0 then |Piece(node.kind, |node.children|, 0)|
    else ChildOffset(node, i - 1) + |Text(node.children[i - 1])| + |Piece(node.kind, |node.children|, i)|
  }

  function Offset(node: Node, path: seq<nat>): nat
    requires Leads(node, path)
    decreases |path|
  {
    if path == [] then 0 else ChildOffset(node, path[0]) + Offset(node.children[path[0]], path[1..])
  }

  // ---- Reads and guards ----

  /** `name.property` or `name[index]`. */
  predicate ReadsProperty(node: Node, name: string) {
    && (node.kind.Member? || node.kind.ComputedMember?)
    && |node.children| > 0 && node.children[0] == Node(Ident(name), [])
    && (node.kind.Member? ==> |node.children| == 1)
  }

  /** The i-th child is what runs when `name instanceof Error` has been found true. */
  predicate Shields(node: Node, i: nat, name: string) {
    && (node.kind.If? || node.kind.Conditional?) && i == 1 && |node.children| > 0
    && node.children[0] == Node(InstanceOf, [Node(Ident(name), []), Node(Ident("Error"), [])])
  }

  /** Some node on the way shields what the path leads to. */
  predicate Shielded(node: Node, path: seq<nat>, name: string)
    requires Leads(node, path)
    decreases |path|
  {
    path != [] && (Shields(node, path[0], name) || Shielded(node.children[path[0]], path[1..], name))
  }

  function PropertyRead(node: Node): string {
    if node.kind.Member? then node.kind.property else "[computed]"
  }

  /** The path leads to an unshielded read of a property, and this is its place in the text. */
  predicate Finds(node: Node, name: string, guarded: bool, at: nat, path: seq<nat>, a: Access) {
    && !guarded && Leads(node, path) && ReadsProperty(Below(node, path), name) && !Shielded(node, path, name)
    && a.start == at + Offset(node, path) && a.end == a.start + |Text(Below(node, path))|
    && a.property == PropertyRead(Below(node, path))
  }

  ghost predicate SomeFinds(node: Node, name: string, guarded: bool, at: nat, a: Access) {
    exists path :: Finds(node, name, guarded, at, path, a)
  }

  ghost predicate SomeFindsFrom(node: Node, name: string, guarded: bool, at: nat, i: nat, a: Access) {
    exists path :: |path| > 0 && path[0] >= i && Finds(node, name, guarded, at, path, a)
  }

  lemma FindsBelow(node: Node, name: string, guarded: bool, at: nat, path: seq<nat>, a: Access)
    requires |path| > 0 && path[0] < |node.children|
    ensures Finds(node, name, guarded, at, path, a)
       <==> Finds(node.children[path[0]], name, guarded || Shields(node, path[0], name),
                  at + ChildOffset(node, path[0]), path[1..], a)
  {
    hide Text, ChildOffset, ReadsProperty, Shields, PropertyRead;
  }

  lemma FindsHere(node: Node, name: string, guarded: bool, at: nat, a: Access)
    ensures Finds(node, name, guarded, at, [], a)
       <==> !guarded && IsAccessOn(node, name) && a == Access(at, at + |Text(node)|, PropertyOf(node))
  {
    hide Text;
    ReadsIsAccess(node, name);
    hide ReadsProperty, IsAccessOn;
  }

  lemma ReadsIsAccess(node: Node, name: string)
    ensures ReadsProperty(node, name) <==> IsAccessOn(node, name)
  {
    if node.kind.Member? && |node.children| == 1 && node.children[0] == Name(name) {
      assert node.children == [Name(name)];
    }
  }

  lemma ShieldsIsGuarded(node: Node, name: string, guarded: bool, i: nat)
    ensures GuardedAt(node, name, guarded, i) <==> guarded || Shields(node, i, name)
  {
  }

  lemma SomeFindsSplit(node: Node, name: string, guarded: bool, at: nat, a: Access)
    ensures SomeFinds(node, name, guarded, at, a)
       <==> Finds(node, name, guarded, at, [], a) || SomeFindsFrom(node, name, guarded, at, 0, a)
  {
    hide Finds;
    if path :| Finds(node, name, guarded, at, path, a) {
      assert path == [] || path[0] >= 0;
    }
  }

  lemma ChildFinds(node: Node, name: string, guarded: bool, at: nat, i: nat, a: Access)
    requires i < |node.children|
    ensures SomeFindsFrom(node, name, guarded, at, i, a)
       <==> SomeFinds(node.children[i], name, guarded || Shields(node, i, name), at + ChildOffset(node, i), a)
            || SomeFindsFrom(node, name, guarded, at, i + 1, a)
  {
    hide Finds, Shields, ChildOffset;
    if path: seq<nat> :| |path| > 0 && path[0] >= i && Finds(node, name, guarded, at, path, a) {
      if path[0] == i {
        FindsBelow(node, name, guarded, at, path, a);
      }
    }
    var g, from := guarded || Shields(node, i, name), at + ChildOffset(node, i);
    if rest: seq<nat> :| Finds(node.children[i], name, g, from, rest, a) {
      var path := [i] + rest;
      assert path[1..] == rest;
      FindsBelow(node, name, guarded, at, path, a);
    }
  }

  lemma NothingBehind(node: Node, name: string, guarded: bool, at: nat, a: Access)
    ensures !SomeFindsFrom(node, name, guarded, at, |node.children|, a)
  {
    hide ReadsProperty, Shielded, Text, Offset;
  }

  lemma NextOffset(node: Node, i: nat)
    requires i < |node.children|
    ensures ChildOffset(node, i + 1)
         == ChildOffset(node, i) + |Text(node.children[i])| + |Piece(node.kind, |node.children|, i + 1)|
  {
    hide Text, Piece;
  }

  /** An access is planned exactly when some path leads to it and no guard on the way shields it. */
  lemma {:induction false} AccessesAreFound(node: Node, name: string, guarded: bool, at: nat, a: Access)
    ensures a in Accesses(node, name, guarded, at) <==> SomeFinds(node, name, guarded, at, a)
    decreases node, |node.children| + 1
  {
    hide Text, Piece, SomeFinds, SomeFindsFrom, Finds, IsAccessOn, AccessesFrom;
    var start := at + |Piece(node.kind, |node.children|, 0)|;
    assert start == at + ChildOffset(node, 0);
    AccessesFromAreFound(node, name, guarded, at, 0, a);
    SomeFindsSplit(node, name, guarded, at, a);
    FindsHere(node, name, guarded, at, a);
  }

  lemma {:induction false} AccessesFromAreFound(node: Node, name: string, guarded: bool, at: nat, i: nat, a: Access)
    requires i <= |node.children|
    ensures a in AccessesFrom(node, name, guarded, at + ChildOffset(node, i), i)
       <==> SomeFindsFrom(node, name, guarded, at, i, a)
    decreases node, |node.children| - i
  {
    hide *;
    if i == |node.children| {
      NoAccessBehind(node, name, guarded, at + ChildOffset(node, i));
      NothingBehind(node, name, guarded, at, a);
    } else {
      NextOffset(node, i);
      AccessesFromStep(node, name, guarded, at + ChildOffset(node, i), i);
      ShieldsIsGuarded(node, name, guarded, i);
      ChildFinds(node, name, guarded, at, i, a);
      AccessesAreFound(node.children[i], name, guarded || Shields(node, i, name), at + ChildOffset(node, i), a);
      AccessesFromAreFound(node, name, guarded, at, i + 1, a);
    }
  }

  lemma NoAccessBehind(node: Node, name: string, guarded: bool, at: nat)
    ensures AccessesFrom(node, name, guarded, at, |node.children|) == []
  {
  }

  // ---- The plan of a clause ----

  /** The body reads a property of the caught value where no guard shields it. */
  ghost predicate ReadsUnshielded(body: Node, name: string, path: seq<nat>) {
    Leads(body, path) && ReadsProperty(Below(body, path), name) && !Shielded(body, path, name)
  }

  /** That property is not `message`, or its name is computed. */
  predicate OtherThanMessage(node: Node) {
    !node.kind.Member? || node.kind.property != "message"
  }

  /** What becomes of a clause, by the unshielded reads of its body. */
  lemma PlanByReads(body: Node, name: string, at: nat)
    ensures var plan := Classify(Named(name), body, at);
            && (plan == NoMemberAccess <==> forall path :: !ReadsUnshielded(body, name, path))
            && (plan == NonMessageProperty
                <==> exists path :: ReadsUnshielded(body, name, path) && OtherThanMessage(Below(body, path)))
            && (plan.Eligible? ==> forall a :: a in plan.sites <==> SomeFinds(body, name, false, at, a))
            && (plan == NoMemberAccess || plan == NonMessageProperty || plan.Eligible?)
  {
    hide *;
    var accesses := Accesses(body, name, false, at);
    PlanOfAccesses(body, name, at);
    forall a ensures a in accesses <==> SomeFinds(body, name, false, at, a) {
      AccessesAreFound(body, name, false, at, a);
    }
    forall path | ReadsUnshielded(body, name, path)
      ensures Leads(body, path) && Placed(body, name, at, path) in accesses
      ensures OtherThanMessage(Below(body, path)) <==> Placed(body, name, at, path).property != MESSAGE
    {
      ReadIsFound(body, name, at, path);
    }
    if accesses != [] {
      var path := FoundIsRead(body, name, at, accesses[0]);
    }
    if a :| a in accesses && a.property != MESSAGE {
      var path := FoundIsRead(body, name, at, a);
    }
  }

  lemma ReadIsFound(body: Node, name: string, at: nat, path: seq<nat>)
    requires ReadsUnshielded(body, name, path)
    ensures Leads(body, path) && SomeFinds(body, name, false, at, Placed(body, name, at, path))
    ensures OtherThanMessage(Below(body, path)) <==> Placed(body, name, at, path).property != MESSAGE
  {
    OtherMeans(Below(body, path));
    hide Text, Offset, PropertyRead, MESSAGE, OtherThanMessage, Leads, Below, ReadsProperty, Shielded;
    assert Finds(body, name, false, at, path, Placed(body, name, at, path));
  }

  lemma FoundIsRead(body: Node, name: string, at: nat, a: Access) returns (path: seq<nat>)
    requires SomeFinds(body, name, false, at, a)
    ensures ReadsUnshielded(body, name, path) && Leads(body, path) && a == Placed(body, name, at, path)
  {
    hide Text, Offset, PropertyRead, Leads, Below, ReadsProperty, Shielded;
    path :| Finds(body, name, false, at, path, a);
  }

  function Placed(body: Node, name: string, at: nat, path: seq<nat>): Access
    requires Leads(body, path)
  {
    var start := at + Offset(body, path);
    Access(start, start + |Text(Below(body, path))|, PropertyRead(Below(body, path)))
  }

  lemma OtherMeans(node: Node)
    ensures OtherThanMessage(node) <==> PropertyRead(node) != MESSAGE
  {
    assert "[computed]"[0] == '[' && MESSAGE[0] == 'm';
  }

  lemma PlanOfAccesses(body: Node, name: string, at: nat)
    ensures var accesses, plan := Accesses(body, name, false, at), Classify(Named(name), body, at);
            plan == if accesses == [] then NoMemberAccess
                    else if exists a :: a in accesses && a.property != MESSAGE then NonMessageProperty
                    else Eligible(accesses)
  {
    hide Accesses, MESSAGE;
    var accesses := Accesses(body, name, false, at);
    if AllMessages(accesses) {
      forall a | a in accesses ensures a.property == MESSAGE {
        var i :| 0 <= i < |accesses| && accesses[i] == a;
      }
    } else {
      var i :| 0 <= i < |accesses| && accesses[i].property != MESSAGE;
      assert accesses[i] in accesses;
    }
  }

  // ---- The places are where the text says ----

  lemma StepHolds(node: Node, i: nat, text: string, at: nat)
    requires i < |node.children| && Holds(text, at, TextFrom(node, i))
    ensures Holds(text, at, Text(node.children[i]))
    ensures Holds(text, at + |Text(node.children[i])| + |Piece(node.kind, |node.children|, i + 1)|,
                  TextFrom(node, i + 1))
  {
    hide *;
    TextFromStep(node, i);
    var child, piece := Text(node.children[i]), Piece(node.kind, |node.children|, i + 1);
    HoldsParts(text, at, child, piece + TextFrom(node, i + 1));
    HoldsParts(text, at + |child|, piece, TextFrom(node, i + 1));
  }

  lemma {:induction false} RestHolds(node: Node, i: nat)
    requires i <= |node.children|
    ensures Holds(Text(node), ChildOffset(node, i), TextFrom(node, i))
  {
    hide Text, Piece, TextFrom, Holds;
    if i == 0 {
      TextIsPieces(node);
      HoldsItself(Text(node));
      HoldsParts(Text(node), 0, Piece(node.kind, |node.children|, 0), TextFrom(node, 0));
    } else {
      RestHolds(node, i - 1);
      StepHolds(node, i - 1, Text(node), ChildOffset(node, i - 1));
    }
  }

  lemma TextIsPieces(node: Node)
    ensures Text(node) == Piece(node.kind, |node.children|, 0) + TextFrom(node, 0)
  {
    hide Piece, TextFrom;
  }

  lemma HoldsItself(text: string)
    ensures Holds(text, 0, text)
  {
  }

  lemma HoldsWithin(text: string, at: nat, middle: string, inner: nat, s: string)
    requires Holds(text, at, middle) && Holds(middle, inner, s)
    ensures Holds(text, at + inner, s)
  {
    assert at + inner + |s| <= at + |middle| <= |text|;
    var a, b := text[at..at + |middle|][inner..inner + |s|], text[at + inner..at + inner + |s|];
    assert |a| == |b|;
    assert forall k :: 0 <= k < |a| ==> a[k] == b[k];
    assert a == b;
  }

  /** The range of an access in a text holds the text of what is read. */
  lemma {:induction false} OffsetHolds(node: Node, path: seq<nat>)
    requires Leads(node, path)
    ensures Holds(Text(node), Offset(node, path), Text(Below(node, path)))
    decreases |path|
  {
    hide Text, Holds, ChildOffset;
    if path == [] {
      HoldsItself(Text(node));
    } else {
      var child := node.children[path[0]];
      RestHolds(node, path[0]);
      StepHolds(node, path[0], Text(node), ChildOffset(node, path[0]));
      OffsetHolds(child, path[1..]);
      HoldsWithin(Text(node), ChildOffset(node, path[0]), Text(child), Offset(child, path[1..]),
                  Text(Below(node, path)));
    }
  }

  // ---- The plan of a file ----

  /** The clause reads nothing of what it caught but its message, shielded reads aside. */
  ghost predicate ReadsMessagesOnly(handler: Node, name: string) {
    forall path :: ReadsUnshielded(handler, name, path) ==> !OtherThanMessage(Below(handler, path))
  }

  /** This clause's handler, whose text starts at `at`, has the entry's site, and may be narrowed. */
  ghost predicate ClauseHas(clause: Node, at: nat, entry: Entry) {
    && clause.kind.Try? && |clause.children| == 2 && clause.kind.caught == entry.param
    && SomeFinds(clause.children[1], entry.param, false, at + ChildOffset(clause, 1), entry.site)
    && ReadsMessagesOnly(clause.children[1], entry.param)
  }

  ghost predicate PathHas(node: Node, at: nat, path: seq<nat>, entry: Entry) {
    Leads(node, path) && ClauseHas(Below(node, path), at + Offset(node, path), entry)
  }

  ghost predicate SomeHas(node: Node, at: nat, entry: Entry) {
    exists path :: PathHas(node, at, path, entry)
  }

  ghost predicate SomeHasFrom(node: Node, at: nat, i: nat, entry: Entry) {
    exists path :: |path| > 0 && path[0] >= i && PathHas(node, at, path, entry)
  }

  lemma ClausePlanMeans(name: string, handler: Node, at: nat, entry: Entry)
    ensures entry in ClausePlan(name, handler, at)
       <==> entry.param == name && SomeFinds(handler, name, false, at, entry.site) && ReadsMessagesOnly(handler, name)
  {
    hide *;
    PlanByReads(handler, name, at);
    ClausePlanIs(name, handler, at, entry);
    MessagesOnlyMeans(handler, name);
    if SomeFinds(handler, name, false, at, entry.site) {
      var path := FoundIsRead(handler, name, at, entry.site);
    }
  }

  lemma MessagesOnlyMeans(handler: Node, name: string)
    ensures ReadsMessagesOnly(handler, name)
       <==> !exists path :: ReadsUnshielded(handler, name, path) && OtherThanMessage(Below(handler, path))
  {
    hide OtherThanMessage;
  }

  lemma ClausePlanIs(name: string, handler: Node, at: nat, entry: Entry)
    ensures var plan := Classify(Named(name), handler, at);
            (entry in ClausePlan(name, handler, at)
             <==> plan.Eligible? && entry.param == name && entry.site in plan.sites)
  {
    hide Classify;
    var plan := Classify(Named(name), handler, at);
    if plan.Eligible? {
      var entries := EntriesOf(plan.sites, name);
      if entry.param == name && entry.site in plan.sites {
        var i :| 0 <= i < |plan.sites| && plan.sites[i] == entry.site;
        assert entries[i] == entry;
      }
    }
  }

  lemma OwnClause(node: Node, at: nat, entry: Entry)
    ensures PathHas(node, at, [], entry)
       <==> node.kind.Try? && |node.children| == 2
            && entry in ClausePlan(node.kind.caught, node.children[1], HandlerAt(node, at))
  {
    hide Text, Piece, ClausePlan, SomeFinds, ReadsMessagesOnly;
    if node.kind.Try? && |node.children| == 2 {
      NextOffset(node, 0);
      assert at + ChildOffset(node, 1) == HandlerAt(node, at);
      ClausePlanMeans(node.kind.caught, node.children[1], HandlerAt(node, at), entry);
    }
  }

  lemma PathHasBelow(node: Node, at: nat, path: seq<nat>, entry: Entry)
    requires |path| > 0 && path[0] < |node.children|
    ensures PathHas(node, at, path, entry)
       <==> PathHas(node.children[path[0]], at + ChildOffset(node, path[0]), path[1..], entry)
  {
    hide Text, ChildOffset, ClauseHas;
  }

  lemma SomeHasSplit(node: Node, at: nat, entry: Entry)
    ensures SomeHas(node, at, entry) <==> PathHas(node, at, [], entry) || SomeHasFrom(node, at, 0, entry)
  {
    hide PathHas;
    if path :| PathHas(node, at, path, entry) {
      assert path == [] || path[0] >= 0;
    }
  }

  lemma ChildHas(node: Node, at: nat, i: nat, entry: Entry)
    requires i < |node.children|
    ensures SomeHasFrom(node, at, i, entry)
       <==> SomeHas(node.children[i], at + ChildOffset(node, i), entry) || SomeHasFrom(node, at, i + 1, entry)
  {
    hide PathHas, ChildOffset;
    if path: seq<nat> :| |path| > 0 && path[0] >= i && PathHas(node, at, path, entry) {
      if path[0] == i {
        PathHasBelow(node, at, path, entry);
      }
    }
    var from := at + ChildOffset(node, i);
    if rest: seq<nat> :| PathHas(node.children[i], from, rest, entry) {
      var path := [i] + rest;
      assert path[1..] == rest;
      PathHasBelow(node, at, path, entry);
    }
  }

  lemma NoClauseBehind(node: Node, at: nat, entry: Entry)
    ensures !SomeHasFrom(node, at, |node.children|, entry)
  {
    hide ClauseHas, Text, Offset;
  }

  lemma FilePlanFromStep(node: Node, at: nat, i: nat)
    requires i < |node.children|
    ensures FilePlanFrom(node, at + ChildOffset(node, i), i)
         == FilePlan(node.children[i], at + ChildOffset(node, i))
            + FilePlanFrom(node, at + ChildOffset(node, i + 1), i + 1)
  {
    NextOffset(node, i);
    hide Text, Piece, FilePlan, ChildOffset;
  }

  /** A file's plan holds exactly the unshielded reads of every clause, wherever it stands, that may be narrowed. */
  lemma {:induction false} FilePlanHoldsEveryClause(node: Node, at: nat, entry: Entry)
    ensures entry in FilePlan(node, at) <==> SomeHas(node, at, entry)
    decreases node, |node.children| + 1
  {
    hide Text, Piece, SomeHas, SomeHasFrom, PathHas, ClausePlan, HandlerAt, FilePlanFrom;
    var start := at + |Piece(node.kind, |node.children|, 0)|;
    assert start == at + ChildOffset(node, 0);
    FilePlanFromHolds(node, at, 0, entry);
    SomeHasSplit(node, at, entry);
    OwnClause(node, at, entry);
  }

  lemma {:induction false} FilePlanFromHolds(node: Node, at: nat, i: nat, entry: Entry)
    requires i <= |node.children|
    ensures entry in FilePlanFrom(node, at + ChildOffset(node, i), i) <==> SomeHasFrom(node, at, i, entry)
    decreases node, |node.children| - i
  {
    hide *;
    if i == |node.children| {
      NoClauseBehind(node, at, entry);
      NoPlanBehind(node, at + ChildOffset(node, i));
    } else {
      FilePlanFromStep(node, at, i);
      ChildHas(node, at, i, entry);
      FilePlanHoldsEveryClause(node.children[i], at + ChildOffset(node, i), entry);
      FilePlanFromHolds(node, at, i + 1, entry);
    }
  }

  lemma NoPlanBehind(node: Node, at: nat)
    ensures FilePlanFrom(node, at, |node.children|) == []
  {
  }
}
