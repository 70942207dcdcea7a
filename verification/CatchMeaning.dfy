/**
 * What narrowing does to the program: replanning finds nothing left to do, other clauses are judged as
 * before, and every run in which the caught value is an Error is the same run.
 */
module CatchMeaning {
  import opened CatchRewrite

  // ---- Planning again ----

  // Every unguarded access is a message access, by the structure of the tree.
  predicate OnlySites(node: Node, param: string, guarded: bool)
    decreases node, |node.children| + 1
  {
    && (!guarded && IsAccessOn(node, param) ==> IsSite(node, param))
    && OnlySitesFrom(node, param, guarded, 0)
  }

  predicate OnlySitesFrom(node: Node, param: string, guarded: bool, i: nat)
    requires i <= |node.children|
    decreases node, |node.children| - i
  {
    i == |node.children|
    || (&& OnlySites(node.children[i], param, GuardedAt(node, param, guarded, i))
        && OnlySitesFrom(node, param, guarded, i + 1))
  }

  lemma {:induction false} OnlySitesMeans(node: Node, param: string, guarded: bool, at: nat)
    ensures AllMessages(Accesses(node, param, guarded, at)) <==> OnlySites(node, param, guarded)
    decreases node, |node.children| + 1
  {
    hide Text, Piece, IsAccessOn, IsSite, PropertyOf, AllMessages, AccessesFrom, OnlySitesFrom;
    var own := if !guarded && IsAccessOn(node, param) then [Access(at, at + |Text(node)|, PropertyOf(node))] else [];
    var start := at + |Piece(node.kind, |node.children|, 0)|;
    var inner := AccessesFrom(node, param, guarded, start, 0);
    AllMessagesConcat(own, inner);
    OnlySitesFromMeans(node, param, guarded, start, 0);
    OneMessage(own);
    if !guarded && IsAccessOn(node, param) {
      MessageAccess(node, param);
    }
  }

  lemma OneMessage(own: seq<Access>)
    requires |own| <= 1
    ensures AllMessages(own) <==> own == [] || own[0].property == MESSAGE
  {
  }

  lemma {:induction false} OnlySitesFromMeans(node: Node, param: string, guarded: bool, at: nat, i: nat)
    requires i <= |node.children|
    ensures AllMessages(AccessesFrom(node, param, guarded, at, i)) <==> OnlySitesFrom(node, param, guarded, i)
    decreases node, |node.children| - i
  {
    hide Text, Piece, IsAccessOn, PropertyOf, AllMessages, Accesses, OnlySites, GuardedAt;
    if i < |node.children| {
      var child := node.children[i];
      var g := GuardedAt(node, param, guarded, i);
      var next := at + |Text(child)| + |Piece(node.kind, |node.children|, i + 1)|;
      AllMessagesConcat(Accesses(child, param, g, at), AccessesFrom(node, param, guarded, next, i + 1));
      OnlySitesMeans(child, param, g, at);
      OnlySitesFromMeans(node, param, guarded, next, i + 1);
    } else {
      OneMessage([]);
    }
  }

  // No unguarded access, by the structure of the tree.
  predicate NoAccess(node: Node, param: string, guarded: bool)
    decreases node, |node.children| + 1
  {
    !(!guarded && IsAccessOn(node, param)) && NoAccessFrom(node, param, guarded, 0)
  }

  predicate NoAccessFrom(node: Node, param: string, guarded: bool, i: nat)
    requires i <= |node.children|
    decreases node, |node.children| - i
  {
    i == |node.children|
    || (&& NoAccess(node.children[i], param, GuardedAt(node, param, guarded, i))
        && NoAccessFrom(node, param, guarded, i + 1))
  }

  lemma {:induction false} NoAccessMeans(node: Node, param: string, guarded: bool, at: nat)
    ensures Accesses(node, param, guarded, at) == [] <==> NoAccess(node, param, guarded)
    decreases node, |node.children| + 1
  {
    hide Text, Piece, IsAccessOn, PropertyOf, AccessesFrom, NoAccessFrom;
    NoAccessFromMeans(node, param, guarded, at + |Piece(node.kind, |node.children|, 0)|, 0);
  }

  lemma {:induction false} NoAccessFromMeans(node: Node, param: string, guarded: bool, at: nat, i: nat)
    requires i <= |node.children|
    ensures AccessesFrom(node, param, guarded, at, i) == [] <==> NoAccessFrom(node, param, guarded, i)
    decreases node, |node.children| - i
  {
    hide Text, Piece, Accesses, NoAccess, GuardedAt;
    if i < |node.children| {
      var child := node.children[i];
      NoAccessMeans(child, param, GuardedAt(node, param, guarded, i), at);
      NoAccessFromMeans(node, param, guarded, at + |Text(child)| + |Piece(node.kind, |node.children|, i + 1)|, i + 1);
    }
  }

  // Rewriting neither makes nor breaks a guard, and makes no new name.
  lemma RewriteKeepsName(node: Node, param: string, guarded: bool, n: string)
    ensures Rewrite(node, param, guarded) == Name(n) <==> node == Name(n)
  {
    if !guarded && IsSite(node, param) {
    } else if node.children == [] {
      assert RewriteFrom(node, param, guarded, 0) == [];
    } else {
      assert |RewriteFrom(node, param, guarded, 0)| == |node.children|;
    }
  }

  lemma RewriteShape(node: Node, param: string, guarded: bool)
    requires !(!guarded && IsSite(node, param))
    ensures var after := Rewrite(node, param, guarded);
            && after.kind == node.kind && |after.children| == |node.children|
            && forall i :: 0 <= i < |node.children| ==>
                 after.children[i] == Rewrite(node.children[i], param, GuardedAt(node, param, guarded, i))
  {
    hide GuardedAt, IsSite;
    assert RewriteFrom(node, param, guarded, 0) == Rewrite(node, param, guarded).children;
  }

  lemma RewriteKeepsGuard(node: Node, param: string, guarded: bool, other: string)
    ensures IsGuard(Rewrite(node, param, guarded), other) <==> IsGuard(node, other)
  {
    hide Rewrite;
    if !guarded && IsSite(node, param) {
      assert !IsGuard(Replacement(param), other);
      SiteRewrites(node, param);
    } else {
      RewriteShape(node, param, guarded);
      var after := Rewrite(node, param, guarded);
      if |node.children| == 2 {
        RewriteKeepsName(node.children[0], param, GuardedAt(node, param, guarded, 0), other);
        RewriteKeepsName(node.children[1], param, GuardedAt(node, param, guarded, 1), ERROR);
        assert after.children == [after.children[0], after.children[1]];
        assert node.children == [node.children[0], node.children[1]];
      }
    }
  }

  lemma SiteRewrites(node: Node, param: string)
    requires IsSite(node, param)
    ensures Rewrite(node, param, false) == Replacement(param)
  {
  }

  lemma RewriteKeepsGuardedAt(node: Node, param: string, guarded: bool, other: string, outer: bool, i: nat)
    requires !(!guarded && IsSite(node, param))
    ensures GuardedAt(Rewrite(node, param, guarded), other, outer, i) == GuardedAt(node, other, outer, i)
  {
    hide Rewrite, IsGuard;
    RewriteShape(node, param, guarded);
    if node.children != [] {
      RewriteKeepsGuard(node.children[0], param, GuardedAt(node, param, guarded, 0), other);
    }
  }

  lemma RewriteKeepsAccess(node: Node, param: string, guarded: bool, other: string)
    requires !(!guarded && IsSite(node, param))
    ensures IsAccessOn(Rewrite(node, param, guarded), other) <==> IsAccessOn(node, other)
    ensures node.kind == Rewrite(node, param, guarded).kind
  {
    hide Rewrite;
    RewriteShape(node, param, guarded);
    var after := Rewrite(node, param, guarded);
    if node.children != [] {
      RewriteKeepsName(node.children[0], param, GuardedAt(node, param, guarded, 0), other);
      if |node.children| == 1 {
        assert node.children == [node.children[0]] && after.children == [after.children[0]];
      }
    }
  }

  lemma NamesAreNoAccess(n: string, param: string, guarded: bool)
    ensures NoAccess(Name(n), param, guarded)
  {
  }

  lemma ReplacementHasNoAccess(param: string)
    ensures NoAccess(Replacement(param), param, false)
  {
    var test := Node(InstanceOf, [Name(param), Name(ERROR)]);
    var read := Node(Member(MESSAGE), [Name(param)]);
    var otherwise := Node(Call, [Name(STRING), Name(param)]);
    var all := Replacement(param);
    NamesAreNoAccess(param, param, false);
    NamesAreNoAccess(ERROR, param, false);
    NamesAreNoAccess(STRING, param, false);
    NamesAreNoAccess(param, param, true);
    hide Name;
    assert NoAccessFrom(test, param, false, 1);
    assert NoAccess(test, param, false);
    assert NoAccessFrom(otherwise, param, false, 1);
    assert NoAccess(otherwise, param, false);
    assert NoAccessFrom(read, param, true, 1);
    assert NoAccess(read, param, true);
    assert IsGuard(all.children[0], param);
    assert NoAccessFrom(all, param, false, 2);
    assert NoAccessFrom(all, param, false, 1);
    assert NoAccessFrom(all, param, false, 0);
  }

  lemma {:induction false} NothingLeft(node: Node, param: string, guarded: bool)
    requires OnlySites(node, param, guarded)
    ensures NoAccess(Rewrite(node, param, guarded), param, guarded)
    decreases node, |node.children| + 1
  {
    hide Rewrite, IsAccessOn, IsSite, OnlySitesFrom, NoAccessFrom, Replacement;
    if !guarded && IsSite(node, param) {
      SiteRewrites(node, param);
      ReplacementHasNoAccess(param);
    } else {
      RewriteShape(node, param, guarded);
      RewriteKeepsAccess(node, param, guarded, param);
      NothingLeftFrom(node, param, guarded, 0);
    }
  }

  lemma {:induction false} NothingLeftFrom(node: Node, param: string, guarded: bool, i: nat)
    requires !(!guarded && IsSite(node, param)) && i <= |node.children|
    requires OnlySitesFrom(node, param, guarded, i)
    ensures |Rewrite(node, param, guarded).children| == |node.children|
    ensures NoAccessFrom(Rewrite(node, param, guarded), param, guarded, i)
    decreases node, |node.children| - i
  {
    hide Rewrite, IsSite, GuardedAt, OnlySites, NoAccess;
    RewriteShape(node, param, guarded);
    if i < |node.children| {
      RewriteKeepsGuardedAt(node, param, guarded, param, guarded, i);
      NothingLeft(node.children[i], param, GuardedAt(node, param, guarded, i));
      NothingLeftFrom(node, param, guarded, i + 1);
    }
  }

  /** Narrowing is done once and for all: a rewritten body has nothing eligible, and no access left. */
  lemma NarrowingIsIdempotent(body: Node, param: string, at: nat, later: nat)
    requires Classify(Named(param), body, at).Eligible?
    ensures Classify(Named(param), Rewrite(body, param, false), later).NoMemberAccess?
  {
    hide *;
    EligibleMeans(body, param, at);
    OnlySitesMeans(body, param, false, at);
    NothingLeft(body, param, false);
    NoAccessMeans(Rewrite(body, param, false), param, false, later);
    NoAccessClassified(Rewrite(body, param, false), param, later);
  }

  lemma EligibleMeans(body: Node, param: string, at: nat)
    ensures Classify(Named(param), body, at).Eligible?
       <==> Accesses(body, param, false, at) != [] && AllMessages(Accesses(body, param, false, at))
  {
    hide Accesses, AllMessages;
  }

  lemma NoAccessClassified(body: Node, param: string, at: nat)
    ensures Classify(Named(param), body, at).NoMemberAccess? <==> Accesses(body, param, false, at) == []
  {
    hide Accesses, AllMessages;
  }

  // ---- Other clauses ----

  lemma ReplacementIsNeutral(param: string, other: string, guarded: bool)
    requires param != other
    ensures NoAccess(Replacement(param), other, guarded) && OnlySites(Replacement(param), other, guarded)
  {
    var test := Node(InstanceOf, [Name(param), Name(ERROR)]);
    var read := Node(Member(MESSAGE), [Name(param)]);
    var otherwise := Node(Call, [Name(STRING), Name(param)]);
    var all := Replacement(param);
    assert Name(param) != Name(other);
    LeavesAreNeutral(param, other, guarded);
    LeavesAreNeutral(ERROR, other, guarded);
    LeavesAreNeutral(STRING, other, guarded);
    hide Name;
    forall n: Node | n == test || n == read || n == otherwise
      ensures NoAccess(n, other, guarded) && OnlySites(n, other, guarded)
    {
      assert !IsAccessOn(n, other);
      assert NoAccessFrom(n, other, guarded, |n.children|) && OnlySitesFrom(n, other, guarded, |n.children|);
      assert NoAccessFrom(n, other, guarded, |n.children| - 1) && OnlySitesFrom(n, other, guarded, |n.children| - 1);
      assert NoAccessFrom(n, other, guarded, 0) && OnlySitesFrom(n, other, guarded, 0);
    }
    assert !IsGuard(test, other);
    assert forall i: nat :: GuardedAt(all, other, guarded, i) == guarded;
    assert all.children[2] == otherwise && OnlySites(otherwise, other, guarded);
    assert all.children[1] == read && OnlySites(read, other, guarded);
    assert all.children[0] == test && OnlySites(test, other, guarded);
    assert NoAccessFrom(all, other, guarded, 3) && OnlySitesFrom(all, other, guarded, 3);
    assert NoAccessFrom(all, other, guarded, 2) && OnlySitesFrom(all, other, guarded, 2);
    assert NoAccessFrom(all, other, guarded, 1) && OnlySitesFrom(all, other, guarded, 1);
    assert NoAccessFrom(all, other, guarded, 0) && OnlySitesFrom(all, other, guarded, 0);
  }

  lemma LeavesAreNeutral(n: string, other: string, guarded: bool)
    ensures NoAccess(Name(n), other, guarded) && OnlySites(Name(n), other, guarded)
  {
  }

  lemma SiteIsNeutral(param: string, other: string, guarded: bool)
    requires param != other
    ensures NoAccess(Node(Member(MESSAGE), [Name(param)]), other, guarded)
    ensures OnlySites(Node(Member(MESSAGE), [Name(param)]), other, guarded)
  {
    var read := Node(Member(MESSAGE), [Name(param)]);
    assert Name(param) != Name(other);
    LeavesAreNeutral(param, other, guarded);
    hide Name;
    assert NoAccessFrom(read, other, guarded, 1) && OnlySitesFrom(read, other, guarded, 1);
  }

  lemma RewriteKeepsSite(node: Node, param: string, guarded: bool, other: string)
    requires !(!guarded && IsSite(node, param))
    ensures IsSite(Rewrite(node, param, guarded), other) <==> IsSite(node, other)
  {
    hide Rewrite;
    RewriteShape(node, param, guarded);
    var after := Rewrite(node, param, guarded);
    if |node.children| == 1 {
      RewriteKeepsName(node.children[0], param, GuardedAt(node, param, guarded, 0), other);
      assert node.children == [node.children[0]] && after.children == [after.children[0]];
    }
  }

  lemma {:induction false} OthersKept(node: Node, param: string, guarded: bool, other: string, outer: bool)
    requires param != other
    ensures NoAccess(Rewrite(node, param, guarded), other, outer) <==> NoAccess(node, other, outer)
    ensures OnlySites(Rewrite(node, param, guarded), other, outer) <==> OnlySites(node, other, outer)
    decreases node, |node.children| + 1
  {
    hide Rewrite, IsAccessOn, IsSite, OnlySitesFrom, NoAccessFrom, Replacement;
    if !guarded && IsSite(node, param) {
      SiteRewrites(node, param);
      ReplacementIsNeutral(param, other, outer);
      assert node == Node(Member(MESSAGE), [Name(param)]) by { SiteMeans(node, param); }
      SiteIsNeutral(param, other, outer);
    } else {
      RewriteShape(node, param, guarded);
      RewriteKeepsAccess(node, param, guarded, other);
      RewriteKeepsSite(node, param, guarded, other);
      OthersKeptFrom(node, param, guarded, other, outer, 0);
    }
  }

  lemma SiteMeans(node: Node, param: string)
    ensures IsSite(node, param) <==> node == Node(Member(MESSAGE), [Name(param)])
  {
  }

  lemma {:induction false} OthersKeptFrom(node: Node, param: string, guarded: bool, other: string, outer: bool, i: nat)
    requires param != other && !(!guarded && IsSite(node, param)) && i <= |node.children|
    ensures |Rewrite(node, param, guarded).children| == |node.children|
    ensures NoAccessFrom(Rewrite(node, param, guarded), other, outer, i) <==> NoAccessFrom(node, other, outer, i)
    ensures OnlySitesFrom(Rewrite(node, param, guarded), other, outer, i) <==> OnlySitesFrom(node, other, outer, i)
    decreases node, |node.children| - i
  {
    hide Rewrite, IsSite, GuardedAt, OnlySites, NoAccess;
    RewriteShape(node, param, guarded);
    if i < |node.children| {
      RewriteKeepsGuardedAt(node, param, guarded, other, outer, i);
      OthersKept(node.children[i], param, GuardedAt(node, param, guarded, i), other, GuardedAt(node, other, outer, i));
      OthersKeptFrom(node, param, guarded, other, outer, i + 1);
    }
  }

  /** Narrowing one clause changes the verdict on no clause with another name, inside it or around it. */
  lemma OtherClausesAreJudgedAsBefore(node: Node, param: string, other: string, at: nat, later: nat)
    requires param != other
    ensures var before := Classify(Named(other), node, at);
            var after := Classify(Named(other), Rewrite(node, param, false), later);
            && before.Eligible? == after.Eligible?
            && before.NoMemberAccess? == after.NoMemberAccess?
            && before.NonMessageProperty? == after.NonMessageProperty?
  {
    hide *;
    var after := Rewrite(node, param, false);
    OthersKept(node, param, false, other, false);
    OnlySitesMeans(node, other, false, at);
    OnlySitesMeans(after, other, false, later);
    NoAccessMeans(node, other, false, at);
    NoAccessMeans(after, other, false, later);
    EligibleMeans(node, other, at);
    EligibleMeans(after, other, later);
    NoAccessClassified(node, other, at);
    NoAccessClassified(after, other, later);
    ThreeVerdicts(node, other, at);
    ThreeVerdicts(after, other, later);
  }

  lemma ThreeVerdicts(node: Node, param: string, at: nat)
    ensures var c := Classify(Named(param), node, at);
            c.NonMessageProperty? <==> !c.Eligible? && !c.NoMemberAccess?
  {
    hide Accesses, AllMessages;
  }
}
