/** A run in which the caught value is an Error is the same run before and after narrowing. */
module CatchTheorems {
  import opened Prelude
  import opened CatchRewrite
  import opened CatchMeaning
  import opened CatchEvaluation

  // What the theorem asks of a node and of the values around it.
  ghost predicate Fits<V(!new), W(!new)>(e: Engine<V, W>, node: Node, param: string, caught: map<string, V>) {
    && NotRebound(node, param) && NotRebound(node, ERROR) && OnlyRead(node, param)
    && param in caught && ERROR !in caught
    && (IsError(e, caught[param]) || (STRING !in caught && NotRebound(node, STRING) && ReadsAlike(e, caught[param])))
  }

  lemma FitsChild<V(!new), W(!new)>(e: Engine<V, W>, node: Node, param: string, caught: map<string, V>, i: nat)
    requires Fits(e, node, param, caught) && i < |node.children|
    ensures Fits(e, node.children[i], param, caught)
  {
    hide IsError, ReadsAlike, ERROR, STRING;
  }

  lemma FitsCaught<V(!new), W(!new)>(e: Engine<V, W>, node: Node, param: string, caught: map<string, V>, thrown: V)
    requires Fits(e, node, param, caught) && node.kind.Try? && |node.children| == 2
    ensures Fits(e, node.children[1], param, caught[node.kind.caught := thrown])
  {
    hide IsError, ReadsAlike, ERROR, STRING;
    var name := node.kind.caught;
    assert node.kind == Try(name);
    assert name != param && name != ERROR && (NotRebound(node, STRING) ==> name != STRING);
  }

  // The node's counterpart has the same kind, and its children are the rewritten children.
  predicate Mirrors(after: Node, node: Node, param: string, guarded: bool) {
    && after.kind == node.kind && |after.children| == |node.children|
    && forall i :: 0 <= i < |node.children| ==>
         after.children[i] == Rewrite(node.children[i], param, GuardedAt(node, param, guarded, i))
  }

  lemma RewriteMirrors(node: Node, param: string, guarded: bool)
    requires !(!guarded && IsSite(node, param))
    ensures Mirrors(Rewrite(node, param, guarded), node, param, guarded)
  {
    RewriteShape(node, param, guarded);
  }

  lemma MirrorsChild(after: Node, node: Node, param: string, guarded: bool, i: nat)
    requires Mirrors(after, node, param, guarded) && i < |node.children|
    ensures after.kind == node.kind && |after.children| == |node.children|
    ensures after.children[i] == Rewrite(node.children[i], param, GuardedAt(node, param, guarded, i))
  {
  }

  /** Every node evaluates as its rewritten counterpart does: same value or throw, same world, same fuel. */
  lemma {:induction false} SameRun<V(!new), W(!new)>(e: Engine<V, W>, node: Node, param: string, guarded: bool,
                                                     caught: map<string, V>, fuel: nat, w: W)
    requires Fits(e, node, param, caught)
    ensures Eval(e, Rewrite(node, param, guarded), caught, fuel, w) == Eval(e, node, caught, fuel, w)
    decreases fuel, node, |node.children| + 4
  {
    if !guarded && IsSite(node, param) {
      SiteReads(e, param, caught, fuel, w);
    } else {
      RewriteMirrors(node, param, guarded);
      SameNode(e, Rewrite(node, param, guarded), node, param, guarded, caught, fuel, w);
    }
  }

  lemma SiteReads<V(!new), W(!new)>(e: Engine<V, W>, param: string, caught: map<string, V>, fuel: nat, w: W)
    requires param in caught && ERROR !in caught
    requires IsError(e, caught[param]) || (STRING !in caught && ReadsAlike(e, caught[param]))
    ensures Eval(e, Replacement(param), caught, fuel, w)
         == Eval(e, Node(Member(MESSAGE), [Name(param)]), caught, fuel, w)
  {
    EvalOfMember(e, MESSAGE, param, caught, fuel, w);
    hide ERROR, MESSAGE, STRING, Eval, ReadNarrowed, IsError, Replacement, Name;
    if IsError(e, caught[param]) {
      ErrorReadsMessage(e, param, caught, fuel, w);
    } else {
      EvalOfReplacement(e, param, caught, fuel, w);
    }
  }

  lemma {:induction false} SameNode<V(!new), W(!new)>(e: Engine<V, W>, after: Node, node: Node, param: string,
                                                      guarded: bool, caught: map<string, V>, fuel: nat, w: W)
    requires Fits(e, node, param, caught) && Mirrors(after, node, param, guarded)
    ensures Eval(e, after, caught, fuel, w) == Eval(e, node, caught, fuel, w)
    decreases fuel, node, |node.children| + 3
  {
    hide Fits, Rewrite, GuardedAt, EvalFrom, EvalBranch, EvalCallee;
    var n := |node.children|;
    SameFrom(e, after, node, param, guarded, 0, caught, fuel, w);
    match node.kind {
      case Conditional => if n == 3 { SameBranch(e, after, node, param, guarded, caught, fuel, w); }
      case If => if n == 2 || n == 3 { SameBranch(e, after, node, param, guarded, caught, fuel, w); }
      case While => if n == 2 { SameWhile(e, after, node, param, guarded, caught, fuel, w); }
      case Try(_) => if n == 2 { SameTry(e, after, node, param, guarded, caught, fuel, w); }
      case Assign => if n == 2 { SameAssign(e, after, node, param, guarded, caught, fuel, w); }
      case Call => if n > 0 { SameCall(e, after, node, param, guarded, caught, fuel, w); }
      case _ =>
    }
  }

  lemma {:induction false} SameFrom<V(!new), W(!new)>(e: Engine<V, W>, after: Node, node: Node, param: string,
                                                      guarded: bool, i: nat, caught: map<string, V>, fuel: nat, w: W)
    requires Fits(e, node, param, caught) && Mirrors(after, node, param, guarded) && i <= |node.children|
    ensures EvalFrom(e, after, i, caught, fuel, w) == EvalFrom(e, node, i, caught, fuel, w)
    decreases fuel, node, |node.children| - i
  {
    hide Fits, Rewrite, GuardedAt, Eval;
    if i < |node.children| {
      FitsChild(e, node, param, caught, i);
      SameRun(e, node.children[i], param, GuardedAt(node, param, guarded, i), caught, fuel, w);
      var (first, w1) := Eval(e, node.children[i], caught, fuel, w);
      SameFrom(e, after, node, param, guarded, i + 1, caught, fuel, w1);
    }
  }

  lemma {:induction false} SameBranch<V(!new), W(!new)>(e: Engine<V, W>, after: Node, node: Node, param: string,
                                                        guarded: bool, caught: map<string, V>, fuel: nat, w: W)
    requires Fits(e, node, param, caught) && Mirrors(after, node, param, guarded) && 2 <= |node.children| <= 3
    ensures EvalBranch(e, after, caught, fuel, w) == EvalBranch(e, node, caught, fuel, w)
    decreases fuel, node, 0
  {
    hide Fits, Rewrite, GuardedAt, Eval;
    FitsChild(e, node, param, caught, 0);
    FitsChild(e, node, param, caught, 1);
    SameRun(e, node.children[0], param, GuardedAt(node, param, guarded, 0), caught, fuel, w);
    var (test, w1) := Eval(e, node.children[0], caught, fuel, w);
    SameRun(e, node.children[1], param, GuardedAt(node, param, guarded, 1), caught, fuel, w1);
    if |node.children| == 3 {
      FitsChild(e, node, param, caught, 2);
      SameRun(e, node.children[2], param, GuardedAt(node, param, guarded, 2), caught, fuel, w1);
    }
  }

  lemma {:induction false} SameWhile<V(!new), W(!new)>(e: Engine<V, W>, after: Node, node: Node, param: string,
                                                       guarded: bool, caught: map<string, V>, fuel: nat, w: W)
    requires Fits(e, node, param, caught) && Mirrors(after, node, param, guarded)
    requires node.kind.While? && |node.children| == 2
    ensures Eval(e, after, caught, fuel, w) == Eval(e, node, caught, fuel, w)
    decreases fuel, node, 0
  {
    hide Fits, Rewrite, GuardedAt, EvalFrom;
    FitsChild(e, node, param, caught, 0);
    FitsChild(e, node, param, caught, 1);
    MirrorsChild(after, node, param, guarded, 0);
    MirrorsChild(after, node, param, guarded, 1);
    SameRun(e, node.children[0], param, GuardedAt(node, param, guarded, 0), caught, fuel, w);
    var (test, w1) := Eval(e, node.children[0], caught, fuel, w);
    SameRun(e, node.children[1], param, GuardedAt(node, param, guarded, 1), caught, fuel, w1);
    var (body, w2) := Eval(e, node.children[1], caught, fuel, w1);
    if fuel > 0 {
      SameNode(e, after, node, param, guarded, caught, fuel - 1, w2);
    }
  }

  lemma {:induction false} SameTry<V(!new), W(!new)>(e: Engine<V, W>, after: Node, node: Node, param: string,
                                                     guarded: bool, caught: map<string, V>, fuel: nat, w: W)
    requires Fits(e, node, param, caught) && Mirrors(after, node, param, guarded)
    requires node.kind.Try? && |node.children| == 2
    ensures Eval(e, after, caught, fuel, w) == Eval(e, node, caught, fuel, w)
    decreases fuel, node, 0
  {
    hide Fits, Rewrite, GuardedAt, EvalFrom;
    FitsChild(e, node, param, caught, 0);
    MirrorsChild(after, node, param, guarded, 0);
    MirrorsChild(after, node, param, guarded, 1);
    SameRun(e, node.children[0], param, GuardedAt(node, param, guarded, 0), caught, fuel, w);
    var (block, w1) := Eval(e, node.children[0], caught, fuel, w);
    if block.Thrown? {
      FitsCaught(e, node, param, caught, block.value);
      var bound := caught[node.kind.caught := block.value];
      SameRun(e, node.children[1], param, GuardedAt(node, param, guarded, 1), bound, fuel, w1);
    }
  }

  // A target or callee that is not a site keeps its shape.
  lemma KeepsShape(node: Node, param: string, guarded: bool)
    requires OnlyRead(node, param) && (node.kind.Assign? || node.kind.Call?) && node.children != []
    ensures var child, g := node.children[0], GuardedAt(node, param, guarded, 0);
            Mirrors(Rewrite(child, param, g), child, param, g)
  {
    hide Rewrite, GuardedAt;
    RewriteMirrors(node.children[0], param, GuardedAt(node, param, guarded, 0));
  }

  lemma FitsReadsOnly<V(!new), W(!new)>(e: Engine<V, W>, node: Node, param: string, caught: map<string, V>)
    requires Fits(e, node, param, caught)
    ensures OnlyRead(node, param)
  {
  }

  lemma {:induction false} SameAssign<V(!new), W(!new)>(e: Engine<V, W>, after: Node, node: Node, param: string,
                                                        guarded: bool, caught: map<string, V>, fuel: nat, w: W)
    requires Fits(e, node, param, caught) && Mirrors(after, node, param, guarded)
    requires node.kind.Assign? && |node.children| == 2
    ensures Eval(e, after, caught, fuel, w) == Eval(e, node, caught, fuel, w)
    decreases fuel, node, 0
  {
    hide Fits, Rewrite, GuardedAt, EvalFrom, OnlyRead;
    FitsChild(e, node, param, caught, 0);
    FitsChild(e, node, param, caught, 1);
    FitsReadsOnly(e, node, param, caught);
    KeepsShape(node, param, guarded);
    MirrorsChild(after, node, param, guarded, 0);
    MirrorsChild(after, node, param, guarded, 1);
    var g := GuardedAt(node, param, guarded, 0);
    SameFrom(e, after.children[0], node.children[0], param, g, 0, caught, fuel, w);
    var (target, w1) := EvalFrom(e, node.children[0], 0, caught, fuel, w);
    SameRun(e, node.children[1], param, GuardedAt(node, param, guarded, 1), caught, fuel, w1);
  }

  lemma {:induction false} SameCall<V(!new), W(!new)>(e: Engine<V, W>, after: Node, node: Node, param: string,
                                                      guarded: bool, caught: map<string, V>, fuel: nat, w: W)
    requires Fits(e, node, param, caught) && Mirrors(after, node, param, guarded)
    requires node.kind.Call? && node.children != []
    ensures Eval(e, after, caught, fuel, w) == Eval(e, node, caught, fuel, w)
    decreases fuel, node, |node.children| + 2
  {
    hide Fits, Rewrite, GuardedAt, EvalFrom, EvalCallee, OnlyRead;
    FitsChild(e, node, param, caught, 0);
    FitsReadsOnly(e, node, param, caught);
    KeepsShape(node, param, guarded);
    MirrorsChild(after, node, param, guarded, 0);
    SameCallee(e, after.children[0], node.children[0], param, GuardedAt(node, param, guarded, 0), caught, fuel, w);
    var (callee, self, w1) := EvalCallee(e, node.children[0], caught, fuel, w);
    SameFrom(e, after, node, param, guarded, 1, caught, fuel, w1);
  }

  lemma {:induction false} SameCallee<V(!new), W(!new)>(e: Engine<V, W>, after: Node, node: Node, param: string,
                                                        guarded: bool, caught: map<string, V>, fuel: nat, w: W)
    requires Fits(e, node, param, caught) && Mirrors(after, node, param, guarded)
    ensures EvalCallee(e, after, caught, fuel, w) == EvalCallee(e, node, caught, fuel, w)
    decreases fuel, node, |node.children| + 5
  {
    hide Fits, Rewrite, GuardedAt, EvalFrom, Eval;
    SameFrom(e, after, node, param, guarded, 0, caught, fuel, w);
    SameNode(e, after, node, param, guarded, caught, fuel, w);
  }

  /** The body reads the caught value's message and binds none of the three names; so does nothing around it. */
  predicate Conforms<V>(body: Node, param: string, caught: map<string, V>) {
    && NotRebound(body, param) && NotRebound(body, ERROR) && NotRebound(body, STRING) && OnlyRead(body, param)
    && ERROR !in caught && STRING !in caught
  }

  lemma ConformingFits<V(!new), W(!new)>(e: Engine<V, W>, body: Node, param: string, thrown: V, caught: map<string, V>)
    requires Conforms(body, param, caught) && param != ERROR && param != STRING && ReadsAlike(e, thrown)
    ensures Fits(e, body, param, caught[param := thrown])
  {
    hide NotRebound, OnlyRead, IsError, ReadsAlike, ERROR, STRING;
  }

  /** Narrowing keeps the run of every conforming body that catches v: same completion, same world, same fuel. */
  ghost predicate KeepsRuns<V(!new), W(!new)>(e: Engine<V, W>, param: string, v: V) {
    forall body: Node, caught: map<string, V>, fuel: nat, w: W ::
      Conforms(body, param, caught) ==> RunsAlike(e, body, param, v, caught, fuel, w)
  }

  ghost predicate RunsAlike<V(!new), W(!new)>(e: Engine<V, W>, body: Node, param: string, v: V, caught: map<string, V>,
                                              fuel: nat, w: W) {
    Eval(e, Rewrite(body, param, false), caught[param := v], fuel, w) == Eval(e, body, caught[param := v], fuel, w)
  }

  /**
   * For every engine and thrown value: narrowing keeps the runs of all conforming bodies exactly when in every
   * world the narrowed reading of the value is the reading of its message.
   */
  lemma NarrowingKeepsRunsExactlyWhen<V(!new), W(!new)>(e: Engine<V, W>, param: string, v: V)
    requires param != ERROR && param != STRING
    ensures KeepsRuns(e, param, v) <==> ReadsAlike(e, v)
  {
    hide Eval, Rewrite, NotRebound, OnlyRead, IsError, Fits, ReadNarrowed, ReadMessage, ERROR, STRING, MESSAGE;
    if ReadsAlike(e, v) {
      forall body: Node, caught: map<string, V>, fuel: nat, w: W
        ensures Conforms(body, param, caught) ==> RunsAlike(e, body, param, v, caught, fuel, w)
      {
        if Conforms(body, param, caught) {
          ConformingFits(e, body, param, v, caught);
          SameRun(e, body, param, false, caught[param := v], fuel, w);
        }
      }
    }
    if KeepsRuns(e, param, v) {
      forall w: W
        ensures ReadNarrowed(e, v, w) == ReadMessage(e, v, w)
      {
        SiteWitness(e, param, v, w);
        var none: map<string, V> := map[];
        assert RunsAlike(e, Node(Member(MESSAGE), [Name(param)]), param, v, none, 0, w);
      }
    }
  }

  /** The message access on its own is a conforming body, and its two runs are the two readings. */
  lemma SiteWitness<V(!new), W(!new)>(e: Engine<V, W>, param: string, v: V, w: W)
    requires param != ERROR && param != STRING
    ensures var site, none := Node(Member(MESSAGE), [Name(param)]), map[];
            && Conforms<V>(site, param, none)
            && Eval(e, Rewrite(site, param, false), none[param := v], 0, w) == ReadNarrowed(e, v, w)
            && Eval(e, site, none[param := v], 0, w) == ReadMessage(e, v, w)
  {
    var caught: map<string, V> := map[][param := v];
    EvalOfMember(e, MESSAGE, param, caught, 0, w);
    EvalOfReplacement(e, param, caught, 0, w);
    SiteConforms(param, ERROR);
    SiteConforms(param, STRING);
    SiteConforms(param, param);
    hide Eval, ReadNarrowed, MESSAGE, ERROR, STRING, NotRebound, OnlyRead;
  }

  lemma SiteConforms(param: string, name: string)
    ensures var site := Node(Member(MESSAGE), [Name(param)]);
            NotRebound(site, name) && OnlyRead(site, param)
  {
    assert NotRebound(Name(param), name) && OnlyRead(Name(param), param);
    hide Name, MESSAGE;
  }

  /**
   * For every engine, world and bound on the loops: if the caught value is an Error, its name is not
   * bound again, `Error` is the language's own and messages are only read, then the clause's body and
   * the narrowed body evaluate to the same completion in the same world, whatever `String` stands for.
   */
  lemma NarrowingKeepsRunsWithErrors<V(!new), W(!new)>(e: Engine<V, W>, body: Node, param: string, thrown: V,
                                                       caught: map<string, V>, fuel: nat, w: W)
    requires NotRebound(body, param) && NotRebound(body, ERROR) && OnlyRead(body, param)
    requires param != ERROR && ERROR !in caught && IsError(e, thrown)
    ensures Eval(e, Rewrite(body, param, false), caught[param := thrown], fuel, w)
         == Eval(e, body, caught[param := thrown], fuel, w)
  {
    hide Eval, Rewrite, NotRebound, OnlyRead, IsError, ReadsAlike, ERROR, STRING;
    SameRun(e, body, param, false, caught[param := thrown], fuel, w);
  }

  // ---- Other caught values ----

  /** A value that is no Error keeps all its runs exactly when `String` makes of it what its message reads as. */
  lemma OtherValuesKeptExactlyWhen<V(!new), W(!new)>(e: Engine<V, W>, param: string, v: V)
    requires param != ERROR && param != STRING && IsNoError(e, v)
    ensures KeepsRuns(e, param, v) <==> forall w :: Converted(e, v, w) == ReadMessage(e, v, w)
  {
    hide KeepsRuns, Converted, ReadMessage, ReadNarrowed, IsNoError, ERROR, STRING;
    OthersReadConverted(e, v);
    NarrowingKeepsRunsExactlyWhen(e, param, v);
    if ReadsAlike(e, v) {
      forall w
        ensures Converted(e, v, w) == ReadMessage(e, v, w)
      {
        assert ReadNarrowed(e, v, w) == ReadMessage(e, v, w);
      }
    }
  }

  // A world in which nothing is an Error, no value has a message, and String gives the value back.
  const PLAIN: Engine<int, int> := Engine(
    (name, w) => Normal(0),
    (kind, values, w) => (Normal(0), w),
    (kind, values, value, w) => (Normal(value), w),
    (callee, self, args, w) => (Normal(if args == [] then 0 else args[0]), w),
    value => value != 0,
    0)

  /** A thrown value that is no Error can change its reading: 7 has no message, but String(7) is 7. */
  lemma NarrowingChangesOtherValues()
    ensures ReadMessage(PLAIN, 7, 0) == (Normal(0), 0) && ReadNarrowed(PLAIN, 7, 0) == (Normal(7), 0)
    ensures !KeepsRuns(PLAIN, "e", 7)
  {
    hide KeepsRuns;
    assert ERROR[0] != "e"[0] && STRING[0] != "e"[0];
    assert ReadNarrowed(PLAIN, 7, 0) != ReadMessage(PLAIN, 7, 0);
    NarrowingKeepsRunsExactlyWhen(PLAIN, "e", 7);
  }
}
