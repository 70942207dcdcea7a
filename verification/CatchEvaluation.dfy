/** Running a clause's body, and what narrowing changes about the run. */
module CatchEvaluation {
  import opened Prelude
  import opened CatchRewrite

  datatype Completion<V> = Normal(value: V) | Thrown(value: V) | OutOfFuel

  // Everything the language and the rest of the program decide: what a name outside the clause stands
  // for, what each operation does with its operands, and what is true.  W is the state of the world.
  datatype Engine<!V, !W> = Engine(
    lookup: (string, W) -> Completion<V>,
    op: (Kind, seq<V>, W) -> (Completion<V>, W),
    assign: (Kind, seq<V>, V, W) -> (Completion<V>, W),
    call: (V, Option<V>, seq<V>, W) -> (Completion<V>, W),
    truthy: V -> bool,
    nothing: V)

  // The operands that were evaluated, or why there are no more.
  datatype Operands<V> = Values(values: seq<V>) | Stopped(why: Completion<V>)

  // One node in a world where some names are bound to caught values.
  function Eval<V, W>(e: Engine, node: Node, caught: map<string, V>, fuel: nat, w: W): (Completion<V>, W)
    decreases fuel, node, |node.children| + 2
  {
    var n := |node.children|;
    match node.kind
    case Ident(name) => (if name in caught then Normal(caught[name]) else e.lookup(name, w), w)
    case Conditional => if n == 3 then EvalBranch(e, node, caught, fuel, w) else EvalStrict(e, node, caught, fuel, w)
    case If => if n == 2 || n == 3 then EvalBranch(e, node, caught, fuel, w) else EvalStrict(e, node, caught, fuel, w)
    case While =>
      if n == 2 then
        var (test, w1) := Eval(e, node.children[0], caught, fuel, w);
        if !test.Normal? then (test, w1)
        else if !e.truthy(test.value) then (Normal(e.nothing), w1)
        else
          var (body, w2) := Eval(e, node.children[1], caught, fuel, w1);
          if !body.Normal? then (body, w2)
          else if fuel == 0 then (OutOfFuel, w2)
          else Eval(e, node, caught, fuel - 1, w2)
      else EvalStrict(e, node, caught, fuel, w)
    case Try(name) =>
      if n == 2 then
        var (block, w1) := Eval(e, node.children[0], caught, fuel, w);
        if block.Thrown? then Eval(e, node.children[1], caught[name := block.value], fuel, w1) else (block, w1)
      else EvalStrict(e, node, caught, fuel, w)
    case Assign =>
      if n == 2 then
        var (target, w1) := EvalFrom(e, node.children[0], 0, caught, fuel, w);
        if target.Stopped? then (target.why, w1)
        else
          var (value, w2) := Eval(e, node.children[1], caught, fuel, w1);
          if !value.Normal? then (value, w2)
          else e.assign(node.children[0].kind, target.values, value.value, w2)
      else EvalStrict(e, node, caught, fuel, w)
    case Call =>
      if n > 0 then
        var (callee, self, w1) := EvalCallee(e, node.children[0], caught, fuel, w);
        if !callee.Normal? then (callee, w1)
        else
          var (args, w2) := EvalFrom(e, node, 1, caught, fuel, w1);
          if args.Stopped? then (args.why, w2) else e.call(callee.value, self, args.values, w2)
      else EvalStrict(e, node, caught, fuel, w)
    case _ => EvalStrict(e, node, caught, fuel, w)
  }

  // All children in order, then the operation.
  function EvalStrict<V, W>(e: Engine, node: Node, caught: map<string, V>, fuel: nat, w: W): (Completion<V>, W)
    decreases fuel, node, |node.children| + 1
  {
    var (operands, w1) := EvalFrom(e, node, 0, caught, fuel, w);
    if operands.Stopped? then (operands.why, w1) else e.op(node.kind, operands.values, w1)
  }

  function EvalFrom<V, W>(e: Engine, node: Node, i: nat, caught: map<string, V>, fuel: nat, w: W): (Operands<V>, W)
    requires i <= |node.children|
    decreases fuel, node, |node.children| - i
  {
    if i == |node.children| then (Values([]), w)
    else
      var (first, w1) := Eval(e, node.children[i], caught, fuel, w);
      if !first.Normal? then (Stopped(first), w1)
      else
        var (rest, w2) := EvalFrom(e, node, i + 1, caught, fuel, w1);
        if rest.Stopped? then (rest, w2) else (Values([first.value] + rest.values), w2)
  }

  function EvalBranch<V, W>(e: Engine, node: Node, caught: map<string, V>, fuel: nat, w: W): (Completion<V>, W)
    requires 2 <= |node.children| <= 3
    decreases fuel, node, |node.children| + 1
  {
    var (test, w1) := Eval(e, node.children[0], caught, fuel, w);
    if !test.Normal? then (test, w1)
    else if e.truthy(test.value) then Eval(e, node.children[1], caught, fuel, w1)
    else if |node.children| == 3 then Eval(e, node.children[2], caught, fuel, w1)
    else (Normal(e.nothing), w1)
  }

  // What is called, and the object it is called on when it is read off one.
  function EvalCallee<V, W>(e: Engine, node: Node, caught: map<string, V>, fuel: nat, w: W)
    : (Completion<V>, Option<V>, W)
    decreases fuel, node, |node.children| + 3
  {
    if (node.kind.Member? || node.kind.ComputedMember?) && node.children != [] then
      var (operands, w1) := EvalFrom(e, node, 0, caught, fuel, w);
      if operands.Stopped? then (operands.why, None, w1)
      else
        var (value, w2) := e.op(node.kind, operands.values, w1);
        (value, if operands.values == [] then None else Some(operands.values[0]), w2)
    else
      var (value, w1) := Eval(e, node, caught, fuel, w);
      (value, None, w1)
  }

  // ---- The conditions ----

  // The name is neither assigned nor caught again inside the node.
  predicate NotRebound(node: Node, name: string) {
    && node.kind != Try(name)
    && (node.kind.Assign? && node.children != [] ==> node.children[0] != Name(name))
    && forall i :: 0 <= i < |node.children| ==> NotRebound(node.children[i], name)
  }

  // No message of the caught value is assigned to or called: it is only read.
  predicate OnlyRead(node: Node, param: string) {
    && ((node.kind.Assign? || node.kind.Call?) && node.children != [] ==> !IsSite(node.children[0], param))
    && forall i :: 0 <= i < |node.children| ==> OnlyRead(node.children[i], param)
  }

  // `Error` means the same everywhere, and v is an instance of it.
  ghost predicate IsError<V(!new), W(!new)>(e: Engine<V, W>, v: V) {
    exists error: V, yes: V :: TestedBy(e, v, error, yes)
  }

  ghost predicate TestedBy<V(!new), W(!new)>(e: Engine<V, W>, v: V, error: V, yes: V) {
    && e.truthy(yes)
    && (forall w :: e.lookup(ERROR, w) == Normal(error))
    && (forall w :: e.op(InstanceOf, [v, error], w) == (Normal(yes), w))
  }

  /** What reading the caught value's message comes to. */
  function ReadMessage<V, W>(e: Engine, v: V, w: W): (Completion<V>, W) {
    e.op(Member(MESSAGE), [v], w)
  }

  /** What `String` makes of the value. */
  function Converted<V, W>(e: Engine, v: V, w: W): (Completion<V>, W) {
    var convert := e.lookup(STRING, w);
    if convert.Normal? then e.call(convert.value, None, [v], w) else (convert, w)
  }

  /** What the narrowed reading comes to: test, then message or `String`, each in the world the one before left. */
  function ReadNarrowed<V, W>(e: Engine, v: V, w: W): (Completion<V>, W) {
    var error := e.lookup(ERROR, w);
    if !error.Normal? then (error, w)
    else
      var (test, w1) := e.op(InstanceOf, [v, error.value], w);
      if !test.Normal? then (test, w1)
      else if e.truthy(test.value) then ReadMessage(e, v, w1)
      else Converted(e, v, w1)
  }

  // In every world the narrowed reading of v is the reading of its message.
  ghost predicate ReadsAlike<V(!new), W(!new)>(e: Engine<V, W>, v: V) {
    forall w :: ReadNarrowed(e, v, w) == ReadMessage(e, v, w)
  }

  // `Error` means the same everywhere, and v is in no world an instance of it.
  ghost predicate IsNoError<V(!new), W(!new)>(e: Engine<V, W>, v: V) {
    exists error: V, no: V ::
      && !e.truthy(no)
      && (forall w :: e.lookup(ERROR, w) == Normal(error))
      && (forall w :: e.op(InstanceOf, [v, error], w) == (Normal(no), w))
  }

  lemma ErrorsReadAlike<V(!new), W(!new)>(e: Engine<V, W>, v: V)
    requires IsError(e, v)
    ensures ReadsAlike(e, v)
  {
    hide ERROR, MESSAGE;
  }

  lemma OthersReadConverted<V(!new), W(!new)>(e: Engine<V, W>, v: V)
    requires IsNoError(e, v)
    ensures forall w :: ReadNarrowed(e, v, w) == Converted(e, v, w)
  {
    hide ERROR, MESSAGE, Converted;
  }

  // ---- Evaluation of single nodes ----

  lemma EvalName<V, W>(e: Engine, n: string, caught: map<string, V>, fuel: nat, w: W)
    ensures Eval(e, Name(n), caught, fuel, w) == (if n in caught then Normal(caught[n]) else e.lookup(n, w), w)
  {
  }

  lemma EvalOfMember<V, W>(e: Engine, property: string, n: string, caught: map<string, V>, fuel: nat, w: W)
    requires n in caught
    ensures Eval(e, Node(Member(property), [Name(n)]), caught, fuel, w) == e.op(Member(property), [caught[n]], w)
  {
    var node := Node(Member(property), [Name(n)]);
    EvalName(e, n, caught, fuel, w);
    assert EvalFrom(e, node, 1, caught, fuel, w) == (Values([]), w);
    assert [caught[n]] + [] == [caught[n]];
    assert EvalFrom(e, node, 0, caught, fuel, w) == (Values([caught[n]]), w);
    assert Eval(e, node, caught, fuel, w) == EvalStrict(e, node, caught, fuel, w);
  }

  lemma EvalOfGuard<V(!new), W(!new)>(e: Engine, n: string, caught: map<string, V>, fuel: nat, w: W)
    requires n in caught && ERROR !in caught
    ensures var error := e.lookup(ERROR, w);
            Eval(e, Node(InstanceOf, [Name(n), Name(ERROR)]), caught, fuel, w)
            == if error.Normal? then e.op(InstanceOf, [caught[n], error.value], w) else (error, w)
  {
    hide ERROR;
    var node := Node(InstanceOf, [Name(n), Name(ERROR)]);
    EvalName(e, n, caught, fuel, w);
    EvalName(e, ERROR, caught, fuel, w);
    var error := e.lookup(ERROR, w);
    assert EvalFrom(e, node, 2, caught, fuel, w) == (Values([]), w);
    if error.Normal? {
      assert [error.value] + [] == [error.value];
      assert EvalFrom(e, node, 1, caught, fuel, w) == (Values([error.value]), w);
      assert [caught[n]] + [error.value] == [caught[n], error.value];
      assert EvalFrom(e, node, 0, caught, fuel, w) == (Values([caught[n], error.value]), w);
    } else {
      assert EvalFrom(e, node, 1, caught, fuel, w) == (Stopped(error), w);
      assert EvalFrom(e, node, 0, caught, fuel, w) == (Stopped(error), w);
    }
    assert Eval(e, node, caught, fuel, w) == EvalStrict(e, node, caught, fuel, w);
  }

  lemma EvalOfConversion<V(!new), W(!new)>(e: Engine, n: string, caught: map<string, V>, fuel: nat, w: W)
    requires n in caught && STRING !in caught
    ensures Eval(e, Node(Call, [Name(STRING), Name(n)]), caught, fuel, w) == Converted(e, caught[n], w)
  {
    hide STRING;
    var node := Node(Call, [Name(STRING), Name(n)]);
    EvalName(e, n, caught, fuel, w);
    EvalName(e, STRING, caught, fuel, w);
    assert EvalCallee(e, Name(STRING), caught, fuel, w) == (e.lookup(STRING, w), None, w);
    assert EvalFrom(e, node, 2, caught, fuel, w) == (Values([]), w);
    assert [caught[n]] + [] == [caught[n]];
    assert EvalFrom(e, node, 1, caught, fuel, w) == (Values([caught[n]]), w);
  }

  /** The replacement reads narrowed, provided neither of the two names it brings in is shadowed. */
  lemma EvalOfReplacement<V(!new), W(!new)>(e: Engine, param: string, caught: map<string, V>, fuel: nat, w: W)
    requires param in caught && ERROR !in caught && STRING !in caught
    ensures Eval(e, Replacement(param), caught, fuel, w) == ReadNarrowed(e, caught[param], w)
  {
    EvalOfGuard(e, param, caught, fuel, w);
    var (_, w1) := Eval(e, Node(InstanceOf, [Name(param), Name(ERROR)]), caught, fuel, w);
    EvalOfMember(e, MESSAGE, param, caught, fuel, w1);
    EvalOfConversion(e, param, caught, fuel, w1);
    EvalOfBranch(e, param, caught, fuel, w);
    hide Eval, Name, ERROR, MESSAGE, STRING, Converted;
  }

  lemma EvalOfBranch<V(!new), W(!new)>(e: Engine, param: string, caught: map<string, V>, fuel: nat, w: W)
    ensures var (test, w1) := Eval(e, Node(InstanceOf, [Name(param), Name(ERROR)]), caught, fuel, w);
            Eval(e, Replacement(param), caught, fuel, w)
            == if !test.Normal? then (test, w1)
               else if e.truthy(test.value) then Eval(e, Node(Member(MESSAGE), [Name(param)]), caught, fuel, w1)
               else Eval(e, Node(Call, [Name(STRING), Name(param)]), caught, fuel, w1)
  {
    hide Name, ERROR, MESSAGE, STRING;
  }

  /** For an Error the replacement does not get to `String`, whatever that stands for. */
  lemma ErrorReadsMessage<V(!new), W(!new)>(e: Engine, param: string, caught: map<string, V>, fuel: nat, w: W)
    requires param in caught && ERROR !in caught && IsError(e, caught[param])
    ensures Eval(e, Replacement(param), caught, fuel, w) == ReadMessage(e, caught[param], w)
  {
    EvalOfGuard(e, param, caught, fuel, w);
    EvalOfMember(e, MESSAGE, param, caught, fuel, w);
    EvalOfBranch(e, param, caught, fuel, w);
    hide Eval, Name, ERROR, MESSAGE;
  }
}
