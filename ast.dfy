/**
 * The evaluable nodes (Invokables) of a compiled expression: constants,
 * variable slots, call nodes bound to an operation (the `Function` class) and
 * the negation nodes; with their evaluation and their text rendering.
 *
 * Nodes are immutable values: a call node's operation and arguments never
 * change after construction.
 */
module Ast {
  import opened Wrappers
  import opened Operators

  /** What a call node is bound to: a registry operation or a named library function. */
  datatype Callee = Builtin(op: Op) | Native(name: string)

  function CalleeName(c: Callee): string {
    match c
    case Builtin(op) => Name(op)
    case Native(name) => name
  }

  /**
   * `Negate` is the `NegateOperator` class (the runtime and the parser
   * package hold identical copies); `PrefixNegate` is the anonymous negation
   * built when a `~` prefix marker is resolved.
   */
  datatype Expr =
    | Constant(value: real)
    | Variable(slot: nat)
    | Call(callee: Callee, args: seq<Expr>)
    | Negate(arg: Expr)
    | PrefixNegate(arg: Expr)
  {
    /** The node's identifying character. */
    function Id(): char {
      match this
      case Constant(_) => 'c'
      case Variable(_) => 'v'
      case Call(_, _) => 'f'
      case Negate(_) => 'n'
      case PrefixNegate(_) => 'n'
    }
  }

  /** The library functions' behaviour; `None` is an exception thrown by one. */
  datatype Natives = Natives(fp: FloatOps, call: (string, seq<real>) -> Option<real>)

  datatype EvalError =
    | NativeFailed(name: string)      // a library function threw
    | ArgumentMismatch(name: string)  // reflective invocation with the wrong argument count

  /** Every variable node refers to one of the first `n` slots. */
  predicate SlotsBelow(e: Expr, n: nat)
    decreases e
  {
    match e
    case Constant(_) => true
    case Variable(i) => i < n
    case Call(_, args) => forall i :: 0 <= i < |args| ==> SlotsBelow(args[i], n)
    case Negate(a) => SlotsBelow(a, n)
    case PrefixNegate(a) => SlotsBelow(a, n)
  }

  /** What a parsed tree may refer to: the variable table's slots and the library functions. */
  datatype Scope = Scope(slots: set<nat>, functions: set<(string, nat)>)

  /**
   * The shape of every tree the parser builds: variable nodes refer to slots
   * of `scope`, each registry call has exactly the arity its operation was
   * looked up with, each library call is bound to a function of that name
   * and argument count, and there is no `NegateOperator` node (only the
   * anonymous prefix negation).
   */
  predicate Plain(e: Expr, scope: Scope)
    decreases e
  {
    match e
    case Constant(_) => true
    case Variable(i) => i in scope.slots
    case Call(c, args) =>
      (c.Builtin? ==> |args| == Arity(c.op)) &&
      (c.Native? ==> (c.name, |args|) in scope.functions) &&
      forall i :: 0 <= i < |args| ==> Plain(args[i], scope)
    case Negate(_) => false
    case PrefixNegate(a) => Plain(a, scope)
  }

  lemma {:induction false} PlainSlotsBelow(e: Expr, scope: Scope, n: nat)
    requires Plain(e, scope)
    requires forall s :: s in scope.slots ==> s < n
    ensures SlotsBelow(e, n)
    decreases e
  {
    match e
    case Constant(_) =>
    case Variable(_) =>
    case Call(_, args) =>
      forall i | 0 <= i < |args| ensures SlotsBelow(args[i], n) {
        PlainSlotsBelow(args[i], scope, n);
      }
    case Negate(_) =>
    case PrefixNegate(a) =>
      PlainSlotsBelow(a, scope, n);
  }

  // ---------------------------------------------------------------------
  // Evaluation (invoke)
  // ---------------------------------------------------------------------

  /**
   * The value of a node over the current slot values. A call evaluates its
   * operands left to right inside the operation, so `or` and `and` skip the
   * right operand when the left one decides; a library function receives the
   * values of all its arguments.
   */
  function Eval(e: Expr, slots: seq<real>, natives: Natives): Result<real, EvalError>
    requires SlotsBelow(e, |slots|)
    decreases e
  {
    match e
    case Constant(v) => Success(v)
    case Variable(i) => Success(slots[i])
    case Negate(a) =>
      var x :- Eval(a, slots, natives);
      Success(-x)
    case PrefixNegate(a) =>
      var x :- Eval(a, slots, natives);
      Success(-x)
    case Call(Builtin(op), args) =>
      if |args| != Arity(op) then Failure(ArgumentMismatch(Name(op)))
      else if Arity(op) == 1 then
        var x :- Eval(args[0], slots, natives);
        Success(Unary(op, x))
      else
        var x :- Eval(args[0], slots, natives);
        if Decided(op, x).Some? then Success(Decided(op, x).value)
        else
          var y :- Eval(args[1], slots, natives);
          Success(Binary(op, x, y, natives.fp))
    case Call(Native(name), args) =>
      var xs :- EvalArgs(args, slots, natives);
      match natives.call(name, xs)
      case None => Failure(NativeFailed(name))
      case Some(v) => Success(v)
  }

  /** The arguments' values in order; the first failing argument's error otherwise. */
  function EvalArgs(args: seq<Expr>, slots: seq<real>, natives: Natives): (r: Result<seq<real>, EvalError>)
    requires forall i :: 0 <= i < |args| ==> SlotsBelow(args[i], |slots|)
    ensures r.Success? ==> |r.value| == |args|
    ensures r.Success? ==> forall i :: 0 <= i < |args| ==> Eval(args[i], slots, natives) == Success(r.value[i])
    ensures r.Failure? ==>
      exists k :: 0 <= k < |args| && Eval(args[k], slots, natives) == Failure(r.error) &&
        forall j :: 0 <= j < k ==> Eval(args[j], slots, natives).Success?
    decreases args
  {
    if |args| == 0 then Success([])
    else
      var x :- Eval(args[0], slots, natives);
      var rest :- EvalArgs(args[1..], slots, natives);
      assert forall i :: 1 <= i < |args| ==> args[i] == args[1..][i - 1];
      Success([x] + rest)
  }

  /**
   * A call bound to a two-operand operation evaluates the left operand, then
   * (unless `or`/`and` is already decided) the right one, and combines them.
   */
  lemma BinaryCallOrder(op: Op, l: Expr, r: Expr, slots: seq<real>, natives: Natives)
    requires Arity(op) == 2 && SlotsBelow(l, |slots|) && SlotsBelow(r, |slots|)
    ensures
      var e := Call(Builtin(op), [l, r]);
      assert SlotsBelow(e, |slots|);
      Eval(e, slots, natives) ==
        match Eval(l, slots, natives)
        case Failure(err) => Failure(err)
        case Success(x) =>
          if Decided(op, x).Some? then Success(Decided(op, x).value)
          else match Eval(r, slots, natives)
            case Failure(err) => Failure(err)
            case Success(y) => Success(Binary(op, x, y, natives.fp))
  {
    var e := Call(Builtin(op), [l, r]);
    assert SlotsBelow(e, |slots|);
  }

  /**
   * `or` with a true left operand answers 1.0 and `and` with a false one
   * answers 0.0, whatever the right operand would do, even throw.
   */
  lemma ShortCircuit(l: Expr, r: Expr, slots: seq<real>, natives: Natives)
    requires SlotsBelow(l, |slots|) && SlotsBelow(r, |slots|)
    requires Eval(l, slots, natives).Success?
    ensures
      assert SlotsBelow(Call(Builtin(Or), [l, r]), |slots|);
      Truth(Eval(l, slots, natives).value) ==>
        Eval(Call(Builtin(Or), [l, r]), slots, natives) == Success(1.0)
    ensures
      assert SlotsBelow(Call(Builtin(And), [l, r]), |slots|);
      !Truth(Eval(l, slots, natives).value) ==>
        Eval(Call(Builtin(And), [l, r]), slots, natives) == Success(0.0)
  {
    BinaryCallOrder(Or, l, r, slots, natives);
    BinaryCallOrder(And, l, r, slots, natives);
  }

  /** A negation node's value is the negated value of its argument. */
  lemma NegateValue(a: Expr, slots: seq<real>, natives: Natives)
    requires SlotsBelow(a, |slots|)
    ensures Eval(Negate(a), slots, natives).Success? <==> Eval(a, slots, natives).Success?
    ensures Eval(a, slots, natives).Success? ==>
      Eval(Negate(a), slots, natives).value == -Eval(a, slots, natives).value
    ensures Eval(a, slots, natives).Failure? ==>
      Eval(Negate(a), slots, natives).error == Eval(a, slots, natives).error
  {
  }

  /**
   * Argument counts are fixed when a call node is built, so a tree of the
   * parser's shape never fails with an argument mismatch: the only run-time
   * failure is a library function's own.
   */
  lemma {:induction false} PlainNeverMismatches(e: Expr, scope: Scope, slots: seq<real>, natives: Natives)
    requires Plain(e, scope) && SlotsBelow(e, |slots|)
    ensures Eval(e, slots, natives).Failure? ==> Eval(e, slots, natives).error.NativeFailed?
    decreases e
  {
    match e
    case Constant(_) =>
    case Variable(_) =>
    case Call(Builtin(op), args) =>
      forall i | 0 <= i < |args| ensures Eval(args[i], slots, natives).Failure? ==> Eval(args[i], slots, natives).error.NativeFailed? {
        PlainNeverMismatches(args[i], scope, slots, natives);
      }
    case Call(Native(name), args) =>
      PlainArgsNeverMismatch(args, scope, slots, natives);
    case PrefixNegate(a) =>
      PlainNeverMismatches(a, scope, slots, natives);
  }

  lemma {:induction false} PlainArgsNeverMismatch(args: seq<Expr>, scope: Scope, slots: seq<real>, natives: Natives)
    requires forall i :: 0 <= i < |args| ==> Plain(args[i], scope) && SlotsBelow(args[i], |slots|)
    ensures EvalArgs(args, slots, natives).Failure? ==> EvalArgs(args, slots, natives).error.NativeFailed?
    decreases args
  {
    if |args| > 0 {
      PlainNeverMismatches(args[0], scope, slots, natives);
      assert forall i :: 1 <= i < |args| ==> args[i] == args[1..][i - 1];
      PlainArgsNeverMismatch(args[1..], scope, slots, natives);
    }
  }

  // ---------------------------------------------------------------------
  // Rendering (toString)
  // ---------------------------------------------------------------------

  /** How the unmodelled `Constant` and `Variable` classes render themselves. */
  datatype LeafText = LeafText(constant: real -> string, variable: nat -> string)

  /**
   * The debugging text of a node: a call renders as its operation's name and
   * its parenthesised, comma-separated arguments; a `NegateOperator` as
   * `-(arg)`; the anonymous prefix negation as `-arg`.
   */
  function Render(e: Expr, leaf: LeafText): string
    decreases e
  {
    match e
    case Constant(v) => leaf.constant(v)
    case Variable(i) => leaf.variable(i)
    case Call(c, args) => CalleeName(c) + "(" + Join(RenderArgs(args, leaf)) + ")"
    case Negate(a) => "-(" + Render(a, leaf) + ")"
    case PrefixNegate(a) => "-" + Render(a, leaf)
  }

  function RenderArgs(args: seq<Expr>, leaf: LeafText): (r: seq<string>)
    ensures |r| == |args|
    ensures forall i :: 0 <= i < |args| ==> r[i] == Render(args[i], leaf)
    decreases args
  {
    if |args| == 0 then []
    else
      assert forall i :: 1 <= i < |args| ==> args[i] == args[1..][i - 1];
      [Render(args[0], leaf)] + RenderArgs(args[1..], leaf)
  }

  /** The parts separated by ", ". */
  function Join(parts: seq<string>): string {
    if |parts| == 0 then ""
    else if |parts| == 1 then parts[0]
    else parts[0] + ", " + Join(parts[1..])
  }

  /** Appending a part adds a separator only when something precedes it. */
  lemma {:induction false} JoinSnoc(parts: seq<string>, last: string)
    ensures Join(parts + [last]) == if |parts| == 0 then last else Join(parts) + ", " + last
    decreases |parts|
  {
    if |parts| >= 2 {
      assert (parts + [last])[1..] == parts[1..] + [last];
      JoinSnoc(parts[1..], last);
    } else if |parts| == 1 {
      assert (parts + [last])[1..] == [last];
    }
  }

  /**
   * The rendering loop of a call node: the name and `(`, then each argument's
   * text, preceded by ", " unless it is the first, then `)`.
   */
  method CallText(name: string, parts: seq<string>) returns (text: string)
    ensures text == name + "(" + Join(parts) + ")"
    ensures |parts| == 0 ==> text == name + "()"
  {
    var ret := name + "(";
    var first := true;
    for i := 0 to |parts|
      invariant first <==> i == 0
      invariant ret == name + "(" + Join(parts[..i])
    {
      if !first {
        ret := ret + ", ";
      }
      first := false;
      ret := ret + parts[i];
      JoinSnoc(parts[..i], parts[i]);
      assert parts[..i + 1] == parts[..i] + [parts[i]];
    }
    assert parts[..|parts|] == parts;
    text := ret + ")";
  }

  /** The rendering of a call node is the text its rendering loop builds. */
  method RenderCall(c: Callee, args: seq<Expr>, leaf: LeafText) returns (text: string)
    ensures text == Render(Call(c, args), leaf)
  {
    var parts := RenderArgs(args, leaf);
    text := CallText(CalleeName(c), parts);
  }
}
