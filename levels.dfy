/**
 * Operator precedence resolution over a half-processed list: the flat list
 * of finished nodes and leftover tokens that the parser collects for one
 * bracket or argument scope.
 *
 * Each of the three operator levels (`+ -`, then `* / %`, then `^`) splits
 * the list at its rightmost operator of that level, resolves the right part
 * at the next tighter level and the left part again at the same level; the
 * primary level accepts a single node, possibly preceded by `~` negation
 * markers.
 */
module Levels {
  import opened Wrappers
  import opened Tokens
  import opened Operators
  import opened Ast

  /** The parser's errors, each at the offset of the token that caused it (-1: no token). */
  datatype ParseError =
    | ExtraTokensAtEnd(pos: int)
    | ExpressionMissing(pos: int)
    | ExtraToken(pos: int)
    | ExtraExpression(pos: int)
    | VariableNotFound(pos: int)
    | UnmatchedOpeningBracket(pos: int)
    | FunctionNotFound(pos: int)
    | UnknownOperator(pos: int)
    | UnexpectedCharacter(pos: int)
    | InvalidCast   // an unchecked cast of a list element that is not a node

  /**
   * Which operation name the power level's table gives `^`: the name as
   * written in the parser, or the name of the registry operation it evidently
   * means.
   */
  datatype Grammar = AsWritten | Corrected

  /** An element of a half-processed list: a finished node, a token, or a prefix marker. */
  datatype Item = Node(e: Expr) | Tok(t: Token) | Prefix(c: char)
  {
    function Id(): char {
      match this
      case Node(e) => e.Id()
      case Tok(t) => t.Id()
      case Prefix(c) => c
    }
  }

  datatype Level = Additive | Multiplicative | Power | Primary

  function Rank(level: Level): nat {
    match level
    case Additive => 3
    case Multiplicative => 2
    case Power => 1
    case Primary => 0
  }

  /** The next tighter level. */
  function Next(level: Level): (r: Level)
    requires level != Primary
    ensures Rank(r) == Rank(level) - 1
  {
    match level
    case Additive => Multiplicative
    case Multiplicative => Power
    case Power => Primary
  }

  /** The characters a level's operator table holds. */
  predicate InLevel(level: Level, c: char) {
    match level
    case Additive => c == '+' || c == '-'
    case Multiplicative => c == '*' || c == '/' || c == '%'
    case Power => c == '^'
    case Primary => false
  }

  /** The operation name a level's table gives an operator character. */
  function OperatorName(level: Level, c: char, grammar: Grammar): string
    requires InLevel(level, c)
  {
    match level
    case Additive => if c == '+' then "add" else "sub"
    case Multiplicative => if c == '*' then "mul" else if c == '/' then "div" else "mod"
    case Power => if grammar == AsWritten then "exp" else "pow"
  }

  /** The two-operand registry operation an operator character resolves to, if the registry has one. */
  function LevelOp(level: Level, c: char, grammar: Grammar): Option<Op>
    requires InLevel(level, c)
  {
    GetOperator(OperatorName(level, c, grammar), 2)
  }

  /** As written `^` names `exp`, which the registry lacks; corrected it names the registry's `pow`. */
  lemma CaretOperation()
    ensures LevelOp(Power, '^', AsWritten).None?
    ensures LevelOp(Power, '^', Corrected) == Some(Pow)
  {
    assert OperatorName(Power, '^', AsWritten) == "exp";
    assert OperatorName(Power, '^', Corrected) == "pow";
  }

  // ---------------------------------------------------------------------
  // Splitting (process)
  // ---------------------------------------------------------------------

  /** The greatest index below `end` holding an operator of the level. */
  function RightmostOperator(input: seq<Item>, level: Level, end: nat): (r: Option<nat>)
    requires end <= |input|
    ensures r.Some? ==> r.value < end && InLevel(level, input[r.value].Id())
    ensures r.Some? ==> forall j :: r.value < j < end ==> !InLevel(level, input[j].Id())
    ensures r.None? ==> forall j :: 0 <= j < end ==> !InLevel(level, input[j].Id())
  {
    if end == 0 then None
    else if InLevel(level, input[end - 1].Id()) then Some(end - 1)
    else RightmostOperator(input, level, end - 1)
  }

  datatype Parts = Parts(lhs: seq<Item>, op: Option<Item>, rhs: seq<Item>)

  /**
   * The split of a list at its rightmost operator of the level; the last
   * element is never taken as the operator.
   */
  function Split(input: seq<Item>, level: Level): (p: Parts)
    ensures p.op.Some? ==> |p.lhs| + |p.rhs| < |input|
    ensures p.op.None? ==> p.lhs == [] && p.rhs == input
  {
    if |input| == 0 then Parts([], None, [])
    else match RightmostOperator(input, level, |input| - 1)
      case None => Parts([], None, input)
      case Some(k) => Parts(input[..k], Some(input[k]), input[k + 1..])
  }

  /**
   * What `process` guarantees: with an operator of the level, the list is the
   * left part, the operator and a non-empty right part free of the level's
   * operators but for its last element; without one, the whole list is the
   * right part and holds no operator of the level but maybe its last element.
   */
  lemma SplitParts(input: seq<Item>, level: Level)
    ensures var p := Split(input, level);
      p.op.Some? ==>
        input == p.lhs + [p.op.value] + p.rhs && |p.rhs| >= 1 &&
        InLevel(level, p.op.value.Id()) &&
        forall j :: 0 <= j < |p.rhs| - 1 ==> !InLevel(level, p.rhs[j].Id())
    ensures var p := Split(input, level);
      p.op.None? ==> forall j :: 0 <= j < |input| - 1 ==> !InLevel(level, input[j].Id())
  {
    if |input| > 0 {
      match RightmostOperator(input, level, |input| - 1)
      case None =>
      case Some(k) =>
        assert input == input[..k] + [input[k]] + input[k + 1..];
    }
  }

  /** Conversely, an operator with none of its level after it (but the last element) is where the list splits. */
  lemma SplitAtRightmost(lhs: seq<Item>, op: Item, rhs: seq<Item>, level: Level)
    requires InLevel(level, op.Id()) && |rhs| >= 1
    requires forall j :: 0 <= j < |rhs| - 1 ==> !InLevel(level, rhs[j].Id())
    ensures Split(lhs + [op] + rhs, level) == Parts(lhs, Some(op), rhs)
  {
    var input := lhs + [op] + rhs;
    assert input[|lhs|] == op;
    assert forall j :: |lhs| < j < |input| - 1 ==> input[j] == rhs[j - |lhs| - 1];
    assert input[..|lhs|] == lhs;
    assert input[|lhs| + 1..] == rhs;
  }

  /**
   * `process`: walk the list from its end; the first element met goes to the
   * right part, then elements go to the right part until an operator of the
   * level is met, and everything before that operator to the left part.
   */
  method Process(input: seq<Item>, level: Level) returns (lhs: seq<Item>, op: Option<Item>, rhs: seq<Item>)
    ensures Parts(lhs, op, rhs) == Split(input, level)
  {
    lhs, op, rhs := [], None, [];
    ghost var k := 0;
    var i := |input|;
    while i > 0
      invariant 0 <= i <= |input|
      invariant op.None? ==> lhs == [] && rhs == input[i..] && NoneFrom(input, level, i)
      invariant op.Some? ==> i <= k < |input| - 1 && op.value == input[k] && InLevel(level, input[k].Id())
      invariant op.Some? ==> lhs == input[i..k] && rhs == input[k + 1..] && NoneFrom(input, level, k + 1)
    {
      i := i - 1;
      var item := input[i];
      if op.None? {
        if |rhs| == 0 {
          assert i == |input| - 1;
          assert input[i..] == [item];
          rhs := [item];
        } else if InLevel(level, item.Id()) {
          op := Some(item);
          k := i;
          assert input[i..i] == [];
        } else {
          assert input[i..] == [item] + input[i + 1..];
          rhs := [item] + rhs;
        }
      } else {
        assert input[i..k] == [item] + input[i + 1..k];
        lhs := [item] + lhs;
      }
    }
    ProcessResult(input, level, lhs, op, rhs, k);
  }

  /** No operator of the level at an index in `[from, |input| - 1)`. */
  predicate NoneFrom(input: seq<Item>, level: Level, from: nat) {
    forall j :: from <= j < |input| - 1 ==> !InLevel(level, input[j].Id())
  }

  lemma ProcessResult(input: seq<Item>, level: Level, lhs: seq<Item>, op: Option<Item>, rhs: seq<Item>, k: nat)
    requires op.None? ==> lhs == [] && rhs == input && NoneFrom(input, level, 0)
    requires op.Some? ==> k < |input| - 1 && op.value == input[k] && InLevel(level, input[k].Id())
    requires op.Some? ==> lhs == input[..k] && rhs == input[k + 1..] && NoneFrom(input, level, k + 1)
    ensures Parts(lhs, op, rhs) == Split(input, level)
  {
    if op.Some? {
      SplitAtRightmost(input[..k], input[k], input[k + 1..], level);
      assert input == input[..k] + [input[k]] + input[k + 1..];
    } else if |input| > 0 {
      assert RightmostOperator(input, level, |input| - 1).None?;
    }
  }

  // ---------------------------------------------------------------------
  // Resolution (processLevel4, processLevel3, processExp, processLevel2)
  // ---------------------------------------------------------------------

  /**
   * The tree a list resolves to at a level: the right part first (its
   * errors come first), then, when there is an operator, the left part at
   * the same level and the registry operation the operator names.
   */
  function Resolve(level: Level, input: seq<Item>, grammar: Grammar): Result<Expr, ParseError>
    decreases |input|, Rank(level)
  {
    if level == Primary then Unary(input)
    else
      var p := Split(input, level);
      var right :- Resolve(Next(level), p.rhs, grammar);
      if p.op.None? then Success(right)
      else
        var left :- Resolve(level, p.lhs, grammar);
        match LevelOp(level, p.op.value.Id(), grammar)
        case Some(op) => Success(Call(Builtin(op), [left, right]))
        case None =>
          if p.op.value.Tok? then Failure(UnknownOperator(p.op.value.t.pos)) else Failure(InvalidCast)
  }

  /**
   * The primary level: an empty list is a missing expression; otherwise the
   * last element must be a node, and each element before it a `~` marker.
   */
  function Unary(input: seq<Item>): Result<Expr, ParseError> {
    if |input| == 0 then Failure(ExpressionMissing(-1))
    else if !input[|input| - 1].Node? then Failure(InvalidCast)
    else Drain(input[..|input| - 1], input[|input| - 1].e)
  }

  /** Consume the elements before the node from the right, wrapping `ret` once per marker. */
  function Drain(rest: seq<Item>, ret: Expr): Result<Expr, ParseError>
    decreases |rest|
  {
    if |rest| == 0 then Success(ret)
    else
      var last := rest[|rest| - 1];
      if last.Id() == '~' then Drain(rest[..|rest| - 1], PrefixNegate(ret))
      else if last.Tok? then Failure(ExtraToken(last.t.pos))
      else Failure(ExtraExpression(-1))
  }

  function NegateTimes(e: Expr, n: nat): Expr
    decreases n
  {
    if n == 0 then e else NegateTimes(PrefixNegate(e), n - 1)
  }

  /**
   * Draining succeeds exactly when every remaining element is a `~` marker,
   * and then wraps the node in one prefix negation per marker.
   */
  lemma {:induction false} DrainAcceptsOnlyMarkers(rest: seq<Item>, ret: Expr)
    ensures Drain(rest, ret).Success? <==> forall j :: 0 <= j < |rest| ==> rest[j].Id() == '~'
    ensures Drain(rest, ret).Success? ==> Drain(rest, ret).value == NegateTimes(ret, |rest|)
    decreases |rest|
  {
    if |rest| > 0 {
      var front := rest[..|rest| - 1];
      DrainAcceptsOnlyMarkers(front, PrefixNegate(ret));
      assert forall j :: 0 <= j < |front| ==> front[j] == rest[j];
    }
  }

  /** `processLevel2`: the loop that removes elements from the end of the list. */
  method ProcessLevel2(input: seq<Item>) returns (r: Result<Expr, ParseError>)
    ensures r == Unary(input)
  {
    if |input| == 0 {
      return Failure(ExpressionMissing(-1));
    }
    var last := input[|input| - 1];
    if !last.Node? {
      return Failure(InvalidCast);
    }
    var ret := last.e;
    var rest := input[..|input| - 1];
    while |rest| > 0
      invariant Drain(rest, ret) == Unary(input)
      decreases |rest|
    {
      var item := rest[|rest| - 1];
      rest := rest[..|rest| - 1];
      if item.Id() == '~' {
        ret := PrefixNegate(ret);
      } else if item.Tok? {
        return Failure(ExtraToken(item.t.pos));
      } else {
        return Failure(ExtraExpression(-1));
      }
    }
    return Success(ret);
  }

  /** `processLevel4`, `processLevel3`, `processExp` and `processLevel2`, by level. */
  method ProcessLevel(level: Level, input: seq<Item>, grammar: Grammar) returns (r: Result<Expr, ParseError>)
    ensures r == Resolve(level, input, grammar)
    decreases |input|, Rank(level)
  {
    if level == Primary {
      r := ProcessLevel2(input);
      return;
    }
    var lhs, operator, rhs := Process(input, level);
    var right := ProcessLevel(Next(level), rhs, grammar);
    if right.Failure? {
      return Failure(right.error);
    }
    if operator.None? {
      return right;
    }
    var left := ProcessLevel(level, lhs, grammar);
    if left.Failure? {
      return Failure(left.error);
    }
    var op := LevelOp(level, operator.value.Id(), grammar);
    if op.None? {
      if operator.value.Tok? {
        return Failure(UnknownOperator(operator.value.t.pos));
      }
      return Failure(InvalidCast);
    }
    return Success(Call(Builtin(op.value), [left.value, right.value]));
  }

  // ---------------------------------------------------------------------
  // Properties of resolution
  // ---------------------------------------------------------------------

  /** Every node a list holds has the parser's shape. */
  predicate ItemsPlain(items: seq<Item>, scope: Scope) {
    forall j :: 0 <= j < |items| ==> items[j].Node? ==> Plain(items[j].e, scope)
  }

  /** Resolution builds only two-operand registry calls over the list's own nodes. */
  lemma {:induction false} ResolvePlain(level: Level, input: seq<Item>, grammar: Grammar, scope: Scope)
    requires ItemsPlain(input, scope)
    ensures Resolve(level, input, grammar).Success? ==> Plain(Resolve(level, input, grammar).value, scope)
    decreases |input|, Rank(level)
  {
    if level == Primary {
      UnaryPlain(input, scope);
    } else {
      var p := Split(input, level);
      SplitPartsPlain(input, level, scope);
      ResolvePlain(Next(level), p.rhs, grammar, scope);
      if p.op.Some? {
        ResolvePlain(level, p.lhs, grammar, scope);
      }
    }
  }

  lemma SplitPartsPlain(input: seq<Item>, level: Level, scope: Scope)
    requires ItemsPlain(input, scope)
    ensures ItemsPlain(Split(input, level).lhs, scope) && ItemsPlain(Split(input, level).rhs, scope)
  {
    var p := Split(input, level);
    SplitParts(input, level);
    if p.op.Some? {
      PartsPlain(p.lhs, p.op.value, p.rhs, scope);
    }
  }

  lemma PartsPlain(lhs: seq<Item>, op: Item, rhs: seq<Item>, scope: Scope)
    requires ItemsPlain(lhs + [op] + rhs, scope)
    ensures ItemsPlain(lhs, scope) && ItemsPlain(rhs, scope)
  {
    var input := lhs + [op] + rhs;
    assert forall j :: 0 <= j < |rhs| ==> rhs[j] == input[|lhs| + 1 + j];
    assert forall j :: 0 <= j < |lhs| ==> lhs[j] == input[j];
  }

  lemma UnaryPlain(input: seq<Item>, scope: Scope)
    requires ItemsPlain(input, scope)
    ensures Unary(input).Success? ==> Plain(Unary(input).value, scope)
  {
    if |input| > 0 && input[|input| - 1].Node? {
      DrainPlain(input[..|input| - 1], input[|input| - 1].e, scope);
    }
  }

  lemma {:induction false} DrainPlain(rest: seq<Item>, ret: Expr, scope: Scope)
    requires Plain(ret, scope)
    ensures Drain(rest, ret).Success? ==> Plain(Drain(rest, ret).value, scope)
    decreases |rest|
  {
    if |rest| > 0 {
      DrainPlain(rest[..|rest| - 1], PrefixNegate(ret), scope);
    }
  }

  /** A list whose first element is an operator token (or that is empty) resolves to nothing, at every level. */
  lemma {:induction false} BadStartFails(level: Level, input: seq<Item>, grammar: Grammar)
    requires |input| == 0 || (!input[0].Node? && input[0].Id() != '~')
    ensures Resolve(level, input, grammar).Failure?
    decreases |input|, Rank(level)
  {
    if level == Primary {
      if |input| > 1 && input[|input| - 1].Node? {
        var rest := input[..|input| - 1];
        assert rest[0] == input[0];
        DrainAcceptsOnlyMarkers(rest, input[|input| - 1].e);
      }
    } else {
      var p := Split(input, level);
      SplitParts(input, level);
      if p.op.None? {
        BadStartFails(Next(level), input, grammar);
      } else if Resolve(Next(level), p.rhs, grammar).Success? {
        if |p.lhs| > 0 {
          assert p.lhs[0] == input[0];
        }
        BadStartFails(level, p.lhs, grammar);
      }
    }
  }

  /** A list with no operator of the level (but maybe its last element) resolves at the next level. */
  lemma ResolveWithoutOperator(level: Level, input: seq<Item>, grammar: Grammar)
    requires level != Primary
    requires forall j :: 0 <= j < |input| - 1 ==> !InLevel(level, input[j].Id())
    ensures Resolve(level, input, grammar) == Resolve(Next(level), input, grammar)
  {
    if |input| > 0 {
      assert RightmostOperator(input, level, |input| - 1).None?;
    }
  }

  /**
   * The composition rule: at the rightmost operator of its level, the list
   * becomes a call of that operator's operation on the left part (resolved
   * at the same level) and the right part (resolved at the next level).
   */
  lemma ResolveAtOperator(level: Level, lhs: seq<Item>, t: Token, rhs: seq<Item>, grammar: Grammar)
    requires level != Primary && InLevel(level, t.Id()) && |rhs| >= 1
    requires forall j :: 0 <= j < |rhs| - 1 ==> !InLevel(level, rhs[j].Id())
    requires Resolve(level, lhs, grammar).Success? && Resolve(Next(level), rhs, grammar).Success?
    ensures Resolve(level, lhs + [Tok(t)] + rhs, grammar) ==
      match LevelOp(level, t.Id(), grammar)
      case Some(op) =>
        Success(Call(Builtin(op), [Resolve(level, lhs, grammar).value, Resolve(Next(level), rhs, grammar).value]))
      case None => Failure(UnknownOperator(t.pos))
  {
    SplitAtRightmost(lhs, Tok(t), rhs, level);
  }

  /** An empty list is a missing expression at every level. */
  lemma {:induction false} EmptyIsMissing(level: Level, grammar: Grammar)
    ensures Resolve(level, [], grammar) == Failure(ExpressionMissing(-1))
    decreases Rank(level)
  {
    if level != Primary {
      EmptyIsMissing(Next(level), grammar);
    }
  }

  /** The composition rule for an operator the registry knows. */
  lemma ResolveAtKnownOperator(level: Level, lhs: seq<Item>, t: Token, rhs: seq<Item>, op: Op, grammar: Grammar)
    requires level != Primary && InLevel(level, t.Id()) && |rhs| >= 1
    requires forall j :: 0 <= j < |rhs| - 1 ==> !InLevel(level, rhs[j].Id())
    requires Resolve(level, lhs, grammar).Success? && Resolve(Next(level), rhs, grammar).Success?
    requires LevelOp(level, t.Id(), grammar) == Some(op)
    ensures Resolve(level, lhs + [Tok(t)] + rhs, grammar) ==
      Success(Call(Builtin(op), [Resolve(level, lhs, grammar).value, Resolve(Next(level), rhs, grammar).value]))
  {
    ResolveAtOperator(level, lhs, t, rhs, grammar);
  }

  /** A single node is its own resolution at every level. */
  lemma {:induction false} SingleNode(level: Level, e: Expr, grammar: Grammar)
    ensures Resolve(level, [Node(e)], grammar) == Success(e)
    decreases Rank(level)
  {
    if level != Primary {
      SingleNode(Next(level), e, grammar);
    }
  }

  /** Three elements `a x b` around an operator of the level resolve to `x(a, b)`. */
  lemma BinaryNodes(level: Level, a: Expr, x: Token, b: Expr, grammar: Grammar)
    requires level != Primary && InLevel(level, x.Id()) && LevelOp(level, x.Id(), grammar).Some?
    ensures Resolve(level, [Node(a), Tok(x), Node(b)], grammar) ==
      Success(Call(Builtin(LevelOp(level, x.Id(), grammar).value), [a, b]))
  {
    SingleNode(level, a, grammar);
    SingleNode(Next(level), b, grammar);
    ResolveAtOperator(level, [Node(a)], x, [Node(b)], grammar);
    assert [Node(a), Tok(x), Node(b)] == [Node(a)] + [Tok(x)] + [Node(b)];
  }

  /** An operator the registry does not know fails at the operator's position. */
  lemma BinaryUnknown(level: Level, a: Expr, x: Token, b: Expr, grammar: Grammar)
    requires level != Primary && InLevel(level, x.Id()) && LevelOp(level, x.Id(), grammar).None?
    ensures Resolve(level, [Node(a), Tok(x), Node(b)], grammar) == Failure(UnknownOperator(x.pos))
  {
    SingleNode(level, a, grammar);
    SingleNode(Next(level), b, grammar);
    ResolveAtOperator(level, [Node(a)], x, [Node(b)], grammar);
    assert [Node(a), Tok(x), Node(b)] == [Node(a)] + [Tok(x)] + [Node(b)];
  }

  /**
   * Left associativity, at every operator level and so for `^` too:
   * `a x b y c` is `y(x(a, b), c)`.
   */
  lemma LeftAssociative(level: Level, a: Expr, x: Token, b: Expr, y: Token, c: Expr, grammar: Grammar)
    requires level != Primary && InLevel(level, x.Id()) && InLevel(level, y.Id())
    requires LevelOp(level, x.Id(), grammar).Some? && LevelOp(level, y.Id(), grammar).Some?
    ensures Resolve(level, [Node(a), Tok(x), Node(b), Tok(y), Node(c)], grammar) ==
      Success(Call(Builtin(LevelOp(level, y.Id(), grammar).value),
        [Call(Builtin(LevelOp(level, x.Id(), grammar).value), [a, b]), c]))
  {
    var left := [Node(a), Tok(x), Node(b)];
    BinaryNodes(level, a, x, b, grammar);
    SingleNode(Next(level), c, grammar);
    ResolveAtOperator(level, left, y, [Node(c)], grammar);
    assert [Node(a), Tok(x), Node(b), Tok(y), Node(c)] == left + [Tok(y)] + [Node(c)];
  }

  /**
   * Precedence: an operator of a tighter level binds its neighbours first,
   * whichever side of the looser operator it stands on. `outer` is `+ -`
   * over `* / %`, or `* / %` over `^`. Here the tighter operator is on the left:
   * `a x b y c` is `y(x(a, b), c)`.
   */
  lemma TighterBindsFirstOnLeft(outer: Level, a: Expr, x: Token, b: Expr, y: Token, c: Expr, grammar: Grammar)
    requires outer == Additive || outer == Multiplicative
    requires InLevel(Next(outer), x.Id()) && InLevel(outer, y.Id())
    requires LevelOp(Next(outer), x.Id(), grammar).Some? && LevelOp(outer, y.Id(), grammar).Some?
    ensures Resolve(outer, [Node(a), Tok(x), Node(b), Tok(y), Node(c)], grammar) ==
      Success(Call(Builtin(LevelOp(outer, y.Id(), grammar).value),
        [Call(Builtin(LevelOp(Next(outer), x.Id(), grammar).value), [a, b]), c]))
  {
    var left := [Node(a), Tok(x), Node(b)];
    assert [Node(a), Tok(x), Node(b), Tok(y), Node(c)] == left + [Tok(y)] + [Node(c)];
    BinaryNodes(Next(outer), a, x, b, grammar);
    ResolveWithoutOperator(outer, left, grammar);
    SingleNode(Next(outer), c, grammar);
    ResolveAtKnownOperator(outer, left, y, [Node(c)], LevelOp(outer, y.Id(), grammar).value, grammar);
  }

  /** ... and on the right: `a y b x c` is `y(a, x(b, c))`. */
  lemma TighterBindsFirstOnRight(outer: Level, a: Expr, x: Token, b: Expr, y: Token, c: Expr, grammar: Grammar)
    requires outer == Additive || outer == Multiplicative
    requires InLevel(Next(outer), x.Id()) && InLevel(outer, y.Id())
    requires LevelOp(Next(outer), x.Id(), grammar).Some? && LevelOp(outer, y.Id(), grammar).Some?
    ensures Resolve(outer, [Node(a), Tok(y), Node(b), Tok(x), Node(c)], grammar) ==
      Success(Call(Builtin(LevelOp(outer, y.Id(), grammar).value),
        [a, Call(Builtin(LevelOp(Next(outer), x.Id(), grammar).value), [b, c])]))
  {
    var right := [Node(b), Tok(x), Node(c)];
    assert [Node(a), Tok(y), Node(b), Tok(x), Node(c)] == [Node(a)] + [Tok(y)] + right;
    BinaryNodes(Next(outer), b, x, c, grammar);
    SingleNode(outer, a, grammar);
    assert !InLevel(outer, right[0].Id()) && !InLevel(outer, right[1].Id());
    ResolveAtKnownOperator(outer, [Node(a)], y, right, LevelOp(outer, y.Id(), grammar).value, grammar);
  }
}
