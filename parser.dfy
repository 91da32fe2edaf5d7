/**
 * The parser: a cursor over the token list that collects one half-processed
 * list per scope (the whole input, a bracket, a call argument) and hands it
 * to precedence resolution. A scope ends at the end of the tokens or at a
 * `,` or `)`, which the scope's owner then consumes.
 *
 * `Internal`, `Collect`, `Bracket`, `FunctionCall` and `Arguments` specify
 * the parser's methods of the same purpose; each returns the value and the
 * cursor position after it.
 */
module Parsing {
  import opened Wrappers
  import opened Tokens
  import opened Operators
  import opened Ast
  import opened Levels

  /** What the parser works on: the tokens, the variable table, the library functions. */
  datatype Context = Context(
    tokens: seq<Token>,
    variables: map<string, nat>,
    functions: set<(string, nat)>,
    grammar: Grammar)

  datatype Parsed<T> = Parsed(value: T, pos: nat)

  /** The token at `pos`, or a null token (id `\0`) past the end. */
  function PeekAt(tokens: seq<Token>, pos: nat): Token {
    if pos >= |tokens| then NullToken(pos) else tokens[pos]
  }

  /** A scope stops at the end of the tokens, or at a `,` or `)` it leaves unconsumed. */
  predicate ScopeEnds(tokens: seq<Token>, pos: nat) {
    pos == |tokens| || (pos < |tokens| && (tokens[pos].Id() == ',' || tokens[pos].Id() == ')'))
  }

  /** The slots a parsed tree may refer to, and the functions it may call. */
  function ScopeOf(ctx: Context): Scope {
    Scope(ctx.variables.Values, ctx.functions)
  }

  // ---------------------------------------------------------------------
  // The specification of the recursive descent
  // ---------------------------------------------------------------------

  /** `parseInternal`: collect one scope, then resolve it from the loosest level. */
  function Internal(ctx: Context, pos: nat): (r: Result<Parsed<Expr>, ParseError>)
    requires pos <= |ctx.tokens|
    ensures r.Success? ==> pos <= r.value.pos <= |ctx.tokens| && ScopeEnds(ctx.tokens, r.value.pos)
    decreases |ctx.tokens| - pos, 2
  {
    var items :- Collect(ctx, pos, []);
    var e :- Resolve(Additive, items.value, ctx.grammar);
    Success(Parsed(e, items.pos))
  }

  /**
   * The loop of `parseInternal`: numbers, variables, calls and brackets
   * become nodes, `,` and `)` end the scope unconsumed, and every other
   * token is kept as it is.
   */
  function Collect(ctx: Context, pos: nat, acc: seq<Item>): (r: Result<Parsed<seq<Item>>, ParseError>)
    requires pos <= |ctx.tokens|
    ensures r.Success? ==> pos <= r.value.pos <= |ctx.tokens| && ScopeEnds(ctx.tokens, r.value.pos)
    decreases |ctx.tokens| - pos, 1
  {
    if pos >= |ctx.tokens| then Success(Parsed(acc, pos))
    else
      var current := ctx.tokens[pos];
      var id := current.Id();
      if id == '0' then
        if current.NumberToken? then Collect(ctx, pos + 1, acc + [Node(Constant(current.value))])
        else Failure(InvalidCast)
      else if id == 'i' then
        if !current.IdentifierToken? then Failure(InvalidCast)
        else if PeekAt(ctx.tokens, pos + 1).Id() == '(' then
          var call :- FunctionCall(ctx, pos + 1, current);
          Collect(ctx, call.pos, acc + [Node(call.value)])
        else if current.name in ctx.variables then
          Collect(ctx, pos + 1, acc + [Node(Variable(ctx.variables[current.name]))])
        else Failure(VariableNotFound(current.pos))
      else if id == '(' then
        var inner :- Bracket(ctx, pos);
        Collect(ctx, inner.pos, acc + [Node(inner.value)])
      else if id == ',' || id == ')' then Success(Parsed(acc, pos))
      else Collect(ctx, pos + 1, acc + [Tok(current)])
  }

  /** `parseBracket`: `(`, a scope, `)`. */
  function Bracket(ctx: Context, pos: nat): (r: Result<Parsed<Expr>, ParseError>)
    requires pos <= |ctx.tokens|
    ensures r.Success? ==> pos < r.value.pos <= |ctx.tokens|
    ensures r.Success? ==> ctx.tokens[pos].Id() == '(' && ctx.tokens[r.value.pos - 1].Id() == ')'
    decreases |ctx.tokens| - pos, 0
  {
    var open := PeekAt(ctx.tokens, pos);
    if open.Id() != '(' then Failure(UnexpectedCharacter(open.pos))
    else
      var inner :- Internal(ctx, pos + 1);
      var close := PeekAt(ctx.tokens, inner.pos);
      if close.Id() != ')' then Failure(UnmatchedOpeningBracket(close.pos))
      else Success(Parsed(inner.value, inner.pos + 1))
  }

  /**
   * `parseFunction`, from the `(` after the name: an empty argument list, or
   * arguments up to the closing `)`; the call binds to the library function
   * of that name and argument count. As written, the `)` of an empty
   * argument list is left unconsumed.
   */
  function FunctionCall(ctx: Context, pos: nat, ident: Token): (r: Result<Parsed<Expr>, ParseError>)
    requires pos <= |ctx.tokens| && ident.IdentifierToken?
    ensures r.Success? ==> pos < r.value.pos <= |ctx.tokens| && ctx.tokens[pos].Id() == '('
    ensures r.Success? ==>
      r.value.value.Call? && r.value.value.callee == Native(ident.name) &&
      (ident.name, |r.value.value.args|) in ctx.functions
    ensures r.Success? && ctx.grammar == Corrected ==> ctx.tokens[r.value.pos - 1].Id() == ')'
    decreases |ctx.tokens| - pos, 4
  {
    var open := PeekAt(ctx.tokens, pos);
    if open.Id() != '(' then Failure(UnexpectedCharacter(open.pos))
    else if PeekAt(ctx.tokens, pos + 1).Id() == ')' then
      if (ident.name, 0) in ctx.functions then
        Success(Parsed(Call(Native(ident.name), []), if ctx.grammar == AsWritten then pos + 1 else pos + 2))
      else Failure(FunctionNotFound(ident.pos))
    else
      var args :- Arguments(ctx, pos + 1, []);
      if (ident.name, |args.value|) in ctx.functions then
        Success(Parsed(Call(Native(ident.name), args.value), args.pos))
      else Failure(FunctionNotFound(ident.pos))
  }

  /** The argument loop of `parseFunction`: scopes separated by `,` and ended by `)`. */
  function Arguments(ctx: Context, pos: nat, acc: seq<Expr>): (r: Result<Parsed<seq<Expr>>, ParseError>)
    requires pos <= |ctx.tokens|
    ensures r.Success? ==> pos < r.value.pos <= |ctx.tokens| && ctx.tokens[r.value.pos - 1].Id() == ')'
    ensures r.Success? ==> |acc| < |r.value.value| && r.value.value[..|acc|] == acc
    decreases |ctx.tokens| - pos, 3
  {
    var arg :- Internal(ctx, pos);
    var current := PeekAt(ctx.tokens, arg.pos);
    if current.Id() == ',' then Arguments(ctx, arg.pos + 1, acc + [arg.value])
    else if current.Id() == ')' then Success(Parsed(acc + [arg.value], arg.pos + 1))
    else Failure(UnmatchedOpeningBracket(current.pos))
  }

  /** One round of the argument loop, once its argument has been parsed up to `stop`. */
  lemma ArgumentStep(ctx: Context, pos: nat, acc: seq<Expr>, arg: Expr, stop: nat)
    requires pos <= |ctx.tokens| && Internal(ctx, pos) == Success(Parsed(arg, stop))
    ensures stop <= |ctx.tokens|
    ensures PeekAt(ctx.tokens, stop).Id() == ',' ==> Arguments(ctx, pos, acc) == Arguments(ctx, stop + 1, acc + [arg])
    ensures PeekAt(ctx.tokens, stop).Id() == ')' ==> Arguments(ctx, pos, acc) == Success(Parsed(acc + [arg], stop + 1))
    ensures PeekAt(ctx.tokens, stop).Id() != ',' && PeekAt(ctx.tokens, stop).Id() != ')' ==>
      Arguments(ctx, pos, acc) == Failure(UnmatchedOpeningBracket(PeekAt(ctx.tokens, stop).pos))
  {
  }

  /** `parse`: one scope that must take in every token. */
  function ParseAll(ctx: Context): Result<Expr, ParseError> {
    var r :- Internal(ctx, 0);
    if r.pos < |ctx.tokens| then Failure(ExtraTokensAtEnd(ctx.tokens[r.pos].pos))
    else Success(r.value)
  }

  /** A method's result paired with the cursor it leaves. */
  function Outcome<T>(r: Result<T, ParseError>, pos: nat): Result<Parsed<T>, ParseError> {
    match r
    case Success(v) => Success(Parsed(v, pos))
    case Failure(err) => Failure(err)
  }

  // ---------------------------------------------------------------------
  // The parser's cursor
  // ---------------------------------------------------------------------

  class Parser {
    const tokens: seq<Token>
    const variables: map<string, nat>
    const functions: set<(string, nat)>
    const grammar: Grammar
    var position: nat

    constructor (tokens: seq<Token>, variables: map<string, nat>, functions: set<(string, nat)>, grammar: Grammar)
      ensures this.tokens == tokens && this.variables == variables
      ensures this.functions == functions && this.grammar == grammar
      ensures position == 0
    {
      this.tokens := tokens;
      this.variables := variables;
      this.functions := functions;
      this.grammar := grammar;
      position := 0;
    }

    function Ctx(): Context {
      Context(tokens, variables, functions, grammar)
    }

    function Peek(): Token
      reads this
    {
      PeekAt(tokens, position)
    }

    method Parse() returns (r: Result<Expr, ParseError>)
      requires position == 0
      modifies this
      ensures r == ParseAll(Ctx())
    {
      var ret := ParseInternal();
      if ret.Failure? {
        return ret;
      }
      if position < |tokens| {
        return Failure(ExtraTokensAtEnd(Peek().pos));
      }
      return ret;
    }

    method ParseInternal() returns (r: Result<Expr, ParseError>)
      requires position <= |tokens|
      modifies this
      ensures Outcome(r, position) == Internal(Ctx(), old(position))
      decreases |tokens| - position, 2
    {
      var halfProcessed: seq<Item> := [];
      while position < |tokens|
        invariant old(position) <= position <= |tokens|
        invariant Collect(Ctx(), old(position), []) == Collect(Ctx(), position, halfProcessed)
        decreases |tokens| - position
      {
        var current := Peek();
        var id := current.Id();
        if id == '0' {
          if !current.NumberToken? {
            return Failure(InvalidCast);
          }
          halfProcessed := halfProcessed + [Node(Constant(current.value))];
          position := position + 1;
        } else if id == 'i' {
          if !current.IdentifierToken? {
            return Failure(InvalidCast);
          }
          position := position + 1;
          var next := Peek();
          if next.Id() == '(' {
            var call := ParseFunction(current);
            if call.Failure? {
              return Failure(call.error);
            }
            halfProcessed := halfProcessed + [Node(call.value)];
          } else {
            if current.name !in variables {
              return Failure(VariableNotFound(current.pos));
            }
            halfProcessed := halfProcessed + [Node(Variable(variables[current.name]))];
          }
        } else if id == '(' {
          var inner := ParseBracket();
          if inner.Failure? {
            return inner;
          }
          halfProcessed := halfProcessed + [Node(inner.value)];
        } else if id == ',' || id == ')' {
          break;
        } else {
          halfProcessed := halfProcessed + [Tok(current)];
          position := position + 1;
        }
      }
      r := ProcessLevel(Additive, halfProcessed, grammar);
    }

    method ParseFunction(ident: Token) returns (r: Result<Expr, ParseError>)
      requires position <= |tokens| && ident.IdentifierToken?
      modifies this
      ensures Outcome(r, position) == FunctionCall(Ctx(), old(position), ident)
      decreases |tokens| - position, 4
    {
      if Peek().Id() != '(' {
        return Failure(UnexpectedCharacter(Peek().pos));
      }
      position := position + 1;
      if Peek().Id() == ')' {
        if (ident.name, 0) !in functions {
          return Failure(FunctionNotFound(ident.pos));
        }
        if grammar == Corrected {
          position := position + 1;
        }
        return Success(Call(Native(ident.name), []));
      }
      var args := ParseArguments();
      if args.Failure? {
        return Failure(args.error);
      }
      if (ident.name, |args.value|) !in functions {
        return Failure(FunctionNotFound(ident.pos));
      }
      return Success(Call(Native(ident.name), args.value));
    }

    /** The argument loop of `parseFunction`, from the first argument to past the closing `)`. */
    method ParseArguments() returns (r: Result<seq<Expr>, ParseError>)
      requires position <= |tokens|
      modifies this
      ensures Outcome(r, position) == Arguments(Ctx(), old(position), [])
      decreases |tokens| - position, 3
    {
      var args: seq<Expr> := [];
      while true
        invariant old(position) <= position <= |tokens|
        invariant Arguments(Ctx(), old(position), []) == Arguments(Ctx(), position, args)
        decreases |tokens| - position
      {
        ghost var start, before := position, args;
        var arg := ParseInternal();
        if arg.Failure? {
          return Failure(arg.error);
        }
        ArgumentStep(Ctx(), start, before, arg.value, position);
        args := args + [arg.value];
        var current := Peek();
        if current.Id() == ',' {
          position := position + 1;
        } else if current.Id() == ')' {
          position := position + 1;
          break;
        } else {
          return Failure(UnmatchedOpeningBracket(current.pos));
        }
      }
      return Success(args);
    }

    method ParseBracket() returns (r: Result<Expr, ParseError>)
      requires position <= |tokens|
      modifies this
      ensures Outcome(r, position) == Bracket(Ctx(), old(position))
      decreases |tokens| - position, 0
    {
      if Peek().Id() != '(' {
        return Failure(UnexpectedCharacter(Peek().pos));
      }
      position := position + 1;
      var ret := ParseInternal();
      if ret.Failure? {
        return ret;
      }
      if Peek().Id() != ')' {
        return Failure(UnmatchedOpeningBracket(Peek().pos));
      }
      position := position + 1;
      return ret;
    }
  }

  /** `Parser.parse(tokens, variables)`: run a fresh parser over the tokens. */
  method ParseTokens(tokens: seq<Token>, variables: map<string, nat>, functions: set<(string, nat)>, grammar: Grammar)
    returns (r: Result<Expr, ParseError>)
    ensures r == ParseAll(Context(tokens, variables, functions, grammar))
  {
    var parser := new Parser(tokens, variables, functions, grammar);
    r := parser.Parse();
  }

  // ---------------------------------------------------------------------
  // Properties of the parser
  // ---------------------------------------------------------------------

  lemma AppendPlain(acc: seq<Item>, item: Item, scope: Scope)
    requires ItemsPlain(acc, scope) && (item.Node? ==> Plain(item.e, scope))
    ensures ItemsPlain(acc + [item], scope)
  {
    assert forall j :: 0 <= j < |acc| ==> (acc + [item])[j] == acc[j];
  }

  /**
   * The parser's trees have the parser's shape: variable nodes name slots
   * the variable table hands out, and registry calls have two operands.
   */
  lemma {:induction false} InternalPlain(ctx: Context, pos: nat)
    requires pos <= |ctx.tokens|
    ensures Internal(ctx, pos).Success? ==> Plain(Internal(ctx, pos).value.value, ScopeOf(ctx))
    decreases |ctx.tokens| - pos, 2
  {
    CollectPlain(ctx, pos, []);
    var items := Collect(ctx, pos, []);
    if items.Success? {
      ResolvePlain(Additive, items.value.value, ctx.grammar, ScopeOf(ctx));
    }
  }

  lemma {:induction false} CollectPlain(ctx: Context, pos: nat, acc: seq<Item>)
    requires pos <= |ctx.tokens| && ItemsPlain(acc, ScopeOf(ctx))
    ensures Collect(ctx, pos, acc).Success? ==> ItemsPlain(Collect(ctx, pos, acc).value.value, ScopeOf(ctx))
    decreases |ctx.tokens| - pos, 1
  {
    var scope := ScopeOf(ctx);
    if pos < |ctx.tokens| {
      var current := ctx.tokens[pos];
      var id := current.Id();
      if id == '0' {
        if current.NumberToken? {
          AppendPlain(acc, Node(Constant(current.value)), scope);
          CollectPlain(ctx, pos + 1, acc + [Node(Constant(current.value))]);
        }
      } else if id == 'i' {
        if current.IdentifierToken? {
          if PeekAt(ctx.tokens, pos + 1).Id() == '(' {
            FunctionCallPlain(ctx, pos + 1, current);
            var call := FunctionCall(ctx, pos + 1, current);
            if call.Success? {
              AppendPlain(acc, Node(call.value.value), scope);
              CollectPlain(ctx, call.value.pos, acc + [Node(call.value.value)]);
            }
          } else if current.name in ctx.variables {
            var slot := ctx.variables[current.name];
            assert slot in scope.slots;
            AppendPlain(acc, Node(Variable(slot)), scope);
            CollectPlain(ctx, pos + 1, acc + [Node(Variable(slot))]);
          }
        }
      } else if id == '(' {
        BracketPlain(ctx, pos);
        var inner := Bracket(ctx, pos);
        if inner.Success? {
          AppendPlain(acc, Node(inner.value.value), scope);
          CollectPlain(ctx, inner.value.pos, acc + [Node(inner.value.value)]);
        }
      } else if id != ',' && id != ')' {
        AppendPlain(acc, Tok(current), scope);
        CollectPlain(ctx, pos + 1, acc + [Tok(current)]);
      }
    }
  }

  lemma {:induction false} BracketPlain(ctx: Context, pos: nat)
    requires pos <= |ctx.tokens|
    ensures Bracket(ctx, pos).Success? ==> Plain(Bracket(ctx, pos).value.value, ScopeOf(ctx))
    decreases |ctx.tokens| - pos, 0
  {
    if PeekAt(ctx.tokens, pos).Id() == '(' {
      InternalPlain(ctx, pos + 1);
    }
  }

  lemma {:induction false} FunctionCallPlain(ctx: Context, pos: nat, ident: Token)
    requires pos <= |ctx.tokens| && ident.IdentifierToken?
    ensures FunctionCall(ctx, pos, ident).Success? ==>
      Plain(FunctionCall(ctx, pos, ident).value.value, ScopeOf(ctx))
    decreases |ctx.tokens| - pos, 4
  {
    if PeekAt(ctx.tokens, pos).Id() == '(' && PeekAt(ctx.tokens, pos + 1).Id() != ')' {
      ArgumentsPlain(ctx, pos + 1, []);
    }
  }

  lemma {:induction false} ArgumentsPlain(ctx: Context, pos: nat, acc: seq<Expr>)
    requires pos <= |ctx.tokens|
    requires forall j :: 0 <= j < |acc| ==> Plain(acc[j], ScopeOf(ctx))
    ensures Arguments(ctx, pos, acc).Success? ==>
      forall j :: 0 <= j < |Arguments(ctx, pos, acc).value.value| ==>
        Plain(Arguments(ctx, pos, acc).value.value[j], ScopeOf(ctx))
    decreases |ctx.tokens| - pos, 3
  {
    InternalPlain(ctx, pos);
    var arg := Internal(ctx, pos);
    if arg.Success? {
      var next := acc + [arg.value.value];
      assert forall j :: 0 <= j < |acc| ==> next[j] == acc[j];
      if PeekAt(ctx.tokens, arg.value.pos).Id() == ',' {
        ArgumentsPlain(ctx, arg.value.pos + 1, next);
      }
    }
  }

  /** A parsed tree refers only to the variable table's slots and is free of `NegateOperator` nodes. */
  lemma ParsePlain(ctx: Context)
    ensures ParseAll(ctx).Success? ==> Plain(ParseAll(ctx).value, ScopeOf(ctx))
  {
    InternalPlain(ctx, 0);
  }

  /** Collecting only appends to the list already collected. */
  lemma {:induction false} CollectKeepsPrefix(ctx: Context, pos: nat, acc: seq<Item>)
    requires pos <= |ctx.tokens|
    ensures Collect(ctx, pos, acc).Success? ==>
      |acc| <= |Collect(ctx, pos, acc).value.value| && Collect(ctx, pos, acc).value.value[..|acc|] == acc
    decreases |ctx.tokens| - pos
  {
    if pos < |ctx.tokens| && Collect(ctx, pos, acc).Success? {
      var current := ctx.tokens[pos];
      var id := current.Id();
      var next: seq<Item>, at: nat;
      if id == '0' {
        next, at := acc + [Node(Constant(current.value))], pos + 1;
      } else if id == 'i' {
        if PeekAt(ctx.tokens, pos + 1).Id() == '(' {
          var call := FunctionCall(ctx, pos + 1, current);
          next, at := acc + [Node(call.value.value)], call.value.pos;
        } else {
          next, at := acc + [Node(Variable(ctx.variables[current.name]))], pos + 1;
        }
      } else if id == '(' {
        var inner := Bracket(ctx, pos);
        next, at := acc + [Node(inner.value.value)], inner.value.pos;
      } else if id == ',' || id == ')' {
        return;
      } else {
        next, at := acc + [Tok(current)], pos + 1;
      }
      assert Collect(ctx, pos, acc) == Collect(ctx, at, next);
      CollectKeepsPrefix(ctx, at, next);
      assert next[..|acc|] == acc;
    }
  }

  /**
   * No `~` marker is ever produced, so an expression that starts with an
   * operator (a leading sign included) is split as a binary operation with
   * nothing on its left, and fails.
   */
  lemma LeadingOperatorFails(ctx: Context)
    requires |ctx.tokens| > 0 && ctx.tokens[0].OperatorToken?
    requires ctx.tokens[0].op in {'+', '-', '*', '/', '%', '^'}
    ensures ParseAll(ctx).Failure?
  {
    var first := Tok(ctx.tokens[0]);
    assert [] + [first] == [first];
    assert Collect(ctx, 0, []) == Collect(ctx, 1, [first]);
    CollectKeepsPrefix(ctx, 1, [first]);
    var items := Collect(ctx, 1, [first]);
    if items.Success? {
      assert items.value.value[0] == first;
      BadStartFails(Additive, items.value.value, ctx.grammar);
    }
  }

  /** For instance `-1` misses the left operand of `sub`. */
  lemma SignedLiteralMissesOperand(ctx: Context, p: int, q: int, v: real)
    requires ctx.tokens == [OperatorToken(p, '-'), NumberToken(q, v)]
    ensures ParseAll(ctx) == Failure(ExpressionMissing(-1))
  {
    var items := [Tok(OperatorToken(p, '-')), Node(Constant(v))];
    assert [] + [items[0]] == [items[0]] && [items[0]] + [items[1]] == items;
    assert Collect(ctx, 0, []) == Collect(ctx, 1, [items[0]]) == Collect(ctx, 2, items);
    SingleNode(Multiplicative, Constant(v), ctx.grammar);
    assert items == [] + [Tok(OperatorToken(p, '-'))] + [Node(Constant(v))];
    SplitAtRightmost([], Tok(OperatorToken(p, '-')), [Node(Constant(v))], Additive);
    EmptyIsMissing(Additive, ctx.grammar);
    assert Resolve(Additive, items, ctx.grammar) == Failure(ExpressionMissing(-1));
  }

  /** A bracket left open fails at the null token past the end, whose position is the token count. */
  lemma UnclosedBracket(ctx: Context, p: int, q: int, v: real)
    requires ctx.tokens == [CharacterToken(p, '('), NumberToken(q, v)]
    ensures ParseAll(ctx) == Failure(UnmatchedOpeningBracket(2))
  {
    assert [] + [Node(Constant(v))] == [Node(Constant(v))];
    assert Collect(ctx, 1, []) == Collect(ctx, 2, [Node(Constant(v))]);
    SingleNode(Additive, Constant(v), ctx.grammar);
    assert Internal(ctx, 1) == Success(Parsed(Constant(v), 2));
    assert Bracket(ctx, 0) == Failure(UnmatchedOpeningBracket(2));
    assert Collect(ctx, 0, []) == Failure(UnmatchedOpeningBracket(2));
  }

  /** A `)` with no bracket to close ends the scope early and is left over. */
  lemma StrayClosingBracket(ctx: Context, p: int, q: int, v: real)
    requires ctx.tokens == [NumberToken(p, v), CharacterToken(q, ')')]
    ensures ParseAll(ctx) == Failure(ExtraTokensAtEnd(q))
  {
    assert [] + [Node(Constant(v))] == [Node(Constant(v))];
    assert Collect(ctx, 0, []) == Collect(ctx, 1, [Node(Constant(v))]);
    SingleNode(Additive, Constant(v), ctx.grammar);
  }

  /**
   * Wherever the collecting loop meets an identifier that is not followed by
   * `(` and is not in the variable table, the scope fails at that token.
   */
  lemma UnknownVariableFails(ctx: Context, pos: nat, acc: seq<Item>)
    requires pos < |ctx.tokens| && ctx.tokens[pos].IdentifierToken?
    requires PeekAt(ctx.tokens, pos + 1).Id() != '(' && ctx.tokens[pos].name !in ctx.variables
    ensures Collect(ctx, pos, acc) == Failure(VariableNotFound(ctx.tokens[pos].pos))
  {
  }

  /**
   * A bracket is closed only by `)`: when its inner scope stops at a `,` or
   * at the end instead, the bracket fails there, at the null token past the
   * end in the latter case.
   */
  lemma BracketUnmatched(ctx: Context, pos: nat)
    requires pos < |ctx.tokens| && ctx.tokens[pos].Id() == '('
    requires Internal(ctx, pos + 1).Success?
    requires PeekAt(ctx.tokens, Internal(ctx, pos + 1).value.pos).Id() != ')'
    ensures var stop := Internal(ctx, pos + 1).value.pos;
      (stop == |ctx.tokens| || ctx.tokens[stop].Id() == ',') &&
      Bracket(ctx, pos) == Failure(UnmatchedOpeningBracket(PeekAt(ctx.tokens, stop).pos))
  {
  }

  /**
   * A call is bound by its name and its argument count: with the argument
   * list parsed, the call succeeds exactly when the library has a function of
   * that name and count, and fails at the name's token otherwise.
   */
  lemma CallBinding(ctx: Context, pos: nat, ident: Token)
    requires pos < |ctx.tokens| && ctx.tokens[pos].Id() == '(' && ident.IdentifierToken?
    ensures PeekAt(ctx.tokens, pos + 1).Id() == ')' ==>
      FunctionCall(ctx, pos, ident) ==
        if (ident.name, 0) in ctx.functions
        then Success(Parsed(Call(Native(ident.name), []), if ctx.grammar == AsWritten then pos + 1 else pos + 2))
        else Failure(FunctionNotFound(ident.pos))
    ensures PeekAt(ctx.tokens, pos + 1).Id() != ')' && Arguments(ctx, pos + 1, []).Success? ==>
      var args := Arguments(ctx, pos + 1, []).value;
      FunctionCall(ctx, pos, ident) ==
        if (ident.name, |args.value|) in ctx.functions
        then Success(Parsed(Call(Native(ident.name), args.value), args.pos))
        else Failure(FunctionNotFound(ident.pos))
  {
  }

  /** For instance, a lone identifier that is not in the variable table. */
  lemma UnknownVariable(ctx: Context, p: int, name: string)
    requires ctx.tokens == [IdentifierToken(p, name)] && name !in ctx.variables
    ensures ParseAll(ctx) == Failure(VariableNotFound(p))
  {
    assert PeekAt(ctx.tokens, 1).Id() == '\0';
    assert Collect(ctx, 0, []) == Failure(VariableNotFound(p));
  }

  // ---------------------------------------------------------------------
  // Two places where the parser as written misses what it evidently means
  // ---------------------------------------------------------------------

  /** As written, `f()` leaves its `)` behind, so the input is never used up. */
  lemma EmptyCallAsWritten(ctx: Context, p0: int, p1: int, p2: int, name: string)
    requires ctx.tokens == [IdentifierToken(p0, name), CharacterToken(p1, '('), CharacterToken(p2, ')')]
    requires (name, 0) in ctx.functions && ctx.grammar == AsWritten
    ensures ParseAll(ctx) == Failure(ExtraTokensAtEnd(p2))
  {
    var call := Call(Native(name), []);
    assert FunctionCall(ctx, 1, IdentifierToken(p0, name)) == Success(Parsed(call, 2));
    assert [] + [Node(call)] == [Node(call)];
    assert Collect(ctx, 0, []) == Collect(ctx, 2, [Node(call)]);
    assert Collect(ctx, 2, [Node(call)]) == Success(Parsed([Node(call)], 2));
    SingleNode(Additive, call, ctx.grammar);
  }

  /** Consuming that `)`, `f()` is the call of `f` with no arguments. */
  lemma EmptyCallCorrected(ctx: Context, p0: int, p1: int, p2: int, name: string)
    requires ctx.tokens == [IdentifierToken(p0, name), CharacterToken(p1, '('), CharacterToken(p2, ')')]
    requires (name, 0) in ctx.functions && ctx.grammar == Corrected
    ensures ParseAll(ctx) == Success(Call(Native(name), []))
  {
    var call := Call(Native(name), []);
    assert FunctionCall(ctx, 1, IdentifierToken(p0, name)) == Success(Parsed(call, 3));
    assert [] + [Node(call)] == [Node(call)];
    assert Collect(ctx, 0, []) == Collect(ctx, 3, [Node(call)]);
    SingleNode(Additive, call, ctx.grammar);
  }

  /** `a x b` for two numbers and an operator is collected as node, operator, node. */
  lemma CollectBinary(ctx: Context, p0: int, a: real, x: Token, p2: int, b: real)
    requires ctx.tokens == [NumberToken(p0, a), x, NumberToken(p2, b)]
    requires x.OperatorToken? && x.op in {'+', '-', '*', '/', '%', '^'}
    ensures Collect(ctx, 0, []) == Success(Parsed([Node(Constant(a)), Tok(x), Node(Constant(b))], 3))
  {
    var items := [Node(Constant(a)), Tok(x), Node(Constant(b))];
    assert [] + [items[0]] == [items[0]] && [items[0]] + [items[1]] == items[..2] && items[..2] + [items[2]] == items;
    assert Collect(ctx, 0, []) == Collect(ctx, 1, [items[0]]) == Collect(ctx, 2, items[..2]) == Collect(ctx, 3, items);
  }

  /** A list whose only operator is `^` resolves as it does at the power level. */
  lemma OnlyPower(items: seq<Item>, grammar: Grammar)
    requires |items| == 3 && items[0].Node? && items[2].Node? && items[1].Id() == '^'
    ensures Resolve(Additive, items, grammar) == Resolve(Power, items, grammar)
  {
    ResolveWithoutOperator(Additive, items, grammar);
    ResolveWithoutOperator(Multiplicative, items, grammar);
  }

  /** As written, `^` names an operation `exp` that the registry does not have. */
  lemma PowerAsWritten(ctx: Context, p0: int, p1: int, p2: int, a: real, b: real)
    requires ctx.tokens == [NumberToken(p0, a), OperatorToken(p1, '^'), NumberToken(p2, b)]
    requires ctx.grammar == AsWritten
    ensures ParseAll(ctx) == Failure(UnknownOperator(p1))
  {
    var x := OperatorToken(p1, '^');
    var items := [Node(Constant(a)), Tok(x), Node(Constant(b))];
    CollectBinary(ctx, p0, a, x, p2, b);
    OnlyPower(items, AsWritten);
    CaretOperation();
    BinaryUnknown(Power, Constant(a), x, Constant(b), AsWritten);
    assert Internal(ctx, 0) == Failure(UnknownOperator(p1));
  }

  /** Naming the registry's `pow`, `a ^ b` is the power operation on `a` and `b`. */
  lemma PowerCorrected(ctx: Context, p0: int, p1: int, p2: int, a: real, b: real)
    requires ctx.tokens == [NumberToken(p0, a), OperatorToken(p1, '^'), NumberToken(p2, b)]
    requires ctx.grammar == Corrected
    ensures ParseAll(ctx) == Success(Call(Builtin(Pow), [Constant(a), Constant(b)]))
  {
    var x := OperatorToken(p1, '^');
    var items := [Node(Constant(a)), Tok(x), Node(Constant(b))];
    CollectBinary(ctx, p0, a, x, p2, b);
    OnlyPower(items, Corrected);
    CaretOperation();
    BinaryNodes(Power, Constant(a), x, Constant(b), Corrected);
  }
}
