/**
 * The compiled expression: the variable table built from the declared
 * names, the value slots it hands out, and the tree the parser builds over
 * them. Evaluation writes the given values into the slots positionally and
 * then evaluates the tree; the slots keep their values between evaluations.
 *
 * Each `Variable` object of the table is a slot here: `e` is slot 0, `pi`
 * slot 1, and the i-th declared name slot i + 2. Declaring a name again
 * (or declaring `e` or `pi`) makes the table refer to the later slot only.
 */
module Expressions {
  import opened Wrappers
  import opened Ast
  import Lexing
  import Levels
  import Parsing
  import Folding

  /** The initial values of `e` and `pi`, as the decimal literals of the doubles. */
  const E: real := 2.718281828459045
  const PI: real := 3.141592653589793

  // ---------------------------------------------------------------------
  // The variable table
  // ---------------------------------------------------------------------

  /** The table after `e`, `pi` and then every declared name were put in, later puts replacing earlier ones. */
  function SlotTable(names: seq<string>): map<string, nat>
    decreases |names|
  {
    if |names| == 0 then map["e" := 0, "pi" := 1]
    else SlotTable(names[..|names| - 1])[names[|names| - 1] := |names| + 1]
  }

  /** The name occurs in the list after position `i`. */
  predicate OccursAfter(names: seq<string>, name: string, i: nat) {
    exists j :: i < j < |names| && names[j] == name
  }

  /** The table's keys are `e`, `pi` and the declared names. */
  lemma {:induction false} SlotTableKeys(names: seq<string>)
    ensures forall k :: k in SlotTable(names) <==> k == "e" || k == "pi" || k in names
    decreases |names|
  {
    if |names| > 0 {
      SlotTableKeys(names[..|names| - 1]);
      assert names == names[..|names| - 1] + [names[|names| - 1]];
    }
  }

  /** Every slot of the table is below the slot count. */
  lemma {:induction false} SlotTableBelow(names: seq<string>)
    ensures forall k :: k in SlotTable(names) ==> SlotTable(names)[k] < |names| + 2
    decreases |names|
  {
    if |names| > 0 {
      SlotTableBelow(names[..|names| - 1]);
    }
  }

  /** Every declared name has a slot, and each slot is one of the slots allocated. */
  lemma SlotTableBinds(names: seq<string>)
    ensures Binds(SlotTable(names), names, |names| + 2)
  {
    SlotTableKeys(names);
    SlotTableBelow(names);
  }

  /** A declared name refers to the slot of its LAST declaration. */
  lemma {:induction false} SlotTableLast(names: seq<string>, i: nat)
    requires i < |names|
    ensures names[i] in SlotTable(names)
    ensures var slot := SlotTable(names)[names[i]];
      2 + i <= slot < |names| + 2 && names[slot - 2] == names[i] && !OccursAfter(names, names[i], slot - 2)
    decreases |names|
  {
    var init := names[..|names| - 1];
    if names[i] != names[|names| - 1] {
      SlotTableLast(init, i);
      var slot := SlotTable(init)[names[i]];
      assert names[slot - 2] == init[slot - 2];
      forall j | slot - 2 < j < |names| ensures names[j] != names[i] {
        if j < |init| {
          assert names[j] == init[j];
        }
      }
    }
  }

  /** `e` and `pi` keep slots 0 and 1 unless declared. */
  lemma {:induction false} SlotTableConstants(names: seq<string>)
    ensures "e" !in names ==> "e" in SlotTable(names) && SlotTable(names)["e"] == 0
    ensures "pi" !in names ==> "pi" in SlotTable(names) && SlotTable(names)["pi"] == 1
    decreases |names|
  {
    if |names| > 0 {
      var init := names[..|names| - 1];
      SlotTableConstants(init);
      assert names == init + [names[|names| - 1]];
    }
  }

  /** Different keys of the table refer to different slots. */
  lemma SlotTableInjective(names: seq<string>, a: string, b: string)
    requires a in SlotTable(names) && b in SlotTable(names) && a != b
    ensures SlotTable(names)[a] != SlotTable(names)[b]
  {
    SlotTableKeys(names);
    SlotTableConstants(names);
    if a in names {
      var i :| 0 <= i < |names| && names[i] == a;
      SlotTableLast(names, i);
    }
    if b in names {
      var i :| 0 <= i < |names| && names[i] == b;
      SlotTableLast(names, i);
    }
  }

  /** The constructor's loop that puts `e`, `pi` and every declared name into the table. */
  method DeclareSlots(names: seq<string>) returns (table: map<string, nat>)
    ensures table == SlotTable(names)
  {
    table := map["e" := 0, "pi" := 1];
    for i := 0 to |names|
      invariant table == SlotTable(names[..i])
    {
      assert names[..i + 1][..i] == names[..i];
      table := table[names[i] := i + 2];
    }
    assert names[..|names|] == names;
  }

  /** The slots' values right after compilation: `e`, `pi`, then a zero per declared name. */
  function InitialSlots(count: nat): (s: seq<real>)
    ensures |s| == count + 2 && s[0] == E && s[1] == PI
    ensures forall i :: 2 <= i < |s| ==> s[i] == 0.0
  {
    [E, PI] + seq(count, _ => 0.0)
  }

  // ---------------------------------------------------------------------
  // Binding values to the declared names
  // ---------------------------------------------------------------------

  /** Every declared name has a slot below `bound` in the table. */
  predicate Binds(table: map<string, nat>, names: seq<string>, bound: nat) {
    forall i :: 0 <= i < |names| ==> names[i] in table && table[names[i]] < bound
  }

  /** The slots after the first `count` values were written to the slots of the first `count` names, in order. */
  function Assigned(slots: seq<real>, names: seq<string>, values: seq<real>, table: map<string, nat>, count: nat): (r: seq<real>)
    requires count <= |names| && count <= |values| && Binds(table, names, |slots|)
    ensures |r| == |slots|
    decreases count
  {
    if count == 0 then slots
    else Assigned(slots, names, values, table, count - 1)[table[names[count - 1]] := values[count - 1]]
  }

  /** A slot none of the first `count` names refers to keeps its value. */
  lemma {:induction false} AssignedUntouched(slots: seq<real>, names: seq<string>, values: seq<real>, table: map<string, nat>, count: nat, s: nat)
    requires count <= |names| && count <= |values| && Binds(table, names, |slots|) && s < |slots|
    requires forall i :: 0 <= i < count ==> table[names[i]] != s
    ensures Assigned(slots, names, values, table, count)[s] == slots[s]
    decreases count
  {
    if count > 0 {
      AssignedUntouched(slots, names, values, table, count - 1, s);
    }
  }

  /** A slot holds the value written by the last of the first `count` names that refers to it. */
  lemma {:induction false} AssignedLastWins(slots: seq<real>, names: seq<string>, values: seq<real>, table: map<string, nat>, count: nat, i: nat)
    requires count <= |names| && count <= |values| && Binds(table, names, |slots|) && i < count
    requires forall j :: i < j < count ==> table[names[j]] != table[names[i]]
    ensures Assigned(slots, names, values, table, count)[table[names[i]]] == values[i]
    decreases count
  {
    if i < count - 1 {
      AssignedLastWins(slots, names, values, table, count - 1, i);
    }
  }

  /**
   * In terms of names: after writing, a declared name reads the value at
   * the last position where it was given one, and `e` and `pi`, when not
   * declared, keep their values.
   */
  lemma BindByName(slots: seq<real>, names: seq<string>, values: seq<real>, count: nat, i: nat)
    requires count <= |names| && count <= |values| && |slots| == |names| + 2 && i < count
    requires forall j :: i < j < count ==> names[j] != names[i]
    ensures Binds(SlotTable(names), names, |slots|)
    ensures Assigned(slots, names, values, SlotTable(names), count)[SlotTable(names)[names[i]]] == values[i]
  {
    var table := SlotTable(names);
    SlotTableBinds(names);
    forall j | i < j < count ensures table[names[j]] != table[names[i]] {
      SlotTableInjective(names, names[j], names[i]);
    }
    AssignedLastWins(slots, names, values, table, count, i);
  }

  lemma ConstantsKept(slots: seq<real>, names: seq<string>, values: seq<real>, count: nat)
    requires count <= |names| && count <= |values| && |slots| == |names| + 2
    ensures Binds(SlotTable(names), names, |slots|)
    ensures "e" !in names ==> Assigned(slots, names, values, SlotTable(names), count)[0] == slots[0]
    ensures "pi" !in names ==> Assigned(slots, names, values, SlotTable(names), count)[1] == slots[1]
  {
    var table := SlotTable(names);
    SlotTableBinds(names);
    SlotTableConstants(names);
    if "e" !in names {
      forall i | 0 <= i < count ensures table[names[i]] != 0 {
        SlotTableInjective(names, names[i], "e");
      }
      AssignedUntouched(slots, names, values, table, count, 0);
    }
    if "pi" !in names {
      forall i | 0 <= i < count ensures table[names[i]] != 1 {
        SlotTableInjective(names, names[i], "pi");
      }
      AssignedUntouched(slots, names, values, table, count, 1);
    }
  }

  // ---------------------------------------------------------------------
  // Compilation
  // ---------------------------------------------------------------------

  datatype CompileError = LexFailed(lex: Lexing.LexError) | ParseFailed(parse: Levels.ParseError)

  /**
   * Tokenize, then parse over the table of the declared names. `AsWritten`
   * is the compiler as the parser is written; `Corrected` is the parser
   * with its two evident slips repaired.
   */
  function CompileTree(expression: string, names: seq<string>, functions: set<(string, nat)>, grammar: Levels.Grammar): Result<Expr, CompileError> {
    match Lexing.Scan(expression, 0)
    case Failure(err) => Failure(LexFailed(err))
    case Success(tokens) =>
      match Parsing.ParseAll(Parsing.Context(tokens, SlotTable(names), functions, grammar))
      case Failure(err) => Failure(ParseFailed(err))
      case Success(root) => Success(root)
  }

  /** A compiled tree refers only to the table's slots and holds no `NegateOperator` node. */
  lemma CompiledIsPlain(expression: string, names: seq<string>, functions: set<(string, nat)>, grammar: Levels.Grammar)
    ensures CompileTree(expression, names, functions, grammar).Success? ==>
      Plain(CompileTree(expression, names, functions, grammar).value, Scope(SlotTable(names).Values, functions))
      && SlotsBelow(CompileTree(expression, names, functions, grammar).value, |names| + 2)
  {
    var r := Lexing.Scan(expression, 0);
    if r.Success? {
      Parsing.ParsePlain(Parsing.Context(r.value, SlotTable(names), functions, grammar));
      SlotTableBelow(names);
      var root := CompileTree(expression, names, functions, grammar);
      if root.Success? {
        PlainSlotsBelow(root.value, Scope(SlotTable(names).Values, functions), |names| + 2);
      }
    }
  }

  /** Evaluating a compiled tree fails only when a library function throws. */
  lemma CompiledNeverMismatches(expression: string, names: seq<string>, functions: set<(string, nat)>, grammar: Levels.Grammar, slots: seq<real>, natives: Natives)
    requires |slots| == |names| + 2
    ensures CompileTree(expression, names, functions, grammar).Success? ==>
      var root := CompileTree(expression, names, functions, grammar).value;
      SlotsBelow(root, |slots|) &&
      (Eval(root, slots, natives).Failure? ==> Eval(root, slots, natives).error.NativeFailed?)
  {
    CompiledIsPlain(expression, names, functions, grammar);
    var root := CompileTree(expression, names, functions, grammar);
    if root.Success? {
      PlainNeverMismatches(root.value, Scope(SlotTable(names).Values, functions), slots, natives);
    }
  }

  /** Folding a compiled tree gives the same tree back. */
  lemma CompiledOptimizeIsIdentity(expression: string, names: seq<string>, functions: set<(string, nat)>, grammar: Levels.Grammar, slots: seq<real>, natives: Natives)
    requires |slots| == |names| + 2
    ensures CompileTree(expression, names, functions, grammar).Success? ==>
      var root := CompileTree(expression, names, functions, grammar).value;
      SlotsBelow(root, |slots|) && Folding.Optimize(root, slots, natives) == Success(root)
  {
    CompiledIsPlain(expression, names, functions, grammar);
    var root := CompileTree(expression, names, functions, grammar);
    if root.Success? {
      Folding.OptimizeKeepsOtherNodes(root.value, slots, natives);
    }
  }

  // ---------------------------------------------------------------------
  // The expression object
  // ---------------------------------------------------------------------

  /** Why `evaluate` threw. */
  datatype RunError =
    | IndexOutOfBounds(index: nat)   // more values than declared names
    | Failed(cause: EvalError)

  class Expression {
    const variableNames: seq<string>
    const variables: map<string, nat>
    const slots: array<real>
    var root: Expr
    /** The library functions the tree was parsed against. */
    ghost const functions: set<(string, nat)>

    ghost predicate Valid()
      reads this
    {
      slots.Length == |variableNames| + 2
      && variables == SlotTable(variableNames)
      && Plain(root, Scope(variables.Values, functions))
      && SlotsBelow(root, slots.Length)
    }

    /** The private constructor after parsing: fresh slots holding `e`, `pi` and zeros. */
    constructor (variableNames: seq<string>, variables: map<string, nat>, root: Expr, ghost functions: set<(string, nat)>)
      requires variables == SlotTable(variableNames)
      requires Plain(root, Scope(variables.Values, functions)) && SlotsBelow(root, |variableNames| + 2)
      ensures Valid() && fresh(slots)
      ensures this.variableNames == variableNames && this.root == root && this.functions == functions
      ensures slots[..] == InitialSlots(|variableNames|)
    {
      this.variableNames := variableNames;
      this.variables := variables;
      this.root := root;
      this.functions := functions;
      var s := new real[|variableNames| + 2];
      s[0] := E;
      s[1] := PI;
      for i := 2 to s.Length
        invariant s[0] == E && s[1] == PI
        invariant forall j :: 2 <= j < i ==> s[j] == 0.0
      {
        s[i] := 0.0;
      }
      this.slots := s;
    }

    /**
     * `evaluate`: write the values to the slots of the names at the same
     * positions, then evaluate the tree. Surplus values make the name
     * lookup go out of bounds after every name was written; missing values
     * leave the slots as the previous evaluation left them.
     */
    method Evaluate(values: seq<real>, natives: Natives) returns (r: Result<real, RunError>)
      requires Valid()
      modifies slots
      ensures Valid()
      ensures Binds(variables, variableNames, slots.Length)
      ensures slots[..] == Assigned(old(slots[..]), variableNames, values, variables,
        if |values| <= |variableNames| then |values| else |variableNames|)
      ensures |values| > |variableNames| ==> r == Failure(IndexOutOfBounds(|variableNames|))
      ensures |values| <= |variableNames| ==>
        match Eval(root, slots[..], natives)
        case Success(v) => r == Success(v)
        case Failure(err) => r == Failure(Failed(err)) && err.NativeFailed?
    {
      SlotTableBinds(variableNames);
      var count := if |values| <= |variableNames| then |values| else |variableNames|;
      for i := 0 to count
        invariant slots[..] == Assigned(old(slots[..]), variableNames, values, variables, i)
      {
        slots[variables[variableNames[i]]] := values[i];
      }
      if |values| > |variableNames| {
        return Failure(IndexOutOfBounds(|variableNames|));
      }
      PlainNeverMismatches(root, Scope(variables.Values, functions), slots[..], natives);
      var v := Eval(root, slots[..], natives);
      match v
      case Success(x) => r := Success(x);
      case Failure(err) => r := Failure(Failed(err));
    }

    /** `optimize`: replace the tree by its folded form, which for a compiled tree is the tree itself. */
    method Optimize(natives: Natives)
      requires Valid()
      modifies this
      ensures Valid()
      ensures Folding.Optimize(old(root), slots[..], natives) == Success(root)
      ensures root == old(root)
    {
      Folding.OptimizeKeepsOtherNodes(root, slots[..], natives);
      var folded := Folding.Optimize(root, slots[..], natives);
      root := folded.value;
    }

    /** `toString`: the tree's rendering. */
    function ToString(leaf: LeafText): string
      reads this
    {
      Render(root, leaf)
    }
  }

  /**
   * `compile`: tokenize, build the variable table, parse, and build the
   * expression object; with `AsWritten` it is the compiler as written.
   */
  method Compile(expression: string, variableNames: seq<string>, functions: set<(string, nat)>, grammar: Levels.Grammar)
    returns (r: Result<Expression, CompileError>)
    ensures r.Success? ==> fresh(r.value) && fresh(r.value.slots) && r.value.Valid() && r.value.functions == functions
    ensures r.Success? ==> r.value.variableNames == variableNames && r.value.slots[..] == InitialSlots(|variableNames|)
    ensures r.Success? ==> CompileTree(expression, variableNames, functions, grammar) == Success(r.value.root)
    ensures r.Failure? ==> CompileTree(expression, variableNames, functions, grammar) == Failure(r.error)
  {
    var tokens := Lexing.TokenizeText(expression);
    if tokens.Failure? {
      return Failure(LexFailed(tokens.error));
    }
    var table := DeclareSlots(variableNames);
    var root := Parsing.ParseTokens(tokens.value, table, functions, grammar);
    if root.Failure? {
      return Failure(ParseFailed(root.error));
    }
    CompiledIsPlain(expression, variableNames, functions, grammar);
    var e := new Expression(variableNames, table, root.value, functions);
    return Success(e);
  }
}
