/**
 * Constant folding (optimize). A `NegateOperator` whose optimised argument is
 * a constant becomes a constant holding the negation's own value; otherwise it
 * is rebuilt around the optimised argument. Every other node is returned as
 * it is: the call node defines no folding of its own, and constants,
 * variables and the anonymous prefix negation have nothing to fold.
 *
 * Folding never changes a node: it returns a new tree.
 */
module Folding {
  import opened Wrappers
  import opened Ast

  /**
   * The folded tree. The value of a folded negation is computed by
   * evaluating the original node over the current slots, which is why the
   * result is a `Result`.
   */
  function Optimize(e: Expr, slots: seq<real>, natives: Natives): (r: Result<Expr, EvalError>)
    requires SlotsBelow(e, |slots|)
    ensures r.Success? ==> forall n :: SlotsBelow(e, n) ==> SlotsBelow(r.value, n)
    decreases e
  {
    match e
    case Negate(a) =>
      var folded :- Optimize(a, slots, natives);
      if folded.Constant? then
        var v :- Eval(e, slots, natives);
        Success(Constant(v))
      else
        Success(Negate(folded))
    case _ => Success(e)
  }

  /**
   * Folding preserves value: the folded tree exists (the evaluation done
   * while folding cannot fail) and evaluates, over ANY slot values, to what
   * the original evaluates to. In particular a subtree that folds to a
   * constant did not depend on the slots.
   */
  lemma {:induction false} OptimizePreservesValue(e: Expr, slots: seq<real>, later: seq<real>, natives: Natives)
    requires SlotsBelow(e, |slots|) && SlotsBelow(e, |later|)
    ensures Optimize(e, slots, natives).Success?
    ensures SlotsBelow(Optimize(e, slots, natives).value, |later|)
    ensures Eval(Optimize(e, slots, natives).value, later, natives) == Eval(e, later, natives)
    decreases e
  {
    match e
    case Negate(a) =>
      OptimizePreservesValue(a, slots, later, natives);
      OptimizePreservesValue(a, slots, slots, natives);
    case _ =>
  }

  /** Folding a folded tree changes nothing. */
  lemma {:induction false} OptimizeIdempotent(e: Expr, slots: seq<real>, natives: Natives)
    requires SlotsBelow(e, |slots|)
    ensures Optimize(e, slots, natives).Success? ==>
      Optimize(Optimize(e, slots, natives).value, slots, natives) == Optimize(e, slots, natives)
    decreases e
  {
    OptimizePreservesValue(e, slots, slots, natives);
    match e
    case Negate(a) =>
      OptimizePreservesValue(a, slots, slots, natives);
      OptimizeIdempotent(a, slots, natives);
    case _ =>
  }

  /**
   * The folding rule of a negation: a constant argument folds to the
   * constant holding its negation, anything else is wrapped in a new
   * negation of the folded argument.
   */
  lemma NegateFolding(a: Expr, slots: seq<real>, natives: Natives)
    requires SlotsBelow(a, |slots|)
    ensures Optimize(a, slots, natives).Success?
    ensures
      var folded := Optimize(a, slots, natives).value;
      Optimize(Negate(a), slots, natives) ==
        if folded.Constant? then Success(Constant(-folded.value)) else Success(Negate(folded))
  {
    OptimizePreservesValue(a, slots, slots, natives);
  }

  /** Only a negation node can be changed by folding. */
  lemma OptimizeKeepsOtherNodes(e: Expr, slots: seq<real>, natives: Natives)
    requires SlotsBelow(e, |slots|) && !e.Negate?
    ensures Optimize(e, slots, natives) == Success(e)
  {
  }
}
