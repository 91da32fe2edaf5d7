/**
 * The operator registry: the static numeric operations a call node can be
 * bound to, and the lookup of an operation by name and argument count.
 *
 * Doubles are modelled as `real`. Addition, subtraction, multiplication,
 * division by a non-zero number and the remainder by a non-zero number are
 * exact; the power function and division or remainder by zero (which give an
 * infinity or NaN) are supplied by a `FloatOps` value.
 */
module Operators {
  import opened Wrappers

  /** One constructor per static method of the registry. */
  datatype Op =
    | Add | Sub | Mul | Div | Mod | Pow
    | Neg | Not | Inv
    | Lth | Gth | Leq | Geq
    | Equ | Neq | Near
    | Or | And
    | Shl | Shr

  /** The parts of floating-point arithmetic the model does not compute. */
  datatype FloatOps = FloatOps(
    pow: (real, real) -> real,
    divideByZero: real -> real,
    remainderByZero: real -> real)

  /** The name of the static method implementing `op`. */
  function Name(op: Op): string {
    match op
    case Add => "add"
    case Sub => "sub"
    case Mul => "mul"
    case Div => "div"
    case Mod => "mod"
    case Pow => "pow"
    case Neg => "neg"
    case Not => "not"
    case Inv => "inv"
    case Lth => "lth"
    case Gth => "gth"
    case Leq => "leq"
    case Geq => "geq"
    case Equ => "equ"
    case Neq => "neq"
    case Near => "near"
    case Or => "or"
    case And => "and"
    case Shl => "shl"
    case Shr => "shr"
  }

  /** The number of `Invokable` parameters of the static method. */
  function Arity(op: Op): nat {
    match op
    case Neg | Not | Inv => 1
    case _ => 2
  }

  /**
   * Lookup by method name and parameter count (the one- and two-argument
   * overloads of `getOperator`); `None` is the `NoSuchMethodException`.
   */
  function GetOperator(name: string, arity: nat): (r: Option<Op>)
    ensures r.Some? ==> Name(r.value) == name && Arity(r.value) == arity
    ensures r.None? ==> forall op: Op :: Name(op) != name || Arity(op) != arity
  {
    if arity == 1 then
      if name == "neg" then Some(Neg)
      else if name == "not" then Some(Not)
      else if name == "inv" then Some(Inv)
      else None
    else if arity == 2 then
      if name == "add" then Some(Add)
      else if name == "sub" then Some(Sub)
      else if name == "mul" then Some(Mul)
      else if name == "div" then Some(Div)
      else if name == "mod" then Some(Mod)
      else if name == "pow" then Some(Pow)
      else if name == "lth" then Some(Lth)
      else if name == "gth" then Some(Gth)
      else if name == "leq" then Some(Leq)
      else if name == "geq" then Some(Geq)
      else if name == "equ" then Some(Equ)
      else if name == "neq" then Some(Neq)
      else if name == "near" then Some(Near)
      else if name == "or" then Some(Or)
      else if name == "and" then Some(And)
      else if name == "shl" then Some(Shl)
      else if name == "shr" then Some(Shr)
      else None
    else None
  }

  /** Every operation is found under its own name and arity, and only there. */
  lemma GetOperatorFindsEach(op: Op, name: string, arity: nat)
    ensures GetOperator(Name(op), Arity(op)) == Some(op)
    ensures GetOperator(name, arity) == Some(op) <==> name == Name(op) && arity == Arity(op)
  {
    match op
    case Add => case Sub => case Mul => case Div => case Mod => case Pow =>
    case Neg => case Not => case Inv =>
    case Lth => case Gth => case Leq => case Geq =>
    case Equ => case Neq => case Near =>
    case Or => case And =>
    case Shl => case Shr =>
  }

  // ---------------------------------------------------------------------
  // Truthiness and 64-bit integer conversions
  // ---------------------------------------------------------------------

  /** A double counts as true when it is greater than zero. */
  predicate Truth(x: real) {
    x > 0.0
  }

  function Boolean(b: bool): real {
    if b then 1.0 else 0.0
  }

  const MinLong: int := -0x8000_0000_0000_0000
  const MaxLong: int := 0x7FFF_FFFF_FFFF_FFFF
  const TwoTo64: int := 0x1_0000_0000_0000_0000

  /** The integer nearest to `x` in the direction of zero. */
  function TruncateTowardZero(x: real): (r: int)
    ensures 0.0 <= x ==> r as real <= x < r as real + 1.0
    ensures x < 0.0 ==> r as real - 1.0 < x <= r as real
  {
    if x >= 0.0 then x.Floor else -((-x).Floor)
  }

  /** Java's `(long)` cast of a double: round toward zero, then saturate. */
  function ToLong(x: real): (r: int)
    ensures MinLong <= r <= MaxLong
    ensures x <= MinLong as real ==> r == MinLong
    ensures MaxLong as real <= x ==> r == MaxLong
    ensures MinLong as real < x < MaxLong as real ==> r == TruncateTowardZero(x)
  {
    var t := TruncateTowardZero(x);
    if t < MinLong then MinLong else if t > MaxLong then MaxLong else t
  }

  /** A long read back from its exact double is the same long. */
  lemma ToLongOfLong(n: int)
    requires MinLong <= n <= MaxLong
    ensures ToLong(n as real) == n
  {
  }

  /** Two's-complement wrap-around of an integer into the range of a long. */
  function Wrap64(n: int): (r: int)
    ensures MinLong <= r <= MaxLong
    ensures (n - r) % TwoTo64 == 0
    ensures MinLong <= n <= MaxLong ==> r == n
  {
    var m := n % TwoTo64;
    if m > MaxLong then m - TwoTo64 else m
  }

  /** A long shift uses only the low six bits of its distance. */
  function ShiftDistance(n: int): (d: nat)
    ensures d < 64
    ensures (n - d) % 64 == 0
  {
    n % 64
  }

  function Pow2(k: nat): (r: nat)
    ensures r >= 1
  {
    if k == 0 then 1 else 2 * Pow2(k - 1)
  }

  // ---------------------------------------------------------------------
  // The operations on already-evaluated operands
  // ---------------------------------------------------------------------

  /** `neg`, `not` and `inv` applied to the value of their argument. */
  function Unary(op: Op, x: real): real
    requires Arity(op) == 1
  {
    match op
    case Neg => -x
    case Not => if Truth(x) then 0.0 else 1.0
    case Inv => (-ToLong(x) - 1) as real
  }

  /**
   * A two-argument operation applied to the values of its operands (for `or`
   * and `and`, when the left value has not already decided the result).
   */
  function Binary(op: Op, a: real, b: real, fp: FloatOps): real
    requires Arity(op) == 2
  {
    match op
    case Add => a + b
    case Sub => a - b
    case Mul => a * b
    case Div => if b != 0.0 then a / b else fp.divideByZero(a)
    case Mod => if b != 0.0 then a - b * TruncateTowardZero(a / b) as real else fp.remainderByZero(a)
    case Pow => fp.pow(a, b)
    case Lth => Boolean(a < b)
    case Gth => Boolean(a > b)
    case Leq => Boolean(a <= b)
    case Geq => Boolean(a >= b)
    case Equ => Boolean(a == b)
    case Neq => Boolean(a != b)
    case Near => Boolean(Abs(a - b) < 0.0000001)
    case Or => Boolean(Truth(a) || Truth(b))
    case And => Boolean(Truth(a) && Truth(b))
    case Shl => Wrap64(ToLong(a) * Pow2(ShiftDistance(ToLong(b)))) as real
    case Shr => (ToLong(a) / Pow2(ShiftDistance(ToLong(b)))) as real
  }

  function Abs(x: real): real {
    if x < 0.0 then -x else x
  }

  /**
   * Java's `||` and `&&` skip the right operand once the left one decides:
   * the value that is then returned without evaluating it.
   */
  function Decided(op: Op, a: real): (r: Option<real>)
    requires Arity(op) == 2
    ensures r.Some? ==> forall b, fp :: Binary(op, a, b, fp) == r.value
    ensures r.Some? <==> (op == Or && Truth(a)) || (op == And && !Truth(a))
  {
    if op == Or && Truth(a) then Some(1.0)
    else if op == And && !Truth(a) then Some(0.0)
    else None
  }

  // ---------------------------------------------------------------------
  // Laws of the registry's operations
  // ---------------------------------------------------------------------

  predicate IsComparison(op: Op) {
    op in {Lth, Gth, Leq, Geq, Equ, Neq, Near, Or, And}
  }

  /** Comparisons and logical operations answer exactly 1.0 or 0.0. */
  lemma ComparisonIsBoolean(op: Op, a: real, b: real, fp: FloatOps)
    requires IsComparison(op)
    ensures Binary(op, a, b, fp) == 1.0 || Binary(op, a, b, fp) == 0.0
  {
  }

  /** `lth` and `leq` are `gth` and `geq` with the operands swapped. */
  lemma OrderingsMirror(a: real, b: real, fp: FloatOps)
    ensures Binary(Lth, a, b, fp) == Binary(Gth, b, a, fp)
    ensures Binary(Leq, a, b, fp) == Binary(Geq, b, a, fp)
  {
  }

  /** Exactly one of `equ` and `neq` answers 1.0. */
  lemma EqualityComplement(a: real, b: real, fp: FloatOps)
    ensures Binary(Equ, a, b, fp) + Binary(Neq, a, b, fp) == 1.0
    ensures Binary(Equ, a, b, fp) == 1.0 <==> a == b
  {
  }

  /** `near` is symmetric and answers 1.0 exactly within 1e-7. */
  lemma NearLaw(a: real, b: real, fp: FloatOps)
    ensures Binary(Near, a, b, fp) == Binary(Near, b, a, fp)
    ensures Binary(Near, a, b, fp) == 1.0 <==> -0.0000001 < a - b < 0.0000001
  {
  }

  /** `not` answers 1.0 exactly for the values that are not true. */
  lemma NotLaw(x: real)
    ensures Unary(Not, x) == 1.0 <==> !Truth(x)
    ensures Unary(Not, x) + Boolean(Truth(x)) == 1.0
  {
  }

  /** `or` and `and` are the truth table of their operands' truthiness. */
  lemma LogicLaw(a: real, b: real, fp: FloatOps)
    ensures Binary(Or, a, b, fp) == 1.0 <==> Truth(a) || Truth(b)
    ensures Binary(And, a, b, fp) == 1.0 <==> Truth(a) && Truth(b)
    ensures Binary(Or, a, b, fp) == Binary(Or, b, a, fp)
    ensures Binary(And, a, b, fp) == Binary(And, b, a, fp)
  {
  }

  /**
   * `inv` is the bitwise complement of the truncated long: it stays within
   * the range of a long and applying it twice gives the truncation back.
   */
  lemma InvIsComplement(x: real)
    ensures MinLong as real <= Unary(Inv, x) <= MaxLong as real
    ensures Unary(Inv, Unary(Inv, x)) == ToLong(x) as real
  {
    var t := ToLong(x);
    ToLongOfLong(-t - 1);
  }

  /** `b` taken `q` times. */
  function Times(b: real, q: int): real {
    b * q as real
  }

  /**
   * The remainder differs from the dividend by a whole multiple of the
   * divisor, has the sign of the dividend and is smaller than the divisor.
   */
  lemma RemainderLaw(a: real, b: real, fp: FloatOps)
    requires b != 0.0
    ensures exists q: int :: a - Binary(Mod, a, b, fp) == Times(b, q)
    ensures Abs(Binary(Mod, a, b, fp)) < Abs(b)
    ensures 0.0 <= a ==> 0.0 <= Binary(Mod, a, b, fp)
    ensures a <= 0.0 ==> Binary(Mod, a, b, fp) <= 0.0
  {
    var q := a / b;
    var t := TruncateTowardZero(q);
    var d := q - t as real;
    assert Binary(Mod, a, b, fp) == a - b * t as real;
    assert a - Binary(Mod, a, b, fp) == Times(b, t);
    assert a - b * t as real == b * d by {
      assert a == b * q;
    }
    ScaledFraction(b, d);
    QuotientSign(a, b);
  }

  /** `b * d` for a fraction `d` lies strictly between zero and `b`. */
  lemma ScaledFraction(b: real, d: real)
    requires b != 0.0 && -1.0 < d < 1.0
    ensures Abs(b * d) < Abs(b)
    ensures (0.0 <= b) == (0.0 <= d) ==> 0.0 <= b * d
    ensures (0.0 <= b) != (0.0 <= d) ==> b * d <= 0.0
  {
    if 0.0 < b {
      assert b - b * d == b * (1.0 - d) && b * (1.0 - d) > 0.0;
      assert b + b * d == b * (1.0 + d) && b * (1.0 + d) > 0.0;
    } else {
      assert -b - b * d == -b * (1.0 + d) && -b * (1.0 + d) > 0.0;
      assert -b + b * d == -b * (1.0 - d) && -b * (1.0 - d) > 0.0;
    }
  }

  /** The quotient is non-negative exactly when the operands agree in sign. */
  lemma QuotientSign(a: real, b: real)
    requires b != 0.0
    ensures 0.0 <= a / b <==> (a == 0.0 || (0.0 < a) == (0.0 < b))
  {
  }

  /** Shift distances are taken modulo 64, so a shift by 64 is no shift. */
  lemma ShiftByWordSize(a: real, fp: FloatOps)
    ensures Binary(Shl, a, 64.0, fp) == ToLong(a) as real
    ensures Binary(Shr, a, 64.0, fp) == ToLong(a) as real
  {
    ToLongOfLong(64);
  }

  /** A left shift wraps around: 1 << 63 is the least long. */
  lemma ShiftWrapsAround(fp: FloatOps)
    ensures Binary(Shl, 1.0, 63.0, fp) == MinLong as real
  {
    ToLongOfLong(1);
    ToLongOfLong(63);
    assert ShiftDistance(63) == 63;
    var p := Pow2(63);
    assert p == 0x8000_0000_0000_0000 by {
      assert Pow2(10) == 1024;
      Pow2Add(10, 10);
      Pow2Add(20, 20);
      Pow2Add(40, 20);
      Pow2Add(60, 3);
    }
    assert Wrap64(1 * p) == MinLong;
  }

  lemma {:induction false} Pow2Add(i: nat, j: nat)
    ensures Pow2(i + j) == Pow2(i) * Pow2(j)
  {
    if i > 0 { Pow2Add(i - 1, j); }
  }
}
