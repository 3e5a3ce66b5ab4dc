/**
 * The nine binary operators of the pivot evaluator (pkg/pivot/operator.go):
 * the logic operators XOR, AND, OR over truthiness and the comparisons
 * GT, LT, NE, EQ, GE, LE over the sign of `compare`. All propagate NULL
 * strictly: a NULL argument gives NULL before anything else is evaluated.
 */
module Operators {
  import opened Wrappers
  import opened Values
  import opened Truthiness
  import opened Comparison

  datatype Op = Xor | And | Or | Gt | Lt | Ne | Eq | Ge | Le

  predicate IsLogic(op: Op) {
    op.Xor? || op.And? || op.Or?
  }

  predicate IsComparison(op: Op) {
    !IsLogic(op)
  }

  /** The predicate each comparison applies to the sign of `compare`. */
  function Holds(op: Op, c: int): (r: bool)
    requires IsComparison(op)
    ensures r <==>
      || (c > 0 && op in {Gt, Ne, Ge})
      || (c == 0 && op in {Eq, Ge, Le})
      || (c < 0 && op in {Lt, Ne, Le})
  {
    match op
    case Gt => c > 0
    case Lt => c < 0
    case Ne => c != 0
    case Eq => c == 0
    case Ge => c >= 0
    case Le => c <= 0
  }

  /**
   * The eval closure of operator `op`. Go's `&&` and `||` do not evaluate
   * their right operand once the left decides, so AND and OR convert `b`
   * only when `a` does not settle the result; XOR converts both.
   */
  function Eval(lib: Engine, op: Op, a: Value, b: Value): (r: Result<Value, Failure>)
    ensures a.Null? || b.Null? ==> r == Ok(Null)
    ensures r == Ok(Null) ==> a.Null? || b.Null?
    ensures r.Ok? && !r.value.Null? ==> r.value == BoolValue(true) || r.value == BoolValue(false)
  {
    if a.Null? || b.Null? then
      Ok(Null)
    else
      match op
      case Xor =>
        var x :- ConvertToBool(a);
        var y :- ConvertToBool(b);
        Ok(BoolValue(x != y))
      case And =>
        var x :- ConvertToBool(a);
        if !x then Ok(BoolValue(false))
        else
          var y :- ConvertToBool(b);
          Ok(BoolValue(y))
      case Or =>
        var x :- ConvertToBool(a);
        if x then Ok(BoolValue(true))
        else
          var y :- ConvertToBool(b);
          Ok(BoolValue(y))
      case _ =>
        var c :- Compare(lib, a, b);
        Ok(BoolValue(Holds(op, c)))
  }

  /** Every operator returns NULL exactly when one of its arguments is NULL. */
  lemma NullPropagation(lib: Engine, op: Op, a: Value, b: Value)
    ensures Eval(lib, op, a, b) == Ok(Null) <==> a.Null? || b.Null?
    ensures a.Null? || b.Null? ==> Eval(lib, op, a, b) == Ok(Null)
  {
  }

  /** A NULL argument never reaches the engine: the result does not depend on it. */
  lemma NullSkipsEngine(lib1: Engine, lib2: Engine, op: Op, a: Value, b: Value)
    requires a.Null? || b.Null?
    ensures Eval(lib1, op, a, b) == Eval(lib2, op, a, b)
  {
  }

  /** Both arguments readable as booleans, the logic operators are the boolean ones. */
  lemma LogicOverTruthiness(lib: Engine, a: Value, b: Value)
    requires !a.Null? && !b.Null?
    requires ConvertToBool(a).Ok? && ConvertToBool(b).Ok?
    ensures Eval(lib, Xor, a, b) == Ok(BoolValue(ConvertToBool(a).value != ConvertToBool(b).value))
    ensures Eval(lib, And, a, b) == Ok(BoolValue(ConvertToBool(a).value && ConvertToBool(b).value))
    ensures Eval(lib, Or, a, b) == Ok(BoolValue(ConvertToBool(a).value || ConvertToBool(b).value))
  {
  }

  /**
   * XOR, AND and OR are commutative whenever both orders succeed, and XOR
   * succeeds in one order exactly when it succeeds in the other.
   */
  lemma LogicCommutative(lib: Engine, op: Op, a: Value, b: Value)
    requires IsLogic(op)
    ensures Eval(lib, op, a, b).Ok? && Eval(lib, op, b, a).Ok? ==> Eval(lib, op, a, b) == Eval(lib, op, b, a)
    ensures op == Xor ==> (Eval(lib, op, a, b).Ok? <==> Eval(lib, op, b, a).Ok?)
  {
  }

  /**
   * The logic operators panic exactly when a conversion they perform panics,
   * with that conversion's failure: XOR converts both operands, AND converts
   * the right one only after a true left one, OR only after a false one.
   */
  lemma LogicPanics(lib: Engine, a: Value, b: Value, e: Failure)
    requires !a.Null? && !b.Null?
    ensures Eval(lib, Xor, a, b) == Err(e) <==>
      ConvertToBool(a) == Err(e) || (ConvertToBool(a).Ok? && ConvertToBool(b) == Err(e))
    ensures Eval(lib, And, a, b) == Err(e) <==>
      ConvertToBool(a) == Err(e) || (ConvertToBool(a) == Ok(true) && ConvertToBool(b) == Err(e))
    ensures Eval(lib, Or, a, b) == Err(e) <==>
      ConvertToBool(a) == Err(e) || (ConvertToBool(a) == Ok(false) && ConvertToBool(b) == Err(e))
  {
  }

  /** AND with a non-NULL left operand that reads as false is false, whatever the right operand is. */
  lemma AndShortCircuit(lib: Engine, a: Value, b: Value)
    requires !a.Null? && !b.Null? && ConvertToBool(a) == Ok(false)
    ensures Eval(lib, And, a, b) == Ok(BoolValue(false))
  {
  }

  /** OR with a non-NULL left operand that reads as true is true, whatever the right operand is. */
  lemma OrShortCircuit(lib: Engine, a: Value, b: Value)
    requires !a.Null? && !b.Null? && ConvertToBool(a) == Ok(true)
    ensures Eval(lib, Or, a, b) == Ok(BoolValue(true))
  {
  }

  /**
   * AND and OR are not commutative when one argument has no truthiness: the
   * left operand can decide the result before the right one is read.
   */
  lemma ShortCircuitAsymmetry(lib: Engine, t: Value)
    requires t.Time?
    ensures Eval(lib, And, Int64(0), t) == Ok(BoolValue(false))
    ensures Eval(lib, And, t, Int64(0)) == Err(UnreachableKind(t))
    ensures Eval(lib, Or, Int64(1), t) == Ok(BoolValue(true))
    ensures Eval(lib, Or, t, Int64(1)) == Err(UnreachableKind(t))
    ensures Eval(lib, Xor, Int64(0), t) == Err(UnreachableKind(t))
  {
  }

  /** Each comparison is its predicate on the sign of `compare`, and panics when `compare` does. */
  lemma ComparisonBySign(lib: Engine, op: Op, a: Value, b: Value)
    requires IsComparison(op) && !a.Null? && !b.Null?
    ensures Compare(lib, a, b).Ok? ==> Eval(lib, op, a, b) == Ok(BoolValue(Holds(op, Compare(lib, a, b).value)))
    ensures Compare(lib, a, b).Err? ==> Eval(lib, op, a, b) == Err(Compare(lib, a, b).error)
  {
  }

  /** For non-NULL arguments: GT is not LE, LT is not GE, EQ is not NE, and GE is GT or EQ. */
  lemma ComparisonComplements(lib: Engine, a: Value, b: Value)
    requires !a.Null? && !b.Null? && Compare(lib, a, b).Ok?
    ensures Eval(lib, Gt, a, b) == Ok(BoolValue(Eval(lib, Le, a, b) != Ok(BoolValue(true))))
    ensures Eval(lib, Lt, a, b) == Ok(BoolValue(Eval(lib, Ge, a, b) != Ok(BoolValue(true))))
    ensures Eval(lib, Eq, a, b) == Ok(BoolValue(Eval(lib, Ne, a, b) != Ok(BoolValue(true))))
    ensures Eval(lib, Ge, a, b) ==
      Ok(BoolValue(Eval(lib, Gt, a, b) == Ok(BoolValue(true)) || Eval(lib, Eq, a, b) == Ok(BoolValue(true))))
  {
  }

  /** `1 AND 0.4` is true: the decimal 0.4 is nonzero. */
  lemma AndWithDecimalExample(lib: Engine)
    ensures Eval(lib, And, Int64(1), Decimal(4, 1)) == Ok(BoolValue(true))
  {
  }

  /** `c1 OR c0` with c1 = 0 and c0 = 1 is true. */
  lemma OrExample(lib: Engine)
    ensures Eval(lib, Or, Int64(0), Int64(1)) == Ok(BoolValue(true))
  {
  }

  /** `0 OR c0` with c0 NULL is NULL, although the left operand is an integer. */
  lemma OrNullExample(lib: Engine)
    ensures Eval(lib, Or, Int64(0), Null) == Ok(Null)
  {
  }
}
