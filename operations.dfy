/** The four arithmetic primitives (calculator/operations.py), over the reals. */
module Operations {
  import opened Common

  /** The one error the primitives raise: `ValueError("Cannot divide by zero")`. */
  datatype ArithmeticError = DivisionByZero

  function Message(e: ArithmeticError): string {
    match e
    case DivisionByZero => "Cannot divide by zero"
  }

  /** The sum: taking away either operand leaves the other. */
  function Addition(a: real, b: real): (r: real)
    ensures r - b == a && r - a == b
  {
    a + b
  }

  /** The difference: adding back the subtrahend gives the minuend. */
  function Subtraction(a: real, b: real): (r: real)
    ensures r + b == a
  {
    a - b
  }

  /** The product: zero exactly when a factor is zero, and dividing by a non-zero
      factor gives back the other. */
  function Multiplication(a: real, b: real): (r: real)
    ensures r == 0.0 <==> a == 0.0 || b == 0.0
    ensures b != 0.0 ==> r / b == a
  {
    a * b
  }

  /** Fails exactly on a zero divisor; otherwise its quotient times the divisor is
      the dividend. */
  function Division(a: real, b: real): (r: Result<real, ArithmeticError>)
    ensures r.Err? <==> b == 0.0
    ensures r.Err? ==> r.error == DivisionByZero
    ensures r.Ok? ==> r.value * b == a
  {
    if b == 0.0 then Err(DivisionByZero) else Ok(a / b)
  }

  /** Subtraction undoes addition. */
  lemma SubtractionUndoesAddition(a: real, b: real)
    ensures Subtraction(Addition(a, b), b) == a
    ensures Addition(Subtraction(a, b), b) == a
  {
  }

  /** Division by a non-zero number undoes multiplication by it, and the other way round. */
  lemma DivisionUndoesMultiplication(a: real, b: real)
    requires b != 0.0
    ensures Division(Multiplication(a, b), b) == Ok(a)
    ensures Division(a, b).Ok? && Multiplication(Division(a, b).value, b) == a
  {
    var q := Multiplication(a, b);
    var d := Division(q, b).value;
    assert d * b == a * b;
    assert (d - a) * b == 0.0;
    assert d - a == 0.0;
  }
}
