/** The arithmetic command classes (calculator/commands/arithmetic.py). The abstract
    base `Command` of calculator/commands/__init__.py has no behaviour of its own; a
    command class is modelled as one constructor of `CommandKind`. */
module Arithmetic {
  import opened Common
  import Operations

  datatype CommandKind = AddCommand | SubtractCommand | MultiplyCommand | DivideCommand

  /** The name each class is declared under, which ends in "Command". */
  function ClassName(k: CommandKind): (r: string)
    ensures |r| > 7 && r[|r| - 7..] == "Command"
  {
    match k
    case AddCommand => "AddCommand"
    case SubtractCommand => "SubtractCommand"
    case MultiplyCommand => "MultiplyCommand"
    case DivideCommand => "DivideCommand"
  }

  /** `k().execute(a, b)`: every command delegates to its primitive; only division can
      fail, and it fails exactly on a zero divisor. */
  function Execute(k: CommandKind, a: real, b: real): (r: Result<real, Operations.ArithmeticError>)
    ensures r.Err? <==> k == DivideCommand && b == 0.0
  {
    match k
    case AddCommand => Ok(Operations.Addition(a, b))
    case SubtractCommand => Ok(Operations.Subtraction(a, b))
    case MultiplyCommand => Ok(Operations.Multiplication(a, b))
    case DivideCommand => Operations.Division(a, b)
  }

  /** `k.description()`. */
  function Description(k: CommandKind): string {
    match k
    case AddCommand => "Add two numbers (Usage: add number1 number2)"
    case SubtractCommand => "Subtract two numbers (Usage: subtract number1 number2)"
    case MultiplyCommand => "Multiply two numbers (Usage: multiply number1 number2)"
    case DivideCommand => "Divide two numbers (Usage: divide number1 number2)"
  }

  /** What each command computes, and the message division by zero carries. */
  lemma ExecuteComputes(a: real, b: real)
    ensures Execute(AddCommand, a, b) == Ok(a + b)
    ensures Execute(SubtractCommand, a, b) == Ok(a - b)
    ensures Execute(MultiplyCommand, a, b) == Ok(a * b)
    ensures b != 0.0 ==> Execute(DivideCommand, a, b) == Ok(a / b)
    ensures b == 0.0 ==> Execute(DivideCommand, a, b) == Err(Operations.DivisionByZero)
    ensures Operations.Message(Operations.DivisionByZero) == "Cannot divide by zero"
  {
  }

  /** Subtract undoes Add and Divide undoes Multiply, as commands. */
  lemma ExecuteInverses(a: real, b: real)
    ensures Execute(SubtractCommand, Execute(AddCommand, a, b).value, b) == Ok(a)
    ensures b != 0.0 ==> Execute(DivideCommand, Execute(MultiplyCommand, a, b).value, b) == Ok(a)
  {
    if b != 0.0 { Operations.DivisionUndoesMultiplication(a, b); }
  }
}
