/** The calculator object (calculator/core.py): a table from operator symbols to the
    four operations, and a history that records every successful calculation. */
module Core {
  import opened Common
  import Operations
  import History

  datatype Operator = Add | Subtract | Multiply | Divide

  /** `self.operations`, keyed by symbol. */
  const Operators: map<string, Operator> := map["+" := Add, "-" := Subtract, "*" := Multiply, "/" := Divide]

  /** Why `calculate` raised. */
  datatype CalculationError =
    | UnknownOperation(operation: string)       // ValueError("Unknown operation: ...")
    | Arithmetic(error: Operations.ArithmeticError)
    | HistoryNotSaved                           // the history's save raised

  /** One of `add`, `subtract`, `multiply`, `divide`; only a zero divisor fails. */
  function Apply(op: Operator, x: real, y: real): (r: Result<real, Operations.ArithmeticError>)
    ensures r.Err? <==> op == Divide && y == 0.0
  {
    match op
    case Add => Ok(Operations.Addition(x, y))
    case Subtract => Ok(Operations.Subtraction(x, y))
    case Multiply => Ok(Operations.Multiplication(x, y))
    case Divide => Operations.Division(x, y)
  }

  /** The table knows exactly four symbols, each bound to its own operation, and each
      operation computes what its symbol says. */
  lemma OperatorsAreTheFour(x: real, y: real)
    ensures Operators.Keys == {"+", "-", "*", "/"}
    ensures Apply(Operators["+"], x, y) == Ok(x + y)
    ensures Apply(Operators["-"], x, y) == Ok(x - y)
    ensures Apply(Operators["*"], x, y) == Ok(x * y)
    ensures y != 0.0 ==> Apply(Operators["/"], x, y) == Ok(x / y)
    ensures y == 0.0 ==> Apply(Operators["/"], x, y) == Err(Operations.DivisionByZero)
  {
    assert Operators["*"] == Multiply;
    assert Operations.Multiplication(x, y) == x * y;
  }

  /** The result `calculate` returns, or the error it raises, given whether the history
      save succeeds. */
  function Outcome(operation: string, x: real, y: real, saveOk: bool): (r: Result<real, CalculationError>)
    ensures operation !in Operators ==> r == Err(UnknownOperation(operation))
    ensures r.Ok? <==> operation in Operators && Apply(Operators[operation], x, y).Ok? && saveOk
    ensures r.Ok? ==> r.value == Apply(Operators[operation], x, y).value
  {
    if operation !in Operators then Err(UnknownOperation(operation))
    else match Apply(Operators[operation], x, y)
      case Err(e) => Err(Arithmetic(e))
      case Ok(v) => if saveOk then Ok(v) else Err(HistoryNotSaved)
  }

  /** Whether `calculate` appends to the history: exactly when the operation is known
      and does not fail, whatever then happens to the save. */
  predicate Records(operation: string, x: real, y: real) {
    operation in Operators && Apply(Operators[operation], x, y).Ok?
  }

  /** Success implies a record; a failed save is the one error that still records. */
  lemma RecordedIffComputed(operation: string, x: real, y: real, saveOk: bool)
    ensures Outcome(operation, x, y, saveOk).Ok? ==> Records(operation, x, y)
    ensures Records(operation, x, y) <==>
              Outcome(operation, x, y, saveOk).Ok? || Outcome(operation, x, y, saveOk) == Err(HistoryNotSaved)
  {
  }

  class Calculator {
    const history: History.CalculationHistory

    /** `Calculator()`: a history loaded from its backing file. */
    constructor (file: History.BackingFile)
      ensures fresh(history)
      ensures history.records == History.Load(file) && history.disk == file
    {
      history := new History.CalculationHistory(file);
    }

    /** `calculate(operation, x, y)` at clock reading `now`. A failure before the result is
        known leaves the history alone; a computed result is appended as one record
        `(now, operation, x, y, result)`, and then the save decides the outcome. */
    method Calculate(operation: string, x: real, y: real, now: History.Timestamp, saveOk: bool)
      returns (r: Result<real, CalculationError>)
      modifies history
      ensures r == Outcome(operation, x, y, saveOk)
      ensures !Records(operation, x, y) ==> unchanged(history)
      ensures Records(operation, x, y) ==>
                history.records == old(history.records)
                  + [History.Record(now, operation, x, y, Apply(Operators[operation], x, y).value)]
      ensures Records(operation, x, y) && saveOk ==> history.disk == Some(history.records)
      ensures Records(operation, x, y) && !saveOk ==> history.disk == old(history.disk)
    {
      if operation !in Operators {
        return Err(UnknownOperation(operation));
      }
      var computed := Apply(Operators[operation], x, y);
      if computed.Err? {
        return Err(Arithmetic(computed.error));
      }
      var result := computed.value;
      var saved := history.AddCalculation(operation, x, y, result, now, saveOk);
      if saved.Err? {
        return Err(HistoryNotSaved);
      }
      r := Ok(result);
    }
  }

  /** Two calculations around a rejected division: the history holds the two results,
      newest last, and nothing for the division. */
  method CalculateTwice(file: History.BackingFile, t0: History.Timestamp, t1: History.Timestamp, t2: History.Timestamp)
    returns (c: Calculator)
    requires file.None?
    ensures c.history.records == [History.Record(t0, "+", 2.0, 3.0, 5.0), History.Record(t2, "*", 4.0, 0.5, 2.0)]
  {
    c := new Calculator(file);
    var a := c.Calculate("+", 2.0, 3.0, t0, true);
    var b := c.Calculate("/", 1.0, 0.0, t1, true);
    assert b == Err(Arithmetic(Operations.DivisionByZero));
    var d := c.Calculate("*", 4.0, 0.5, t2, true);
    assert a == Ok(5.0) && d == Ok(2.0);
  }
}
