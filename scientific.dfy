/** The scientific plugin (calculator/plugins/scientific.py): the domain guards of
    `power` and `sqrt`, and the `pow` and `sqrt` commands that act on the host's last
    result. `math.pow` and `math.sqrt` are the parameters `pow` and `sqrt`, and
    `float(text)` is the parameter `parse`; printed lines are reports. */
module Scientific {
  import opened Common
  import Text

  type Parser = string -> Option<real>

  datatype DomainError =
    | FractionalPowerOfNegative   // "Cannot calculate fractional power of negative number"
    | NegativePowerOfZero         // "Cannot calculate negative power of zero"
    | NegativeSquareRoot          // "Cannot calculate square root of negative number"

  /** `y.is_integer()`. */
  predicate IsInteger(y: real) {
    y == y.Floor as real
  }

  /** `ScientificPlugin.power`: the two domain guards in order, then `pow`. */
  function Power(x: real, y: real, pow: (real, real) -> real): (r: Result<real, DomainError>)
    ensures r == Err(FractionalPowerOfNegative) <==> x < 0.0 && !IsInteger(y)
    ensures r == Err(NegativePowerOfZero) <==> x == 0.0 && y < 0.0
    ensures r.Ok? <==> !(x < 0.0 && !IsInteger(y)) && !(x == 0.0 && y < 0.0)
    ensures r.Ok? ==> r.value == pow(x, y)
  {
    if x < 0.0 && !IsInteger(y) then Err(FractionalPowerOfNegative)
    else if x == 0.0 && y < 0.0 then Err(NegativePowerOfZero)
    else Ok(pow(x, y))
  }

  /** `ScientificPlugin.sqrt`: fails exactly on a negative number. */
  function Sqrt(x: real, sqrt: real -> real): (r: Result<real, DomainError>)
    ensures r.Err? <==> x < 0.0
    ensures r.Err? ==> r.error == NegativeSquareRoot
    ensures r.Ok? ==> r.value == sqrt(x)
  {
    if x < 0.0 then Err(NegativeSquareRoot) else Ok(sqrt(x))
  }

  /** Integral exponents are allowed on negative bases, and every exponent on a
      positive base. */
  lemma PowerDomain(x: real, n: int, y: real, pow: (real, real) -> real)
    ensures Power(x, n as real, pow) == Err(NegativePowerOfZero) || Power(x, n as real, pow) == Ok(pow(x, n as real))
    ensures x > 0.0 ==> Power(x, y, pow) == Ok(pow(x, y))
  {
    assert (n as real).Floor == n;
  }

  // ---------------------------------------------------------------- the host

  /** The host's `result` attribute before `float(...)` is applied to it. */
  datatype Slot =
    | Absent               // no `result` attribute
    | NoneResult           // `result` is None
    | Number(value: real)  // a float or an int
    | Str(text: string)    // a string, converted by `float`
    | Opaque               // any other object: `float` raises TypeError

  datatype Report =
    | MissingArgument      // "Error: pow command requires a number"
    | InvalidArgument      // "Error: Invalid input for power operation"
    | UnexpectedArgument   // "Error: sqrt command takes no arguments"
    | NoPreviousResult     // "Error: No previous result available"
    | NotANumber           // "Error: Current result is not a valid number"
    | Domain(error: DomainError)
    | Computed(value: real)

  /** `float(self.result)`, after the two "no previous result" checks. */
  function CurrentValue(slot: Slot, parse: Parser): (r: Result<real, Report>)
    ensures r.Err? ==> r.error == NoPreviousResult || r.error == NotANumber
    ensures r.Err? && r.error == NoPreviousResult <==> slot.Absent? || slot.NoneResult?
    ensures slot.Number? ==> r == Ok(slot.value)
    ensures slot.Str? ==> (r.Ok? <==> parse(slot.text).Some?)
    ensures slot.Str? && parse(slot.text).Some? ==> r == Ok(parse(slot.text).value)
    ensures slot.Opaque? ==> r == Err(NotANumber)
  {
    match slot
    case Absent => Err(NoPreviousResult)
    case NoneResult => Err(NoPreviousResult)
    case Number(v) => Ok(v)
    case Str(t) => if parse(t).Some? then Ok(parse(t).value) else Err(NotANumber)
    case Opaque => Err(NotANumber)
  }

  /** What `do_pow arg` reports. Its checks run in order: an argument at all, a numeric
      argument, a previous result, a numeric result, then its own copy of the two
      guards; only then is `power` called. */
  function PowOutcome(slot: Slot, arg: string, parse: Parser, pow: (real, real) -> real): (r: Report)
    ensures arg == [] ==> r == MissingArgument
    ensures arg != [] && parse(arg).None? ==> r == InvalidArgument
    ensures r.Computed? ==> arg != [] && parse(arg).Some? && CurrentValue(slot, parse).Ok?
    ensures r.Computed? ==> r.value == pow(CurrentValue(slot, parse).value, parse(arg).value)
  {
    if arg == [] then MissingArgument
    else match parse(arg)
      case None => InvalidArgument
      case Some(y) =>
        match CurrentValue(slot, parse)
        case Err(e) => e
        case Ok(x) =>
          if x < 0.0 && !IsInteger(y) then Domain(FractionalPowerOfNegative)
          else if x == 0.0 && y < 0.0 then Domain(NegativePowerOfZero)
          else match Power(x, y, pow)
            case Ok(v) => Computed(v)
            case Err(e) => Domain(e)
  }

  /** What `do_sqrt arg` reports: any non-blank argument is refused first. */
  function SqrtOutcome(slot: Slot, arg: string, parse: Parser, sqrt: real -> real): (r: Report)
    ensures Text.Strip(arg) != [] ==> r == UnexpectedArgument
    ensures r.Computed? ==> Text.AllSpace(arg) && CurrentValue(slot, parse).Ok?
    ensures r.Computed? ==> r.value == sqrt(CurrentValue(slot, parse).value)
  {
    Text.StripEmptyIffAllSpace(arg);
    if arg != [] && Text.Strip(arg) != [] then UnexpectedArgument
    else match CurrentValue(slot, parse)
      case Err(e) => e
      case Ok(x) =>
        match Sqrt(x, sqrt)
        case Ok(v) => Computed(v)
        case Err(e) => Domain(e)
  }

  /** The guards `do_pow` repeats are those of `power`: once the argument and the
      result are numbers, `do_pow` reports exactly what `power` returns or raises,
      and `power` is never reached with inputs that fail a guard. */
  lemma PowAgreesWithPower(slot: Slot, arg: string, parse: Parser, pow: (real, real) -> real)
    requires arg != [] && parse(arg).Some? && CurrentValue(slot, parse).Ok?
    ensures var x, y := CurrentValue(slot, parse).value, parse(arg).value;
            match Power(x, y, pow)
            case Ok(v) => PowOutcome(slot, arg, parse, pow) == Computed(v)
            case Err(e) => PowOutcome(slot, arg, parse, pow) == Domain(e)
  {
  }

  /** Without a usable previous result neither command computes anything; a bad
      argument is reported before the result is even looked at. */
  lemma NoResultNoComputation(slot: Slot, arg: string, parse: Parser, pow: (real, real) -> real, sqrt: real -> real)
    requires CurrentValue(slot, parse).Err?
    ensures !PowOutcome(slot, arg, parse, pow).Computed?
    ensures !SqrtOutcome(slot, arg, parse, sqrt).Computed?
    ensures arg != [] && parse(arg).Some? ==> PowOutcome(slot, arg, parse, pow) == CurrentValue(slot, parse).error
    ensures Text.AllSpace(arg) ==> SqrtOutcome(slot, arg, parse, sqrt) == CurrentValue(slot, parse).error
  {
    Text.StripEmptyIffAllSpace(arg);
  }

  /** The square root command on a numeric result reports exactly what `sqrt` does. */
  lemma SqrtAgreesWithSqrt(slot: Slot, arg: string, parse: Parser, sqrt: real -> real)
    requires Text.AllSpace(arg) && CurrentValue(slot, parse).Ok?
    ensures var x := CurrentValue(slot, parse).value;
            match Sqrt(x, sqrt)
            case Ok(v) => SqrtOutcome(slot, arg, parse, sqrt) == Computed(v)
            case Err(e) => SqrtOutcome(slot, arg, parse, sqrt) == Domain(e)
  {
    Text.StripEmptyIffAllSpace(arg);
  }

  /** The handlers `register_commands` binds on the host itself. */
  const Handlers: set<string> := {"do_pow", "do_sqrt", "help_pow", "help_sqrt"}

  /** The REPL object as the scientific plugin sees it. */
  class ScientificHost {
    var result: Slot
    var hasPlugin: bool             // the `scientific_plugin` attribute is set
    var handlers: set<string>

    constructor (result: Slot)
      ensures this.result == result && !hasPlugin && handlers == {}
    {
      this.result := result;
      hasPlugin := false;
      handlers := {};
    }

    /** `register_commands`. */
    method RegisterCommands()
      modifies this
      ensures hasPlugin && handlers == old(handlers) + Handlers && result == old(result)
    {
      hasPlugin := true;
      handlers := handlers + Handlers;
    }

    /** `do_pow`: `result` becomes the power on success and is untouched otherwise. */
    method DoPow(arg: string, parse: Parser, pow: (real, real) -> real) returns (r: Report)
      modifies this
      ensures r == PowOutcome(old(result), arg, parse, pow)
      ensures r.Computed? ==> result == Number(r.value)
      ensures !r.Computed? ==> result == old(result)
      ensures hasPlugin == old(hasPlugin) && handlers == old(handlers)
    {
      if arg == [] {
        return MissingArgument;
      }
      var y := parse(arg);
      if y.None? {
        return InvalidArgument;
      }
      var x := CurrentValue(result, parse);
      if x.Err? {
        return x.error;
      }
      if x.value < 0.0 && !IsInteger(y.value) {
        return Domain(FractionalPowerOfNegative);
      }
      if x.value == 0.0 && y.value < 0.0 {
        return Domain(NegativePowerOfZero);
      }
      var p := Power(x.value, y.value, pow);
      // The guards above are those of `power`, so its `ValueError` cannot reach the
      // `except` clause here.
      assert p.Ok?;
      result := Number(p.value);
      r := Computed(p.value);
    }

    /** `do_sqrt`: `result` becomes the root on success and is untouched otherwise. */
    method DoSqrt(arg: string, parse: Parser, sqrt: real -> real) returns (r: Report)
      modifies this
      ensures r == SqrtOutcome(old(result), arg, parse, sqrt)
      ensures r.Computed? ==> result == Number(r.value)
      ensures !r.Computed? ==> result == old(result)
      ensures hasPlugin == old(hasPlugin) && handlers == old(handlers)
    {
      if arg != [] && Text.Strip(arg) != [] {
        return UnexpectedArgument;
      }
      var x := CurrentValue(result, parse);
      if x.Err? {
        return x.error;
      }
      var s := Sqrt(x.value, sqrt);
      if s.Err? {
        return Domain(s.error);
      }
      result := Number(s.value);
      r := Computed(s.value);
    }
  }

  /** `pow 2` after a result of 3, then `sqrt` of a negative result: the first updates
      the result, the second is refused and leaves it. */
  method SquareThenRefuseRoot(parse: Parser, pow: (real, real) -> real, sqrt: real -> real)
    returns (first: Report, second: Report)
    requires parse("2") == Some(2.0)
    ensures first == Computed(pow(3.0, 2.0))
    ensures second == Domain(NegativeSquareRoot)
  {
    var host := new ScientificHost(Number(3.0));
    host.RegisterCommands();
    first := host.DoPow("2", parse, pow);
    host.result := Number(-1.0);
    second := host.DoSqrt("", parse, sqrt);
    assert host.result == Number(-1.0);
  }
}
