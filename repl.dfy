/** The command registry and the read-eval-print loop (calculator/repl.py).

    The reflective scan of the commands package is replaced by its result: for each
    module `pkgutil.iter_modules` lists, the bindings `inspect.getmembers` reports,
    in that order. `Decimal(text)` is the parameter `parse`, a partial function from
    strings to numbers. Printing is replaced by the values the prints would show. */
module Repl {
  import opened Common
  import opened Text
  import Arithmetic
  import Operations

  // ------------------------------------------------------------ registry

  /** One binding found in a scanned module. */
  datatype Member =
    | CommandClass(name: string, kind: Arithmetic.CommandKind)  // a subclass of Command
    | BaseCommand(name: string)                                // the base class Command itself
    | OtherMember(name: string)                                // anything else

  const Suffix := "Command"

  /** `item_name.replace('Command', '').lower()`: the key a class is registered under. */
  function DerivedName(itemName: string): string {
    Lower(RemoveAll(itemName, Suffix))
  }

  /** A class named `Base + "Command"`, where `Base` has no "Command" of its own, is
      registered under `Base` lower-cased. */
  lemma DerivedNameDropsSuffix(base: string)
    requires !Occurs(base, Suffix)
    ensures DerivedName(base + Suffix) == Lower(base)
  {
    assert Borderless(Suffix) by {
      forall m | 0 < m < |Suffix| ensures Suffix[..m] != Suffix[|Suffix| - m..] {
        assert Suffix[..m][0] == 'C' && Suffix[|Suffix| - m..][m - 1] == 'd';
      }
    }
    RemoveAllTrailing(base, Suffix);
  }

  type Table = map<string, Arithmetic.CommandKind>

  /** The table that registering `members` one after the other into `table` yields:
      a command class sets the entry of its derived name, overwriting any earlier one;
      the base class and every other binding are skipped. */
  function Register(table: Table, members: seq<Member>): Table
    decreases |members|
  {
    if |members| == 0 then table
    else
      var last := members[|members| - 1];
      var t := Register(table, members[..|members| - 1]);
      if last.CommandClass? then t[DerivedName(last.name) := last.kind] else t
  }

  /** The bindings of all scanned modules, module after module. */
  function Flatten(modules: seq<seq<Member>>): seq<Member> {
    if |modules| == 0 then [] else Flatten(modules[..|modules| - 1]) + modules[|modules| - 1]
  }

  /** The registry `load_commands` builds from scratch. */
  function Registry(modules: seq<seq<Member>>): Table {
    Register(map[], Flatten(modules))
  }

  /** A name is a key exactly when some command class among the members derives to it. */
  lemma {:induction false} RegisteredKeys(members: seq<Member>, name: string)
    ensures name in Register(map[], members) <==>
      exists i :: 0 <= i < |members| && members[i].CommandClass? && DerivedName(members[i].name) == name
    decreases |members|
  {
    if |members| > 0 {
      var n := |members| - 1;
      var init := members[..n];
      RegisteredKeys(init, name);
      if name in Register(map[], init) {
        var i :| 0 <= i < |init| && init[i].CommandClass? && DerivedName(init[i].name) == name;
        assert members[i] == init[i];
      }
      if exists i :: 0 <= i < |members| && members[i].CommandClass? && DerivedName(members[i].name) == name {
        var i :| 0 <= i < |members| && members[i].CommandClass? && DerivedName(members[i].name) == name;
        if i < n { assert init[i] == members[i]; }
      }
    }
  }

  /** A later class deriving to the same name overwrites an earlier one: the entry is the
      class of the last member that derives to it. */
  lemma {:induction false} RegisteredLastWins(members: seq<Member>, i: nat)
    requires i < |members| && members[i].CommandClass?
    requires forall j :: i < j < |members| && members[j].CommandClass? ==>
               DerivedName(members[j].name) != DerivedName(members[i].name)
    ensures DerivedName(members[i].name) in Register(map[], members)
    ensures Register(map[], members)[DerivedName(members[i].name)] == members[i].kind
    decreases |members|
  {
    var n := |members| - 1;
    if i < n {
      var init := members[..n];
      assert init[i] == members[i];
      forall j | i < j < |init| && init[j].CommandClass?
        ensures DerivedName(init[j].name) != DerivedName(init[i].name)
      {
        assert init[j] == members[j];
      }
      RegisteredLastWins(init, i);
    }
  }

  /** Registering into a table and then continuing with more members is one pass. */
  lemma RegisterOneMore(table: Table, members: seq<Member>, m: Member)
    ensures Register(table, members + [m]) ==
      (if m.CommandClass? then Register(table, members)[DerivedName(m.name) := m.kind]
       else Register(table, members))
  {
    assert (members + [m])[..|members|] == members;
  }

  /** What the scan of calculator/commands/arithmetic.py finds, in the name order
      `inspect.getmembers` reports (the module's dunder attributes, none of them a
      class, are omitted). */
  const ArithmeticModule: seq<Member> := [
    CommandClass("AddCommand", Arithmetic.AddCommand),
    BaseCommand("Command"),
    OtherMember("Decimal"),
    CommandClass("DivideCommand", Arithmetic.DivideCommand),
    CommandClass("MultiplyCommand", Arithmetic.MultiplyCommand),
    CommandClass("SubtractCommand", Arithmetic.SubtractCommand),
    OtherMember("logger"),
    OtherMember("operations")
  ]

  /** The commands package holds one module, `arithmetic`. */
  const CommandsPackage: seq<seq<Member>> := [ArithmeticModule]

  /** The registry of the shipped package maps exactly `add`, `subtract`, `multiply` and
      `divide` to their classes. */
  lemma ShippedRegistry()
    ensures Registry(CommandsPackage) == map[
      "add" := Arithmetic.AddCommand, "subtract" := Arithmetic.SubtractCommand,
      "multiply" := Arithmetic.MultiplyCommand, "divide" := Arithmetic.DivideCommand]
  {
    assert Flatten(CommandsPackage) == ArithmeticModule by {
      assert CommandsPackage[..0] == [];
    }
    ArithmeticModuleRegistry();
  }

  lemma ArithmeticModuleRegistry()
    ensures Register(map[], ArithmeticModule) == map[
      "add" := Arithmetic.AddCommand, "subtract" := Arithmetic.SubtractCommand,
      "multiply" := Arithmetic.MultiplyCommand, "divide" := Arithmetic.DivideCommand]
  {
    var ms := ArithmeticModule;
    assert |ms| == 8 && !ms[1].CommandClass? && !ms[2].CommandClass? && !ms[6].CommandClass? && !ms[7].CommandClass?;
    assert ms[0].CommandClass? && ms[0].kind == Arithmetic.AddCommand && DerivedName(ms[0].name) == "add" by {
      NamesOfShippedClasses();
    }
    assert ms[3].CommandClass? && ms[3].kind == Arithmetic.DivideCommand && DerivedName(ms[3].name) == "divide" by {
      NamesOfShippedClasses();
    }
    assert ms[4].CommandClass? && ms[4].kind == Arithmetic.MultiplyCommand && DerivedName(ms[4].name) == "multiply" by {
      NamesOfShippedClasses();
    }
    assert ms[5].CommandClass? && ms[5].kind == Arithmetic.SubtractCommand && DerivedName(ms[5].name) == "subtract" by {
      NamesOfShippedClasses();
    }
    ScanRegistry(ms);
  }

  /** Registering a scan shaped like the one of the arithmetic module. */
  lemma ScanRegistry(ms: seq<Member>)
    requires |ms| == 8
    requires ms[0].CommandClass? && ms[0].kind == Arithmetic.AddCommand && DerivedName(ms[0].name) == "add"
    requires !ms[1].CommandClass? && !ms[2].CommandClass?
    requires ms[3].CommandClass? && ms[3].kind == Arithmetic.DivideCommand && DerivedName(ms[3].name) == "divide"
    requires ms[4].CommandClass? && ms[4].kind == Arithmetic.MultiplyCommand && DerivedName(ms[4].name) == "multiply"
    requires ms[5].CommandClass? && ms[5].kind == Arithmetic.SubtractCommand && DerivedName(ms[5].name) == "subtract"
    requires !ms[6].CommandClass? && !ms[7].CommandClass?
    ensures Register(map[], ms) == map[
      "add" := Arithmetic.AddCommand, "subtract" := Arithmetic.SubtractCommand,
      "multiply" := Arithmetic.MultiplyCommand, "divide" := Arithmetic.DivideCommand]
  {
    ScanSecondHalf(ms);
    var all := Register(map[], ms[..6]);
    RegisterStep(ms, 6, all, all);
    RegisterStep(ms, 7, all, all);
    assert ms[..8] == ms;
  }

  lemma ScanFirstHalf(ms: seq<Member>)
    requires |ms| == 8
    requires ms[0].CommandClass? && ms[0].kind == Arithmetic.AddCommand && DerivedName(ms[0].name) == "add"
    requires !ms[1].CommandClass? && !ms[2].CommandClass?
    requires ms[3].CommandClass? && ms[3].kind == Arithmetic.DivideCommand && DerivedName(ms[3].name) == "divide"
    requires ms[4].CommandClass? && ms[4].kind == Arithmetic.MultiplyCommand && DerivedName(ms[4].name) == "multiply"
    requires ms[5].CommandClass? && ms[5].kind == Arithmetic.SubtractCommand && DerivedName(ms[5].name) == "subtract"
    requires !ms[6].CommandClass? && !ms[7].CommandClass?
    ensures Register(map[], ms[..4]) == map["add" := Arithmetic.AddCommand, "divide" := Arithmetic.DivideCommand]
  {
    var add := map["add" := Arithmetic.AddCommand];
    RegisterStep(ms, 0, map[], add);
    RegisterStep(ms, 1, add, add);
    RegisterStep(ms, 2, add, add);
    RegisterStep(ms, 3, add, add["divide" := Arithmetic.DivideCommand]);
  }

  lemma ScanSecondHalf(ms: seq<Member>)
    requires |ms| == 8
    requires ms[0].CommandClass? && ms[0].kind == Arithmetic.AddCommand && DerivedName(ms[0].name) == "add"
    requires !ms[1].CommandClass? && !ms[2].CommandClass?
    requires ms[3].CommandClass? && ms[3].kind == Arithmetic.DivideCommand && DerivedName(ms[3].name) == "divide"
    requires ms[4].CommandClass? && ms[4].kind == Arithmetic.MultiplyCommand && DerivedName(ms[4].name) == "multiply"
    requires ms[5].CommandClass? && ms[5].kind == Arithmetic.SubtractCommand && DerivedName(ms[5].name) == "subtract"
    requires !ms[6].CommandClass? && !ms[7].CommandClass?
    ensures Register(map[], ms[..6]) == map[
      "add" := Arithmetic.AddCommand, "subtract" := Arithmetic.SubtractCommand,
      "multiply" := Arithmetic.MultiplyCommand, "divide" := Arithmetic.DivideCommand]
  {
    ScanFirstHalf(ms);
    var half := map["add" := Arithmetic.AddCommand, "divide" := Arithmetic.DivideCommand];
    RegisterStep(ms, 4, half, half["multiply" := Arithmetic.MultiplyCommand]);
    RegisterStep(ms, 5, half["multiply" := Arithmetic.MultiplyCommand],
                 half["multiply" := Arithmetic.MultiplyCommand]["subtract" := Arithmetic.SubtractCommand]);
  }

  lemma RegisterStep(ms: seq<Member>, k: nat, before: Table, after: Table)
    requires k < |ms| && Register(map[], ms[..k]) == before
    requires after == if ms[k].CommandClass? then before[DerivedName(ms[k].name) := ms[k].kind] else before
    ensures Register(map[], ms[..k + 1]) == after
  {
    assert ms[..k + 1] == ms[..k] + [ms[k]];
    RegisterOneMore(map[], ms[..k], ms[k]);
  }

  /** The derived names of the four shipped classes. */
  lemma NamesOfShippedClasses()
    ensures DerivedName("AddCommand") == "add"
    ensures DerivedName("SubtractCommand") == "subtract"
    ensures DerivedName("MultiplyCommand") == "multiply"
    ensures DerivedName("DivideCommand") == "divide"
  {
    ShippedName(Arithmetic.AddCommand);
    ShippedName(Arithmetic.SubtractCommand);
    ShippedName(Arithmetic.MultiplyCommand);
    ShippedName(Arithmetic.DivideCommand);
  }

  /** The derived name of one shipped class. */
  lemma ShippedName(k: Arithmetic.CommandKind)
    ensures DerivedName(Arithmetic.ClassName(k)) == match k
      case AddCommand => "add"
      case SubtractCommand => "subtract"
      case MultiplyCommand => "multiply"
      case DivideCommand => "divide"
  {
    match k {
      case AddCommand =>
        NameOf("Add", "add");
        assert "Add" + Suffix == "AddCommand";
      case SubtractCommand =>
        NameOf("Subtract", "subtract");
        assert "Subtract" + Suffix == "SubtractCommand";
      case MultiplyCommand =>
        NameOf("Multiply", "multiply");
        assert "Multiply" + Suffix == "MultiplyCommand";
      case DivideCommand =>
        NameOf("Divide", "divide");
        assert "Divide" + Suffix == "DivideCommand";
    }
  }

  /** Each description is "<Verb> two numbers (Usage: <key> number1 number2)", where the
      class is named "<Verb>Command" and `<key>` is the name the class is registered
      under: the usage line names the command the user has to type. */
  lemma UsageNamesItsKey(k: Arithmetic.CommandKind) returns (verb: string)
    ensures Arithmetic.ClassName(k) == verb + Suffix
    ensures Arithmetic.Description(k) ==
      verb + " two numbers (Usage: " + DerivedName(Arithmetic.ClassName(k)) + " number1 number2)"
  {
    var key;
    verb, key := UsageLine(k);
    assert DerivedName(Arithmetic.ClassName(k)) == key by { NamesOfShippedClasses(); }
  }

  /** The usage line of each class, spelled out around its verb and its key. */
  lemma UsageLine(k: Arithmetic.CommandKind) returns (verb: string, key: string)
    ensures Arithmetic.ClassName(k) == verb + Suffix
    ensures Arithmetic.Description(k) == verb + " two numbers (Usage: " + key + " number1 number2)"
    ensures key == match k
      case AddCommand => "add"
      case SubtractCommand => "subtract"
      case MultiplyCommand => "multiply"
      case DivideCommand => "divide"
  {
    match k {
      case AddCommand => verb, key := "Add", "add"; AddUsage();
      case SubtractCommand => verb, key := "Subtract", "subtract"; SubtractUsage();
      case MultiplyCommand => verb, key := "Multiply", "multiply"; MultiplyUsage();
      case DivideCommand => verb, key := "Divide", "divide"; DivideUsage();
    }
  }

  // The four cases of `UsageLine`, one lemma each: spelling out one description
  // costs about half the solver budget, so the four do not fit in one proof.
  lemma AddUsage()
    ensures Arithmetic.ClassName(Arithmetic.AddCommand) == "Add" + Suffix
    ensures Arithmetic.Description(Arithmetic.AddCommand) == "Add" + " two numbers (Usage: " + "add" + " number1 number2)"
  {
    var head := "Add" + " two numbers (Usage: ";
    assert head == "Add two numbers (Usage: ";
    var line := head + "add";
    assert line == "Add two numbers (Usage: add";
    assert line + " number1 number2)" == Arithmetic.Description(Arithmetic.AddCommand);
  }

  lemma SubtractUsage()
    ensures Arithmetic.ClassName(Arithmetic.SubtractCommand) == "Subtract" + Suffix
    ensures Arithmetic.Description(Arithmetic.SubtractCommand) == "Subtract" + " two numbers (Usage: " + "subtract" + " number1 number2)"
  {
    var head := "Subtract" + " two numbers (Usage: ";
    assert head == "Subtract two numbers (Usage: ";
    var line := head + "subtract";
    assert line == "Subtract two numbers (Usage: subtract";
    assert line + " number1 number2)" == Arithmetic.Description(Arithmetic.SubtractCommand);
  }

  lemma MultiplyUsage()
    ensures Arithmetic.ClassName(Arithmetic.MultiplyCommand) == "Multiply" + Suffix
    ensures Arithmetic.Description(Arithmetic.MultiplyCommand) == "Multiply" + " two numbers (Usage: " + "multiply" + " number1 number2)"
  {
    var head := "Multiply" + " two numbers (Usage: ";
    assert head == "Multiply two numbers (Usage: ";
    var line := head + "multiply";
    assert line == "Multiply two numbers (Usage: multiply";
    assert line + " number1 number2)" == Arithmetic.Description(Arithmetic.MultiplyCommand);
  }

  lemma DivideUsage()
    ensures Arithmetic.ClassName(Arithmetic.DivideCommand) == "Divide" + Suffix
    ensures Arithmetic.Description(Arithmetic.DivideCommand) == "Divide" + " two numbers (Usage: " + "divide" + " number1 number2)"
  {
    var head := "Divide" + " two numbers (Usage: ";
    assert head == "Divide two numbers (Usage: ";
    var line := head + "divide";
    assert line == "Divide two numbers (Usage: divide";
    assert line + " number1 number2)" == Arithmetic.Description(Arithmetic.DivideCommand);
  }

  lemma NameOf(base: string, lowered: string)
    requires 0 < |base| <= 8 && |lowered| == |base|
    requires forall k :: 0 <= k < |base| ==> LowerChar(base[k]) == lowered[k]
    requires base[0] != 'C' && (|base| == 8 ==> base[1] != 'C')
    ensures DerivedName(base + Suffix) == lowered
  {
    assert !Occurs(base, Suffix) by {
      forall i | 0 <= i <= |base| ensures !MatchAt(base, Suffix, i) {
        if i + |Suffix| <= |base| { assert base[i..i + |Suffix|][0] == base[i]; }
      }
    }
    DerivedNameDropsSuffix(base);
    forall k | 0 <= k < |base| ensures Lower(base)[k] == lowered[k] { LowerAt(base, k); }
  }

  // ------------------------------------------------------------ dispatch

  /** What `execute_command` reports. */
  datatype Report =
    | UnknownCommand(name: string)                   // "Unknown command: ..."
    | WrongArgumentCount(name: string)               // "Error: ... requires exactly two numbers"
    | InvalidNumber(first: string, second: string)   // "Error: Invalid number input: ..."
    | Computed(value: real)                          // "Result: ..."
    | Failed(error: Operations.ArithmeticError)      // "Error: Cannot divide by zero"

  /** The command was instantiated and executed. */
  predicate Executed(r: Report) {
    r.Computed? || r.Failed?
  }

  /** The decision `execute_command` takes for `name` and `args` against `commands`. */
  function Outcome(commands: Table, name: string, args: seq<string>, parse: string -> Option<real>): Report {
    if name !in commands then UnknownCommand(name)
    else if |args| != 2 then WrongArgumentCount(name)
    else if parse(args[0]).None? || parse(args[1]).None? then InvalidNumber(args[0], args[1])
    else
      match Arithmetic.Execute(commands[name], parse(args[0]).value, parse(args[1]).value)
      case Ok(v) => Computed(v)
      case Err(e) => Failed(e)
  }

  /** The checks come in a fixed order (unknown name, then argument count, then number
      format) and a command runs exactly when all three pass, on the parsed numbers. */
  lemma OutcomeChecksInOrder(commands: Table, name: string, args: seq<string>, parse: string -> Option<real>)
    ensures Outcome(commands, name, args, parse).UnknownCommand? <==> name !in commands
    ensures Outcome(commands, name, args, parse).WrongArgumentCount? <==>
      name in commands && |args| != 2
    ensures Outcome(commands, name, args, parse).InvalidNumber? <==>
      name in commands && |args| == 2 && (parse(args[0]).None? || parse(args[1]).None?)
    ensures Executed(Outcome(commands, name, args, parse)) <==>
      name in commands && |args| == 2 && parse(args[0]).Some? && parse(args[1]).Some?
    ensures Executed(Outcome(commands, name, args, parse)) ==>
      var r := Arithmetic.Execute(commands[name], parse(args[0]).value, parse(args[1]).value);
      Outcome(commands, name, args, parse) == if r.Ok? then Computed(r.value) else Failed(r.error)
  {
  }

  /** With the shipped registry, `divide` with a zero divisor reports the division
      error, and each other command reports its primitive's value. */
  lemma ShippedOutcomes(a: string, b: string, parse: string -> Option<real>)
    requires parse(a).Some? && parse(b).Some?
    ensures Outcome(Registry(CommandsPackage), "add", [a, b], parse) == Computed(parse(a).value + parse(b).value)
    ensures Outcome(Registry(CommandsPackage), "subtract", [a, b], parse) == Computed(parse(a).value - parse(b).value)
    ensures Outcome(Registry(CommandsPackage), "multiply", [a, b], parse) == Computed(parse(a).value * parse(b).value)
    ensures parse(b).value == 0.0 ==>
      Outcome(Registry(CommandsPackage), "divide", [a, b], parse) == Failed(Operations.DivisionByZero)
    ensures parse(b).value != 0.0 ==>
      Outcome(Registry(CommandsPackage), "divide", [a, b], parse) == Computed(parse(a).value / parse(b).value)
  {
    ShippedRegistry();
  }

  // ------------------------------------------------------------ lines

  /** What the loop does with one input line. */
  datatype LineAction = Blank | Quit | Menu | Invoke(command: string, args: seq<string>)

  /** Lower-casing distributes over concatenation. */
  lemma LowerAppend(a: string, b: string)
    ensures Lower(a + b) == Lower(a) + Lower(b)
  {
    forall k | 0 <= k < |a + b| ensures Lower(a + b)[k] == (Lower(a) + Lower(b))[k] {
      LowerAt(a + b, k);
      if k < |a| { LowerAt(a, k); } else { LowerAt(b, k - |a|); }
    }
  }

  /** Stripping before lower-casing does not change the tokens. */
  lemma TokensOfStrippedLine(line: string)
    ensures Split(Lower(Strip(line))) == Split(Lower(line))
  {
    var i, j := StripIsTrimmedSlice(line);
    var w, t, u := line[..i], line[i..j], line[j..];
    ThreePieces(line, i, j);
    assert AllSpace(Lower(w)) && AllSpace(Lower(u)) by {
      LowerKeepsSpaces(w);
      LowerKeepsSpaces(u);
    }
    assert Lower(line) == Lower(w) + (Lower(t) + Lower(u)) by {
      LowerAppend(w, t + u);
      LowerAppend(t, u);
    }
    calc {
      Split(Lower(line));
      Split(Lower(w) + (Lower(t) + Lower(u)));
      { SplitSkipsSpacePrefix(Lower(w), Lower(t) + Lower(u)); }
      Split(Lower(t) + Lower(u));
      { SplitSkipsSpaceSuffix(Lower(t), Lower(u)); }
      Split(Lower(t));
    }
  }

  /** The first token decides: `exit`, `menu`, or a command and its arguments. */
  function ActionOfTokens(parts: seq<string>): (a: LineAction)
    requires |parts| > 0
  {
    if parts[0] == "exit" then Quit
    else if parts[0] == "menu" then Menu
    else Invoke(parts[0], parts[1..])
  }

  /** One pass of the loop body: strip and lower-case the line, skip it if blank,
      otherwise split it and look at the first token. */
  function Classify(line: string): LineAction {
    var input := Lower(Strip(line));
    if input == [] then Blank
    else
      var parts := Split(input);
      assert parts != [] by {
        StripEmptyIffAllSpace(line);
        LowerKeepsSpaces(Strip(line));
        SplitEmptyIffAllSpace(input);
        StripIsNotAllSpace(line);
      }
      ActionOfTokens(parts)
  }

  /** The input a line leaves after `strip().lower()` is empty exactly when the line is
      whitespace, and splits into the line's own lower-cased tokens. */
  lemma InputOfLine(line: string)
    ensures Lower(Strip(line)) == [] <==> AllSpace(line)
    ensures Split(Lower(Strip(line))) == Split(Lower(line))
    ensures !AllSpace(line) ==> |Split(Lower(line))| > 0
  {
    StripEmptyIffAllSpace(line);
    TokensOfStrippedLine(line);
    if !AllSpace(line) {
      StripIsNotAllSpace(line);
      LowerKeepsSpaces(Strip(line));
      SplitEmptyIffAllSpace(Lower(Strip(line)));
    }
  }

  /** What a line does, read off the raw line's tokens (stripping never changes them):
      blank exactly when it is all whitespace, `exit` and `menu` exactly when that is
      its first token in lower case, and otherwise a command and its arguments. */
  lemma ClassifyReadsTokens(line: string)
    ensures Classify(line).Blank? <==> AllSpace(line)
    ensures !Classify(line).Blank? ==> |Split(Lower(line))| > 0
    ensures Classify(line).Quit? <==> !AllSpace(line) && Split(Lower(line))[0] == "exit"
    ensures Classify(line).Menu? <==> !AllSpace(line) && Split(Lower(line))[0] == "menu"
    ensures Classify(line).Invoke? ==> [Classify(line).command] + Classify(line).args == Split(Lower(line))
  {
    InputOfLine(line);
    var input := Lower(Strip(line));
    if input == [] {
      assert AllSpace(line);
      assert Classify(line) == Blank;
    } else {
      assert !AllSpace(line);
      assert Classify(line) == ActionOfTokens(Split(input));
      var parts := Split(Lower(line));
      assert Split(input) == parts;
      HeadTail(parts);
    }
  }

  lemma StripIsNotAllSpace(line: string)
    requires Strip(line) != []
    ensures !AllSpace(Strip(line))
  {
    var i, j := StripIsTrimmedSlice(line);
  }

  /** What the user sees happen, line by line. */
  datatype Event =
    | MenuShown
    | Reported(report: Report)
    | InputFailed       // "An error occurred: EOF when reading a line"

  /** The events one line other than `exit` produces. */
  function LineEvents(commands: Table, a: LineAction, parse: string -> Option<real>): (es: seq<Event>)
    ensures |es| <= 1 && InputFailed !in es
  {
    match a
    case Blank => []
    case Quit => []
    case Menu => [MenuShown]
    case Invoke(c, args) => [Reported(Outcome(commands, c, args, parse))]
  }

  /** `f` applied to each element, in order. */
  function Map<A, B>(f: A -> B, s: seq<A>): (r: seq<B>)
    ensures |r| == |s|
  {
    seq(|s|, i requires 0 <= i < |s| => f(s[i]))
  }

  lemma MapAppend<A, B>(f: A -> B, a: seq<A>, b: seq<A>)
    ensures Map(f, a + b) == Map(f, a) + Map(f, b)
  {
    var l, r := Map(f, a + b), Map(f, a) + Map(f, b);
    forall i | 0 <= i < |l| ensures l[i] == r[i] {
      if i < |a| {
        assert (a + b)[i] == a[i];
      } else {
        assert (a + b)[i] == b[i - |a|];
      }
    }
  }

  /** What the loop does with each line, in order. */
  function Actions(lines: seq<string>): (acts: seq<LineAction>)
    ensures |acts| == |lines|
  {
    Map(Classify, lines)
  }

  lemma ActionsAppend(a: seq<string>, b: seq<string>)
    ensures Actions(a + b) == Actions(a) + Actions(b)
  {
    MapAppend(Classify, a, b);
  }

  /** The events the loop produces for a run of line actions, up to and excluding the
      first `exit`. */
  function Replay(commands: Table, acts: seq<LineAction>, parse: string -> Option<real>): seq<Event>
    decreases |acts|
  {
    if |acts| == 0 || acts[0].Quit? then []
    else LineEvents(commands, acts[0], parse) + Replay(commands, acts[1..], parse)
  }

  lemma ReplayCons(commands: Table, a: LineAction, rest: seq<LineAction>, parse: string -> Option<real>)
    ensures Replay(commands, [a] + rest, parse) ==
      if a.Quit? then [] else LineEvents(commands, a, parse) + Replay(commands, rest, parse)
  {
    assert ([a] + rest)[1..] == rest;
  }

  /** The events the loop produces for `lines`. */
  function Session(commands: Table, lines: seq<string>, parse: string -> Option<real>): seq<Event> {
    Replay(commands, Actions(lines), parse)
  }

  /** One iteration of the loop, as `Session` sees it. */
  lemma SessionStep(commands: Table, lines: seq<string>, i: nat, parse: string -> Option<real>)
    requires i < |lines|
    ensures Session(commands, lines[i..], parse) ==
      if Classify(lines[i]).Quit? then []
      else LineEvents(commands, Classify(lines[i]), parse) + Session(commands, lines[i + 1..], parse)
  {
    assert lines[i..] == [lines[i]] + lines[i + 1..];
    ActionsAppend([lines[i]], lines[i + 1..]);
    assert Actions([lines[i]]) == [Classify(lines[i])];
    ReplayCons(commands, Classify(lines[i]), Actions(lines[i + 1..]), parse);
  }

  lemma {:induction false} ReplayEndsAtQuit(commands: Table, before: seq<LineAction>, after: seq<LineAction>,
                                            parse: string -> Option<real>)
    ensures Replay(commands, before + [Quit] + after, parse) == Replay(commands, before + [Quit], parse)
    decreases |before|
  {
    if |before| > 0 {
      assert (before + [Quit] + after)[1..] == before[1..] + [Quit] + after;
      assert (before + [Quit])[1..] == before[1..] + [Quit];
      ReplayEndsAtQuit(commands, before[1..], after, parse);
    }
  }

  lemma {:induction false} ReplaySkipsBlank(commands: Table, before: seq<LineAction>, after: seq<LineAction>,
                                            parse: string -> Option<real>)
    ensures Replay(commands, before + [Blank] + after, parse) == Replay(commands, before + after, parse)
    decreases |before|
  {
    if |before| == 0 {
      assert (before + [Blank] + after)[1..] == after;
      assert before + after == after;
    } else {
      assert (before + [Blank] + after)[1..] == before[1..] + [Blank] + after;
      assert (before + after)[1..] == before[1..] + after;
      ReplaySkipsBlank(commands, before[1..], after, parse);
    }
  }

  /** Nothing typed after `exit` is ever looked at. */
  lemma SessionEndsAtExit(commands: Table, before: seq<string>, exit: string, after: seq<string>,
                          parse: string -> Option<real>)
    requires Classify(exit).Quit?
    ensures Session(commands, before + [exit] + after, parse) == Session(commands, before + [exit], parse)
  {
    ActionsAppend(before + [exit], after);
    ActionsAppend(before, [exit]);
    assert Actions([exit]) == [Quit];
    ReplayEndsAtQuit(commands, Actions(before), Actions(after), parse);
  }

  /** Blank lines leave no trace. */
  lemma SessionSkipsBlank(commands: Table, before: seq<string>, blank: string, after: seq<string>,
                          parse: string -> Option<real>)
    requires AllSpace(blank)
    ensures Session(commands, before + [blank] + after, parse) == Session(commands, before + after, parse)
  {
    ClassifyReadsTokens(blank);
    ActionsAppend(before + [blank], after);
    ActionsAppend(before, [blank]);
    ActionsAppend(before, after);
    assert Actions([blank]) == [Blank];
    ReplaySkipsBlank(commands, Actions(before), Actions(after), parse);
  }

  /** The loop as written, for its first `steps` iterations: once the input is used up,
      `input` raises `EOFError`, the loop's `except Exception` reports it, and the next
      iteration reads again. */
  function ReplayAsWritten(commands: Table, acts: seq<LineAction>, parse: string -> Option<real>, steps: nat): seq<Event>
    decreases steps
  {
    if steps == 0 then []
    else if |acts| == 0 then [InputFailed] + ReplayAsWritten(commands, acts, parse, steps - 1)
    else if acts[0].Quit? then []
    else LineEvents(commands, acts[0], parse) + ReplayAsWritten(commands, acts[1..], parse, steps - 1)
  }

  function SessionAsWritten(commands: Table, lines: seq<string>, parse: string -> Option<real>, steps: nat): seq<Event> {
    ReplayAsWritten(commands, Actions(lines), parse, steps)
  }

  /** Once the input is used up, every iteration of the loop as written reports an
      input error, and none ever leaves the loop. */
  lemma {:induction false} ExhaustedInputRepeatsError(commands: Table, parse: string -> Option<real>, steps: nat)
    ensures SessionAsWritten(commands, [], parse, steps) == seq(steps, _ => InputFailed)
    decreases steps
  {
    if steps > 0 {
      ExhaustedInputRepeatsError(commands, parse, steps - 1);
    }
  }

  lemma {:induction false} ReplayNeverStops(commands: Table, acts: seq<LineAction>, parse: string -> Option<real>, steps: nat)
    requires Quit !in acts
    ensures |ReplayAsWritten(commands, acts, parse, steps)| >= steps - |acts|
    decreases steps
  {
    if steps > 0 {
      if |acts| == 0 {
        ReplayNeverStops(commands, acts, parse, steps - 1);
      } else {
        assert acts[0] in acts;
        assert forall a :: a in acts[1..] ==> a in acts;
        ReplayNeverStops(commands, acts[1..], parse, steps - 1);
      }
    }
  }

  /** Input that ends without `exit` never ends the loop as written: it yields at least
      one event for every iteration beyond the number of lines. */
  lemma EndOfInputNeverStops(commands: Table, lines: seq<string>, parse: string -> Option<real>, steps: nat)
    requires forall i :: 0 <= i < |lines| ==> !Classify(lines[i]).Quit?
    ensures |SessionAsWritten(commands, lines, parse, steps)| >= steps - |lines|
  {
    var acts := Actions(lines);
    assert Quit !in acts by {
      forall i | 0 <= i < |acts| ensures acts[i] != Quit { assert !Classify(lines[i]).Quit?; }
    }
    ReplayNeverStops(commands, acts, parse, steps);
  }

  /** The loop as intended ends with the input: each line yields at most one event,
      and none is an input error. */
  lemma {:induction false} ReplayEndsWithInput(commands: Table, acts: seq<LineAction>, parse: string -> Option<real>)
    ensures |Replay(commands, acts, parse)| <= |acts|
    ensures InputFailed !in Replay(commands, acts, parse)
    decreases |acts|
  {
    if |acts| > 0 {
      ReplayEndsWithInput(commands, acts[1..], parse);
    }
  }

  /** Given enough iterations, the loop as written starts with exactly what the loop
      as intended does; the two differ only once the input is used up. */
  lemma {:induction false} ReplayIsPrefixOfAsWritten(commands: Table, acts: seq<LineAction>, parse: string -> Option<real>, steps: nat)
    requires steps >= |acts|
    ensures Replay(commands, acts, parse) <= ReplayAsWritten(commands, acts, parse, steps)
    decreases steps
  {
    if |acts| > 0 && !acts[0].Quit? {
      var e := LineEvents(commands, acts[0], parse);
      var intended := Replay(commands, acts[1..], parse);
      var written := ReplayAsWritten(commands, acts[1..], parse, steps - 1);
      ReplayIsPrefixOfAsWritten(commands, acts[1..], parse, steps - 1);
      assert (e + written)[..|e + intended|] == e + intended;
    }
  }

  // ------------------------------------------------------------ the REPL object

  /** Every menu line is a registered name outside `rest` with its description. */
  predicate Described(commands: Table, entries: seq<(string, string)>, rest: set<string>) {
    forall i :: 0 <= i < |entries| ==>
      entries[i].0 in commands && entries[i].0 !in rest
      && entries[i].1 == Arithmetic.Description(commands[entries[i].0])
  }

  /** Every registered name outside `rest` has a menu line. */
  predicate Covered(commands: Table, entries: seq<(string, string)>, rest: set<string>) {
    forall name :: name in commands && name !in rest ==>
      exists i :: 0 <= i < |entries| && entries[i].0 == name
  }

  /** The listed names ascend, and all come before every name in `rest`. */
  predicate Ascending(entries: seq<(string, string)>, rest: set<string>) {
    (forall i, j :: 0 <= i < j < |entries| ==> LexLess(entries[i].0, entries[j].0))
    && (forall i, name :: 0 <= i < |entries| && name in rest ==> LexLess(entries[i].0, name))
  }

  /** The menu after listing every name of `commands` outside `rest`: each line a
      registered name with its description, each listed name once, in ascending order,
      and all before every name still to come. */
  predicate MenuSoFar(commands: Table, entries: seq<(string, string)>, rest: set<string>) {
    rest <= commands.Keys
    && |entries| + |rest| == |commands.Keys|
    && Described(commands, entries, rest)
    && Covered(commands, entries, rest)
    && Ascending(entries, rest)
  }

  lemma DescribedStep(commands: Table, entries: seq<(string, string)>, rest: set<string>, m: string)
    requires Described(commands, entries, rest) && m in rest && m in commands
    ensures Described(commands, entries + [(m, Arithmetic.Description(commands[m]))], rest - {m})
  {
    var after := entries + [(m, Arithmetic.Description(commands[m]))];
    forall i | 0 <= i < |after|
      ensures after[i].0 in commands && after[i].0 !in rest - {m}
      ensures after[i].1 == Arithmetic.Description(commands[after[i].0])
    {
      if i < |entries| { assert after[i] == entries[i]; }
    }
  }

  lemma CoveredStep(commands: Table, entries: seq<(string, string)>, rest: set<string>, m: string)
    requires Covered(commands, entries, rest) && m in commands
    ensures Covered(commands, entries + [(m, Arithmetic.Description(commands[m]))], rest - {m})
  {
    var after := entries + [(m, Arithmetic.Description(commands[m]))];
    forall name | name in commands && name !in rest - {m}
      ensures exists i :: 0 <= i < |after| && after[i].0 == name
    {
      if name == m {
        assert after[|entries|].0 == name;
      } else {
        var i :| 0 <= i < |entries| && entries[i].0 == name;
        assert after[i].0 == name;
      }
    }
  }

  lemma AscendingStep(entries: seq<(string, string)>, rest: set<string>, m: string, d: string)
    requires Ascending(entries, rest)
    requires m in rest && forall k :: k in rest && k != m ==> LexLess(m, k)
    ensures Ascending(entries + [(m, d)], rest - {m})
  {
    var after := entries + [(m, d)];
    forall i, j | 0 <= i < j < |after| ensures LexLess(after[i].0, after[j].0) {
      assert after[i] == entries[i];
      if j < |entries| { assert after[j] == entries[j]; }
    }
    forall i, name | 0 <= i < |after| && name in rest - {m} ensures LexLess(after[i].0, name) {
      if i < |entries| { assert after[i] == entries[i]; }
    }
  }

  /** Listing the least name still to come keeps the menu in order. */
  lemma MenuStep(commands: Table, entries: seq<(string, string)>, rest: set<string>, m: string)
    requires MenuSoFar(commands, entries, rest)
    requires m in rest && forall k :: k in rest && k != m ==> LexLess(m, k)
    ensures MenuSoFar(commands, entries + [(m, Arithmetic.Description(commands[m]))], rest - {m})
  {
    DescribedStep(commands, entries, rest, m);
    CoveredStep(commands, entries, rest, m);
    AscendingStep(entries, rest, m, Arithmetic.Description(commands[m]));
  }

  class CalculatorRepl {
    var commands: Table

    /** `CalculatorREPL()`: loads the commands of `modules`. */
    constructor (modules: seq<seq<Member>>)
      ensures commands == Registry(modules)
    {
      commands := map[];
      new;
      LoadCommands(modules);
    }

    /** `load_commands`: clears the table, then registers every command class of every
        module; whatever was there before is gone, so reloading gives the same table. */
    method LoadCommands(modules: seq<seq<Member>>)
      modifies this
      ensures commands == Registry(modules)
    {
      commands := map[];
      var i := 0;
      while i < |modules|
        invariant 0 <= i <= |modules|
        invariant commands == Registry(modules[..i])
      {
        var members := modules[i];
        var j := 0;
        assert Flatten(modules[..i]) + members[..0] == Flatten(modules[..i]);
        while j < |members|
          invariant 0 <= j <= |members|
          invariant commands == Register(map[], Flatten(modules[..i]) + members[..j])
        {
          var item := members[j];
          RegisterOneMore(map[], Flatten(modules[..i]) + members[..j], item);
          if item.CommandClass? {
            commands := commands[DerivedName(item.name) := item.kind];
          }
          assert Flatten(modules[..i]) + members[..j + 1] == Flatten(modules[..i]) + members[..j] + [item];
          j := j + 1;
        }
        assert modules[..i + 1][..i] == modules[..i];
        assert members[..j] == members;
        i := i + 1;
      }
      assert modules[..i] == modules;
    }

    /** `show_menu`: one line per registered command, with its description, in
        ascending name order. */
    method ShowMenu() returns (entries: seq<(string, string)>)
      ensures |entries| == |commands|
      ensures forall i :: 0 <= i < |entries| ==>
        entries[i].0 in commands && entries[i].1 == Arithmetic.Description(commands[entries[i].0])
      ensures forall name :: name in commands ==> exists i :: 0 <= i < |entries| && entries[i].0 == name
      ensures forall i, j :: 0 <= i < j < |entries| ==> LexLess(entries[i].0, entries[j].0)
      ensures forall i, j :: 0 <= i < j < |entries| ==> entries[i].0 != entries[j].0
    {
      var rest := commands.Keys;
      entries := [];
      while rest != {}
        invariant MenuSoFar(commands, entries, rest)
        decreases |rest|
      {
        ghost var least := Least(rest);
        var m :| m in rest && forall k :: k in rest && k != m ==> LexLess(m, k);
        MenuStep(commands, entries, rest, m);
        entries := entries + [(m, Arithmetic.Description(commands[m]))];
        rest := rest - {m};
      }
      forall i, j | 0 <= i < j < |entries| ensures entries[i].0 != entries[j].0 {
        LexLessIrreflexive(entries[i].0);
      }
    }

    /** `execute_command`: reports the outcome of the checks and of running the
        command, and always asks the loop to go on. */
    method ExecuteCommand(name: string, args: seq<string>, parse: string -> Option<real>)
      returns (keepGoing: bool, report: Report)
      ensures keepGoing
      ensures report == Outcome(commands, name, args, parse)
    {
      if name !in commands {
        return true, UnknownCommand(name);
      }
      if |args| != 2 {
        return true, WrongArgumentCount(name);
      }
      var a := parse(args[0]);
      var b := parse(args[1]);
      if a.None? || b.None? {
        return true, InvalidNumber(args[0], args[1]);
      }
      var r := Arithmetic.Execute(commands[name], a.value, b.value);
      match r {
        case Ok(v) => report := Computed(v);
        case Err(e) => report := Failed(e);
      }
      keepGoing := true;
    }

    /** One pass of the loop body for a line other than `exit`: nothing for a blank
        line, the menu for `menu`, otherwise the command's report. */
    method HandleLine(action: LineAction, parse: string -> Option<real>) returns (step: seq<Event>)
      requires !action.Quit?
      ensures step == LineEvents(commands, action, parse)
    {
      step := [];
      if action.Menu? {
        var _ := ShowMenu();
        step := [MenuShown];
      } else if action.Invoke? {
        var _, report := ExecuteCommand(action.command, action.args, parse);
        step := [Reported(report)];
      }
    }

    /** `run`: shows the menu, then handles the input lines one at a time until `exit`
        (or until the input runs out). */
    method Run(lines: seq<string>, parse: string -> Option<real>) returns (events: seq<Event>)
      ensures events == [MenuShown] + Session(commands, lines, parse)
    {
      events := HandleLine(Menu, parse);
      var i := 0;
      assert lines[0..] == lines;
      while i < |lines|
        invariant 0 <= i <= |lines|
        invariant events + Session(commands, lines[i..], parse) == [MenuShown] + Session(commands, lines, parse)
      {
        var action := Classify(lines[i]);
        ghost var rest := Session(commands, lines[i + 1..], parse);
        SessionStep(commands, lines, i, parse);
        if action.Quit? {
          return;
        }
        var step := HandleLine(action, parse);
        assert events + (step + rest) == (events + step) + rest;
        events := events + step;
        i := i + 1;
      }
    }
  }
}
