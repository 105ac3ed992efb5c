# Calculator core, modelled in Dafny

A model of a small command-line calculator and the proofs about it. The calculator
has two fronts.

- The `Calculator` object. It has a fixed table of four operators (`+ - * /`), and
  every calculation it completes lands in a history. The history is persisted to a
  CSV file and can report a tail and statistics.
- The `CalculatorREPL` loop. It loads command classes from the `commands` package by
  name, normalises each input line and dispatches it. Two plugins attach to the REPL
  object: a named memory, and `pow`/`sqrt` acting on the last result.

One Dafny module per source file:

| module | file | source |
|---|---|---|
| `Operations` | operations.dfy | calculator/operations.py |
| `Arithmetic` | arithmetic.dfy | calculator/commands/arithmetic.py |
| `History` | history.dfy | calculator/history.py |
| `Core` | core.dfy | calculator/core.py |
| `Repl` | repl.dfy | calculator/repl.py |
| `Memory` | memory.dfy | calculator/plugins/memory.py |
| `Scientific` | scientific.dfy | calculator/plugins/scientific.py |

Two more modules are shared.

- `Common` holds `Option` and `Result`.
- `Text` holds the Python string methods the code relies on: `str.strip`,
  `str.split()`, `str.lower`, `str.replace(pat, "")`, and the `<` order on strings.
  Each comes with the facts the other modules need.

The objects whose fields the code updates are classes:

- `History.CalculationHistory`: the table and the backing file.
- `Core.Calculator`: owns a history.
- `Repl.CalculatorRepl`: the command table.
- `Memory.MemoryHost` and `Scientific.ScientificHost`: the REPL object as each plugin
  sees it.

Each method is proved against a specification function. The properties are proved
about those functions as lemmas.

Things the model takes as inputs:

- Numbers are reals.
- `Decimal(text)` and `float(text)` are a parameter `parse: string -> Option<real>`.
- `math.pow` and `math.sqrt` are parameters `pow` and `sqrt`.
- `datetime.now()` is a parameter `now`.
- Whether writing the CSV file succeeds is a parameter `saveOk`.
- The backing file is `Option<seq<Record>>`. `None` stands for missing, unreadable or
  malformed.
- The input lines of the REPL are a sequence of strings.
- Printed lines become report values.

What the code does at its edges, and how the model states it:

- calculator/history.py:82-84 takes the mean, max and min of the `result` column with
  no guard for an empty table. pandas gives NaN for all three there. The model gives
  `None` for all three.
- calculator/history.py:33-49 appends whatever operands and result it is given and
  checks nothing about them. The model checks nothing either.
- calculator/history.py:63 is `DataFrame.tail(k)`: the last `k` records, oldest first.
  A negative `k` drops the first `-k` records, as pandas does.

## Model

| member | source | states |
|---|---|---|
| Operations.Addition | calculator/operations.py:4-6 | the sum less either operand is the other operand |
| Operations.Subtraction | calculator/operations.py:8-10 | the difference plus the subtrahend is the minuend |
| Operations.Multiplication | calculator/operations.py:12-14 | the product is zero exactly when a factor is zero; dividing it by a non-zero factor gives the other |
| Operations.Division | calculator/operations.py:16-21 | fails exactly when the divisor is zero, with the one division error; otherwise quotient times divisor is the dividend |
| Operations.SubtractionUndoesAddition | calculator/operations.py:4-10 | `subtraction(addition(a, b), b) == a` and the other way round |
| Operations.DivisionUndoesMultiplication | calculator/operations.py:12-21 | for `b != 0`, division by `b` after multiplication by `b` gives back `a`, and the other way round |
| Arithmetic.ClassName | calculator/commands/arithmetic.py:7-40 | each class is declared under a name ending in `Command` |
| Arithmetic.Description | calculator/commands/arithmetic.py:14-49 | the fixed description of each class; its shape is stated by `Repl.UsageNamesItsKey` |
| Arithmetic.Execute | calculator/commands/arithmetic.py:7-45 | a command fails exactly when it is the divide command and the divisor is zero |
| Arithmetic.ExecuteComputes | calculator/commands/arithmetic.py:10-45 | each command returns its primitive's value (`a+b`, `a-b`, `a*b`, `a/b`); a zero divisor passes on the "Cannot divide by zero" error |
| Arithmetic.ExecuteInverses | calculator/commands/arithmetic.py:10-45 | subtract undoes add and divide undoes multiply, as commands |
| Repl.UsageNamesItsKey | calculator/commands/arithmetic.py:14-49 | each fixed description reads "<Verb> two numbers (Usage: <key> number1 number2)", where the class is `<Verb>Command` and `<key>` is the name the registry derives from it |
| History.Load | calculator/history.py:20-31 | the rows of a readable file, and no rows otherwise; the constructor starts from it |
| History.Tail | calculator/history.py:60-64 | no limit gives every record; a limit `k >= 0` gives `min(k, n)` records; a negative limit drops `min(-k, n)`; the result is always a suffix of the table, in order |
| History.TailOfOneIsNewest | calculator/history.py:60-64 | after an append, a limit of one gives exactly the appended record |
| History.Count | calculator/history.py:81 | how many records carry an operation, never more than there are records; `TallyCounts` ties it to the tally |
| History.Tally | calculator/history.py:81 | `value_counts` of the operations; `TallyCounts` and `TallySumsToTotal` state its keys, counts and total |
| History.SumResults | calculator/history.py:82 | the sum of the results, whose quotient by the count is the mean; `SumBetween` bounds it |
| History.TallyCounts | calculator/history.py:81 | an operation is a key of the count map exactly when some record carries it, and its count is the number of records carrying it |
| History.TallySumsToTotal | calculator/history.py:79-81 | the per-operation counts add up to the number of records |
| History.MaxResult | calculator/history.py:83 | no result is larger, and some record has it |
| History.MinResult | calculator/history.py:84 | no result is smaller, and some record has it |
| History.SumBetween | calculator/history.py:82 | results within `[lo, hi]` sum to between `n*lo` and `n*hi` |
| History.MeanBetween | calculator/history.py:82-84 | the mean of results within `[lo, hi]` is within `[lo, hi]` |
| History.StatisticsOf | calculator/history.py:76-90 | the total is the record count; the count map has the right keys and counts and sums to the total; mean, max and min exist exactly for a non-empty table; the mean is the sum of the results over their number; `min <= mean <= max`; every result lies in `[min, max]`; max and min are attained |
| History.CalculationHistory.constructor | calculator/history.py:14-31 | never fails; the table is the file's rows, and empty when the file is unusable |
| History.CalculationHistory.SaveHistory | calculator/history.py:51-58 | the table is unchanged; success exactly when the write succeeds; then the file holds the table; a failed write is one that fails before the file is opened, and leaves the file as before |
| History.CalculationHistory.AddCalculation | calculator/history.py:33-49 | exactly one record `(now, operation, x, y, result)` is appended, earlier records untouched; then saved as above, so a failed save is reported and the record stays |
| History.CalculationHistory.GetHistory | calculator/history.py:60-64 | the tail view of the current table, as `Tail` states |
| History.CalculationHistory.ClearHistory | calculator/history.py:66-74 | the table is empty; a successful save leaves an empty file; a save that fails before the file is opened leaves the old file |
| History.CalculationHistory.GetStatistics | calculator/history.py:76-90 | the statistics of the current table, as `StatisticsOf` states |
| History.PersistenceRoundTrip | calculator/history.py:20-58 | two saved additions on a fresh file, then a new store on that file: the same two records come back, a limit of one gives the newer, the total is two |
| History.FailedSaveKeepsRecord | calculator/history.py:43-58 | a save that fails before the file is opened, after an addition, still grows the table by one and leaves the file as it was |
| Core.Apply | calculator/core.py:23-44 | an operation fails exactly when it is division by zero |
| Core.OperatorsAreTheFour | calculator/core.py:15-44 | the table's keys are exactly `+ - * /`; each computes `x+y`, `x-y`, `x*y`, `x/y`; `/` with `y == 0` fails with the division error |
| Core.Outcome | calculator/core.py:46-62 | an unknown operator raises `Unknown operation`; success exactly when the operator is known, its operation succeeds and the save succeeds; the value is the operation's |
| Core.RecordedIffComputed | calculator/core.py:49-58 | a record is added exactly when the operator is known and its operation succeeds: on success, or when only the save fails |
| Core.Calculator.constructor | calculator/core.py:13-21 | a fresh history loaded from the backing file |
| Core.Calculator.Calculate | calculator/core.py:46-62 | returns `Outcome`; an unknown operator or a division by zero leaves the history untouched; otherwise exactly one record with the computed result is appended, and the file follows the save |
| Core.CalculateTwice | calculator/core.py:46-62 | `+`, a rejected `/` by zero, then `*`: the history holds exactly the two records, in order |
| Repl.DerivedName | calculator/repl.py:35 | the registry key of a class name: every `Command` removed, then lower-cased; `DerivedNameDropsSuffix` and `NamesOfShippedClasses` state what it gives |
| Repl.Register | calculator/repl.py:31-36 | the scan of a member list into the table; `RegisteredKeys`, `RegisteredLastWins` and `RegisterOneMore` state its keys and values |
| Repl.Registry | calculator/repl.py:20-36 | the table the scan of all modules builds from an empty one; `ShippedRegistry` gives it for the shipped package |
| Repl.DerivedNameDropsSuffix | calculator/repl.py:35 | a class `Base + "Command"`, where `Base` has no `Command` in it, is registered under `Base` lower-cased |
| Repl.NamesOfShippedClasses | calculator/repl.py:35 | `AddCommand`, `SubtractCommand`, `MultiplyCommand` and `DivideCommand` become `add`, `subtract`, `multiply`, `divide` |
| Repl.RegisteredKeys | calculator/repl.py:31-36 | a name is a key exactly when some command class among the scanned members derives to it |
| Repl.RegisteredLastWins | calculator/repl.py:31-36 | a key maps to the class of the last member deriving to it, so a later duplicate overwrites an earlier one |
| Repl.RegisterOneMore | calculator/repl.py:31-36 | registering one more member sets its derived key for a command class and skips anything else |
| Repl.ShippedRegistry | calculator/repl.py:20-36 | loading the shipped package gives exactly `add`, `subtract`, `multiply`, `divide`, each bound to its own class; the base `Command` and the other bindings are skipped |
| Repl.ArithmeticModuleRegistry | calculator/repl.py:31-36 | the same for the scan of the arithmetic module in `inspect.getmembers` order |
| Repl.Outcome | calculator/repl.py:48-74 | what one command reports; `OutcomeChecksInOrder` and `ShippedOutcomes` state which check decides and what is computed |
| Repl.OutcomeChecksInOrder | calculator/repl.py:48-74 | an unknown name is reported first, then an argument count other than two, then an unparsable number; a command runs exactly when all three checks pass, on the parsed numbers |
| Repl.ShippedOutcomes | calculator/repl.py:48-74 | with the shipped table, the four commands report `a+b`, `a-b`, `a*b`, `a/b`, and `divide` by zero reports the division error |
| Repl.ActionOfTokens | calculator/repl.py:89-98 | the action of a non-empty token list, read from its first token |
| Repl.Classify | calculator/repl.py:84-98 | the action of one input line; `ClassifyReadsTokens` states it in terms of the line |
| Repl.TokensOfStrippedLine | calculator/repl.py:84-88 | stripping before lower-casing never changes the tokens `split()` gives |
| Repl.InputOfLine | calculator/repl.py:84-88 | the normalised input is empty exactly when the line is whitespace, and otherwise has at least one token |
| Repl.ClassifyReadsTokens | calculator/repl.py:84-98 | a line is skipped exactly when it is whitespace; it exits or shows the menu exactly when its first lower-cased token is `exit` or `menu`; otherwise the first token is the command and the rest are its arguments |
| Repl.LineEvents | calculator/repl.py:93-98 | a line other than `exit` yields at most one event, never an input error |
| Repl.Session | calculator/repl.py:82-98 | the events of a whole input as intended; `SessionStep`, `SessionEndsAtExit`, `SessionSkipsBlank` and `ReplayEndsWithInput` state its behaviour |
| Repl.SessionStep | calculator/repl.py:82-98 | one iteration: `exit` ends the session, any other line adds its events and the loop goes on with the next line |
| Repl.SessionEndsAtExit | calculator/repl.py:93-94 | nothing typed after an `exit` line is looked at |
| Repl.SessionSkipsBlank | calculator/repl.py:85-86 | a blank line leaves no trace in the session |
| Repl.ReplayEndsWithInput | calculator/repl.py:82-98 | the session as intended yields at most one event per line and no input error |
| Repl.SessionAsWritten | calculator/repl.py:82-103 | the events of the loop as written for a bounded number of iterations; `ExhaustedInputRepeatsError`, `EndOfInputNeverStops` and `ReplayIsPrefixOfAsWritten` state its behaviour |
| Repl.ExhaustedInputRepeatsError | calculator/repl.py:82-103 | as written, once the input is used up every iteration reports an input error |
| Repl.EndOfInputNeverStops | calculator/repl.py:82-103 | as written, input without `exit` yields an event for every iteration past the last line, so the loop never ends |
| Repl.ReplayIsPrefixOfAsWritten | calculator/repl.py:82-103 | given enough iterations, the loop as written starts with exactly the session as intended |
| Repl.MenuStep | calculator/repl.py:42-43 | appending the least name still to come keeps the menu sorted, complete for the names listed so far, and correctly described |
| Repl.CalculatorRepl.constructor | calculator/repl.py:14-18 | the table is the registry of the scanned modules |
| Repl.CalculatorRepl.LoadCommands | calculator/repl.py:20-36 | whatever the table held before, it becomes the registry of the scanned modules, so reloading gives the same table |
| Repl.CalculatorRepl.ShowMenu | calculator/repl.py:38-46 | one line per registered command with its description, every command listed, names strictly ascending and so each listed once |
| Repl.CalculatorRepl.ExecuteCommand | calculator/repl.py:48-74 | always returns `True`, and reports `Outcome` |
| Repl.CalculatorRepl.HandleLine | calculator/repl.py:93-98 | a line other than `exit` produces exactly its `LineEvents`: nothing, the menu, or the command's report |
| Repl.CalculatorRepl.Run | calculator/repl.py:76-105 | the menu first, then the events of the lines up to the first `exit` or the end of the input |
| Text.Strip | calculator/repl.py:84 | `str.strip()`; `StripIsTrimmedSlice` states what it keeps |
| Text.Lower | calculator/repl.py:84 | `str.lower()` on ASCII letters: the same length, and lower-casing keeps whitespace where it was |
| Text.RemoveAll | calculator/repl.py:35 | `str.replace(pat, "")`, never longer than the string; `RemoveAllTrailing` states what it removes |
| Text.LexLess | calculator/repl.py:42 | Python's `<` on strings: irreflexive, transitive and total; `Least` finds a least name with it |
| Text.StripIsTrimmedSlice | calculator/repl.py:84 | `strip()` keeps a slice of the string with only whitespace cut off either side, and its ends are not whitespace |
| Text.Split | calculator/repl.py:88 | every token of `split()` is non-empty and holds no whitespace |
| Text.SplitWord | calculator/repl.py:88 | a non-empty word without whitespace splits into itself alone |
| Text.SplitWordThenSpace | calculator/repl.py:88 | a word followed by whitespace is the first token, and the later tokens are those of what follows: every token is a maximal run of non-whitespace characters |
| Text.SplitSkipsSpacePrefix | calculator/repl.py:88 | leading whitespace does not change the tokens |
| Text.SplitKeepsEveryOtherChar | calculator/repl.py:88 | gluing the tokens of `split()` back together gives the string's non-whitespace characters, in order |
| Text.SplitEmptyIffAllSpace | calculator/repl.py:85-88 | `split()` gives no token exactly when the string is all whitespace |
| Text.RemoveAllTrailing | calculator/repl.py:35 | removing a borderless pattern from `s + pat`, when `s` has none, removes exactly the trailing copy |
| Text.StripEmptyIffAllSpace | calculator/repl.py:84-85 | `strip()` gives the empty string exactly when the string is all whitespace |
| Text.LowerKeepsSpaces | calculator/repl.py:84 | a string is all whitespace exactly when its lower-cased form is |
| Text.LexLessIrreflexive | calculator/repl.py:42 | no name is less than itself |
| Text.LexLessTransitive | calculator/repl.py:42 | the string order is transitive |
| Text.LexLessTotal | calculator/repl.py:42 | of two different names, one is less than the other |
| Text.Least | calculator/repl.py:42 | every non-empty set of names has a least one in string order |
| Memory.StoreRequest | calculator/plugins/memory.py:17-19 | a request exists exactly when the argument splits into two tokens and the second parses; the name is the first token |
| Memory.AfterStore | calculator/plugins/memory.py:15-25 | a valid request sets the name to the value, overwriting, and keeps every other entry; malformed input or a missing memory changes nothing |
| Memory.StoreOutcome | calculator/plugins/memory.py:15-25 | "Invalid input" exactly for a malformed request; the missing-memory error escapes exactly for a valid request without a memory; otherwise reports what was stored |
| Memory.RecallOutcome | calculator/plugins/memory.py:27-40 | the error branch exactly without a memory; otherwise a value exactly when the stripped name is a key, and that key's value |
| Memory.RecallAfterStore | calculator/plugins/memory.py:15-37 | a stored value is recalled under its name |
| Memory.StoreKeepsOtherNames | calculator/plugins/memory.py:15-37 | storing under one name does not change what any other name recalls |
| Memory.MalformedStoreChangesNothing | calculator/plugins/memory.py:17-25 | a token count other than two or an unparsable value leaves the memory as it is and reports the format error |
| Memory.MemoryHost.RegisterCommands | calculator/plugins/memory.py:8-62 | an empty memory only when the host has none, an existing one kept; the four handlers added |
| Memory.MemoryHost.DoStore | calculator/plugins/memory.py:15-25 | reports `StoreOutcome` and leaves the memory `AfterStore` |
| Memory.MemoryHost.DoRecall | calculator/plugins/memory.py:27-40 | reports `RecallOutcome` and changes nothing |
| Memory.MemoryHost.DoClearMemory | calculator/plugins/memory.py:42-46 | the memory is empty afterwards, whatever it held; without a memory the error escapes |
| Memory.Lists | calculator/plugins/memory.py:48-55 | a listing shows every entry of the memory with its value, exactly once, and nothing else; `DoMemory` promises it |
| Memory.MemoryHost.DoMemory | calculator/plugins/memory.py:48-55 | "no values" exactly for an empty memory, otherwise every entry exactly once and nothing else; changes nothing |
| Memory.StoreRecallClear | calculator/plugins/memory.py:15-46 | `store x 5` then `recall x` gives 5; after `clear_memory`, `recall x` finds nothing |
| Scientific.Power | calculator/plugins/scientific.py:114-140 | each of the two domain errors exactly on its condition; otherwise `pow(x, y)` |
| Scientific.Sqrt | calculator/plugins/scientific.py:142-151 | fails exactly on a negative number; otherwise `sqrt(x)` |
| Scientific.PowerDomain | calculator/plugins/scientific.py:118-121 | an integral exponent is refused only as a negative power of zero; a positive base is never refused |
| Scientific.CurrentValue | calculator/plugins/scientific.py:27-39 | "no previous result" exactly for a missing or `None` result; a number is taken as it is; a string is accepted exactly when it parses, as its parsed value; any other value is "not a number" |
| Scientific.PowOutcome | calculator/plugins/scientific.py:14-58 | an empty argument, then an unparsable one, are refused first; a computed value is `pow` of the current value and the argument |
| Scientific.SqrtOutcome | calculator/plugins/scientific.py:60-90 | any non-blank argument is refused; a computed value is `sqrt` of the current value |
| Scientific.PowAgreesWithPower | calculator/plugins/scientific.py:41-51 | with a numeric argument and result, `do_pow` reports exactly what `power` returns or raises |
| Scientific.NoResultNoComputation | calculator/plugins/scientific.py:27-39 | without a usable result neither command computes; after the argument checks each reports the result's error |
| Scientific.SqrtAgreesWithSqrt | calculator/plugins/scientific.py:76-87 | with a numeric result and no argument, `do_sqrt` reports exactly what `sqrt` returns or raises |
| Scientific.ScientificHost.RegisterCommands | calculator/plugins/scientific.py:9-104 | the plugin is attached and the four handlers added; the result is untouched |
| Scientific.ScientificHost.DoPow | calculator/plugins/scientific.py:14-58 | reports `PowOutcome`; the result becomes the power exactly on success and is untouched otherwise |
| Scientific.ScientificHost.DoSqrt | calculator/plugins/scientific.py:60-90 | reports `SqrtOutcome`; the result becomes the root exactly on success and is untouched otherwise |
| Scientific.SquareThenRefuseRoot | calculator/plugins/scientific.py:14-90 | `pow 2` on a result of 3 computes `pow(3, 2)`; `sqrt` of a negative result is refused |

## Left out

- Logging everywhere, and `calculator/config.py`. They produce no value the code uses.
- The CSV format and pandas. `read_csv` and `to_csv` are the abstract backing file. A
  file pandas can read but whose columns differ is not modelled.
- `datetime.now()`: timestamps are opaque parameters.
- Floating point: NaN, infinities, overflow and rounding. pandas' `mean`, `max` and
  `min` skip NaN results and keep infinite ones; the model has no such numbers, so
  neither case arises. This covers the NaN
  propagation, the `abs(x) > 1e100` shortcut and the overflow-to-`inf` branches of
  `ScientificPlugin.power`.
- The bodies of `math.pow` and `math.sqrt`. They are uninterpreted parameters.
- Decimal context rounding, and which strings `Decimal` and `float` accept. Both are
  the `parse` parameter.
- Unicode case: `str.lower` is modelled on ASCII letters only. Whitespace is the
  whole set Python's `str.isspace` accepts: `\t`-`\r`, `\x1c`-`\x1f`, space, `\x85`,
  `\xa0`, `\u1680`, `\u2000`-`\u200a`, `\u2028`, `\u2029`, `\u202f`, `\u205f` and
  `\u3000`.
- Reflection. `pkgutil.iter_modules` and `inspect.getmembers` are replaced by the member
  lists they report. The `setattr` and `MethodType` attachments of the plugins are
  replaced by sets of handler names.
- Each plugin sees the REPL object as its own small class (`Memory.MemoryHost`,
  `Scientific.ScientificHost`). Sharing of one object between the two plugins is not
  modelled.
- Memory.MemoryHost.DoMemory: lists the entries in some order, not dict insertion
  order, because the memory is a map.
- Printed text: the menu header and footer, the result formatting, `help_pow`,
  `help_sqrt`. What would be printed is the report values.
- `KeyboardInterrupt` in the REPL loop. Interrupts are not inputs in the model.
- The `Unexpected error` wrappers of `do_pow` and `do_sqrt`, and the `An error
  occurred` branch of `execute_command`. No modelled step raises into them.
- `calculator/commands/__init__.py`: an abstract base class with no behaviour. A
  command class is a constructor of `Arithmetic.CommandKind`.
- Entry points (`main.py`, `calculator/main.py`, `calculator/__main__.py`) are not part
  of this model.
- History.CalculationHistory.SaveHistory: a failed save leaves the file as it was,
  which holds only for a failure before the file is opened. `to_csv` opens the file
  with mode `'w'`, truncating it, so a failure part-way through the write can leave
  an empty or partial file. That case is not modelled.
- History.CalculationHistory.AddCalculation: the same for the save it does.
- History.CalculationHistory.ClearHistory: the same for the save it does.
- History.FailedSaveKeepsRecord: the same for the failed save it shows.
- Repl.CalculatorRepl.Run: stops at the end of the input, unlike the code. See
  Findings.

## Findings

| source | as written | input that shows it | evidently intended | confidence | as-written member | corrected member |
|---|---|---|---|---|---|---|
| calculator/repl.py:82-103 | At the end of the input, `input()` raises `EOFError`. The `except Exception` clause catches it, prints "An error occurred" and loops, so the next `input()` raises again, forever. | Any input that ends without an `exit` line, such as the single line `add 1 2` followed by end of file. | The loop ends when the input ends. | not executed | Repl.EndOfInputNeverStops | Repl.ReplayEndsWithInput |

`Repl.SessionAsWritten` models the loop as written for a bounded number of iterations.

- `Repl.ExhaustedInputRepeatsError` shows that every iteration after the input ends
  reports an input error.
- `Repl.EndOfInputNeverStops` shows that input without `exit` never ends the loop.

`Repl.Session` is the intended loop, which stops at the end of the input. It is the
one `Repl.CalculatorRepl.Run` implements.

- `Repl.ReplayEndsWithInput` shows that it yields at most one event per line and no
  input error.
- `Repl.ReplayIsPrefixOfAsWritten` shows that it agrees with the loop as written up to
  the end of the input.
