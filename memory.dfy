/** The memory plugin (calculator/plugins/memory.py): named numbers kept on the REPL
    object. `float(text)` is the parameter `parse`; printed lines are reports. */
module Memory {
  import opened Common
  import Text

  type Parser = string -> Option<real>

  /** The `memory` attribute of the host: `None` while it has none. */
  type Store = Option<map<string, real>>

  /** The exception that escapes a handler because the host has no `memory` attribute
      (`AttributeError`; only `do_recall` catches it). */
  datatype Crash = NoMemoryAttribute

  datatype StoreReport = Stored(name: string, value: real) | InvalidFormat

  datatype RecallReport = Recalled(name: string, value: real) | NotStored(name: string) | RecallFailed

  datatype ListReport = NoValues | Listing(entries: seq<(string, real)>)

  /** The handlers `register_commands` sets on the host's class. */
  const Handlers: set<string> := {"do_store", "do_recall", "do_clear_memory", "do_memory"}

  // ---------------------------------------------------------------- specification

  /** What `store arg` asks for: `arg.split()` must give exactly a name and a number. */
  function StoreRequest(arg: string, parse: Parser): (r: Option<(string, real)>)
    ensures r.Some? <==> |Text.Split(arg)| == 2 && parse(Text.Split(arg)[1]).Some?
    ensures r.Some? ==> r.value.0 == Text.Split(arg)[0] && parse(Text.Split(arg)[1]) == Some(r.value.1)
    ensures r.Some? ==> |r.value.0| > 0 && Text.NoSpace(r.value.0)
  {
    var tokens := Text.Split(arg);
    if |tokens| != 2 then None
    else match parse(tokens[1])
      case None => None
      case Some(v) =>
        assert tokens[0] in tokens;
        Some((tokens[0], v))
  }

  /** The memory after `store arg`: one entry set, overwriting an old one, and every
      other entry kept; nothing changes on malformed input or without a memory. */
  function AfterStore(memory: Store, arg: string, parse: Parser): (m: Store)
    ensures StoreRequest(arg, parse).None? || memory.None? ==> m == memory
    ensures StoreRequest(arg, parse).Some? && memory.Some? ==>
              var (name, value) := StoreRequest(arg, parse).value;
              m.Some? && m.value.Keys == memory.value.Keys + {name} && m.value[name] == value
              && forall k :: k in memory.value && k != name ==> m.value[k] == memory.value[k]
  {
    match StoreRequest(arg, parse)
    case None => memory
    case Some((name, value)) =>
      if memory.None? then memory else Some(memory.value[name := value])
  }

  /** What `store arg` reports, or the exception it lets through. */
  function StoreOutcome(memory: Store, arg: string, parse: Parser): (r: Result<StoreReport, Crash>)
    ensures r == Ok(InvalidFormat) <==> StoreRequest(arg, parse).None?
    ensures r.Err? <==> StoreRequest(arg, parse).Some? && memory.None?
    ensures r.Ok? && r.value.Stored? ==> Some((r.value.name, r.value.value)) == StoreRequest(arg, parse)
  {
    match StoreRequest(arg, parse)
    case None => Ok(InvalidFormat)
    case Some((name, value)) => if memory.None? then Err(NoMemoryAttribute) else Ok(Stored(name, value))
  }

  /** What `recall arg` reports: the value under the stripped name exactly when the
      memory has that key. */
  function RecallOutcome(memory: Store, arg: string): (r: RecallReport)
    ensures memory.None? <==> r == RecallFailed
    ensures memory.Some? ==> (r.Recalled? <==> Text.Strip(arg) in memory.value)
    ensures r.Recalled? ==> r.name == Text.Strip(arg) && r.value == memory.value[r.name]
    ensures r.NotStored? ==> r.name == Text.Strip(arg)
  {
    var name := Text.Strip(arg);
    match memory
    case None => RecallFailed
    case Some(m) => if name in m then Recalled(name, m[name]) else NotStored(name)
  }

  /** `entries` lists the map: every entry once, and nothing else. */
  predicate Lists(entries: seq<(string, real)>, m: map<string, real>) {
    (forall i :: 0 <= i < |entries| ==> entries[i].0 in m && m[entries[i].0] == entries[i].1)
    && (forall k :: k in m ==> (k, m[k]) in entries)
    && (forall i, j :: 0 <= i < j < |entries| ==> entries[i].0 != entries[j].0)
  }

  // ---------------------------------------------------------------- properties

  /** A stored number is recalled under its name. */
  lemma RecallAfterStore(memory: Store, arg: string, parse: Parser)
    requires memory.Some? && StoreRequest(arg, parse).Some?
    ensures var (name, value) := StoreRequest(arg, parse).value;
            RecallOutcome(AfterStore(memory, arg, parse), name) == Recalled(name, value)
  {
    var (name, value) := StoreRequest(arg, parse).value;
    Text.StripOfNoSpace(name);
  }

  /** Storing under one name does not disturb what another name recalls. */
  lemma StoreKeepsOtherNames(memory: Store, arg: string, parse: Parser, other: string)
    requires StoreRequest(arg, parse).Some? ==> Text.Strip(other) != StoreRequest(arg, parse).value.0
    ensures memory.Some? ==> RecallOutcome(AfterStore(memory, arg, parse), other) == RecallOutcome(memory, other)
  {
  }

  /** Malformed input to `store` changes nothing, whatever the memory holds. */
  lemma MalformedStoreChangesNothing(memory: Store, arg: string, parse: Parser)
    requires |Text.Split(arg)| != 2 || parse(Text.Split(arg)[1]).None?
    ensures AfterStore(memory, arg, parse) == memory
    ensures StoreOutcome(memory, arg, parse) == Ok(InvalidFormat)
  {
  }

  // ---------------------------------------------------------------- the host

  /** The REPL object as the memory plugin sees it. */
  class MemoryHost {
    var memory: Store
    var classHandlers: set<string>

    constructor (memory: Store, classHandlers: set<string>)
      ensures this.memory == memory && this.classHandlers == classHandlers
    {
      this.memory := memory;
      this.classHandlers := classHandlers;
    }

    /** `register_commands`: an empty memory only if the host has none, then the four
        handlers. */
    method RegisterCommands()
      modifies this
      ensures old(memory).None? ==> memory == Some(map[])
      ensures old(memory).Some? ==> memory == old(memory)
      ensures classHandlers == old(classHandlers) + Handlers
    {
      if memory.None? {
        memory := Some(map[]);
      }
      classHandlers := classHandlers + Handlers;
    }

    /** `do_store`. */
    method DoStore(arg: string, parse: Parser) returns (r: Result<StoreReport, Crash>)
      modifies this
      ensures r == StoreOutcome(old(memory), arg, parse)
      ensures memory == AfterStore(old(memory), arg, parse)
      ensures classHandlers == old(classHandlers)
    {
      var tokens := Text.Split(arg);
      if |tokens| != 2 {
        return Ok(InvalidFormat);
      }
      var name := tokens[0];
      var value := parse(tokens[1]);
      if value.None? {
        return Ok(InvalidFormat);
      }
      if memory.None? {
        return Err(NoMemoryAttribute);
      }
      memory := Some(memory.value[name := value.value]);
      r := Ok(Stored(name, value.value));
    }

    /** `do_recall`: only reads the memory. */
    method DoRecall(arg: string) returns (r: RecallReport)
      ensures r == RecallOutcome(memory, arg)
    {
      var name := Text.Strip(arg);
      if memory.None? {
        return RecallFailed;
      }
      if name in memory.value {
        r := Recalled(name, memory.value[name]);
      } else {
        r := NotStored(name);
      }
    }

    /** `do_clear_memory`: the memory is empty afterwards, however often it is called. */
    method DoClearMemory() returns (r: Result<(), Crash>)
      modifies this
      ensures old(memory).None? ==> r == Err(NoMemoryAttribute) && memory == old(memory)
      ensures old(memory).Some? ==> r == Ok(()) && memory == Some(map[])
      ensures classHandlers == old(classHandlers)
    {
      if memory.None? {
        return Err(NoMemoryAttribute);
      }
      memory := Some(map[]);
      r := Ok(());
    }

    /** `do_memory`: "no values" for an empty memory, else every entry once. */
    method DoMemory() returns (r: Result<ListReport, Crash>)
      ensures memory.None? <==> r == Err(NoMemoryAttribute)
      ensures memory.Some? ==> (r == Ok(NoValues) <==> memory.value == map[])
      ensures memory.Some? && r.Ok? && r.value.Listing? ==> Lists(r.value.entries, memory.value)
    {
      if memory.None? {
        return Err(NoMemoryAttribute);
      }
      var m := memory.value;
      if m == map[] {
        return Ok(NoValues);
      }
      var entries: seq<(string, real)> := [];
      var left := m.Keys;
      while left != {}
        invariant left <= m.Keys
        invariant forall i :: 0 <= i < |entries| ==> entries[i].0 in m && entries[i].0 !in left && m[entries[i].0] == entries[i].1
        invariant forall k :: k in m && k !in left ==> (k, m[k]) in entries
        invariant forall i, j :: 0 <= i < j < |entries| ==> entries[i].0 != entries[j].0
        decreases left
      {
        var k :| k in left;
        entries := entries + [(k, m[k])];
        left := left - {k};
      }
      r := Ok(Listing(entries));
    }
  }

  lemma SplitOfXFive()
    ensures Text.Split("x 5") == ["x", "5"]
  {
    var s := "x 5";
    assert !Text.IsSpace(s[0]) && Text.IsSpace(s[1]) && !Text.IsSpace(s[2]);
    assert Text.TokenLength(s[2..]) == 1 by {
      assert s[2..][1..] == [];
    }
    assert Text.Split(s[2..]) == ["5"] by {
      assert s[2..][..1] == "5" && s[2..][1..] == [];
    }
    assert Text.TokenLength(s) == 1 by {
      assert s[1..][0] == s[1];
    }
    assert Text.Split(s[1..]) == ["5"] by {
      assert s[1..][1..] == s[2..];
    }
    assert s[..1] == "x";
  }

  /** `store x 5`, `recall x`, `clear_memory`, `recall x` on a freshly registered host. */
  method StoreRecallClear(parse: Parser) returns (first: RecallReport, second: RecallReport)
    requires parse("5") == Some(5.0)
    ensures first == Recalled("x", 5.0)
    ensures second == NotStored("x")
  {
    var host := new MemoryHost(None, {});
    host.RegisterCommands();
    assert Text.Split("x 5") == ["x", "5"] by { SplitOfXFive(); }
    var _ := host.DoStore("x 5", parse);
    assert Text.Strip("x") == "x" by { Text.StripOfNoSpace("x"); }
    first := host.DoRecall("x");
    var _ := host.DoClearMemory();
    second := host.DoRecall("x");
  }
}
