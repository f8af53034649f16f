/**
 * The class `CppReadline::Console` and the process-wide state its static
 * members keep. The GNU readline engine is represented by the fields of
 * `Arbiter`: the live history, the empty snapshot taken at start-up, the
 * console currently holding the engine, and the completion iterator's
 * position.
 */
module CppReadline {
  import opened ReturnCodes
  import opened Tokenizer
  import opened Sequences
  import opened Semantics
  import opened Completion

  datatype Option<T> = None | Some(value: T)

  class Console {
    /** The prompt passed to `readline`. */
    var greeting: string
    /** `commands_`: the registered handlers. */
    var commands: map<string, Handler>
    /** The order in which iterating over `commands_` visits the names. */
    var order: seq<string>
    /** `history_`: this console's saved history, `None` while it is null. */
    var history: Option<seq<string>>

    function Table(): Registry
      reads this
    {
      Registry(commands, order)
    }

    /**
     * Every name is listed once, only `quit` and `exit` hold empty handlers,
     * and the four built-in names are never removed.
     */
    ghost predicate Valid()
      reads this
    {
      && WellFormed(Table())
      && UnsetOnlyTerminators(Table())
      && {"quit", "exit", "help", "run"} <= commands.Keys
    }

    /** The history this console sees once it holds the engine. */
    function Resumed(arb: Arbiter): seq<string>
      reads this, arb
    {
      if arb.current == this then arb.live
      else if history.Some? then history.value
      else arb.empty
    }

    constructor (greeting: string)
      ensures Valid()
      ensures this.greeting == greeting && history == None
      ensures commands.Keys == {"quit", "exit", "help", "run"}
      ensures commands["quit"].Unset? && commands["exit"].Unset?
      ensures commands["help"].Help? && commands["run"].Run?
    {
      this.greeting := greeting;
      commands := map["quit" := Unset, "exit" := Unset];
      order := ["quit", "exit"];
      history := None;
      new;
      commands := commands["help" := Help];
      order := order + ["help"];
      commands := commands["run" := Run];
      order := order + ["run"];
    }

    /** `registerCommand`: inserts `name`, or replaces its handler. */
    method RegisterCommand(name: string, f: seq<string> -> u32)
      requires Valid()
      modifies this
      ensures Valid()
      ensures commands == old(commands)[name := User(f)]
      ensures order == if name in old(commands) then old(order) else old(order) + [name]
      ensures greeting == old(greeting) && history == old(history)
    {
      if name !in commands {
        order := order + [name];
      }
      commands := commands[name := User(f)];
    }

    /** `getRegisteredCommands`: every registered name, once each, in iteration order. */
    method GetRegisteredCommands() returns (names: seq<string>)
      requires Valid()
      ensures names == order
      ensures Distinct(names)
      ensures forall n :: n in names <==> n in commands
    {
      names := [];
      for i := 0 to |order|
        invariant names == order[..i]
      {
        names := names + [order[i]];
      }
    }

    /** `executeCommand`: tokenize, stop on `quit`/`exit`, else look the name up and call it. */
    method ExecuteCommand(line: string, fs: Files, fuel: nat) returns (o: Outcome)
      requires Valid()
      ensures o == CommandOutcome(Table(), fs, line, fuel)
      decreases fuel, 1
    {
      var inputs := Tokenize(line);
      if |inputs| == 0 {
        return Outcome(Returned(Ok), []);
      }
      if inputs[0] == "quit" || inputs[0] == "exit" {
        return Outcome(Returned(Quit), []);
      }
      if inputs[0] in commands {
        o := Call(commands[inputs[0]], inputs, fs, fuel);
        return;
      }
      return Outcome(Returned(Error), [NotFound(inputs[0])]);
    }

    /** Calling a handler found in `commands_` and casting its result to `int`. */
    method Call(h: Handler, inputs: seq<string>, fs: Files, fuel: nat) returns (o: Outcome)
      requires Valid() && |inputs| > 0
      ensures o == HandlerOutcome(Table(), fs, h, inputs, fuel)
      decreases fuel, 0
    {
      match h
      case Unset =>
        o := Outcome(Threw, []);
      case Help =>
        var names := GetRegisteredCommands();
        o := Outcome(Returned(Ok), [Listing(names)]);
      case Run =>
        if |inputs| < 2 {
          o := Outcome(Returned(Error), [Usage(inputs[0])]);
        } else if fuel == 0 {
          o := Outcome(OutOfFuel, []);
        } else {
          var r := ExecuteFile(inputs[1], fs, fuel - 1);
          o := if r.status.Returned? then Outcome(Returned(ToInt(ToUnsigned(r.status.code))), r.trace) else r;
        }
      case User(f) =>
        o := Outcome(Returned(ToInt(f(inputs))), [Called(inputs)]);
    }

    /** `executeFile`: run the script's lines in order until one returns non-zero. */
    method ExecuteFile(path: string, fs: Files, fuel: nat) returns (o: Outcome)
      requires Valid()
      ensures o == FileOutcome(Table(), fs, path, fuel)
      decreases fuel, 3
    {
      if path !in fs {
        return Outcome(Returned(Error), [CannotOpen]);
      }
      var lines := fs[path];
      var counter: nat := 0;
      var trace: seq<Event> := [];
      var i := 0;
      while i < |lines|
        invariant 0 <= i <= |lines|
        invariant LinesOutcome(Table(), fs, lines, 0, fuel)
               == Prefix(trace, LinesOutcome(Table(), fs, lines[i..], counter, fuel))
      {
        var command := lines[i];
        assert lines[i..][0] == command && lines[i..][1..] == lines[i + 1..];
        i := i + 1;
        if IsComment(command) {
          continue;
        }
        var r := ExecuteCommand(command, fs, fuel);
        var echoed := [Echo(counter, command)] + r.trace;
        if r.status != Returned(Ok) {
          return Outcome(r.status, trace + echoed);
        }
        assert trace + (echoed + LinesOutcome(Table(), fs, lines[i..], counter + 1, fuel).trace)
            == (trace + echoed) + LinesOutcome(Table(), fs, lines[i..], counter + 1, fuel).trace;
        trace := trace + echoed;
        counter := counter + 1;
      }
      assert lines[i..] == [];
      return Outcome(Returned(Ok), trace);
    }

    /** `saveState`: take a snapshot of the live history. */
    method SaveState(arb: Arbiter)
      modifies this`history
      ensures history == Some(arb.live)
    {
      history := Some(arb.live);
    }

    /**
     * `reserveConsole`: the console that held the engine saves its live
     * history into its own snapshot, and this console's snapshot (or the
     * empty one, if it never held the engine) becomes the live history.
     */
    method ReserveConsole(arb: Arbiter)
      modifies arb, arb.current
      ensures arb.current == this
      ensures arb.live == old(Resumed(arb))
      ensures arb.cursor == old(arb.cursor)
      ensures old(arb.current) == this ==> unchanged(this)
      ensures old(arb.current) != null && old(arb.current) != this ==>
                old(arb.current).history == Some(old(arb.live))
      ensures old(arb.current) != null ==>
                && old(arb.current).greeting == old(arb.current.greeting)
                && old(arb.current).commands == old(arb.current.commands)
                && old(arb.current).order == old(arb.current.order)
    {
      if arb.current == this {
        return;
      }
      if arb.current != null {
        arb.current.SaveState(arb);
      }
      if history.None? {
        arb.live := arb.empty;
      } else {
        arb.live := history.value;
      }
      arb.current := this;
    }

    /**
     * `readLine`: take the engine, read one line (`None` is end of input),
     * add a non-empty line to the history and execute it.
     */
    method ReadLine(arb: Arbiter, input: Option<string>, fs: Files, fuel: nat) returns (o: Outcome)
      requires Valid()
      modifies arb, arb.current
      ensures arb.current == this && arb.cursor == old(arb.cursor)
      ensures old(arb.current) == this ==> unchanged(this)
      ensures old(arb.current) != null && old(arb.current) != this ==>
                old(arb.current).history == Some(old(arb.live))
      ensures old(arb.current) != null ==>
                && old(arb.current).greeting == old(arb.current.greeting)
                && old(arb.current).commands == old(arb.current.commands)
                && old(arb.current).order == old(arb.current.order)
      ensures input.None? ==> o == Outcome(Returned(Quit), []) && arb.live == old(Resumed(arb))
      ensures input.Some? ==>
                && o == CommandOutcome(Table(), fs, input.value, fuel)
                && arb.live == old(Resumed(arb)) + (if input.value == [] then [] else [input.value])
    {
      ReserveConsole(arb);
      if input.None? {
        return Outcome(Returned(Quit), []);
      }
      var line := input.value;
      if line != [] {
        arb.live := arb.live + [line];
      }
      o := ExecuteCommand(line, fs, fuel);
    }
  }

  /**
   * The static members of `Console`: `currentConsole_`, `emptyHistory_`, the
   * completion iterator's position, and readline's live history.
   */
  class Arbiter {
    /** `currentConsole_`: the console holding the engine, if any. */
    var current: Console?
    /** The engine's live history. */
    var live: seq<string>
    /** `emptyHistory_`: the history state captured at start-up. */
    const empty: seq<string>
    /** The static iterator of `commandIterator`, as a position in the current console's names. */
    var cursor: nat

    constructor (initial: seq<string>)
      ensures current == null && live == initial && empty == initial && cursor == 0
    {
      current := null;
      live := initial;
      empty := initial;
      cursor := 0;
    }

    /**
     * `commandIterator`: `state == 0` restarts the scan; each call returns the
     * next name of the current console in which `text` occurs, or `None` once
     * the names are exhausted.
     */
    method CommandIterator(text: string, state: int) returns (r: Option<string>)
      requires current != null
      modifies this`cursor
      ensures var from := if state == 0 then 0 else old(cursor);
              && from <= cursor
              && (r.Some? ==>
                    && from < cursor <= |current.order|
                    && r.value == current.order[cursor - 1]
                    && Occurs(text, r.value)
                    && NoMatchIn(current.order, text, from, cursor - 1))
              && (r.None? ==>
                    && cursor == (if from < |current.order| then |current.order| else from)
                    && NoMatchIn(current.order, text, from, cursor))
    {
      if state == 0 {
        cursor := 0;
      }
      ghost var from := cursor;
      var names := current.order;
      while cursor < |names|
        invariant from <= cursor
        invariant from < |names| ==> cursor <= |names|
        invariant from >= |names| ==> cursor == from
        invariant NoMatchIn(names, text, from, cursor)
        decreases |names| - cursor
      {
        var command := names[cursor];
        cursor := cursor + 1;
        if Occurs(text, command) {
          return Some(command);
        }
      }
      return None;
    }

    /**
     * `getCommandCompletions`: nothing unless the word starts the line;
     * otherwise the names collected by calling `commandIterator` with states
     * 0, 1, 2, ... until it returns `None`, or nothing if none matched.
     */
    method GetCommandCompletions(text: string, start: int) returns (r: Option<seq<string>>)
      requires current != null
      modifies this`cursor
      ensures start != 0 ==> r == None && cursor == old(cursor)
      ensures start == 0 ==>
                var ms := Matches(current.order, text);
                && r == (if ms == [] then None else Some(ms))
                && cursor == |current.order|
    {
      if start != 0 {
        return None;
      }
      var names := current.order;
      var matches: seq<string> := [];
      var next := CommandIterator(text, 0);
      if next.Some? {
        MatchesSkip(names, text, 0, cursor - 1);
        MatchesStep(names, text, cursor - 1);
      } else {
        MatchesSkip(names, text, 0, cursor);
      }
      var state := 1;
      while next.Some?
        invariant cursor <= |names|
        invariant next.Some? ==> 0 < cursor && next.value == names[cursor - 1]
        invariant next.Some? ==> matches + [next.value] == Matches(names[..cursor], text)
        invariant next.None? ==> cursor == |names| && matches == Matches(names[..cursor], text)
        decreases |names| - cursor + (if next.Some? then 1 else 0)
      {
        matches := matches + [next.value];
        ghost var from := cursor;
        next := CommandIterator(text, state);
        if next.Some? {
          MatchesSkip(names, text, from, cursor - 1);
          MatchesStep(names, text, cursor - 1);
        } else {
          MatchesSkip(names, text, from, cursor);
        }
        state := state + 1;
      }
      assert names[..|names|] == names;
      return if matches == [] then None else Some(matches);
    }
  }
}
