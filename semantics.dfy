/**
 * What `executeCommand` and `executeFile` compute, as functions of the
 * registry, the file system and the line. The class methods in module
 * CppReadline are proved to return exactly these outcomes.
 *
 * `run` calls `executeFile`, which calls `executeCommand`, which can reach
 * `run` again; a script that runs itself recurses without bound. In the
 * program that ends when a resource runs out: an open of the script fails
 * at the open-file limit and Error is passed up, or the stack overflows.
 * Resource limits are not modelled.
 * The `fuel` argument bounds how deeply `run` may nest, and an exhausted
 * bound is reported as the status `OutOfFuel`.
 */
module Semantics {
  import opened ReturnCodes
  import opened Tokenizer
  import opened Sequences

  /** A script file system: path to the lines `std::getline` would read. */
  type Files = map<string, seq<string>>

  /** An entry of the command table. */
  datatype Handler =
    | Unset                        // an empty `std::function`, stored under `quit` and `exit`
    | Help                         // the built-in `help` closure
    | Run                          // the built-in `run` closure
    | User(f: seq<string> -> u32)  // a handler registered by the host application

  /**
   * The `unordered_map` of commands: its entries and the order in which
   * iterating over it visits the names.
   */
  datatype Registry = Registry(handlers: map<string, Handler>, order: seq<string>)

  /** What the console reports to the user, or which handler it calls. */
  datatype Event =
    | Echo(index: nat, line: string)   // "[k] line" before a script line is run
    | NotFound(name: string)           // "Command 'name' not found."
    | CannotOpen                       // the script file could not be opened
    | Usage(name: string)              // "Usage: name script_filename"
    | Listing(names: seq<string>)      // the output of `help`
    | Called(tokens: seq<string>)      // a user handler was called with these tokens

  datatype Status =
    | Returned(code: int)   // an `int` result reached the caller
    | Threw                 // an empty handler was called (`std::bad_function_call`)
    | OutOfFuel             // `run` nested deeper than the fuel allows

  datatype Outcome = Outcome(status: Status, trace: seq<Event>)

  /** Every returned code fits in a 32-bit `int`. */
  predicate InRange(s: Status) {
    s.Returned? ==> IsInt32(s.code)
  }

  /** The names of the registry appear once each in the iteration order. */
  ghost predicate WellFormed(reg: Registry) {
    && Distinct(reg.order)
    && (forall n :: n in reg.handlers <==> n in reg.order)
  }

  /** Only the two termination names may hold an empty handler. */
  predicate UnsetOnlyTerminators(reg: Registry) {
    forall n :: n in reg.handlers && reg.handlers[n].Unset? ==> n == "quit" || n == "exit"
  }

  /** `quit` or `exit`: words a line can start with, so the test in `executeCommand` can fire. */
  predicate IsTerminator(name: string): (b: bool)
    ensures b ==> IsWord(name)
  {
    name == "quit" || name == "exit"
  }

  /** A line whose first character is '#'; an empty line is not a comment. */
  predicate IsComment(line: string): (b: bool)
    ensures line == [] ==> !b
  {
    |line| > 0 && line[0] == '#'
  }

  /** The trace `t` happened before `o`. */
  function Prefix(t: seq<Event>, o: Outcome): (p: Outcome) {
    Outcome(o.status, t + o.trace)
  }

  /** `executeCommand(line)`. */
  function CommandOutcome(reg: Registry, fs: Files, line: string, fuel: nat): (o: Outcome)
    ensures InRange(o.status)
    decreases fuel, 1
  {
    var tokens := Tokens(line);
    if tokens == [] then Outcome(Returned(Ok), [])
    else if IsTerminator(tokens[0]) then Outcome(Returned(Quit), [])
    else if tokens[0] in reg.handlers then HandlerOutcome(reg, fs, reg.handlers[tokens[0]], tokens, fuel)
    else Outcome(Returned(Error), [NotFound(tokens[0])])
  }

  /** `static_cast<int>((it->second)(inputs))` for each kind of handler. */
  function HandlerOutcome(reg: Registry, fs: Files, h: Handler, tokens: seq<string>, fuel: nat): (o: Outcome)
    requires |tokens| > 0
    ensures InRange(o.status)
    decreases fuel, 0
  {
    match h
    case Unset => Outcome(Threw, [])
    case Help => Outcome(Returned(Ok), [Listing(reg.order)])
    case Run =>
      if |tokens| < 2 then Outcome(Returned(Error), [Usage(tokens[0])])
      else if fuel == 0 then Outcome(OutOfFuel, [])
      else
        // the closure's `int` result is stored as `unsigned` and cast back
        var r := FileOutcome(reg, fs, tokens[1], fuel - 1);
        if r.status.Returned? then Outcome(Returned(ToInt(ToUnsigned(r.status.code))), r.trace) else r
    case User(f) => Outcome(Returned(ToInt(f(tokens))), [Called(tokens)])
  }

  /** `executeFile(path)`. */
  function FileOutcome(reg: Registry, fs: Files, path: string, fuel: nat): (o: Outcome)
    ensures InRange(o.status)
    decreases fuel, 3
  {
    if path !in fs then Outcome(Returned(Error), [CannotOpen])
    else LinesOutcome(reg, fs, fs[path], 0, fuel)
  }

  /** The `while (getline)` loop of `executeFile` over the remaining `lines`, `counter` lines run so far. */
  function LinesOutcome(reg: Registry, fs: Files, lines: seq<string>, counter: nat, fuel: nat): (o: Outcome)
    ensures InRange(o.status)
    decreases fuel, 2, |lines|
  {
    if lines == [] then Outcome(Returned(Ok), [])
    else if IsComment(lines[0]) then LinesOutcome(reg, fs, lines[1..], counter, fuel)
    else
      var r := CommandOutcome(reg, fs, lines[0], fuel);
      var echoed := [Echo(counter, lines[0])] + r.trace;
      if r.status != Returned(Ok) then Outcome(r.status, echoed)
      else Prefix(echoed, LinesOutcome(reg, fs, lines[1..], counter + 1, fuel))
  }
}
