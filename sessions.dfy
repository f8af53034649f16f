/**
 * Uses of `CppReadline.Console` as a host application makes them, with what
 * the class contracts let a caller conclude.
 */
module Sessions {
  import opened ReturnCodes
  import opened Tokenizer
  import opened Sequences
  import opened Semantics
  import opened CppReadline
  import opened ConsoleFacts

  /** A new console lists its four built-ins, and a registered name joins them once. */
  method RegisterThenList(name: string, f: seq<string> -> u32) returns (names: seq<string>)
    ensures forall n :: n in names <==> n in {"quit", "exit", "help", "run", name}
    ensures Distinct(names)
  {
    var console := new Console("> ");
    console.RegisterCommand(name, f);
    names := console.GetRegisteredCommands();
  }

  /** Registering a handler under `quit` does not stop `quit` from quitting. */
  method QuitCannotBeOverridden(f: seq<string> -> u32, fs: Files, fuel: nat) returns (o: Outcome)
    ensures o == Outcome(Returned(Quit), [])
  {
    var console := new Console("> ");
    console.RegisterCommand("quit", f);
    o := console.ExecuteCommand("quit", fs, fuel);
    assert IsWord("quit");
    UnwordsRoundTrip(["quit"]);
    TerminatorsQuit(console.Table(), fs, "quit", fuel);
  }

  /** Registering `ws[0]` and typing the words `ws` calls the handler once with `ws`. */
  method RegisteredCommandRuns(ws: seq<string>, f: seq<string> -> u32, fs: Files, fuel: nat) returns (o: Outcome)
    requires AreWords(ws) && ws != [] && !IsTerminator(ws[0])
    ensures o == Outcome(Returned(ToInt(f(ws))), [Called(ws)])
  {
    var console := new Console("> ");
    console.RegisterCommand(ws[0], f);
    o := console.ExecuteCommand(Unwords(ws), fs, fuel);
    UserCommandCalledOnce(console.Table(), fs, ws, fuel);
  }

  /**
   * Two consoles take turns at the engine: `b` reads a line, then `a` reads
   * one. `a` finds its own history again, without `b`'s line, and `b` keeps
   * its history, with its new line, in its snapshot.
   */
  method TakeTurns(arb: Arbiter, a: Console, b: Console, lineA: string, lineB: string, fs: Files, fuel: nat)
    requires a != b && a.Valid() && b.Valid() && arb.current == a
    requires lineA != [] && lineB != []
    modifies arb, a, b
    ensures arb.current == a
    ensures arb.live == old(arb.live) + [lineA]
    ensures b.history == Some(old(b.Resumed(arb)) + [lineB])
  {
    var fromB := b.ReadLine(arb, Some(lineB), fs, fuel);
    assert a.history == Some(old(arb.live));
    var fromA := a.ReadLine(arb, Some(lineA), fs, fuel);
  }
}
