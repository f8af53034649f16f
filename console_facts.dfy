/**
 * Properties of `executeCommand`, the built-in `help` and `run` commands and
 * `executeFile`, stated over the functions of module Semantics, which the
 * methods of `CppReadline.Console` are proved to compute.
 */
module ConsoleFacts {
  import opened ReturnCodes
  import opened Tokenizer
  import opened Sequences
  import opened Semantics

  // ---------------------------------------------------------------- dispatch

  /** An empty or all-whitespace line returns Ok and calls no handler. */
  lemma BlankLineIsOk(reg: Registry, fs: Files, line: string, fuel: nat)
    requires AllSpace(line)
    ensures CommandOutcome(reg, fs, line, fuel) == Outcome(Returned(Ok), [])
  {
    TokensEmptyIff(line);
  }

  /**
   * `quit` and `exit` return Quit before the registry is consulted, whatever
   * handler is registered under those names.
   */
  lemma TerminatorsQuit(reg: Registry, fs: Files, line: string, fuel: nat)
    requires Tokens(line) != [] && IsTerminator(Tokens(line)[0])
    ensures CommandOutcome(reg, fs, line, fuel) == Outcome(Returned(Quit), [])
  {
  }

  /**
   * Typing the words `ws` of a registered user command calls its handler
   * once, with all the words (the name first), and returns its result cast to `int`.
   */
  lemma UserCommandCalledOnce(reg: Registry, fs: Files, ws: seq<string>, fuel: nat)
    requires AreWords(ws) && ws != [] && !IsTerminator(ws[0])
    requires ws[0] in reg.handlers && reg.handlers[ws[0]].User?
    ensures CommandOutcome(reg, fs, Unwords(ws), fuel)
         == Outcome(Returned(ToInt(reg.handlers[ws[0]].f(ws))), [Called(ws)])
  {
    UnwordsRoundTrip(ws);
  }

  /** An unknown name returns Error and reports it; no handler is called. */
  lemma UnknownCommandIsError(reg: Registry, fs: Files, line: string, fuel: nat)
    requires Tokens(line) != [] && !IsTerminator(Tokens(line)[0]) && Tokens(line)[0] !in reg.handlers
    ensures CommandOutcome(reg, fs, line, fuel) == Outcome(Returned(Error), [NotFound(Tokens(line)[0])])
  {
  }

  /**
   * A handler result below 2^31, the range the cast keeps, never makes a
   * command read as Quit: its line returns Ok or an error.
   */
  lemma HandlerBelowTwo31NeverQuits(reg: Registry, fs: Files, ws: seq<string>, fuel: nat)
    requires AreWords(ws) && ws != [] && !IsTerminator(ws[0])
    requires ws[0] in reg.handlers && reg.handlers[ws[0]].User?
    requires reg.handlers[ws[0]].f(ws) < Two31
    ensures var s := CommandOutcome(reg, fs, Unwords(ws), fuel).status;
            s.Returned? && (s.code == Ok || IsError(s.code))
  {
    UserCommandCalledOnce(reg, fs, ws, fuel);
    ResultsBelowTwo31NeverQuit(reg.handlers[ws[0]].f(ws));
  }

  /**
   * The header allows any result of 1 or more as an error, 2^31 .. 2^32-1
   * included; the cast turns the largest of them into -1, so an ordinary
   * command returns Quit.
   */
  lemma WrappedResultReadsAsQuit(reg: Registry, fs: Files, ws: seq<string>, fuel: nat)
    requires AreWords(ws) && ws != [] && !IsTerminator(ws[0])
    requires ws[0] in reg.handlers && reg.handlers[ws[0]].User?
    requires reg.handlers[ws[0]].f(ws) == Two32 - 1
    ensures CommandOutcome(reg, fs, Unwords(ws), fuel).status == Returned(Quit)
  {
    UserCommandCalledOnce(reg, fs, ws, fuel);
    LargestUnsignedIsQuit();
  }

  // ---------------------------------------------------------------- built-ins

  /** `help` returns Ok and lists every registered name exactly once. */
  lemma HelpListsEachNameOnce(reg: Registry, fs: Files, line: string, fuel: nat)
    requires WellFormed(reg)
    requires Tokens(line) != [] && Tokens(line)[0] == "help"
    requires "help" in reg.handlers && reg.handlers["help"].Help?
    ensures var o := CommandOutcome(reg, fs, line, fuel);
            && o.status == Returned(Ok)
            && o.trace == [Listing(reg.order)]
            && forall n :: multiset(reg.order)[n] == if n in reg.handlers then 1 else 0
  {
    forall n {
      DistinctCount(reg.order, n);
    }
  }

  /**
   * `run` without a file name returns Error with a usage notice, and the
   * file system plays no part in it.
   */
  lemma RunWithoutPathIsUsageError(reg: Registry, fs: Files, other: Files, line: string, fuel: nat)
    requires Tokens(line) == ["run"]
    requires "run" in reg.handlers && reg.handlers["run"].Run?
    ensures CommandOutcome(reg, fs, line, fuel) == Outcome(Returned(Error), [Usage("run")])
    ensures CommandOutcome(reg, fs, line, fuel) == CommandOutcome(reg, other, line, fuel)
  {
  }

  /**
   * `run path ...` returns exactly what `executeFile(path)` returns: the
   * round trip of the result through `unsigned` loses nothing.
   */
  lemma RunIsExecuteFile(reg: Registry, fs: Files, line: string, fuel: nat)
    requires |Tokens(line)| >= 2 && Tokens(line)[0] == "run"
    requires "run" in reg.handlers && reg.handlers["run"].Run?
    requires fuel > 0
    ensures CommandOutcome(reg, fs, line, fuel) == FileOutcome(reg, fs, Tokens(line)[1], fuel - 1)
  {
  }

  /**
   * A script whose only line runs the script itself never finishes in the
   * model, which has no resource limits: it exhausts any fuel.
   */
  lemma {:induction false} SelfRunningScriptNeverEnds(reg: Registry, fs: Files, path: string, fuel: nat)
    requires "run" in reg.handlers && reg.handlers["run"].Run?
    requires IsWord(path) && path in fs && fs[path] == [Unwords(["run", path])]
    ensures FileOutcome(reg, fs, path, fuel).status == OutOfFuel
    decreases fuel
  {
    var line := Unwords(["run", path]);
    assert IsWord("run");
    UnwordsRoundTrip(["run", path]);
    assert line[0] == 'r';
    assert fs[path][1..] == [];
    assert !IsTerminator("run");
    assert !IsComment(line);
    if fuel > 0 {
      SelfRunningScriptNeverEnds(reg, fs, path, fuel - 1);
      assert HandlerOutcome(reg, fs, Run, ["run", path], fuel).status == OutOfFuel;
    }
    assert CommandOutcome(reg, fs, line, fuel).status == OutOfFuel;
  }

  // ---------------------------------------------------------------- scripts

  /** An unopenable script returns Error and reports it. */
  lemma MissingScriptIsError(reg: Registry, fs: Files, path: string, fuel: nat)
    requires path !in fs
    ensures FileOutcome(reg, fs, path, fuel) == Outcome(Returned(Error), [CannotOpen])
  {
  }

  /** The lines of a script that are not comments, in order. */
  function Uncommented(lines: seq<string>): (r: seq<string>)
    ensures forall k :: 0 <= k < |r| ==> !IsComment(r[k]) && r[k] in lines
    decreases |lines|
  {
    if lines == [] then []
    else (if IsComment(lines[0]) then [] else [lines[0]]) + Uncommented(lines[1..])
  }

  /** Comment lines have no effect at all: no echo, no dispatch, no count. */
  lemma {:induction false} CommentsAreSkipped(reg: Registry, fs: Files, lines: seq<string>, counter: nat, fuel: nat)
    ensures LinesOutcome(reg, fs, lines, counter, fuel) == LinesOutcome(reg, fs, Uncommented(lines), counter, fuel)
    decreases |lines|
  {
    if lines != [] {
      CommentsAreSkipped(reg, fs, lines[1..], counter, fuel);
      CommentsAreSkipped(reg, fs, lines[1..], counter + 1, fuel);
      var u := Uncommented(lines);
      if IsComment(lines[0]) {
        assert u == Uncommented(lines[1..]);
      } else {
        assert u[0] == lines[0] && u[1..] == Uncommented(lines[1..]);
      }
    }
  }

  /**
   * The first non-comment line that returns non-zero ends the script: its
   * result is the script's result, and the lines after it are never run.
   */
  lemma {:induction false} StopsAtFirstNonZero(reg: Registry, fs: Files, lines: seq<string>, counter: nat, fuel: nat, j: nat)
    requires j < |lines| && !IsComment(lines[j])
    requires CommandOutcome(reg, fs, lines[j], fuel).status != Returned(Ok)
    requires forall i :: 0 <= i < j && !IsComment(lines[i]) ==> CommandOutcome(reg, fs, lines[i], fuel).status == Returned(Ok)
    ensures LinesOutcome(reg, fs, lines, counter, fuel).status == CommandOutcome(reg, fs, lines[j], fuel).status
    ensures LinesOutcome(reg, fs, lines, counter, fuel) == LinesOutcome(reg, fs, lines[..j + 1], counter, fuel)
    decreases j
  {
    assert lines[..j + 1][0] == lines[0];
    if j > 0 {
      var next := if IsComment(lines[0]) then counter else counter + 1;
      forall i | 0 <= i < j - 1 && !IsComment(lines[1..][i])
        ensures CommandOutcome(reg, fs, lines[1..][i], fuel).status == Returned(Ok)
      {
        assert lines[1..][i] == lines[i + 1];
      }
      StopsAtFirstNonZero(reg, fs, lines[1..], next, fuel, j - 1);
      assert lines[..j + 1][1..] == lines[1..][..j];
    }
  }

  /** A script returns Ok exactly when every line it runs returns Ok. */
  lemma {:induction false} OkIffEveryLineOk(reg: Registry, fs: Files, lines: seq<string>, counter: nat, fuel: nat)
    ensures LinesOutcome(reg, fs, lines, counter, fuel).status == Returned(Ok)
        <==> forall k :: 0 <= k < |lines| && !IsComment(lines[k]) ==> CommandOutcome(reg, fs, lines[k], fuel).status == Returned(Ok)
    decreases |lines|
  {
    if lines != [] {
      var next := if IsComment(lines[0]) then counter else counter + 1;
      OkIffEveryLineOk(reg, fs, lines[1..], next, fuel);
      assert forall k :: 1 <= k < |lines| ==> lines[k] == lines[1..][k - 1];
    }
  }

  /**
   * The k-th line run is echoed as `[counter + k] line` in every script that
   * reaches it: the echo comes before the line runs, so a line that fails is
   * echoed too.
   */
  lemma {:induction false} EchoesNumberRunLines(reg: Registry, fs: Files, lines: seq<string>, counter: nat, fuel: nat, k: nat)
    requires k < |Uncommented(lines)|
    requires forall i :: 0 <= i < k ==> CommandOutcome(reg, fs, Uncommented(lines)[i], fuel).status == Returned(Ok)
    ensures Echo(counter + k, Uncommented(lines)[k]) in LinesOutcome(reg, fs, lines, counter, fuel).trace
  {
    CommentsAreSkipped(reg, fs, lines, counter, fuel);
    EchoesInOrder(reg, fs, Uncommented(lines), counter, fuel, k);
  }

  lemma {:induction false} EchoesInOrder(reg: Registry, fs: Files, ls: seq<string>, counter: nat, fuel: nat, k: nat)
    requires forall i :: 0 <= i < |ls| ==> !IsComment(ls[i])
    requires k < |ls|
    requires forall i :: 0 <= i < k ==> CommandOutcome(reg, fs, ls[i], fuel).status == Returned(Ok)
    ensures Echo(counter + k, ls[k]) in LinesOutcome(reg, fs, ls, counter, fuel).trace
    decreases k
  {
    var r := CommandOutcome(reg, fs, ls[0], fuel);
    var echoed := [Echo(counter, ls[0])] + r.trace;
    if k == 0 {
      assert LinesOutcome(reg, fs, ls, counter, fuel).trace[0] == Echo(counter, ls[0]);
    } else {
      var rest := LinesOutcome(reg, fs, ls[1..], counter + 1, fuel);
      assert LinesOutcome(reg, fs, ls, counter, fuel).trace == echoed + rest.trace;
      forall i | 0 <= i < k - 1 ensures CommandOutcome(reg, fs, ls[1..][i], fuel).status == Returned(Ok) {
        assert ls[1..][i] == ls[i + 1];
      }
      EchoesInOrder(reg, fs, ls[1..], counter + 1, fuel, k - 1);
      assert ls[1..][k - 1] == ls[k];
    }
  }

  // ---------------------------------------------------------------- whole runs

  /**
   * The fuel bound only cuts runs off: once a line's outcome is not
   * `OutOfFuel`, any larger bound gives the same outcome, so a returned code
   * is the program's own result and not an effect of the bound.
   */
  lemma {:induction false} CommandFuelMonotone(reg: Registry, fs: Files, line: string, fuel: nat, more: nat)
    requires fuel <= more && CommandOutcome(reg, fs, line, fuel).status != OutOfFuel
    ensures CommandOutcome(reg, fs, line, more) == CommandOutcome(reg, fs, line, fuel)
    decreases fuel, 1
  {
    var ts := Tokens(line);
    if ts != [] && !IsTerminator(ts[0]) && ts[0] in reg.handlers {
      var h := reg.handlers[ts[0]];
      if h.Run? && |ts| >= 2 {
        FileFuelMonotone(reg, fs, ts[1], fuel - 1, more - 1);
      }
    }
  }

  lemma {:induction false} FileFuelMonotone(reg: Registry, fs: Files, path: string, fuel: nat, more: nat)
    requires fuel <= more && FileOutcome(reg, fs, path, fuel).status != OutOfFuel
    ensures FileOutcome(reg, fs, path, more) == FileOutcome(reg, fs, path, fuel)
    decreases fuel, 3
  {
    if path in fs {
      LinesFuelMonotone(reg, fs, fs[path], 0, fuel, more);
    }
  }

  lemma {:induction false} LinesFuelMonotone(reg: Registry, fs: Files, lines: seq<string>, counter: nat, fuel: nat, more: nat)
    requires fuel <= more && LinesOutcome(reg, fs, lines, counter, fuel).status != OutOfFuel
    ensures LinesOutcome(reg, fs, lines, counter, more) == LinesOutcome(reg, fs, lines, counter, fuel)
    decreases fuel, 2, |lines|
  {
    if lines != [] {
      if IsComment(lines[0]) {
        LinesFuelMonotone(reg, fs, lines[1..], counter, fuel, more);
      } else {
        CommandFuelMonotone(reg, fs, lines[0], fuel, more);
        if CommandOutcome(reg, fs, lines[0], fuel).status == Returned(Ok) {
          LinesFuelMonotone(reg, fs, lines[1..], counter + 1, fuel, more);
        }
      }
    }
  }

  /**
   * The empty handlers stored under `quit` and `exit` are never called: if
   * no other name holds one, no line and no script ever throws.
   */
  lemma {:induction false} CommandNeverThrows(reg: Registry, fs: Files, line: string, fuel: nat)
    requires UnsetOnlyTerminators(reg)
    ensures CommandOutcome(reg, fs, line, fuel).status != Threw
    decreases fuel, 1
  {
    var ts := Tokens(line);
    if ts != [] && !IsTerminator(ts[0]) && ts[0] in reg.handlers {
      var h := reg.handlers[ts[0]];
      if h.Run? && |ts| >= 2 && fuel > 0 {
        FileNeverThrows(reg, fs, ts[1], fuel - 1);
      }
    }
  }

  lemma {:induction false} FileNeverThrows(reg: Registry, fs: Files, path: string, fuel: nat)
    requires UnsetOnlyTerminators(reg)
    ensures FileOutcome(reg, fs, path, fuel).status != Threw
    decreases fuel, 3
  {
    if path in fs {
      LinesNeverThrow(reg, fs, fs[path], 0, fuel);
    }
  }

  lemma {:induction false} LinesNeverThrow(reg: Registry, fs: Files, lines: seq<string>, counter: nat, fuel: nat)
    requires UnsetOnlyTerminators(reg)
    ensures LinesOutcome(reg, fs, lines, counter, fuel).status != Threw
    decreases fuel, 2, |lines|
  {
    if lines != [] {
      if IsComment(lines[0]) {
        LinesNeverThrow(reg, fs, lines[1..], counter, fuel);
      } else {
        CommandNeverThrows(reg, fs, lines[0], fuel);
        LinesNeverThrow(reg, fs, lines[1..], counter + 1, fuel);
      }
    }
  }

  /** Every user handler returns a result below 2^31, the range the cast keeps. */
  ghost predicate HandlersBelowTwo31(reg: Registry) {
    forall n, ts :: n in reg.handlers && reg.handlers[n].User? ==> reg.handlers[n].f(ts) < Two31
  }

  /** A result is Quit, Ok or an error (1 or more). */
  predicate KnownCode(s: Status) {
    s.Returned? ==> s.code == Quit || s.code == Ok || IsError(s.code)
  }

  /**
   * With user results below 2^31 every result, of a line or of a whole script
   * run through `run`, is Quit, Ok or an error.
   */
  lemma {:induction false} CommandCodeKnown(reg: Registry, fs: Files, line: string, fuel: nat)
    requires HandlersBelowTwo31(reg)
    ensures KnownCode(CommandOutcome(reg, fs, line, fuel).status)
    decreases fuel, 1
  {
    var ts := Tokens(line);
    if ts != [] && !IsTerminator(ts[0]) && ts[0] in reg.handlers {
      var h := reg.handlers[ts[0]];
      if h.Run? && |ts| >= 2 && fuel > 0 {
        var r := FileOutcome(reg, fs, ts[1], fuel - 1);
        FileCodeKnown(reg, fs, ts[1], fuel - 1);
        if r.status.Returned? {
          SignedRoundTrip(r.status.code);
        }
      }
    }
  }

  lemma {:induction false} FileCodeKnown(reg: Registry, fs: Files, path: string, fuel: nat)
    requires HandlersBelowTwo31(reg)
    ensures KnownCode(FileOutcome(reg, fs, path, fuel).status)
    decreases fuel, 3
  {
    if path in fs {
      LinesCodeKnown(reg, fs, fs[path], 0, fuel);
    }
  }

  lemma {:induction false} LinesCodeKnown(reg: Registry, fs: Files, lines: seq<string>, counter: nat, fuel: nat)
    requires HandlersBelowTwo31(reg)
    ensures KnownCode(LinesOutcome(reg, fs, lines, counter, fuel).status)
    decreases fuel, 2, |lines|
  {
    if lines != [] {
      if IsComment(lines[0]) {
        LinesCodeKnown(reg, fs, lines[1..], counter, fuel);
      } else {
        CommandCodeKnown(reg, fs, lines[0], fuel);
        LinesCodeKnown(reg, fs, lines[1..], counter + 1, fuel);
      }
    }
  }
}
