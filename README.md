# cpp-readline Console, modelled in Dafny

`CppReadline::Console` is an interactive command console built on GNU readline.
It reads a line with history and tab completion and splits it into words. The
first word names a registered handler, which is called with all the words. The
console also runs script files line by line. Several consoles share the one
readline engine. A process-wide "current console" pointer records which console
holds the engine. Each console keeps its own history snapshot, which is swapped
in and out when another console takes over.

The model has eight modules:

- `ReturnCodes`: `Quit = -1`, `Ok = 0` and `Error = 1`. A handler returns a 32-bit
  `unsigned`, and `executeCommand` casts it to `int`; that cast is `ToInt`.
  `ToUnsigned` is the other conversion, and only the `run` closure uses it:
  its `int` result from `executeFile` is returned as `unsigned`
  (`src/Console.cpp:38-41`).
- `Tokenizer`: the word splitting of `std::istream_iterator<std::string>`. It has a
  specification function `Tokens` and the character loop `Tokenize`, which is
  proved to compute `Tokens`.
- `Sequences`: the predicate `Distinct`, for lists without repetition.
- `Semantics`: what `executeCommand`, the built-in `help` and `run` handlers, and
  `executeFile` compute, as functions of the registry, the file system and the
  line.
  - `run` calls `executeFile`, which can reach `run` again. A `fuel` argument
    bounds how deeply `run` may nest.
  - An exhausted bound is reported as `OutOfFuel`.
  - Calling an empty `std::function` is reported as `Threw`.
- `Completion`: the completion filter, a substring test (`command.find(text) != npos`)
  and not a prefix test.
- `CppReadline`: the class `Console`, with fields `greeting`, `commands`, `order`
  (the map's iteration order) and `history` (`None` while `history_` is null).
  - Its methods are proved to return exactly what the `Semantics` functions say.
  - The class `Arbiter` holds the static state: `currentConsole_`,
    `emptyHistory_`, readline's live history, and the position of the static
    iterator in `commandIterator`.
- `ConsoleFacts`: the properties of dispatch, the built-ins and scripts.
- `Sessions`: a host application's uses of the class, with what the contracts
  let it conclude.

The readline engine's live history is the `Arbiter.live` sequence. A snapshot is
a copy of that sequence. A script file system is a map from a path to the lines
`std::getline` would read. Output to `std::cout` is recorded as abstract events:
an echo `[k] line`, not found, cannot open, usage, the `help` listing, and each
call of a user handler.

Three details of the code shape the model:

- The constructor stores `quit` and `exit` with empty handlers
  (`src/Console.cpp:22-23`). `executeCommand` catches both names before any
  lookup (`src/Console.cpp:92`). So `help` lists them and completion offers
  them, but their empty handlers are never called:
  `ConsoleFacts.CommandNeverThrows` proves that no line reaches them.
- The header comment on `CommandFunction` (`src/Console.hpp:17-20`) says a
  handler cannot make the console quit. But `executeCommand` casts the
  handler's `unsigned` result to `int` (`src/Console.cpp:96`), so `0xFFFFFFFF`
  becomes `-1`, which is `Quit`.
  - `ConsoleFacts.WrappedResultReadsAsQuit` shows this.
  - `ConsoleFacts.HandlerBelowTwo31NeverQuits` and `ConsoleFacts.CommandCodeKnown`
    show that results below 2^31 never produce it, because that is the range
    the cast keeps.
  - The header's "arbitrary error (>=1)" (`src/Console.hpp:17-18`) also admits
    2^31 to 2^32-1. That is the gap `ConsoleFacts.WrappedResultReadsAsQuit`
    exhibits.
- The comment test reads `command[0]` (`src/Console.cpp:113`). For an empty
  `std::string` that character is `'\0'`, so an empty line is not a comment.
  The model's test is "non-empty and starts with `#`".

## Model

| member | source | states |
|---|---|---|
| ReturnCodes.ToInt | src/Console.cpp:96 | the cast gives the unique 32-bit int congruent to the handler's unsigned result modulo 2^32, and it is non-negative exactly when the result is below 2^31 |
| ReturnCodes.ToUnsigned | src/Console.cpp:38-41 | the `run` closure's int result stored as unsigned is congruent to it modulo 2^32, and unchanged when non-negative |
| ReturnCodes.SignedRoundTrip | src/Console.cpp:38-41 | an int result of `executeFile` survives the trip through the closure's unsigned return type and the cast back |
| ReturnCodes.ResultsBelowTwo31NeverQuit | src/Console.cpp:96 | a handler result below 2^31 keeps its value and reads as Ok or an error, never as Quit |
| ReturnCodes.LargestUnsignedIsQuit | src/Console.cpp:96 | the unsigned 2^32-1 casts to -1, the Quit code |
| Tokenizer.Tokenize | src/Console.cpp:83-89 | the word-by-word loop builds exactly `Tokens(line)`, and every token is a non-empty run of non-space characters |
| Tokenizer.Tokens | src/Console.cpp:83-89 | the token vector built from a line has no more tokens than the line has characters |
| Tokenizer.TokensAreWords | src/Console.cpp:83-89 | every token is non-empty and contains no whitespace |
| Tokenizer.TokensEmptyIff | src/Console.cpp:83-91 | a line has no tokens exactly when it is empty or all whitespace |
| Tokenizer.TokensKeepCharacters | src/Console.cpp:83-89 | the tokens, concatenated, are the line's non-space characters in their original order |
| Tokenizer.UnwordsRoundTrip | src/Console.cpp:83-89 | words joined by single spaces tokenize back to the same words, in order |
| Completion.OccursIff | src/Console.cpp:161 | the completion test holds exactly when the typed text occurs at some position of the name |
| Completion.Occurs | src/Console.cpp:161 | the search finds a text that starts the name, and never one longer than the name |
| Completion.MatchesIff | src/Console.cpp:152-168 | a name is offered exactly when it is registered and contains the typed text |
| Completion.Matches | src/Console.cpp:152-168 | the names one full scan collects are at most as many as the registered names, and the text occurs in each of them |
| Completion.MatchesDistinct | src/Console.cpp:152-168 | one scan over names without repetition offers each name at most once |
| Completion.SubstringExample | src/Console.cpp:161 | over help, run and history, "h" completes to help and history, and "el" completes to help |
| Sequences.DistinctCount | src/Console.cpp:52-57 | in a name list without repetition each member occurs exactly once and a non-member never |
| Semantics.IsTerminator | src/Console.cpp:92 | `quit` and `exit` are single words, so a token can equal them |
| Semantics.IsComment | src/Console.cpp:113 | an empty line is not a comment |
| Semantics.CommandOutcome | src/Console.cpp:81-101 | every code `executeCommand` returns fits in a 32-bit int |
| Semantics.HandlerOutcome | src/Console.cpp:31-41 | every code a built-in or user handler yields after the cast fits in a 32-bit int |
| Semantics.FileOutcome | src/Console.cpp:103-122 | every code `executeFile` returns fits in a 32-bit int |
| Semantics.LinesOutcome | src/Console.cpp:112-121 | every code the script loop returns fits in a 32-bit int |
| CppReadline.Console.constructor | src/Console.cpp:20-42 | a new console has the keys quit, exit, help and run (empty handlers under quit and exit), a null history and the given prompt, and satisfies the class invariant |
| CppReadline.Console.RegisterCommand | src/Console.cpp:48-50 | the name is inserted or its handler replaced, a new name is appended to the iteration order, nothing else changes, and the invariant is kept |
| CppReadline.Console.GetRegisteredCommands | src/Console.cpp:52-57 | the result is the iteration order: every registered name exactly once and nothing else |
| CppReadline.Console.ExecuteCommand | src/Console.cpp:81-101 | returns exactly `CommandOutcome` of the console's registry |
| CppReadline.Console.Call | src/Console.cpp:94-97 | calling a found handler returns exactly `HandlerOutcome`, including `help`, `run` and the cast of a user handler's result |
| CppReadline.Console.ExecuteFile | src/Console.cpp:103-122 | the getline loop returns exactly `FileOutcome`, with the echo trace |
| CppReadline.Console.SaveState | src/Console.cpp:59-62 | the console's snapshot becomes the live history |
| CppReadline.Console.ReserveConsole | src/Console.cpp:64-79 | afterwards this console is current; if it already was, nothing changes; otherwise the previous holder saves the live history into its own snapshot and this console's snapshot, or the empty one when null, becomes live |
| CppReadline.Console.ReadLine | src/Console.cpp:124-141 | end of input returns Quit with the history as reserved; otherwise a non-empty line is appended to the live history and the result is `CommandOutcome` of the line |
| CppReadline.Arbiter.constructor | src/Console.cpp:15-16 | no console is current at start-up, and the live history equals the empty snapshot captured then |
| CppReadline.Arbiter.CommandIterator | src/Console.cpp:152-168 | state 0 restarts the scan; a call returns the next name, after the last returned, that contains the text, having skipped only names that do not, or nothing once the names are exhausted |
| CppReadline.Arbiter.GetCommandCompletions | src/Console.cpp:143-150 | nothing unless the word starts at offset 0; otherwise the iterator, called with states 0, 1, 2, ..., yields exactly the names containing the text, in scan order, or nothing when none does, and is left at the end of the names |
| ConsoleFacts.BlankLineIsOk | src/Console.cpp:83-91 | an empty or all-whitespace line returns Ok and calls no handler |
| ConsoleFacts.TerminatorsQuit | src/Console.cpp:92 | a line starting with quit or exit returns Quit before any lookup, whatever is registered under those names |
| ConsoleFacts.UserCommandCalledOnce | src/Console.cpp:94-97 | typing the words of a registered user command calls its handler exactly once with all the words, name first, and returns its result cast to int |
| ConsoleFacts.UnknownCommandIsError | src/Console.cpp:99-100 | an unregistered name returns Error with a not-found notice and calls nothing |
| ConsoleFacts.HandlerBelowTwo31NeverQuits | src/Console.cpp:94-97 | a user handler result below 2^31 makes its command return Ok or an error, never Quit |
| ConsoleFacts.WrappedResultReadsAsQuit | src/Console.cpp:96 | a handler returning 2^32-1 makes an ordinary command return Quit |
| ConsoleFacts.HelpListsEachNameOnce | src/Console.cpp:31-36 | `help` returns Ok and its listing names every registered name exactly once and nothing else |
| ConsoleFacts.RunWithoutPathIsUsageError | src/Console.cpp:38-39 | `run` without a file name returns Error with a usage notice, and the result does not depend on the file system |
| ConsoleFacts.RunIsExecuteFile | src/Console.cpp:38-41 | `run path` returns exactly what `executeFile(path)` returns, trace included |
| ConsoleFacts.SelfRunningScriptNeverEnds | src/Console.cpp:38-41 | in the model, which has no resource limits, a script whose only line runs itself never finishes, however much nesting is allowed |
| ConsoleFacts.MissingScriptIsError | src/Console.cpp:104-108 | a script that cannot be opened returns Error with a notice |
| ConsoleFacts.Uncommented | src/Console.cpp:113 | the kept lines are script lines, none of them a comment |
| ConsoleFacts.CommentsAreSkipped | src/Console.cpp:113 | removing the comment lines changes neither the result nor the trace, so comments are neither echoed, run nor counted |
| ConsoleFacts.StopsAtFirstNonZero | src/Console.cpp:116 | the first line run that returns non-zero gives the script's result, and the lines after it are never run |
| ConsoleFacts.OkIffEveryLineOk | src/Console.hpp:68-78 | a script returns Ok exactly when every non-comment line returns Ok |
| ConsoleFacts.EchoesNumberRunLines | src/Console.cpp:115-117 | the k-th line run is echoed with index k, in every script that reaches it, including a line that then fails |
| ConsoleFacts.CommandNeverThrows | src/Console.cpp:18-23 | when only quit and exit hold empty handlers, no line ever calls one |
| ConsoleFacts.FileNeverThrows | src/Console.cpp:103-122 | under the same condition, no script ever calls an empty handler |
| ConsoleFacts.LinesNeverThrow | src/Console.cpp:112-118 | under the same condition, no run of script lines calls an empty handler |
| ConsoleFacts.CommandFuelMonotone | src/Console.cpp:81-101 | once a line's outcome is not cut off by the nesting bound, every larger bound gives the same outcome |
| ConsoleFacts.FileFuelMonotone | src/Console.cpp:103-122 | the same for a script |
| ConsoleFacts.LinesFuelMonotone | src/Console.cpp:112-121 | the same for the script loop over the remaining lines |
| ConsoleFacts.CommandCodeKnown | src/Console.hpp:24-28 | with every user handler result below 2^31, every line's result is Quit, Ok or an error of 1 or more |
| ConsoleFacts.FileCodeKnown | src/Console.hpp:68-78 | with every user handler result below 2^31, every script's result is Quit, Ok or an error |
| ConsoleFacts.LinesCodeKnown | src/Console.cpp:112-121 | with every user handler result below 2^31, the script loop returns Quit, Ok or an error |
| Sessions.RegisterThenList | src/Console.hpp:44-57 | after one registration a new console lists exactly the four built-ins and the new name, each once |
| Sessions.QuitCannotBeOverridden | src/Console.cpp:92 | registering a handler under quit does not stop quit from returning Quit |
| Sessions.RegisteredCommandRuns | src/Console.cpp:94-97 | a registered command typed with arguments calls its handler once with all the words |
| Sessions.TakeTurns | src/Console.hpp:89-103 | when two consoles take turns, each gets its own history back: the other's lines are not visible, and the other's snapshot keeps its new line |

## Left out

- The GNU readline engine is represented only by `Arbiter.live` and snapshot copies. `add_history` becomes an append to `Arbiter.live`. `history_get_history_state` and `history_set_history_state` become copies between `Arbiter.live` and a snapshot. `readline` itself becomes the `input` parameter of `ReadLine`. Registering the completion function with `rl_attempted_completion_function` is not modelled.
- `rl_completion_matches` is reduced to the loop that calls the iterator. The longest-common-prefix entry it puts first in the array it returns is not modelled.
- The line typed at the prompt is a parameter of `ReadLine` (`None` for end of input). Printing the prompt, and the newline printed at end of input and after each script line, are not modelled.
- The wording of `std::cout` output is not modelled. Output is a trace of abstract events.
- `std::ifstream` is a map from a path to lines. A file that opens and then fails while it is read is not modelled. Neither is the splitting of the file into lines.
- Memory management is not modelled. This covers `free(history_)` in `saveState` and the destructor, `free(buffer)`, and the one-byte-short `new char[command.size()]` before `strcpy` in `commandIterator`.
- CppReadline.Console.RegisterCommand: `std::unordered_map` iteration order is unspecified, and an insert may rehash and reorder every name. The contract of `RegisterCommand` uses insertion order (`order == old(order) + [name]` for a new name) as the model's stand-in for that unspecified order. The order `help` prints, `getRegisteredCommands` returns and completion scans is therefore this stand-in. Iterator invalidation when the map rehashes between two completion calls is not modelled.
- User handlers are pure functions from the word list to an unsigned result. Their side effects are not modelled: output, throwing, or calling back into the console (registering commands, reading lines).
- Registering an empty `std::function` through `registerCommand` is not modelled: `RegisterCommand` takes a function.
- A null `currentConsole_` in `commandIterator` would crash the program. In the model it is excluded by a precondition of `CommandIterator` and `GetCommandCompletions`.
- The static initialisation of `emptyHistory_` is a parameter of the `Arbiter` constructor.
- A script that runs itself recurses without bound. In the program it ends when a resource runs out. Each nested `executeFile` keeps its `std::ifstream` open, so at the open-file limit the open at `src/Console.cpp:104` fails, and Error is passed up through every level. If that limit is high, the stack overflows first. Resource limits are not modelled: the model bounds the nesting of `run` with `fuel` and reports `OutOfFuel` instead. `ConsoleFacts.CommandFuelMonotone` and its partners show that the bound never changes an outcome it does not cut off.
- `static_cast<int>` of an `unsigned` of 2^31 or more is implementation-defined before C++20. It is modelled as two's-complement wrap-around.
- Concurrent use of the console from several threads is not modelled.
