# mcfunction-extensions front end, modelled in Dafny

mcfunction-extensions compiles extended Minecraft command functions
(`.mcfunction` files) into instruction lists for its own small virtual
machine. A function is a list of text lines. Compiling one has four stages,
and this project models all four:

* **Line reader** (`CommandLineReader`, module `LineReader`). It turns the
  raw lines into entries: trimmed text plus the original line number. It
  merges backslash continuations and drops blank and `#` lines. Lines that
  start with `/` are reported, not kept. A forward-only cursor
  (`curr`/`lineNumber`/`next`/`present`) then walks the entries.
* **Diagnostics** (`ParseContext`, module `Diagnostics`). This is an
  append-only list of leveled, line-tagged messages. `dumpErrors` renders
  each message with a window of source lines around it and says whether
  any of them is an error.
* **Two parsers.**
  * The statement parser (`parse/parser/*`) is modules `ParseSpec` and
    `FunctionParser`. It dispatches on the first space-separated word
    through a table of handlers: `pragma`, `return`, `run`, `loop`, `}`,
    `subroutine`, `subroutine_call` and `subroutine_return`. A handler can
    be switched off by a feature flag. Every other line goes to the
    external command grammar.
  * The legacy parser (`parse/Parser.java`) is modules `LegacySpec` and
    `Legacy`. It does the same job with a fixed switch.
* **Emission** (the AST nodes' `emit`). The tree is emitted into a code
  generator: a list of items plus an arena of labels. An item is a label
  bind, a plain action, a control instruction, or a deferred (linkable)
  instruction that reads label offsets when the function is linked. The
  `run`/`loop` templates install small control lambdas. Module `ExecFrame`
  models those lambdas as functions on the execution frame.

Every imperative piece of the Java code is a Dafny class with `modifies`
clauses, and each method is proved equal to a pure specification function:
* `CommandLineReader.FromLines` is proved against `LineReader.Assemble`.
* `ParseContext.DumpErrors` is proved against `Diagnostics.Report`.
* The statement parser's methods are proved against `ParseSpec`.
* The legacy parser's methods are proved against `LegacySpec`.
* The `emit` methods are proved against `Emission`.

The properties below are proved about those functions.

A Java exception that the source can actually reach is modelled as an
outcome, not a precondition. This covers a label bound twice, a null
label, `reader.curr()` past the end, and `NotImplementedException`. The
outcomes are `Crash` in emission and in the legacy parser, and `Fault` in
`Compile.Compilation` and `Legacy.Outcome`.

The external pieces are parameters of the model:
* The command, selector and pragma grammars (brigadier dispatchers) are
  the fields of `ParseSpec.Grammar`. Each maps a line to a result or an
  error message.
* The runtime meaning of the VM's instructions lives outside the model.

## Model

| member | source | states |
|---|---|---|
| LineReader.Trimmed | src/main/java/com/floweytf/mcfext/parse/CommandLineReader.java:26 | every physical line is trimmed, one for one |
| LineReader.Absorb | src/main/java/com/floweytf/mcfext/parse/CommandLineReader.java:31-43 | the continuation loop consumes lines strictly after the first; it runs past the end exactly when the merged text still ends with a backslash, and otherwise stops on the first line whose merge no longer ends with one |
| LineReader.Merge | src/main/java/com/floweytf/mcfext/parse/CommandLineReader.java:26-46 | a logical line ends at or after its first line; it consumes only its first line iff that line has no trailing backslash, and then its text is that line; it overruns iff it reaches the end |
| LineReader.Classify | src/main/java/com/floweytf/mcfext/parse/CommandLineReader.java:48-64 | a merged line is kept iff its trimmed text is non-empty and starts with neither `#` nor `/`; the bare `/` case is singled out |
| LineReader.Starts | src/main/java/com/floweytf/mcfext/parse/CommandLineReader.java:25 | the first lines of the logical lines: non-empty iff lines remain, beginning at the current index, all inside the file |
| LineReader.KeptStarts | src/main/java/com/floweytf/mcfext/parse/CommandLineReader.java:67-68 | the recorded line numbers are drawn from the logical-line starts and are line indices |
| LineReader.EntryTexts | src/main/java/com/floweytf/mcfext/parse/CommandLineReader.java:26-67 | each stored entry is the trimmed first physical line of its logical line, not the merged text |
| LineReader.CleanFromStarts | src/main/java/com/floweytf/mcfext/parse/CommandLineReader.java:55-57 | the guard against a bare `/` holds iff no logical line the reader meets is a bare `/` |
| LineReader.KeptStartsFilter | src/main/java/com/floweytf/mcfext/parse/CommandLineReader.java:48-68 | a logical-line start is recorded iff that logical line is kept |
| LineReader.StartsIncreasing | src/main/java/com/floweytf/mcfext/parse/CommandLineReader.java:25-34 | the logical-line starts strictly increase |
| LineReader.AbsorbedNeverStarts | src/main/java/com/floweytf/mcfext/parse/CommandLineReader.java:31-43 | a line absorbed by a continuation never starts a logical line, so it never becomes an entry |
| LineReader.AssemblyShape | src/main/java/com/floweytf/mcfext/parse/CommandLineReader.java:21-72 | entries and line numbers have equal length; the numbers strictly increase and lie below the line count; each is the start of a kept logical line and every kept one is recorded; each entry is that line's trimmed text and is never empty |
| LineReader.Assemble | src/main/java/com/floweytf/mcfext/parse/CommandLineReader.java:21-72 | definition: the entries, their first-line numbers and the reader's diagnostics of `fromLines`; see `LineReader.AssemblyShape`, `LineReader.AssembleFromStarts`, `LineReader.CommandLineReader.FromLines` |
| LineReader.AssembleFrom | src/main/java/com/floweytf/mcfext/parse/CommandLineReader.java:25-69 | definition: the rounds of the `fromLines` loop from physical line `i` on; see `LineReader.AssembleFromStarts`, `LineReader.RoundAppends`, `LineReader.CommandLineReader.AssembleLines` |
| LineReader.KeptMeansCommand | src/main/java/com/floweytf/mcfext/parse/CommandLineReader.java:48-64 | a logical line is kept iff its merged, trimmed text is not blank, not a `#` comment and not `/`-prefixed |
| LineReader.DiagLines | src/main/java/com/floweytf/mcfext/parse/CommandLineReader.java:34-62 | every diagnostic the reader makes is an error whose line is at most the line count |
| LineReader.SlashLinesReported | src/main/java/com/floweytf/mcfext/parse/CommandLineReader.java:55-64 | a `//` line is reported as a bad command and any other `/` line as a forward slash with its first word, each at the last line it consumed |
| LineReader.RoundAppends | src/main/java/com/floweytf/mcfext/parse/CommandLineReader.java:25-69 | taking one round off the front of the rounds from the cursor appends that logical line's entry (iff kept), its start and its diagnostics to what was collected |
| LineReader.RoundsDone | src/main/java/com/floweytf/mcfext/parse/CommandLineReader.java:25-69 | once the cursor passes the last line, what was collected is everything the rounds from line 0 collect |
| LineReader.NumbersFromStarts | src/main/java/com/floweytf/mcfext/parse/CommandLineReader.java:25-69 | the numbers the rounds record are exactly the starts of the kept logical lines |
| LineReader.EntriesFromNumbers | src/main/java/com/floweytf/mcfext/parse/CommandLineReader.java:26-67 | the entries the rounds record are the trimmed lines at the recorded numbers |
| LineReader.DiagsFromStarts | src/main/java/com/floweytf/mcfext/parse/CommandLineReader.java:25-69 | the rounds report exactly the diagnostics of the logical lines, in order |
| LineReader.AssembleFromStarts | src/main/java/com/floweytf/mcfext/parse/CommandLineReader.java:25-69 | running the rounds from line 0 yields exactly `Assemble` |
| LineReader.CommandLineReader.constructor | src/main/java/com/floweytf/mcfext/parse/CommandLineReader.java:15-19 | the reader holds the given lists with its cursor at 0 |
| LineReader.CommandLineReader.Curr | src/main/java/com/floweytf/mcfext/parse/CommandLineReader.java:74-76 | the current entry is one of the entries, read at the cursor |
| LineReader.CommandLineReader.LineNumber | src/main/java/com/floweytf/mcfext/parse/CommandLineReader.java:78-80 | the current line number is one of the recorded numbers, read at the same cursor |
| LineReader.CommandLineReader.Next | src/main/java/com/floweytf/mcfext/parse/CommandLineReader.java:82-84 | the cursor moves forward by exactly one |
| LineReader.CommandLineReader.FromLines | src/main/java/com/floweytf/mcfext/parse/CommandLineReader.java:21-72 | the new reader's entries and numbers are `Assemble`'s, its cursor is 0, and the context gained exactly `Assemble`'s diagnostics |
| LineReader.CommandLineReader.AssembleLines | src/main/java/com/floweytf/mcfext/parse/CommandLineReader.java:25-69 | the loop builds exactly what the rounds from line 0 collect: entries, numbers and diagnostics |
| LineReader.CommandLineReader.AssembleRound | src/main/java/com/floweytf/mcfext/parse/CommandLineReader.java:25-69 | one pass of the loop keeps the clean-input guarantee, advances the cursor past the logical line, and moves exactly that round's results into the lists and the context |
| LineReader.CommandLineReader.NextLogicalLine | src/main/java/com/floweytf/mcfext/parse/CommandLineReader.java:26-68 | one round keeps the logical line iff it is kept, ends at its last line, and reports exactly its diagnostics |
| LineReader.CommandLineReader.CheckCommand | src/main/java/com/floweytf/mcfext/parse/CommandLineReader.java:48-64 | blank and comment lines are skipped silently, `/` lines are reported, and only commands are kept |
| LineReader.CommandLineReader.ReadLogicalLine | src/main/java/com/floweytf/mcfext/parse/CommandLineReader.java:26-46 | the merged text and last line; a continuation past the end reports ERR_LINE_CONT at the line count, and nothing else is reported |
| Text.Trim | src/main/java/com/floweytf/mcfext/parse/CommandLineReader.java:26 | trimming never lengthens; the result has no blank at either end; it is empty iff every character is blank |
| Text.Split | src/main/java/com/floweytf/mcfext/parse/parser/ExtensionSubroutineParser.java:23 | definition: `text.split(" ")`, trailing empty pieces dropped; see `ParseProps.SplitHead`, `ParseProps.SplitHasNoSpace` |
| Text.NatToString | src/main/java/com/floweytf/mcfext/parse/ParseContext.java:43 | `Integer.toString` of a line number is never empty; see `Diagnostics.GutterAligned` for the gutter width it sets |
| Text.FirstToken | src/main/java/com/floweytf/mcfext/parse/parser/Parser.java:168-170 | the dispatch key is the text before the first space |
| Text.ReadUnquoted | src/main/java/com/floweytf/mcfext/parse/Parser.java:112-113 | the first word is the longest prefix of unquoted-string characters |
| Text.LeftJustify | src/main/java/com/floweytf/mcfext/parse/ParseContext.java:58 | `%-Nd` padding: the text followed by blanks up to width N, never cut |
| Diagnostics.WindowFromShape | src/main/java/com/floweytf/mcfext/parse/ParseContext.java:49-53 | the window loop collects the consecutive indices from max(lo, 0) to min(hi, n-1), ascending |
| Diagnostics.MessageText | src/main/java/com/floweytf/mcfext/parse/Diagnostic.java:4-5 | definition: the `String.format` text of each message; the wordings not shown in the source are assumed (see "Left out") |
| Diagnostics.HasError | src/main/java/com/floweytf/mcfext/parse/ParseContext.java:34-37 | definition: some diagnostic is an error; see `Diagnostics.ParseContext.DumpErrors` and `Compile.RejectedIffParseError` |
| Diagnostics.Window | src/main/java/com/floweytf/mcfext/parse/ParseContext.java:48-53 | definition: the line indices `line-context` to `line+context` that exist; see `Diagnostics.WindowFromShape`, `Diagnostics.WindowContents` |
| Diagnostics.Header | src/main/java/com/floweytf/mcfext/parse/ParseContext.java:39-46 | definition: the level, message, `id` and 1-based line heading one report; see `Diagnostics.ParseContext.RenderDiagnostic` |
| Diagnostics.RenderOne | src/main/java/com/floweytf/mcfext/parse/ParseContext.java:39-67 | definition: the header then the numbered window rows; see `Diagnostics.ParseContext.RenderDiagnostic`, `Diagnostics.GutterAligned`, `Diagnostics.ExactlyOneMarkedRow` |
| Diagnostics.Report | src/main/java/com/floweytf/mcfext/parse/ParseContext.java:25-73 | definition: nothing without diagnostics, else the preamble naming `id` and the rendering of every diagnostic in order; see `Diagnostics.ParseContext.DumpErrors`, `Diagnostics.ConcatAppend` |
| Diagnostics.WindowContents | src/main/java/com/floweytf/mcfext/parse/ParseContext.java:48-53 | the window holds exactly the in-file lines within `context` of the diagnostic, ascending; it is non-empty iff the file is non-empty and the line is less than `context` past its end |
| Diagnostics.EntriesFrom | src/main/java/com/floweytf/mcfext/parse/ParseContext.java:49-53 | each window entry pairs the 1-based number with that source line |
| Diagnostics.GutterAligned | src/main/java/com/floweytf/mcfext/parse/ParseContext.java:55-58 | the gutter width taken from the last entry fits every shown line number exactly |
| Diagnostics.ExactlyOneMarkedRow | src/main/java/com/floweytf/mcfext/parse/ParseContext.java:56-64 | exactly the offending line is marked when it is inside the file, and no row is marked when it is not |
| Diagnostics.RenderEach | src/main/java/com/floweytf/mcfext/parse/ParseContext.java:34-46 | one rendered block per diagnostic, in insertion order |
| Diagnostics.ConcatAppend | src/main/java/com/floweytf/mcfext/parse/ParseContext.java:31-68 | the report of consecutive diagnostics is the report of the first ones followed by that of the rest |
| Diagnostics.ParseContext.constructor | src/main/java/com/floweytf/mcfext/parse/ParseContext.java:11 | a new context has no diagnostics |
| Diagnostics.ParseContext.ReportErr | src/main/java/com/floweytf/mcfext/parse/ParseContext.java:13-19 | exactly one error at that line is appended; earlier diagnostics are unchanged |
| Diagnostics.ParseContext.ReportWarn | src/main/java/com/floweytf/mcfext/parse/ParseContext.java:13-23 | exactly one warning at that line is appended; earlier diagnostics are unchanged |
| Diagnostics.ParseContext.DumpErrors | src/main/java/com/floweytf/mcfext/parse/ParseContext.java:25-73 | the verdict is true iff some diagnostic is an error; the text is the full report; with no diagnostics it is false and empty; the list is not modified |
| Diagnostics.ParseContext.RenderAll | src/main/java/com/floweytf/mcfext/parse/ParseContext.java:34-68 | the loop's flag is "some error so far" and its text is the concatenated blocks |
| Diagnostics.ParseContext.RenderDiagnostic | src/main/java/com/floweytf/mcfext/parse/ParseContext.java:39-67 | the text of one diagnostic is its header followed by the rows of its window |
| Diagnostics.ParseContext.RenderWindow | src/main/java/com/floweytf/mcfext/parse/ParseContext.java:48-67 | the rows under a renderable diagnostic: one per window entry, the gutter sized from the last entry's line number |
| Diagnostics.WindowNonEmpty | src/main/java/com/floweytf/mcfext/parse/ParseContext.java:48-55 | a diagnostic inside the file, or less than `context` lines past its end, has a window entry to size the gutter from |
| Diagnostics.WindowStep | src/main/java/com/floweytf/mcfext/parse/ParseContext.java:49-53 | one pass of the window loop appends exactly the entry for the current index when it is a line of the file, and nothing otherwise |
| Diagnostics.ParseContext.CollectWindow | src/main/java/com/floweytf/mcfext/parse/ParseContext.java:48-53 | the loop collects exactly the window entries |
| Diagnostics.ParseContext.RenderRows | src/main/java/com/floweytf/mcfext/parse/ParseContext.java:56-67 | the loop renders exactly one row per entry |
| Features.SetFlag | src/main/java/com/floweytf/mcfext/parse/parser/BaseParser.java:19-31 | enable/disable report "unknown" iff the name is not a flag; an unknown name changes nothing; a known name sets exactly its own flag |
| Features.SetFlagLastWins | src/main/java/com/floweytf/mcfext/parse/parser/BaseParser.java:19-31 | of two pragmas on the same flag, the last one wins |
| ParseSpec.NextCommand | src/main/java/com/floweytf/mcfext/parse/parser/Parser.java:156-204 | scanning only moves forward and only appends diagnostics at entry lines; it consumes at least one line whenever one is left |
| ParseSpec.IsKeyword | src/main/java/com/floweytf/mcfext/parse/parser/Parser.java:74-93 | definition: the eight keys put in `FEATURE_HANDLER`; see `ParseProps.DisabledKeywordWarns`, `ParseProps.NextCommandStatement` |
| ParseSpec.Enabled | src/main/java/com/floweytf/mcfext/parse/parser/ExtensionsControlFlowV1Parser.java:61-73 | definition: `run`/`loop` need cfv2 off, the subroutine keys need subroutines on, the rest are always on; see `ParseProps.DisabledKeywordWarns` |
| ParseSpec.GateMessage | src/main/java/com/floweytf/mcfext/parse/parser/ExtensionSubroutineParser.java:62-63 | definition: the warning registered with each gated key; see `ParseProps.DisabledKeywordWarns` |
| ParseSpec.CommandLine | src/main/java/com/floweytf/mcfext/parse/parser/Parser.java:188-200 | the command path consumes at least the current line |
| ParseSpec.Handle | src/main/java/com/floweytf/mcfext/parse/parser/Parser.java:177-184 | a handler that falls through leaves the state alone; every other answer has consumed the current line |
| ParseSpec.Pragma | src/main/java/com/floweytf/mcfext/parse/parser/BaseParser.java:33-38 | running a pragma does not move the cursor |
| ParseSpec.ControlFlowV1 | src/main/java/com/floweytf/mcfext/parse/parser/ExtensionsControlFlowV1Parser.java:26-46 | a `run`/`loop` statement consumes at least its header line |
| ParseSpec.SubroutineLine | src/main/java/com/floweytf/mcfext/parse/parser/ExtensionSubroutineParser.java:14-45 | a `subroutine` line consumes at least itself |
| ParseSpec.ReturnLine | src/main/java/com/floweytf/mcfext/parse/parser/BaseParser.java:44-51 | definition: only the bare word `return` is a return node; see `ParseProps.BareReturn`, `ParseProps.ReturnWithArgumentsIsCommand` |
| ParseSpec.SubroutineReturnLine | src/main/java/com/floweytf/mcfext/parse/parser/ExtensionSubroutineParser.java:47-64 | definition: the state after a `subroutine_return` line; see `ParseProps.SubroutineReturnAlwaysYields`, `FunctionParser.Parser.SubroutineReturnHandler` |
| ParseSpec.SubroutineCallLine | src/main/java/com/floweytf/mcfext/parse/parser/ExtensionSubroutineParser.java:67-87 | definition: the call node of a `subroutine_call` line, null without a usable name; see `FunctionParser.Parser.SubroutineCallHandler` |
| ParseSpec.ParseBlock | src/main/java/com/floweytf/mcfext/parse/parser/Parser.java:128-154 | parsing a block only moves forward and only appends diagnostics at entry lines |
| ParseSpec.ParseTopLevel | src/main/java/com/floweytf/mcfext/parse/parser/Parser.java:206-223 | the top level consumes all input |
| ParseProps.SplitHead | src/main/java/com/floweytf/mcfext/parse/parser/ExtensionSubroutineParser.java:23-27 | on a keyword line, `split(" ")` has the keyword as its first piece, so the arity tests never see an empty array |
| ParseProps.SplitHasNoSpace | src/main/java/com/floweytf/mcfext/parse/parser/ExtensionSubroutineParser.java:23 | no piece of `split(" ")` contains a space |
| ParseProps.NextCommandNamesDefinitions | src/main/java/com/floweytf/mcfext/parse/parser/ExtensionSubroutineParser.java:23-41 | every definition node has a non-empty name without spaces; a line without one yields null |
| ParseProps.TopLevelSeparatesDefinitions | src/main/java/com/floweytf/mcfext/parse/parser/Parser.java:210-220 | the main block holds no definition node, and every collected subroutine has a usable name |
| ParseProps.NextCommandStatement | src/main/java/com/floweytf/mcfext/parse/parser/Parser.java:156-204 | every node the scan yields is a statement tree, with no TopLevel node inside |
| ParseProps.TopLevelStatements | src/main/java/com/floweytf/mcfext/parse/parser/Parser.java:206-223 | the block's children and every subroutine body are statement trees, ready for emission |
| ParseProps.BlockEnds | src/main/java/com/floweytf/mcfext/parse/parser/Parser.java:139-153 | a block ends either just after consuming its terminator, or at the end of input with `onUnterminated` at the start line as its last report |
| ParseProps.BlockClosesAtTerminator | src/main/java/com/floweytf/mcfext/parse/parser/Parser.java:139-142 | a terminator on the current line closes the block at once: empty body, exactly that line consumed, nothing reported |
| ParseProps.DisabledKeywordWarns | src/main/java/com/floweytf/mcfext/parse/parser/Parser.java:173-200 | a switched-off keyword gives its registered warning at that line, and the line is then parsed as a command |
| ParseProps.RejectedCommandReportsTwice | src/main/java/com/floweytf/mcfext/parse/parser/Parser.java:189-200 | a rejected command is consumed, reports the grammar error and then ERR_BAD_CMD at its line, and scanning goes on |
| ParseProps.ReturnWithArgumentsIsCommand | src/main/java/com/floweytf/mcfext/parse/parser/BaseParser.java:44-47 | `return` followed by anything falls through, without consuming, to command parsing |
| ParseProps.BareReturn | src/main/java/com/floweytf/mcfext/parse/parser/BaseParser.java:44-51 | the bare word `return` consumes one line and yields a return node |
| ParseProps.ExtraWordsStillDefine | src/main/java/com/floweytf/mcfext/parse/parser/ExtensionSubroutineParser.java:23-30 | a `subroutine` line of more than two words is reported as a bad definition at its line, yet still defines a subroutine named by its second word at that line |
| ParseProps.SubroutineReturnAlwaysYields | src/main/java/com/floweytf/mcfext/parse/parser/ExtensionSubroutineParser.java:52-60 | with subroutines on, a `subroutine_return` line yields the return node and consumes exactly its own line, whatever follows the keyword and inside a subroutine or not |
| ParseProps.CloserAfterPragma | src/main/java/com/floweytf/mcfext/parse/parser/ExtensionsControlFlowV1Parser.java:76-80 | a `}` reached by the scan is reported as extraneous and consumed, and scanning goes on |
| ParseProps.BlockOfPragmaThenCloser | src/main/java/com/floweytf/mcfext/parse/parser/Parser.java:139-153 | the terminator is checked only between statements: a `}` after a pragma is eaten by the scan, and the block ends unclosed |
| ParseProps.PragmaBeforeCloser | src/main/java/com/floweytf/mcfext/parse/parser/ExtensionsControlFlowV1Parser.java:26-46 | `run`, `pragma`, `}` at the end of input gives an empty `run`, an extraneous-`}` error and then "unclosed statement" at the header line |
| FunctionParser.Parser.constructor | src/main/java/com/floweytf/mcfext/parse/parser/Parser.java:225-231 | the parser holds the context, reader and grammar, with no feature enabled |
| FunctionParser.Parser.ParseBlock | src/main/java/com/floweytf/mcfext/parse/parser/Parser.java:128-154 | the loop returns the body and leaves the state `ParseSpec.ParseBlock` gives; the "failed to advance" throw is proved unreachable |
| FunctionParser.Parser.BlockRound | src/main/java/com/floweytf/mcfext/parse/parser/Parser.java:133-149 | one round either meets the terminator and closes the block, or contributes the non-null node and leaves the rest of the block to later rounds |
| FunctionParser.Parser.ParseNextCommand | src/main/java/com/floweytf/mcfext/parse/parser/Parser.java:156-204 | the node and new state are those of `NextCommand`; the "failed to advance" throw is proved unreachable |
| FunctionParser.Parser.ScanRound | src/main/java/com/floweytf/mcfext/parse/parser/Parser.java:160-200 | one round consumes a line and either finds the node or leaves the scan's outcome unchanged |
| FunctionParser.Parser.ParseCommandLine | src/main/java/com/floweytf/mcfext/parse/parser/Parser.java:189-200 | the command path consumes exactly one line |
| FunctionParser.Parser.Handle | src/main/java/com/floweytf/mcfext/parse/parser/Parser.java:170-184 | the registered handler's reply and effect are `ParseSpec.Handle`'s |
| FunctionParser.Parser.PragmaHandler | src/main/java/com/floweytf/mcfext/parse/parser/BaseParser.java:33-42 | the pragma runs, and a failure or an unknown flag is reported as ERR_PRAGMA at the line; then exactly one line is eaten |
| FunctionParser.Parser.ReturnHandler | src/main/java/com/floweytf/mcfext/parse/parser/BaseParser.java:44-51 | as `ReturnLine`: only the bare word consumes a line and makes a node |
| FunctionParser.Parser.ControlFlowV1Handler | src/main/java/com/floweytf/mcfext/parse/parser/ExtensionsControlFlowV1Parser.java:26-73 | the header is consumed once; a selector failure reports ERR_CFV1_PARSE with the keyword and gives a null action; the body runs to `}` with the enclosing subroutine flag |
| FunctionParser.Parser.SubroutineHandler | src/main/java/com/floweytf/mcfext/parse/parser/ExtensionSubroutineParser.java:14-45 | the line is consumed first; outside the top level it reports and goes on; a bad arity reports, and without a usable name gives null; otherwise the body runs to `end` inside a subroutine |
| FunctionParser.Parser.SubroutineReturnHandler | src/main/java/com/floweytf/mcfext/parse/parser/ExtensionSubroutineParser.java:47-64 | the line is consumed; trailing text and a use outside a subroutine are each reported |
| FunctionParser.Parser.SubroutineCallHandler | src/main/java/com/floweytf/mcfext/parse/parser/ExtensionSubroutineParser.java:67-87 | the line is consumed; the arity rules of `subroutine` apply; the call node carries the name and the line |
| FunctionParser.Parser.ParseTopLevel | src/main/java/com/floweytf/mcfext/parse/parser/Parser.java:206-223 | the definitions and the other statements are exactly `ParseSpec.ParseTopLevel`'s, both in source order |
| FunctionParser.Parser.TopLevelRound | src/main/java/com/floweytf/mcfext/parse/parser/Parser.java:210-220 | one round files the statement as a subroutine or a block child, or drops a null |
| LegacySpec.NextNode | src/main/java/com/floweytf/mcfext/parse/Parser.java:107-151 | unless it throws, the scan only moves forward, consumes a line when one is left, and returns null only at the end of input |
| LegacySpec.RunOrLoop | src/main/java/com/floweytf/mcfext/parse/Parser.java:78-105 | unless it throws, a `run`/`loop` consumes at least its header |
| LegacySpec.Body | src/main/java/com/floweytf/mcfext/parse/Parser.java:88-101 | unless it throws, the body loop consumes at least one line |
| LegacySpec.Children | src/main/java/com/floweytf/mcfext/parse/Parser.java:153-160 | unless it throws, the top level consumes all input |
| LegacyProps.PragmaLineSkipped | src/main/java/com/floweytf/mcfext/parse/Parser.java:115-119 | a pragma line is run and consumed, never becomes a node, and never throws, whatever the features |
| LegacyProps.PragmasScanToNull | src/main/java/com/floweytf/mcfext/parse/Parser.java:109-150 | a tail of pragma lines is eaten by one scan, which returns null |
| LegacyProps.PragmaTailIsNullChild | src/main/java/com/floweytf/mcfext/parse/Parser.java:153-158 | such a tail becomes exactly one null top-level child |
| LegacyProps.V2Throws | src/main/java/com/floweytf/mcfext/parse/Parser.java:121-122 | with control flow v2 on, any non-pragma line throws, and so does the whole parse |
| LegacyProps.RejectedLineReported | src/main/java/com/floweytf/mcfext/parse/Parser.java:131-143 | a rejected line is consumed after its grammar error; a lone `}` then reports ERR_CF_V1_EXTRA_CLOSE and anything else ERR_BAD_CMD; scanning goes on |
| LegacyProps.HeaderParsedOnce | src/main/java/com/floweytf/mcfext/parse/Parser.java:79-104 | the node is a Run iff the keyword is `run`; the action is null iff the selector failed, and that failure is the first report, at the header line |
| LegacyProps.BodyEnds | src/main/java/com/floweytf/mcfext/parse/Parser.java:88-98 | the body loop ends by consuming `}`, or at the end of input with ERR_UNCLOSED at the header line as its last report |
| LegacyProps.UnclosedCommandsThrow | src/main/java/com/floweytf/mcfext/parse/Parser.java:88-100 | a body that reaches the end of input through accepted commands, with no `}`, throws instead of reporting |
| LegacyProps.NullOnlyLast | src/main/java/com/floweytf/mcfext/parse/Parser.java:153-158 | null children are kept, but only as the last child |
| LegacyProps.NextNodeShape | src/main/java/com/floweytf/mcfext/parse/Parser.java:107-151 | the legacy parser builds only commands and `run`/`loop` blocks of them |
| LegacyProps.ScansAgreeOnPlainLines | src/main/java/com/floweytf/mcfext/parse/Parser.java:107-151 | on lines neither parser treats specially, with v2 off, the legacy scan and the statement parser's scan give the same node and the same state |
| LegacyProps.TopLevelsAgreeOnPlainLines | src/main/java/com/floweytf/mcfext/parse/Parser.java:153-160 | on such files both parsers read the same statements in the same order and end in the same state; only the legacy one keeps a trailing null |
| LegacyProps.FeaturesKept | src/main/java/com/floweytf/mcfext/parse/Parser.java:115-129 | scanning plain lines runs no pragma, so the feature set is unchanged |
| Legacy.Parser.constructor | src/main/java/com/floweytf/mcfext/parse/Parser.java:200-206 | the reader is assembled from the lines into the context, with the cursor at 0 and no feature enabled |
| Legacy.Parser.ParsePragma | src/main/java/com/floweytf/mcfext/parse/Parser.java:70-76 | a pragma failure, or an unknown flag in initPragma's callbacks, is reported as ERR_PRAGMA; a known flag is set |
| Legacy.Parser.ParseControlFlowV1 | src/main/java/com/floweytf/mcfext/parse/Parser.java:78-105 | the node and new state are `RunOrLoop`'s; the method fails exactly where `RunOrLoop` throws |
| Legacy.Parser.BodyRound | src/main/java/com/floweytf/mcfext/parse/Parser.java:88-101 | one round throws, closes on `}`, ends unclosed on null, or contributes one node |
| Legacy.Parser.ParseNextCommand | src/main/java/com/floweytf/mcfext/parse/Parser.java:107-151 | the node and new state are `NextNode`'s; the method fails exactly where `NextNode` throws |
| Legacy.Parser.ScanRound | src/main/java/com/floweytf/mcfext/parse/Parser.java:109-147 | one round finds the node, throws, or consumes a line without changing the scan's outcome |
| Legacy.Parser.ParseCommandLine | src/main/java/com/floweytf/mcfext/parse/Parser.java:131-147 | the command path consumes exactly one line |
| Legacy.Parser.ParseTopLevel | src/main/java/com/floweytf/mcfext/parse/Parser.java:153-160 | the children, nulls included, are `Children`'s; the method fails exactly where `Children` throws |
| Legacy.ParseLine | src/main/java/com/floweytf/mcfext/parse/Parser.java:217-240 | the result is `ParseLines`: a fault if parsing throws, rejected iff an error was reported, otherwise the children and the debug flag; the report is the rendered diagnostics |
| Legacy.ParseLines | src/main/java/com/floweytf/mcfext/parse/Parser.java:217-229 | definition: read the lines, parse the top level, `null` on an error, otherwise the children and the debug flag; see `Legacy.ParseLine` |
| Linkables.Build | src/main/java/com/floweytf/mcfext/codegen/Linkable.java:20-30 | a supplier links iff every label it reads is bound |
| Linkables.Wrap | src/main/java/com/floweytf/mcfext/codegen/Linkable.java:40-52 | `wrap` returns the targets unchanged, and linking runs the supplier |
| Linkables.WrapUntargeted | src/main/java/com/floweytf/mcfext/codegen/Linkable.java:36-38 | the default target list is empty |
| Linkables.Call | src/main/java/com/floweytf/mcfext/codegen/Linkable.java:20-22 | the targets are exactly [target]; linking gives a call carrying the target's offset at link time, or fails when it is unbound |
| Linkables.Branch | src/main/java/com/floweytf/mcfext/codegen/Linkable.java:24-26 | the targets are exactly [target]; linking gives a branch to the target's offset at link time |
| Linkables.PushInstrAddr | src/main/java/com/floweytf/mcfext/codegen/Linkable.java:28-30 | the targets are exactly [target]; linking pushes the target's offset at link time |
| Linkables.Exit | src/main/java/com/floweytf/mcfext/codegen/Linkable.java:32-34 | no targets; it always links to a branch to Integer.MAX_VALUE |
| Linkables.LinkReadsOnlyTargets | src/main/java/com/floweytf/mcfext/codegen/Linkable.java:14-30 | linking reads only the declared targets' offsets |
| Linkables.Link | src/main/java/com/floweytf/mcfext/codegen/Linkable.java:14-30 | definition: a linkable's instruction, once its target labels are bound; see `Linkables.LinkReadsOnlyTargets`, `Linkables.LinkSucceedsWhenTargetsBound` |
| Linkables.LinkSucceedsWhenTargetsBound | src/main/java/com/floweytf/mcfext/codegen/Linkable.java:14-30 | a linkable links once all its targets are bound |
| CodeGen.BindLabel | src/main/java/com/floweytf/mcfext/parse/ast/cfv1/LoopAST.java:87 | binding succeeds iff the label exists and is unbound; it appends the bind and records the instruction count at that point as the label's offset |
| CodeGen.BindLeavesOthers | src/main/java/com/floweytf/mcfext/parse/ast/cfv1/LoopAST.java:87 | binding one label changes no other label's slot |
| CodeGen.AppendPreserves | src/main/java/com/floweytf/mcfext/parse/ast/CommandAST.java:16-19 | emitting an instruction keeps the generator invariant and adds exactly one instruction |
| CodeGen.AddLabel | src/main/java/com/floweytf/mcfext/parse/ast/cfv1/RunAST.java:57-58 | definition: a new unbound label, numbered after every earlier one; see `CodeGen.AddLabelPreserves`, `CodeGen.CodeGenerator.DefineLabel` |
| CodeGen.Append | src/main/java/com/floweytf/mcfext/parse/ast/CommandAST.java:16-19 | definition: one item added at the end; see `CodeGen.AppendPreserves` |
| CodeGen.BindLabelPreserves | src/main/java/com/floweytf/mcfext/parse/ast/cfv1/RunAST.java:69-95 | binding keeps the invariant: every bind records its offset, no label is bound twice, and offsets come only from binds |
| CodeGen.LinkItems | src/main/java/com/floweytf/mcfext/parse/parser/Parser.java:265 | a linked function has one instruction per non-bind item |
| CodeGen.LinkItemsSucceeds | src/main/java/com/floweytf/mcfext/parse/parser/Parser.java:265 | `define` succeeds once every deferred item's targets are bound |
| CodeGen.CodeGenerator.DefineLabel | src/main/java/com/floweytf/mcfext/parse/ast/cfv1/RunAST.java:57-58 | a fresh, unbound label at the end of the arena |
| CodeGen.CodeGenerator.EmitLabel | src/main/java/com/floweytf/mcfext/parse/ast/cfv1/RunAST.java:69 | succeeds iff the label is unbound, and then binds it as `BindLabel` says; otherwise nothing changes |
| CodeGen.CodeGenerator.EmitPlain | src/main/java/com/floweytf/mcfext/parse/ast/CommandAST.java:17-19 | exactly one plain item is appended |
| CodeGen.CodeGenerator.EmitControl | src/main/java/com/floweytf/mcfext/parse/ast/ExitAST.java:14-16 | exactly one control item is appended |
| CodeGen.CodeGenerator.EmitControlNamed | src/main/java/com/floweytf/mcfext/parse/ast/cfv1/RunAST.java:99-102 | exactly one named control item is appended |
| CodeGen.CodeGenerator.EmitLinkable | src/main/java/com/floweytf/mcfext/parse/ast/cfv1/LoopAST.java:73 | exactly one deferred item is appended |
| CodeGen.CodeGenerator.EmitControlLinkable | src/main/java/com/floweytf/mcfext/parse/ast/cfv1/RunAST.java:74-86 | exactly one deferred item is appended, wrapping the given targets and supplier |
| CodeGen.CodeGenerator.Define | src/main/java/com/floweytf/mcfext/parse/parser/Parser.java:265 | `define` links every item against the final label offsets |
| CodeGen.LinkPrefixFails | src/main/java/com/floweytf/mcfext/parse/parser/Parser.java:265 | once some item fails to link, the whole function fails |
| ExecFrame.AddMatch | src/main/java/com/floweytf/mcfext/parse/parser/ExtensionsControlFlowV1Parser.java:49-59 | a selector callback appends the matched source to the top pending list, and fails only when there is none |
| ExecFrame.AddMatches | src/main/java/com/floweytf/mcfext/parse/parser/ExtensionsControlFlowV1Parser.java:49-59 | definition: `addMatch` for each selector match in turn; see `ExecFrame.AddMatchesAppends` |
| ExecFrame.Execute | src/main/java/com/floweytf/mcfext/parse/ast/cfv1/RunAST.java:62-102 | definition: the effect of each named control lambda of `run`/`loop` on the frame; see `ExecFrame.PushSourceAndMatchEffect`, `ExecFrame.EmptyListBranches`, `ExecFrame.RunRestoresFrame` |
| ExecFrame.Pops | src/main/java/com/floweytf/mcfext/parse/ast/cfv1/LoopAST.java:92-104 | definition: `n` rounds of the pop lambda; see `ExecFrame.PopsVisitInOrder`, `ExecFrame.RunRestoresFrame` |
| ExecFrame.AddMatchesAppends | src/main/java/com/floweytf/mcfext/parse/parser/ExtensionsControlFlowV1Parser.java:49-59 | the callbacks append the matches, in order, to the top list |
| ExecFrame.PushSourceAndMatchEffect | src/main/java/com/floweytf/mcfext/parse/ast/cfv1/RunAST.java:62-66 | push_source_and_match saves the current source and pushes a list holding exactly the matches; nothing else changes |
| ExecFrame.PopsVisitInOrder | src/main/java/com/floweytf/mcfext/parse/ast/cfv1/LoopAST.java:92-104 | each pop makes the head of the top list the current source and leaves its tail; the other stacks are untouched |
| ExecFrame.EmptyListBranches | src/main/java/com/floweytf/mcfext/parse/ast/cfv1/RunAST.java:74-86 | with the top list empty, pop_source_or_branch jumps to the exit and changes nothing else |
| ExecFrame.RunRestoresFrame | src/main/java/com/floweytf/mcfext/parse/ast/cfv1/RunAST.java:62-102 | a whole `run` pass visits every match, branches to the exit, and cleanup restores the source and both stacks |
| ExecFrame.LoopExitRestoresFrame | src/main/java/com/floweytf/mcfext/parse/ast/cfv1/LoopAST.java:73-124 | a whole `loop` level restores the source and all three stacks, and continues at the address pushed before it |
| Ast.Definitions | src/main/java/com/floweytf/mcfext/parse/ast/TopLevelAST.java:51-55 | one definition node per subroutine, in list order |
| Ast.Visit | src/main/java/com/floweytf/mcfext/parse/ast/cfv1/RunAST.java:105-108 | definition: the children each node's `visit` hands to the visitor; see `Ast.DumpFollowsVisit` |
| Ast.NodeName | src/main/java/com/floweytf/mcfext/parse/ast/cfv1/RunAST.java:110-113 | definition: each node's `toString` (see "Left out" for `BreakAST`); see `Ast.DumpFollowsVisit`, `Ast.RenderLine` |
| Ast.DumpFollowsVisit | src/main/java/com/floweytf/mcfext/parse/ast/ASTNode.java:16-32 | the dump is pre-order over `visit`: the node's line, then its children's dumps in visit order, one level deeper |
| Ast.Entries | src/main/java/com/floweytf/mcfext/parse/ast/ASTNode.java:19-29 | the root's line comes first, at the current depth; every later line is deeper |
| Ast.RenderLine | src/main/java/com/floweytf/mcfext/parse/ast/ASTNode.java:24 | a line at depth d is 2d spaces, the node's name and a newline |
| Ast.Dump | src/main/java/com/floweytf/mcfext/parse/ast/ASTNode.java:16-32 | the dump ends with a newline and starts with the root's name on its own line |
| Emission.Dedupe | src/main/java/com/floweytf/mcfext/parse/ast/TopLevelAST.java:24-37 | the name table and the name list hold the same names |
| Emission.Emit | src/main/java/com/floweytf/mcfext/parse/ast/ASTNode.java:12 | definition: `emit` dispatched on the node; see `Emitter.EmitNode`, `EmissionProps.EmitGrows`, `EmissionLinks.EmitResolves` |
| Emission.EmitAll | src/main/java/com/floweytf/mcfext/parse/ast/BlockAST.java:17-22 | definition: the children emitted in order; see `EmissionLayout.EmitAllAppend`, `Emitter.EmitBlock` |
| Emission.EmitRun | src/main/java/com/floweytf/mcfext/parse/ast/cfv1/RunAST.java:55-103 | definition: `RunAST.emit`; see `EmissionLayout.RunLayout`, `EmissionProps.RunTemplate`, `Emitter.EmitRunNode` |
| Emission.EmitLoop | src/main/java/com/floweytf/mcfext/parse/ast/cfv1/LoopAST.java:65-128 | definition: `LoopAST.emit`; see `EmissionLayout.LoopLayout`, `Emitter.EmitLoopNode` |
| Emission.EmitDefinition | src/main/java/com/floweytf/mcfext/parse/ast/subroutine/SubroutineDefinitionAST.java:32-37 | definition: `SubroutineDefinitionAST.emit`; see `EmissionLayout.DefinitionLayout`, `TopLevelProps.RebindFaults` |
| Emission.EmitDefinitions | src/main/java/com/floweytf/mcfext/parse/ast/TopLevelAST.java:46-48 | definition: the subroutine bodies emitted in order; see `TopLevelProps.DuplicateDefinitionsFault`, `Emitter.EmitDefinitionNodes` |
| Emission.DefineSubroutines | src/main/java/com/floweytf/mcfext/parse/ast/TopLevelAST.java:39 | definition: one fresh label per subroutine name; see `TopLevelProps.DefineSubroutinesGen`, `Emitter.DefineAll` |
| Emission.EmitTopLevel | src/main/java/com/floweytf/mcfext/parse/ast/TopLevelAST.java:24-49 | definition: `TopLevelAST.emit`; see `TopLevelProps.TopLevelTable`, `TopLevelProps.BlockThenExit`, `TopLevelProps.TopLevelDuplicateFaults`, `TopLevelProps.TopLevelLinks` |
| EmissionLayout.LeafEmitsOne | src/main/java/com/floweytf/mcfext/parse/ast/CommandAST.java:16-19 | command, exit, return and subroutine-return each emit one instruction that references no label, and define, bind and report nothing |
| EmissionLayout.CommandEmitsAction | src/main/java/com/floweytf/mcfext/parse/ast/CommandAST.java:17-19 | a command links to the plain instruction of its action |
| EmissionLayout.ReturnsDiffer | src/main/java/com/floweytf/mcfext/parse/ast/subroutine/ReturnAST.java:15-18 | `return` and `subroutine_return` emit different instructions; `exit` emits the branch to Integer.MAX_VALUE |
| EmissionLayout.BreakReports | src/main/java/com/floweytf/mcfext/parse/ast/cfv2/BreakAST.java:19-24 | `break` emits nothing, and reports ERR_BAD_BREAK at its own line iff there is no break target |
| EmissionLayout.CallEmits | src/main/java/com/floweytf/mcfext/parse/ast/subroutine/SubroutineCallAST.java:24-32 | a call emits iff its name is in the table; then it emits one deferred item targeting only that label, which links to a subroutine call at its offset |
| EmissionLayout.RunLayout | src/main/java/com/floweytf/mcfext/parse/ast/cfv1/RunAST.java:55-103 | a `run` lays out push, [begin], pop-or-branch(exit), body, branch(begin), [exit], cleanup: four instructions of its own and two labels, each bound once |
| EmissionLayout.LoopLayout | src/main/java/com/floweytf/mcfext/parse/ast/cfv1/LoopAST.java:65-128 | a `loop` lays out pushInstrAddr(end), [wrapper], push, [begin], pop-or-branch(exit), body, call(wrapper), branch(begin), [exit], function_exit, [end]: six instructions of its own and four labels, each bound once |
| EmissionLayout.DefinitionLayout | src/main/java/com/floweytf/mcfext/parse/ast/subroutine/SubroutineDefinitionAST.java:32-37 | a definition binds its table label first, then lays out its body and exactly one subroutine return as its last item |
| EmissionLayout.EmitAllAppend | src/main/java/com/floweytf/mcfext/parse/ast/BlockAST.java:17-22 | a block emits its children once each, in order; a fault ends emission |
| EmissionLinks.EmitResolves | src/main/java/com/floweytf/mcfext/parse/ast/cfv1/LoopAST.java:92-112 | every deferred item a statement emits targets a label bound by then, or a subroutine entry |
| EmissionProps.EmitGrows | src/main/java/com/floweytf/mcfext/parse/ast/BlockAST.java:17-22 | emitting a statement keeps the generator invariant, only extends the state, and binds no older label except a subroutine entry |
| EmissionProps.RunTemplate | src/main/java/com/floweytf/mcfext/parse/ast/cfv1/RunAST.java:55-103 | no bind of the `run` template can fail: `run` faults only when its body does |
| TopLevelProps.DedupeKeys | src/main/java/com/floweytf/mcfext/parse/ast/TopLevelAST.java:24-37 | the table maps exactly the defined names |
| TopLevelProps.DedupeFirst | src/main/java/com/floweytf/mcfext/parse/ast/TopLevelAST.java:24-37 | each name maps to the line of its first definition |
| TopLevelProps.DedupeOrder | src/main/java/com/floweytf/mcfext/parse/ast/TopLevelAST.java:24-37 | the name list has no repeats; every subroutine is either a first definition or a reported duplicate |
| TopLevelProps.DedupeReports | src/main/java/com/floweytf/mcfext/parse/ast/TopLevelAST.java:31-33 | each report is an error at a later duplicate's own line, citing the first definition's line |
| TopLevelProps.DedupeClean | src/main/java/com/floweytf/mcfext/parse/ast/TopLevelAST.java:24-37 | nothing is reported iff all names are distinct |
| TopLevelProps.DefineSubroutinesGen | src/main/java/com/floweytf/mcfext/parse/ast/TopLevelAST.java:39 | the table adds one unbound "subroutine_" label per name, in order, and emits nothing |
| TopLevelProps.TopLevelTable | src/main/java/com/floweytf/mcfext/parse/ast/TopLevelAST.java:24-39 | before anything is emitted, every defined name and no other has exactly one fresh, unbound label of its own |
| TopLevelProps.RebindFaults | src/main/java/com/floweytf/mcfext/parse/ast/subroutine/SubroutineDefinitionAST.java:34 | a definition whose label is already bound faults |
| TopLevelProps.DuplicateDefinitionsFault | src/main/java/com/floweytf/mcfext/parse/ast/TopLevelAST.java:46-48 | all subroutines are emitted, duplicates included, so a repeated name faults on the second bind |
| TopLevelProps.TopLevelDuplicateFaults | src/main/java/com/floweytf/mcfext/parse/ast/TopLevelAST.java:24-48 | a repeated name is reported and then makes the function's emission fault |
| TopLevelProps.BlockThenExit | src/main/java/com/floweytf/mcfext/parse/ast/TopLevelAST.java:41-44 | the block comes first, then the exit iff there are subroutines; what they emit is resolved against the table |
| TopLevelProps.TopLevelLinks | src/main/java/com/floweytf/mcfext/parse/ast/TopLevelAST.java:24-48 | a function that emits without a fault has distinct names, reported no duplicate, and links: every deferred item targets a label it binds |
| Emitter.CodegenContext.constructor | src/main/java/com/floweytf/mcfext/parse/parser/Parser.java:254 | an empty subroutine table and no break target |
| Emitter.EmitNode | src/main/java/com/floweytf/mcfext/parse/ast/ASTNode.java:12 | emitting any node changes the three objects exactly as `Emission.Emit` says, or fails exactly where it faults |
| Emitter.EmitBlock | src/main/java/com/floweytf/mcfext/parse/ast/BlockAST.java:17-22 | the loop emits the children as `EmitAll` says |
| Emitter.EmitCallNode | src/main/java/com/floweytf/mcfext/parse/ast/subroutine/SubroutineCallAST.java:24-32 | fails iff the name is undefined, after reporting "not defined" at the call's line; otherwise it emits as `Emit` says |
| Emitter.EmitRunNode | src/main/java/com/floweytf/mcfext/parse/ast/cfv1/RunAST.java:55-103 | the `run` template, as `EmitRun` says |
| Emitter.EmitLoopNode | src/main/java/com/floweytf/mcfext/parse/ast/cfv1/LoopAST.java:65-128 | the `loop` template, as `EmitLoop` says |
| Emitter.EmitDefinitionNode | src/main/java/com/floweytf/mcfext/parse/ast/subroutine/SubroutineDefinitionAST.java:32-37 | label, body and return, as `EmitDefinition` says |
| Emitter.EmitTopLevelNode | src/main/java/com/floweytf/mcfext/parse/ast/TopLevelAST.java:24-49 | the dedupe, the table, the block, the exit and the subroutines, as `EmitTopLevel` says |
| Emitter.EmitTopLevelRest | src/main/java/com/floweytf/mcfext/parse/ast/TopLevelAST.java:41-48 | after the table: the block, the exit when there are subroutines, then the definitions, as `TopLevelRest` says |
| Emitter.TopLevelRest | src/main/java/com/floweytf/mcfext/parse/ast/TopLevelAST.java:41-48 | definition: `TopLevelAST.emit` after the labels are defined; see `Emitter.EmitTopLevelRest` |
| Emitter.EmitDefinitionNodes | src/main/java/com/floweytf/mcfext/parse/ast/TopLevelAST.java:46-48 | the loop emits every definition in list order and fails exactly when `EmitDefinitions` does |
| Emitter.DedupeInto | src/main/java/com/floweytf/mcfext/parse/ast/TopLevelAST.java:24-37 | the loop builds `Dedupe`'s table and reports exactly its duplicates |
| Emitter.DefineAll | src/main/java/com/floweytf/mcfext/parse/ast/TopLevelAST.java:39 | the forEach defines one label per name and enters it in the table |
| Compile.RenderableAfterParse | src/main/java/com/floweytf/mcfext/parse/parser/Parser.java:250 | every diagnostic of a parse has a non-empty window, so `dumpErrors` never reads an empty entry list |
| Compile.RejectedIffParseError | src/main/java/com/floweytf/mcfext/parse/parser/Parser.java:250-252 | the function is refused iff parsing, including the reader's reports, produced an error; the refusal carries those diagnostics |
| Compile.FaultOnlyInEmission | src/main/java/com/floweytf/mcfext/parse/parser/Parser.java:254-266 | after a clean parse, linking never fails: a compile faults iff emission faults |
| Compile.DuplicateSubroutineFaults | src/main/java/com/floweytf/mcfext/parse/parser/Parser.java:250-266 | a clean parse that defines a name twice does not compile: the redefinition report made during emission is never read, and the second bind faults |
| Compile.CompileFunction | src/main/java/com/floweytf/mcfext/parse/parser/Parser.java:242-267 | the result is `CompileLines` (refused, faulted or compiled) and the report is the rendered parse diagnostics |
| Compile.ParseFunction | src/main/java/com/floweytf/mcfext/parse/parser/Parser.java:246-248 | a fresh context holding exactly the parse's diagnostics, and the parse's block and subroutines |
| Compile.ParseFile | src/main/java/com/floweytf/mcfext/parse/parser/Parser.java:246-248 | definition: the parser's block, subroutines and final state; see `Compile.ParseFunction`, `Compile.RejectedIffParseError` |
| Compile.EmitAndLink | src/main/java/com/floweytf/mcfext/parse/parser/Parser.java:254-266 | definition: emission into a fresh generator, then linking; see `Compile.EmitFunction`, `Compile.FaultOnlyInEmission` |
| Compile.CompileLines | src/main/java/com/floweytf/mcfext/parse/parser/Parser.java:242-267 | definition: parse, reject on an error, otherwise emit and link; see `Compile.CompileFunction`, `Compile.RejectedIffParseError`, `Compile.DuplicateSubroutineFaults` |
| Compile.EmitFunction | src/main/java/com/floweytf/mcfext/parse/parser/Parser.java:254-266 | emission into a fresh context and generator, then `define`, as `EmitAndLink` says |

## Left out

- The command, selector and pragma grammars are parameters. These are
  brigadier dispatchers, `ContextChain.tryFlatten` and
  `ExecuteCommandUtils.registerV1ControlFlow`. Only their result (an action
  or an error message) is modelled. `CommandFunction.shouldConcatenateNextLine`
  is likewise taken to mean "ends with a backslash".
- Logging is left out. The text `dumpErrors` logs is returned as a string
  instead. `compileFunction` and `parseLine` also log an AST dump and a
  disassembly in debug mode; those are not modelled.
- `CodeGenerator`, `DebugCodeGenerator`, `CodegenContext` and
  `ParseFeatureSet` are not part of this model:
  - The generator is an item list plus a label arena. Binding a label that
    is already bound is a fault.
  - The debug generator is taken to emit the same instructions, so both
    branches of `compileFunction` are one.
  - `CodegenContext` is a name-to-label map plus an optional break label.
  - `ParseFeatureSet` is three flags named `cfv2`, `subroutine` and
    `debug`. `enable`/`disable` return true on an unknown name.
  - A new `ParseFeatureSet` is taken to have all three flags off
    (`Features.NoFeatures`). Both parsers start from that state
    (`parse/parser/Parser.java:105` and `parse/Parser.java:45`).
- The runtime meaning of `CallInstr`, `BranchInstr`, `RetInstr` and
  `SubroutineCallInstr` is left out; it belongs to the VM. The named
  control lambdas of `run`/`loop` are modelled in `ExecFrame`. The
  selector's matches are a parameter there.
- `SubroutineReturnAST` is not part of this model. It is taken to emit the
  subroutine-return instruction.
- `Diagnostic.java` holds the message constants. Only `ERR_BAD_BREAK` of
  them is shown, so the other wordings in `MessageText` are assumed.
  `ERR_CF_V1_EXTRA_CLOSE` is taken to read like the statement parser's
  extraneous-`}` message.
- `HashMap` iteration order is left out. The labels of
  `TopLevelAST.java:39` are defined in the order names first occur. Only
  the set of labels and their names matter to the proved properties.
- Legacy emission is left out:
  - The legacy parser builds `new TopLevelAST(new BlockAST(children))` and
    calls `ast.emit(codegen)`.
  - The `TopLevelAST` shown has neither that constructor nor that `emit`.
  - The legacy model therefore stops at `Legacy.Outcome`: its
    `Accepted(children, debugDump)` is what parsing hands to emission.
- Legacy `reader.curr()` past the end: in the `run`/`loop` body loop it
  throws. It is modelled as the `Crash` outcome rather than as a
  precondition, and `LegacyProps.UnclosedCommandsThrow` exhibits it.
- The statement parser's "parser failed to advance" `IllegalStateException`
  is not modelled as an outcome. It is proved unreachable, since every
  round consumes a line.
- A logical line that trims to a bare `/` makes `fromLines` peek past the
  end of the line and throw. Every member that runs `fromLines` therefore
  requires `NoBareSlash` (`LineReader.CommandLineReader.FromLines`,
  `Compile.CompileFunction`, `Legacy.ParseLine`).
- `Compile.CompileFunction`: the Java result is a `CommandFunction` named
  by `id`. The model returns the linked instruction list, and `id`
  appears only in the report.
- Ast.NodeName: `BreakAST` has no `toString`, so its dump line is
  `Object.toString()`, which is the class name, `@` and the identity hash
  code in hex. The hash differs from run to run. The model keeps the class
  name and drops the `@<hash>` suffix.
- Emitter.EmitCallNode: the undefined-name case ends in a fault, as
  `List.of(null)` throws. The state after the report is left open there;
  only the report itself is stated.
