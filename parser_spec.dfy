/** What the statement parser (the classes under parse/parser) computes, as functions
    of the assembled entries, the cursor index, the feature set and the
    diagnostic list. The `FunctionParser` class is proved to follow them. */
module ParseSpec {
  import opened Wrappers
  import opened Instructions
  import opened Text
  import opened Diagnostics
  import opened Features
  import opened Ast

  /** `pragma enable <flag>` or `pragma disable <flag>`, as the pragma
      grammar recognises it. */
  datatype PragmaOp = PragmaOp(enable: bool, flag: string)

  /** The external grammars: the game's command grammar, the `run`/`loop`
      header grammar (which yields the selector action) and the pragma
      grammar. Each answers with the parsed value or the error message. */
  datatype Grammar = Grammar(
    commands: string -> Result<Action, string>,
    selectors: string -> Result<Action, string>,
    pragmas: string -> Result<PragmaOp, string>)

  /** The reader's entries with their line numbers, and the grammars. */
  datatype Input = Input(entries: seq<string>, lineNumbers: seq<nat>, grammar: Grammar)

  predicate Valid(src: Input)
  {
    |src.entries| == |src.lineNumbers|
  }

  /** The mutable part of a parse: the reader index, the feature set and
      the diagnostics reported so far. */
  datatype PState = PState(index: nat, features: Features, diags: seq<Diagnostic>)

  predicate Within(src: Input, st: PState)
  {
    st.index <= |src.entries|
  }

  /** `st'` can follow `st`: the cursor only moves forward and stays within
      the entries, diagnostics are only appended, and every appended one is
      tagged with the line number of some entry. */
  predicate Follows(src: Input, st: PState, st': PState)
  {
    && st.index <= st'.index <= |src.entries|
    && st.diags <= st'.diags
    && forall d :: d in st'.diags ==> d in st.diags || d.line in src.lineNumbers
  }

  function Next(st: PState): PState
  {
    st.(index := st.index + 1)
  }

  function ReportErr(st: PState, line: nat, m: Message): PState
  {
    st.(diags := st.diags + [Diagnostic(Error, line, m)])
  }

  function ReportWarn(st: PState, line: nat, m: Message): PState
  {
    st.(diags := st.diags + [Diagnostic(Warn, line, m)])
  }

  /** Parser.Result: a node (possibly null) to return, "scan the next
      line", or "parse this line as a command". */
  datatype Reply = ReturnNode(node: Option<Node>) | Continue | Fallthrough

  // ---------------------------------------------------------------------
  // The handler table
  // ---------------------------------------------------------------------

  const KeyPragma := "pragma"
  const KeyReturn := "return"
  const KeyRun := "run"
  const KeyLoop := "loop"
  const KeyClose := "}"
  const KeySubroutine := "subroutine"
  const KeySubroutineReturn := "subroutine_return"
  const KeySubroutineCall := "subroutine_call"

  /** The keys registered in FEATURE_HANDLER. */
  predicate IsKeyword(key: string)
  {
    key == KeyPragma || key == KeyReturn || key == KeyRun || key == KeyLoop || key == KeyClose
    || key == KeySubroutine || key == KeySubroutineReturn || key == KeySubroutineCall
  }

  /** The enable predicate a key was registered with. */
  predicate Enabled(key: string, f: Features)
  {
    if key == KeyRun || key == KeyLoop then !f.v2ControlFlow
    else if key == KeySubroutine || key == KeySubroutineReturn || key == KeySubroutineCall then f.subroutines
    else true
  }

  /** The warning a key was registered with. */
  function GateMessage(key: string): Message
  {
    if key == KeyRun || key == KeyLoop then ControlFlowV1Disabled else SubroutinesDisabled
  }

  function NodeList(n: Option<Node>): seq<Node>
  {
    match n
    case None => []
    case Some(x) => [x]
  }

  // ---------------------------------------------------------------------
  // parseNextCommand, the handlers and parseBlock
  // ---------------------------------------------------------------------

  /** parseNextCommand(isTopLevel, isInSubroutine): the next node, or none
      when the input runs out first. */
  function NextCommand(src: Input, isTop: bool, inSub: bool, st: PState): (r: (Option<Node>, PState))
    requires Valid(src) && Within(src, st)
    ensures Follows(src, st, r.1)
    ensures st.index < |src.entries| ==> st.index < r.1.index
    decreases |src.entries| - st.index, 2
  {
    if st.index == |src.entries| then (None, st)
    else
      var text := src.entries[st.index];
      var key := FirstToken(text);
      if !IsKeyword(key) then CommandLine(src, isTop, inSub, st)
      else if !Enabled(key, st.features) then
        CommandLine(src, isTop, inSub, ReportWarn(st, src.lineNumbers[st.index], GateMessage(key)))
      else
        var (reply, st1) := Handle(src, key, isTop, inSub, st);
        match reply
        case ReturnNode(n) => (n, st1)
        case Continue => NextCommand(src, isTop, inSub, st1)
        case Fallthrough => CommandLine(src, isTop, inSub, st1)
  }

  /** The command path of parseNextCommand: one line is consumed; a
      command the grammar rejects reports the grammar's message and then
      ERR_BAD_CMD, and scanning goes on. */
  function CommandLine(src: Input, isTop: bool, inSub: bool, st: PState): (r: (Option<Node>, PState))
    requires Valid(src) && st.index < |src.entries|
    ensures Follows(src, st, r.1) && st.index < r.1.index
    decreases |src.entries| - st.index, 1
  {
    var text := src.entries[st.index];
    var line := src.lineNumbers[st.index];
    match src.grammar.commands(text)
    case Ok(a) => (Some(Command(a)), Next(st))
    case Err(msg) =>
      var st1 := ReportErr(Next(ReportErr(st, line, ParseCommand(msg))), line, BadCommand(text));
      NextCommand(src, isTop, inSub, st1)
  }

  /** The registered handler for `key`, applied to the current line. Only
      `return` can fall through, and it then leaves the state alone; every
      other answer has consumed at least the current line. */
  function Handle(src: Input, key: string, isTop: bool, inSub: bool, st: PState): (r: (Reply, PState))
    requires Valid(src) && st.index < |src.entries|
    ensures Follows(src, st, r.1)
    ensures r.0.Fallthrough? ==> r.1 == st
    ensures !r.0.Fallthrough? ==> st.index < r.1.index
    decreases |src.entries| - st.index, 1
  {
    var text := src.entries[st.index];
    var line := src.lineNumbers[st.index];
    if key == KeyPragma then (Continue, Next(Pragma(src.grammar, text, line, st)))
    else if key == KeyReturn then ReturnLine(text, st)
    else if key == KeyRun || key == KeyLoop then
      var (n, st1) := ControlFlowV1(src, key, inSub, st);
      (ReturnNode(Some(n)), st1)
    else if key == KeyClose then (Continue, Next(ReportErr(st, line, ExtraClosing)))
    else if key == KeySubroutine then
      var (n, st1) := SubroutineLine(src, isTop, st);
      (ReturnNode(n), st1)
    else if key == KeySubroutineReturn then (ReturnNode(Some(SubroutineReturn)), SubroutineReturnLine(text, line, inSub, st))
    else (ReturnNode(SubroutineCallLine(text, line)), SubroutineCallReport(text, line, st))
  }

  /** The pragma handler's effect before it consumes the line: a line the
      pragma grammar rejects, or a flag the feature set does not know,
      reports ERR_PRAGMA at that line. */
  function Pragma(g: Grammar, text: string, line: nat, st: PState): (r: PState)
    ensures r.index == st.index
  {
    match g.pragmas(text)
    case Err(msg) => ReportErr(st, line, PragmaFailed(PragmaSyntax(msg)))
    case Ok(op) =>
      var (f, unknown) := SetFlag(st.features, op.flag, op.enable);
      if unknown then ReportErr(st, line, PragmaFailed(UnknownFlag(op.flag)))
      else st.(features := f)
  }

  /** The `return` handler: only the bare word is a return statement. */
  function ReturnLine(text: string, st: PState): (r: (Reply, PState))
  {
    if text == KeyReturn then (ReturnNode(Some(Return)), Next(st)) else (Fallthrough, st)
  }

  /** ExtensionsControlFlowV1Parser.parse: the header line is consumed
      once; a header the selector grammar rejects is reported and gives a
      null selector; the body runs up to `}` and keeps the enclosing
      isInSubroutine. */
  function ControlFlowV1(src: Input, key: string, inSub: bool, st: PState): (r: (Node, PState))
    requires Valid(src) && st.index < |src.entries|
    ensures Follows(src, st, r.1) && st.index < r.1.index
    decreases |src.entries| - st.index, 0
  {
    var text := src.entries[st.index];
    var line := src.lineNumbers[st.index];
    var sel := src.grammar.selectors(text);
    var st1 := match sel
      case Ok(_) => st
      case Err(msg) => ReportErr(st, line, ControlFlowParse(key, msg));
    var (body, st2) := ParseBlock(src, KeyClose, line, UnclosedStatement, inSub, Next(st1));
    var selector := match sel case Ok(a) => Some(a) case Err(_) => None;
    (if key == KeyRun then Run(Block(body), selector) else Loop(Block(body), selector), st2)
  }

  /** The arity check shared by `subroutine` and `subroutine_call`: the
      name is the second piece of text.split(" "). */
  predicate BadArity(parts: seq<string>)
  {
    |parts| != 2 || parts[1] == ""
  }

  /** A null node: no name at all, or an empty second piece. */
  predicate NoName(parts: seq<string>)
  {
    |parts| <= 1 || parts[1] == ""
  }

  /** The `subroutine` handler: the line is consumed first; outside the
      top level it reports and goes on; a bad arity reports, and without a
      usable name yields null; otherwise the body runs up to `end` inside
      a subroutine. */
  function SubroutineLine(src: Input, isTop: bool, st: PState): (r: (Option<Node>, PState))
    requires Valid(src) && st.index < |src.entries|
    ensures Follows(src, st, r.1) && st.index < r.1.index
    decreases |src.entries| - st.index, 0
  {
    var text := src.entries[st.index];
    var line := src.lineNumbers[st.index];
    var st1 := Next(st);
    var st2 := if isTop then st1 else ReportErr(st1, line, SubroutineNotTopLevel);
    var parts := Split(text);
    var st3 := if BadArity(parts) then ReportErr(st2, line, BadSubroutineDefinition) else st2;
    if NoName(parts) then (None, st3)
    else
      var (body, st4) := ParseBlock(src, KeyEnd, line, UnclosedSubroutine, true, st3);
      (Some(Definition(Subroutine(Block(body), parts[1], line))), st4)
  }

  const KeyEnd := "end"

  /** The `subroutine_return` handler: trailing text and a use outside a
      subroutine are each reported; the node is made either way. */
  function SubroutineReturnLine(text: string, line: nat, inSub: bool, st: PState): PState
  {
    var st1 := Next(st);
    var st2 := if text != KeySubroutineReturn then ReportErr(st1, line, SubroutineReturnArguments) else st1;
    if !inSub then ReportErr(st2, line, SubroutineReturnOutside) else st2
  }

  /** The node of a `subroutine_call` line. */
  function SubroutineCallLine(text: string, line: nat): Option<Node>
  {
    var parts := Split(text);
    if NoName(parts) then None else Some(SubroutineCall(parts[1], line))
  }

  /** The state after a `subroutine_call` line. */
  function SubroutineCallReport(text: string, line: nat, st: PState): PState
  {
    var st1 := Next(st);
    if BadArity(Split(text)) then ReportErr(st1, line, BadSubroutineCall) else st1
  }

  /** parseBlock(parseNextCommand(false, inSub), startLine, terminator,
      onUnterminated): the non-null nodes up to the terminator line, which
      is consumed; running out of input reports `onUnterminated` at
      `startLine`. */
  function ParseBlock(src: Input, term: string, startLine: nat, onUnterminated: Message, inSub: bool, st: PState)
    : (r: (seq<Node>, PState))
    requires Valid(src) && Within(src, st) && startLine in src.lineNumbers
    ensures Follows(src, st, r.1)
    decreases |src.entries| - st.index, 3
  {
    if st.index == |src.entries| then ([], ReportErr(st, startLine, onUnterminated))
    else if src.entries[st.index] == term then ([], Next(st))
    else
      var (n, st1) := NextCommand(src, false, inSub, st);
      var (rest, st2) := ParseBlock(src, term, startLine, onUnterminated, inSub, st1);
      (NodeList(n) + rest, st2)
  }

  /** parseTopLevel: statements until the input runs out, null results
      skipped, subroutine definitions set apart from the main block; both
      lists keep source order. */
  function ParseTopLevel(src: Input, st: PState): (r: (seq<Node>, seq<Subroutine>, PState))
    requires Valid(src) && Within(src, st)
    ensures Follows(src, st, r.2) && r.2.index == |src.entries|
    decreases |src.entries| - st.index
  {
    if st.index == |src.entries| then ([], [], st)
    else
      var (n, st1) := NextCommand(src, true, false, st);
      var (block, subs, st2) := ParseTopLevel(src, st1);
      match n
      case None => (block, subs, st2)
      case Some(Definition(s)) => (block, [s] + subs, st2)
      case Some(x) => ([x] + block, subs, st2)
  }
}
