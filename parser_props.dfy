/** Properties of the statement parser, stated over the `ParseSpec`
    functions that the `FunctionParser` class is proved to follow. */
module ParseProps {
  import opened Wrappers
  import opened Instructions
  import opened Text
  import opened Diagnostics
  import opened Features
  import opened Ast
  import opened ParseSpec

  // ---------------------------------------------------------------------
  // text.split(" ") on a statement line
  // ---------------------------------------------------------------------

  lemma {:induction false} FieldsHaveNoSpace(s: string)
    ensures forall p :: p in Fields(s) ==> ' ' !in p
  {
    if s != [] {
      FieldsHaveNoSpace(s[1..]);
      if s[0] != ' ' {
        var rest := Fields(s[1..]);
        assert forall p :: p in rest[1..] ==> p in rest;
      }
    }
  }

  lemma {:induction false} DropTrailingEmptyKeepsHead(xs: seq<string>)
    requires |xs| >= 1 && xs[0] != ""
    ensures |DropTrailingEmpty(xs)| >= 1
    decreases |xs|
  {
    if xs[|xs| - 1] == "" {
      DropTrailingEmptyKeepsHead(xs[..|xs| - 1]);
    }
  }

  /** No piece of text.split(" ") contains a space. */
  lemma SplitHasNoSpace(s: string)
    ensures forall p :: p in Split(s) ==> ' ' !in p
  {
    if ' ' in s {
      FieldsHaveNoSpace(s);
      var xs := Fields(s);
      var r := DropTrailingEmpty(xs);
      assert forall p :: p in r ==> p in xs;
    }
  }

  /** On a line whose first token is not empty (every keyword line),
      text.split(" ") has that token as its first piece. So the
      `parts.length == 1` test of the subroutine handlers and the model's
      `|parts| <= 1` agree: no piece list is empty there. */
  lemma SplitHead(s: string)
    requires FirstToken(s) != ""
    ensures |Split(s)| >= 1 && Split(s)[0] == FirstToken(s)
  {
    if ' ' in s {
      DropTrailingEmptyKeepsHead(Fields(s));
    }
  }

  // ---------------------------------------------------------------------
  // Subroutine definitions
  // ---------------------------------------------------------------------

  /** A name a definition or a call can carry: the non-empty second
      piece of the line, which has no space in it. */
  predicate GoodName(name: string)
  {
    name != "" && ' ' !in name
  }

  predicate NamedDefinition(n: Option<Node>)
  {
    n.Some? && n.value.Definition? ==> GoodName(n.value.def.name)
  }

  /** Every subroutine definition parseNextCommand yields has a usable
      name: a line without one yields null instead. */
  lemma {:induction false} NextCommandNamesDefinitions(src: Input, isTop: bool, inSub: bool, st: PState)
    requires Valid(src) && Within(src, st)
    ensures NamedDefinition(NextCommand(src, isTop, inSub, st).0)
    decreases |src.entries| - st.index, 2
  {
    if st.index < |src.entries| {
      var text := src.entries[st.index];
      var key := FirstToken(text);
      if !IsKeyword(key) {
        CommandLineNamesDefinitions(src, isTop, inSub, st);
      } else if !Enabled(key, st.features) {
        CommandLineNamesDefinitions(src, isTop, inSub, ReportWarn(st, src.lineNumbers[st.index], GateMessage(key)));
      } else {
        var (reply, st1) := Handle(src, key, isTop, inSub, st);
        match reply {
          case ReturnNode(n) =>
            if key == KeySubroutine {
              SplitHasNoSpace(text);
              var parts := Split(text);
              assert n == SubroutineLine(src, isTop, st).0;
              if !NoName(parts) {
                assert parts[1] in parts;
                assert n.value.def.name == parts[1];
              }
            } else if key == KeyRun || key == KeyLoop {
              assert n == Some(ControlFlowV1(src, key, inSub, st).0);
            }
          case Continue =>
            NextCommandNamesDefinitions(src, isTop, inSub, st1);
          case Fallthrough =>
            CommandLineNamesDefinitions(src, isTop, inSub, st1);
        }
      }
    }
  }

  lemma {:induction false} CommandLineNamesDefinitions(src: Input, isTop: bool, inSub: bool, st: PState)
    requires Valid(src) && st.index < |src.entries|
    ensures NamedDefinition(CommandLine(src, isTop, inSub, st).0)
    decreases |src.entries| - st.index, 1
  {
    var text := src.entries[st.index];
    var line := src.lineNumbers[st.index];
    match src.grammar.commands(text)
    case Ok(_) =>
    case Err(msg) =>
      NextCommandNamesDefinitions(src, isTop, inSub, ReportErr(Next(ReportErr(st, line, ParseCommand(msg))), line, BadCommand(text)));
  }

  /** parseTopLevel sets every definition apart: the main block holds no
      definition node, and every collected subroutine has a usable name. */
  lemma {:induction false} TopLevelSeparatesDefinitions(src: Input, st: PState)
    requires Valid(src) && Within(src, st)
    ensures var r := ParseSpec.ParseTopLevel(src, st);
      (forall x :: x in r.0 ==> !x.Definition?) && (forall s :: s in r.1 ==> GoodName(s.name))
    decreases |src.entries| - st.index
  {
    if st.index < |src.entries| {
      var (n, st1) := NextCommand(src, true, false, st);
      NextCommandNamesDefinitions(src, true, false, st);
      TopLevelSeparatesDefinitions(src, st1);
    }
  }

  // ---------------------------------------------------------------------
  // Statement trees
  // ---------------------------------------------------------------------

  /** The parser never builds a TopLevel node below the root: every node
      parseNextCommand yields is a statement tree. */
  lemma {:induction false} NextCommandStatement(src: Input, isTop: bool, inSub: bool, st: PState)
    requires Valid(src) && Within(src, st)
    ensures var n := NextCommand(src, isTop, inSub, st).0;
      n.Some? ==> Statement(n.value)
    decreases |src.entries| - st.index, 2
  {
    if st.index < |src.entries| {
      var key := FirstToken(src.entries[st.index]);
      if !IsKeyword(key) {
        CommandLineStatement(src, isTop, inSub, st);
      } else if !Enabled(key, st.features) {
        CommandLineStatement(src, isTop, inSub, ReportWarn(st, src.lineNumbers[st.index], GateMessage(key)));
      } else {
        var (reply, st1) := Handle(src, key, isTop, inSub, st);
        HandleStatement(src, key, isTop, inSub, st);
        match reply {
          case ReturnNode(_) =>
          case Continue =>
            NextCommandStatement(src, isTop, inSub, st1);
          case Fallthrough =>
            CommandLineStatement(src, isTop, inSub, st1);
        }
      }
    }
  }

  lemma {:induction false} CommandLineStatement(src: Input, isTop: bool, inSub: bool, st: PState)
    requires Valid(src) && st.index < |src.entries|
    ensures var n := CommandLine(src, isTop, inSub, st).0;
      n.Some? ==> Statement(n.value)
    decreases |src.entries| - st.index, 1
  {
    var text := src.entries[st.index];
    var line := src.lineNumbers[st.index];
    match src.grammar.commands(text)
    case Ok(_) =>
    case Err(msg) =>
      NextCommandStatement(src, isTop, inSub, ReportErr(Next(ReportErr(st, line, ParseCommand(msg))), line, BadCommand(text)));
  }

  lemma {:induction false} HandleStatement(src: Input, key: string, isTop: bool, inSub: bool, st: PState)
    requires Valid(src) && st.index < |src.entries|
    ensures var reply := Handle(src, key, isTop, inSub, st).0;
      reply.ReturnNode? && reply.node.Some? ==> Statement(reply.node.value)
    decreases |src.entries| - st.index, 1
  {
    if key == KeyRun || key == KeyLoop {
      ControlFlowV1Statement(src, key, inSub, st);
    } else if key == KeySubroutine {
      SubroutineLineStatement(src, isTop, st);
    }
  }

  lemma {:induction false} ControlFlowV1Statement(src: Input, key: string, inSub: bool, st: PState)
    requires Valid(src) && st.index < |src.entries|
    ensures Statement(ControlFlowV1(src, key, inSub, st).0)
    decreases |src.entries| - st.index, 0
  {
    var text := src.entries[st.index];
    var line := src.lineNumbers[st.index];
    var st1 := match src.grammar.selectors(text)
      case Ok(_) => st
      case Err(msg) => ReportErr(st, line, ControlFlowParse(key, msg));
    ParseBlockStatements(src, KeyClose, line, UnclosedStatement, inSub, Next(st1));
  }

  lemma {:induction false} SubroutineLineStatement(src: Input, isTop: bool, st: PState)
    requires Valid(src) && st.index < |src.entries|
    ensures var n := SubroutineLine(src, isTop, st).0;
      n.Some? ==> Statement(n.value)
    decreases |src.entries| - st.index, 0
  {
    var text := src.entries[st.index];
    var line := src.lineNumbers[st.index];
    var st1 := Next(st);
    var st2 := if isTop then st1 else ReportErr(st1, line, SubroutineNotTopLevel);
    var parts := Split(text);
    var st3 := if BadArity(parts) then ReportErr(st2, line, BadSubroutineDefinition) else st2;
    if !NoName(parts) {
      ParseBlockStatements(src, KeyEnd, line, UnclosedSubroutine, true, st3);
    }
  }

  lemma {:induction false} ParseBlockStatements(src: Input, term: string, startLine: nat, m: Message, inSub: bool, st: PState)
    requires Valid(src) && Within(src, st) && startLine in src.lineNumbers
    ensures forall x :: x in ParseSpec.ParseBlock(src, term, startLine, m, inSub, st).0 ==> Statement(x)
    decreases |src.entries| - st.index, 3
  {
    if st.index < |src.entries| && src.entries[st.index] != term {
      var (n, st1) := NextCommand(src, false, inSub, st);
      NextCommandStatement(src, false, inSub, st);
      ParseBlockStatements(src, term, startLine, m, inSub, st1);
    }
  }

  /** What parseTopLevel returns is ready for emission: the block's
      children and every subroutine body are statement trees. */
  lemma {:induction false} TopLevelStatements(src: Input, st: PState)
    requires Valid(src) && Within(src, st)
    ensures var r := ParseSpec.ParseTopLevel(src, st);
      (forall x :: x in r.0 ==> Statement(x)) && (forall s :: s in r.1 ==> Statement(s.body))
    decreases |src.entries| - st.index
  {
    if st.index < |src.entries| {
      var (n, st1) := NextCommand(src, true, false, st);
      NextCommandStatement(src, true, false, st);
      TopLevelStatements(src, st1);
    }
  }

  // ---------------------------------------------------------------------
  // Blocks
  // ---------------------------------------------------------------------

  /** parseBlock ends in one of two ways: it has just consumed a
      terminator line, or it ran out of input and its last report is
      `onUnterminated` at the block's first line. */
  lemma {:induction false} BlockEnds(src: Input, term: string, startLine: nat, m: Message, inSub: bool, st: PState)
    requires Valid(src) && Within(src, st) && startLine in src.lineNumbers
    ensures var r := ParseSpec.ParseBlock(src, term, startLine, m, inSub, st).1;
      || (st.index < r.index && src.entries[r.index - 1] == term)
      || (r.index == |src.entries| && |r.diags| > 0 && r.diags[|r.diags| - 1] == Diagnostic(Error, startLine, m))
    decreases |src.entries| - st.index
  {
    if st.index < |src.entries| && src.entries[st.index] != term {
      var st1 := NextCommand(src, false, inSub, st).1;
      BlockEnds(src, term, startLine, m, inSub, st1);
      assert ParseSpec.ParseBlock(src, term, startLine, m, inSub, st).1 == ParseSpec.ParseBlock(src, term, startLine, m, inSub, st1).1;
    }
  }

  /** A closer on the very next line ends the block at once, with nothing
      reported. */
  lemma BlockClosesAtTerminator(src: Input, term: string, startLine: nat, m: Message, inSub: bool, st: PState)
    requires Valid(src) && st.index < |src.entries| && startLine in src.lineNumbers
    requires src.entries[st.index] == term
    ensures ParseSpec.ParseBlock(src, term, startLine, m, inSub, st) == ([], st.(index := st.index + 1))
  {
  }

  // ---------------------------------------------------------------------
  // The dispatch of parseNextCommand
  // ---------------------------------------------------------------------

  /** A keyword whose feature is off is reported with the key's warning
      and the line is then parsed as an ordinary command. */
  lemma DisabledKeywordWarns(src: Input, isTop: bool, inSub: bool, st: PState)
    requires Valid(src) && st.index < |src.entries|
    requires IsKeyword(FirstToken(src.entries[st.index])) && !Enabled(FirstToken(src.entries[st.index]), st.features)
    ensures var r := NextCommand(src, isTop, inSub, st);
      var w := Diagnostic(Warn, src.lineNumbers[st.index], GateMessage(FirstToken(src.entries[st.index])));
      st.diags + [w] <= r.1.diags
      && (src.grammar.commands(src.entries[st.index]).Ok? ==>
            r == (Some(Command(src.grammar.commands(src.entries[st.index]).value)), Next(ReportWarn(st, src.lineNumbers[st.index], GateMessage(FirstToken(src.entries[st.index]))))))
  {
    var st1 := ReportWarn(st, src.lineNumbers[st.index], GateMessage(FirstToken(src.entries[st.index])));
    assert NextCommand(src, isTop, inSub, st) == CommandLine(src, isTop, inSub, st1);
  }

  /** A line the command grammar rejects reports the grammar's message and
      then ERR_BAD_CMD, both at its line, and scanning goes on with the
      next line. */
  lemma RejectedCommandReportsTwice(src: Input, isTop: bool, inSub: bool, st: PState)
    requires Valid(src) && st.index < |src.entries|
    requires !IsKeyword(FirstToken(src.entries[st.index]))
    requires src.grammar.commands(src.entries[st.index]).Err?
    ensures var text := src.entries[st.index];
      var line := src.lineNumbers[st.index];
      var st1 := PState(st.index + 1, st.features,
        st.diags + [Diagnostic(Error, line, ParseCommand(src.grammar.commands(text).error)), Diagnostic(Error, line, BadCommand(text))]);
      NextCommand(src, isTop, inSub, st) == NextCommand(src, isTop, inSub, st1)
  {
    var text := src.entries[st.index];
    var line := src.lineNumbers[st.index];
    var a := Diagnostic(Error, line, ParseCommand(src.grammar.commands(text).error));
    var b := Diagnostic(Error, line, BadCommand(text));
    PlainLineIsCommand(src, isTop, inSub, st);
    assert (st.diags + [a]) + [b] == st.diags + [a, b];
    assert ReportErr(Next(ReportErr(st, line, ParseCommand(src.grammar.commands(text).error))), line, BadCommand(text))
        == PState(st.index + 1, st.features, st.diags + [a, b]);
  }

  /** A line that does not start with a keyword is parsed as a command. */
  lemma PlainLineIsCommand(src: Input, isTop: bool, inSub: bool, st: PState)
    requires Valid(src) && st.index < |src.entries|
    requires !IsKeyword(FirstToken(src.entries[st.index]))
    ensures NextCommand(src, isTop, inSub, st) == CommandLine(src, isTop, inSub, st)
  {
  }

  /** `return` with anything after it is not a return statement: the
      handler falls through and the line is parsed as a command. */
  lemma ReturnWithArgumentsIsCommand(src: Input, isTop: bool, inSub: bool, st: PState)
    requires Valid(src) && st.index < |src.entries|
    requires FirstToken(src.entries[st.index]) == KeyReturn && src.entries[st.index] != KeyReturn
    ensures NextCommand(src, isTop, inSub, st) == CommandLine(src, isTop, inSub, st)
  {
  }

  /** The bare word `return` is a return statement on its own line. */
  lemma BareReturn(src: Input, isTop: bool, inSub: bool, st: PState)
    requires Valid(src) && st.index < |src.entries| && src.entries[st.index] == KeyReturn
    ensures NextCommand(src, isTop, inSub, st) == (Some(Return), Next(st))
  {
    assert FirstToken(KeyReturn) == KeyReturn;
  }

  /** A `subroutine` line with more than two words is reported as a bad
      definition, yet still defines a subroutine named by its second word. */
  lemma ExtraWordsStillDefine(src: Input, isTop: bool, st: PState)
    requires Valid(src) && st.index < |src.entries|
    requires |Split(src.entries[st.index])| > 2 && Split(src.entries[st.index])[1] != ""
    ensures var r := SubroutineLine(src, isTop, st);
      && r.0.Some? && r.0.value.Definition?
      && r.0.value.def.name == Split(src.entries[st.index])[1]
      && r.0.value.def.line == src.lineNumbers[st.index]
      && Diagnostic(Error, src.lineNumbers[st.index], BadSubroutineDefinition) in r.1.diags
  {
    var line := src.lineNumbers[st.index];
    var st1 := Next(st);
    var st2 := if isTop then st1 else ReportErr(st1, line, SubroutineNotTopLevel);
    var st3 := ReportErr(st2, line, BadSubroutineDefinition);
    assert st3.diags[|st3.diags| - 1] == Diagnostic(Error, line, BadSubroutineDefinition);
    var r := ParseBlock(src, KeyEnd, line, UnclosedSubroutine, true, st3);
    assert st3.diags <= r.1.diags;
  }

  /** With subroutines on, a `subroutine_return` line always yields the node
      and consumes exactly its line, whatever follows the keyword and
      whether or not the parser is inside a subroutine. */
  lemma SubroutineReturnAlwaysYields(src: Input, isTop: bool, inSub: bool, st: PState)
    requires Valid(src) && st.index < |src.entries| && st.features.subroutines
    requires FirstToken(src.entries[st.index]) == KeySubroutineReturn
    ensures NextCommand(src, isTop, inSub, st).0 == Some(SubroutineReturn)
    ensures NextCommand(src, isTop, inSub, st).1.index == st.index + 1
  {
    assert IsKeyword(KeySubroutineReturn) && Enabled(KeySubroutineReturn, st.features);
  }

  // ---------------------------------------------------------------------
  // A closer right after a pragma
  // ---------------------------------------------------------------------

  /** A pragma line followed by a `}` line that ends the input: the
      pragma runs, the `}` is reported as extraneous, and no node is
      found. */
  lemma CloserAfterPragma(src: Input, inSub: bool, st: PState)
    requires Valid(src) && st.index + 2 == |src.entries|
    requires FirstToken(src.entries[st.index]) == KeyPragma && src.entries[st.index + 1] == KeyClose
    ensures var i := st.index;
      var stP := Next(Pragma(src.grammar, src.entries[i], src.lineNumbers[i], st));
      NextCommand(src, false, inSub, st) == (None, Next(ReportErr(stP, src.lineNumbers[i + 1], ExtraClosing)))
  {
    var i := st.index;
    var stP := Next(Pragma(src.grammar, src.entries[i], src.lineNumbers[i], st));
    var stC := Next(ReportErr(stP, src.lineNumbers[i + 1], ExtraClosing));
    assert FirstToken(KeyClose) == KeyClose;
    assert NextCommand(src, false, inSub, stC) == (None, stC);
    assert NextCommand(src, false, inSub, stP) == (None, stC);
  }

  /** The same pair as the rest of a `}`-terminated block: the block
      ends empty and unclosed. */
  lemma BlockOfPragmaThenCloser(src: Input, startLine: nat, inSub: bool, st: PState)
    requires Valid(src) && st.index + 2 == |src.entries| && startLine in src.lineNumbers
    requires FirstToken(src.entries[st.index]) == KeyPragma && src.entries[st.index + 1] == KeyClose
    ensures var i := st.index;
      var stP := Next(Pragma(src.grammar, src.entries[i], src.lineNumbers[i], st));
      var stC := Next(ReportErr(stP, src.lineNumbers[i + 1], ExtraClosing));
      ParseSpec.ParseBlock(src, KeyClose, startLine, UnclosedStatement, inSub, st)
      == ([], ReportErr(stC, startLine, UnclosedStatement))
  {
    var i := st.index;
    var stP := Next(Pragma(src.grammar, src.entries[i], src.lineNumbers[i], st));
    var stC := Next(ReportErr(stP, src.lineNumbers[i + 1], ExtraClosing));
    assert FirstToken(KeyClose) == KeyClose;
    assert src.entries[i] != KeyClose;
    CloserAfterPragma(src, inSub, st);
    assert stC.index == |src.entries|;
    var rest := ParseSpec.ParseBlock(src, KeyClose, startLine, UnclosedStatement, inSub, stC);
    assert rest == ([], ReportErr(stC, startLine, UnclosedStatement));
    assert ParseSpec.ParseBlock(src, KeyClose, startLine, UnclosedStatement, inSub, st) == (NodeList(None) + rest.0, rest.1);
    assert NodeList(None) + rest.0 == [];
  }

  /** parseBlock looks for its terminator only before it asks for the
      next statement, and parseNextCommand keeps scanning after a pragma.
      So in `run ...`, `pragma ...`, `}` at the end of the input, the `}`
      reaches the `}` handler, which reports it as extraneous, and the
      `run` block is then reported unclosed at its first line (compare
      BlockClosesAtTerminator, where the `}` comes first). */
  lemma PragmaBeforeCloser(src: Input, isTop: bool, inSub: bool, st: PState)
    requires Valid(src) && st.index + 3 == |src.entries| && !st.features.v2ControlFlow
    requires FirstToken(src.entries[st.index]) == KeyRun
    requires FirstToken(src.entries[st.index + 1]) == KeyPragma
    requires src.entries[st.index + 2] == KeyClose
    ensures var i := st.index;
      var sel := src.grammar.selectors(src.entries[i]);
      var st1 := if sel.Ok? then st else ReportErr(st, src.lineNumbers[i], ControlFlowParse(KeyRun, sel.error));
      var stP := Next(Pragma(src.grammar, src.entries[i + 1], src.lineNumbers[i + 1], Next(st1)));
      var stC := Next(ReportErr(stP, src.lineNumbers[i + 2], ExtraClosing));
      NextCommand(src, isTop, inSub, st)
      == (Some(Run(Block([]), if sel.Ok? then Some(sel.value) else None)),
          ReportErr(stC, src.lineNumbers[i], UnclosedStatement))
  {
    var i := st.index;
    var sel := src.grammar.selectors(src.entries[i]);
    var st1 := if sel.Ok? then st else ReportErr(st, src.lineNumbers[i], ControlFlowParse(KeyRun, sel.error));
    var s1 := Next(st1);
    var stP := Next(Pragma(src.grammar, src.entries[i + 1], src.lineNumbers[i + 1], s1));
    var stC := Next(ReportErr(stP, src.lineNumbers[i + 2], ExtraClosing));
    var done := ReportErr(stC, src.lineNumbers[i], UnclosedStatement);
    var node := Run(Block([]), if sel.Ok? then Some(sel.value) else None);
    assert s1.index == i + 1;
    BlockOfPragmaThenCloser(src, src.lineNumbers[i], inSub, s1);
    assert ParseSpec.ParseBlock(src, KeyClose, src.lineNumbers[i], UnclosedStatement, inSub, s1) == ([], done);
    assert ControlFlowV1(src, KeyRun, inSub, st) == (node, done);
    assert Handle(src, KeyRun, isTop, inSub, st) == (ReturnNode(Some(node)), done);
    assert IsKeyword(KeyRun) && Enabled(KeyRun, st.features);
  }
}
