/** The statement parser (parse/parser/Parser.java with the handlers
    registered by BaseParser, ExtensionsControlFlowV1Parser and
    ExtensionSubroutineParser): a cursor over the assembled entries, the
    feature set and the parse context, updated in place. Every method is
    proved to do what the matching `ParseSpec` function says. */
module FunctionParser {
  import opened Wrappers
  import opened Instructions
  import opened Text
  import opened Diagnostics
  import opened Features
  import opened Ast
  import opened LineReader
  import opened ParseSpec

  /** One round of parseBlock that does not meet the terminator. */
  lemma ParseBlockRound(src: Input, term: string, startLine: nat, m: Message, inSub: bool, st: PState)
    requires Valid(src) && st.index < |src.entries| && src.entries[st.index] != term && startLine in src.lineNumbers
    ensures var (n, st1) := NextCommand(src, false, inSub, st);
      var rest := ParseSpec.ParseBlock(src, term, startLine, m, inSub, st1);
      ParseSpec.ParseBlock(src, term, startLine, m, inSub, st) == (NodeList(n) + rest.0, rest.1)
  {
  }

  /** The command path of parseNextCommand, unfolded once. */
  lemma CommandLineUnfold(src: Input, isTop: bool, inSub: bool, st: PState)
    requires Valid(src) && st.index < |src.entries|
    ensures var text := src.entries[st.index];
      var line := src.lineNumbers[st.index];
      var res := src.grammar.commands(text);
      CommandLine(src, isTop, inSub, st) ==
        if res.Ok? then (Some(Command(res.value)), Next(st))
        else NextCommand(src, isTop, inSub, ReportErr(Next(ReportErr(st, line, ParseCommand(res.error))), line, BadCommand(text)))
  {
  }

  class Parser {
    const context: ParseContext
    const reader: CommandLineReader
    const grammar: Grammar
    var features: Features

    /** The entries and grammars, which never change during a parse. */
    function Src(): Input
    {
      Input(reader.entries, reader.lineNumbers, grammar)
    }

    /** The parse state the fields hold. */
    function Snap(): PState
      reads this, reader, context
    {
      PState(reader.index, features, context.diagnostics)
    }

    predicate Valid()
      reads this, reader
    {
      reader.Valid() && reader.index <= |reader.entries|
    }

    constructor (context: ParseContext, reader: CommandLineReader, grammar: Grammar)
      requires reader.Valid() && reader.index == 0
      ensures this.context == context && this.reader == reader && this.grammar == grammar
      ensures features == NoFeatures && Valid()
    {
      this.context := context;
      this.reader := reader;
      this.grammar := grammar;
      features := NoFeatures;
    }

    /** parseBlock. The "failed to advance" check cannot fire: every round
        consumes at least one line. */
    method ParseBlock(term: string, startLine: nat, onUnterminated: Message, inSub: bool) returns (body: seq<Node>)
      requires Valid() && startLine in reader.lineNumbers
      modifies this, reader, context
      ensures Valid()
      ensures (body, Snap()) == ParseSpec.ParseBlock(Src(), term, startLine, onUnterminated, inSub, old(Snap()))
      decreases |reader.entries| - reader.index, 5
    {
      ghost var goal := ParseSpec.ParseBlock(Src(), term, startLine, onUnterminated, inSub, Snap());
      var prevIndex: int := -1;
      body := [];
      while reader.Present()
        invariant Valid() && old(reader.index) <= reader.index && prevIndex < reader.index
        invariant var r := ParseSpec.ParseBlock(Src(), term, startLine, onUnterminated, inSub, Snap());
          body + r.0 == goal.0 && r.1 == goal.1
        decreases |reader.entries| - reader.index
      {
        if reader.index == prevIndex {
          assert false;
        }
        prevIndex := reader.index;
        var nodes, closed := BlockRound(term, startLine, onUnterminated, inSub);
        AppendAssoc(body, nodes, ParseSpec.ParseBlock(Src(), term, startLine, onUnterminated, inSub, Snap()).0);
        body := body + nodes;
        if closed {
          return;
        }
      }
      context.ReportErr(startLine, onUnterminated);
      assert body + [] == body;
    }

    /** One round of parseBlock on a present line: either the terminator,
        which closes the block, or one more statement. */
    method BlockRound(term: string, startLine: nat, onUnterminated: Message, inSub: bool) returns (nodes: seq<Node>, closed: bool)
      requires Valid() && reader.Present() && startLine in reader.lineNumbers
      modifies this, reader, context
      ensures Valid() && old(reader.index) < reader.index
      ensures var r0 := ParseSpec.ParseBlock(Src(), term, startLine, onUnterminated, inSub, old(Snap()));
        if closed then nodes == [] && r0 == ([], Snap())
        else var r1 := ParseSpec.ParseBlock(Src(), term, startLine, onUnterminated, inSub, Snap());
          r0 == (nodes + r1.0, r1.1)
      decreases |reader.entries| - reader.index, 4
    {
      if reader.Curr() == term {
        reader.Next();
        return [], true;
      }
      ParseBlockRound(Src(), term, startLine, onUnterminated, inSub, Snap());
      var ast := ParseNextCommand(false, inSub);
      nodes, closed := NodeList(ast), false;
    }

    /** parseNextCommand. The "failed to advance" check cannot fire: every
        round consumes at least one line. */
    method ParseNextCommand(isTop: bool, inSub: bool) returns (n: Option<Node>)
      requires Valid()
      modifies this, reader, context
      ensures Valid()
      ensures (n, Snap()) == NextCommand(Src(), isTop, inSub, old(Snap()))
      decreases |reader.entries| - reader.index, 3
    {
      ghost var goal := NextCommand(Src(), isTop, inSub, Snap());
      var prevIndex: int := -1;
      while reader.Present()
        invariant Valid() && old(reader.index) <= reader.index && prevIndex < reader.index
        invariant NextCommand(Src(), isTop, inSub, Snap()) == goal
        decreases |reader.entries| - reader.index
      {
        if reader.index == prevIndex {
          assert false;
        }
        prevIndex := reader.index;
        var found;
        n, found := ScanRound(isTop, inSub);
        if found {
          return;
        }
      }
      n := None;
    }

    /** One round of parseNextCommand on a present line: a handled
        statement, a parsed command, or a line consumed with scanning to go
        on (a pragma, a stray closer, a rejected command). */
    method ScanRound(isTop: bool, inSub: bool) returns (n: Option<Node>, found: bool)
      requires Valid() && reader.Present()
      modifies this, reader, context
      ensures Valid() && old(reader.index) < reader.index
      ensures found ==> (n, Snap()) == NextCommand(Src(), isTop, inSub, old(Snap()))
      ensures !found ==> NextCommand(Src(), isTop, inSub, Snap()) == NextCommand(Src(), isTop, inSub, old(Snap()))
      decreases |reader.entries| - reader.index, 2
    {
      ghost var st0 := Snap();
      var text := reader.Curr();
      var line := reader.LineNumber();
      var key := FirstToken(text);
      if IsKeyword(key) {
        if !Enabled(key, features) {
          context.ReportWarn(line, GateMessage(key));
          assert NextCommand(Src(), isTop, inSub, st0) == CommandLine(Src(), isTop, inSub, Snap());
        } else {
          var reply := Handle(key, text, line, isTop, inSub);
          match reply {
            case ReturnNode(node) =>
              return node, true;
            case Continue =>
              return None, false;
            case Fallthrough =>
              assert NextCommand(Src(), isTop, inSub, st0) == CommandLine(Src(), isTop, inSub, Snap());
          }
        }
      } else {
        assert NextCommand(Src(), isTop, inSub, st0) == CommandLine(Src(), isTop, inSub, Snap());
      }
      n, found := ParseCommandLine(text, line, isTop, inSub);
    }

    /** The command path of parseNextCommand: parse the line as a command,
        consume it, and on failure report both errors and go back to
        scanning. */
    method ParseCommandLine(text: string, line: nat, isTop: bool, inSub: bool) returns (n: Option<Node>, found: bool)
      requires Valid() && reader.Present() && text == reader.Curr() && line == reader.LineNumber()
      modifies reader, context
      ensures Valid() && reader.index == old(reader.index) + 1
      ensures found ==> (n, Snap()) == CommandLine(Src(), isTop, inSub, old(Snap()))
      ensures !found ==> NextCommand(Src(), isTop, inSub, Snap()) == CommandLine(Src(), isTop, inSub, old(Snap()))
    {
      CommandLineUnfold(Src(), isTop, inSub, Snap());
      var res := grammar.commands(text);
      if res.Err? {
        context.ReportErr(line, ParseCommand(res.error));
      }
      reader.Next();
      if res.Err? {
        context.ReportErr(line, BadCommand(text));
        n, found := None, false;
      } else {
        n, found := Some(Command(res.value)), true;
      }
    }

    /** The FEATURE_HANDLER entry for `key`, applied to the current line. */
    method Handle(key: string, text: string, line: nat, isTop: bool, inSub: bool) returns (reply: Reply)
      requires Valid() && reader.Present() && text == reader.Curr() && line == reader.LineNumber()
      modifies this, reader, context
      ensures Valid()
      ensures (reply, Snap()) == ParseSpec.Handle(Src(), key, isTop, inSub, old(Snap()))
      decreases |reader.entries| - reader.index, 1
    {
      if key == KeyPragma {
        PragmaHandler(text, line);
        reply := Continue;
      } else if key == KeyReturn {
        reply := ReturnHandler(text);
      } else if key == KeyRun || key == KeyLoop {
        var node := ControlFlowV1Handler(key, text, line, inSub);
        reply := ReturnNode(Some(node));
      } else if key == KeyClose {
        context.ReportErr(line, ExtraClosing);
        reader.Next();
        reply := Continue;
      } else if key == KeySubroutine {
        var node := SubroutineHandler(text, line, isTop);
        reply := ReturnNode(node);
      } else if key == KeySubroutineReturn {
        SubroutineReturnHandler(text, line, inSub);
        reply := ReturnNode(Some(SubroutineReturn));
      } else {
        var node := SubroutineCallHandler(text, line);
        reply := ReturnNode(node);
      }
    }

    /** The `pragma` handler: run the pragma, report its failure, eat the line. */
    method PragmaHandler(text: string, line: nat)
      requires Valid() && reader.Present()
      modifies this, reader, context
      ensures Valid()
      ensures Snap() == Next(Pragma(grammar, text, line, old(Snap())))
    {
      match grammar.pragmas(text) {
        case Err(msg) =>
          context.ReportErr(line, PragmaFailed(PragmaSyntax(msg)));
        case Ok(op) =>
          var (f, unknown) := SetFlag(features, op.flag, op.enable);
          if unknown {
            context.ReportErr(line, PragmaFailed(UnknownFlag(op.flag)));
          } else {
            features := f;
          }
      }
      reader.Next();
    }

    /** The `return` handler. */
    method ReturnHandler(text: string) returns (reply: Reply)
      requires Valid() && reader.Present()
      modifies reader
      ensures Valid()
      ensures (reply, Snap()) == ReturnLine(text, old(Snap()))
    {
      if text != KeyReturn {
        return Fallthrough;
      }
      reader.Next();
      reply := ReturnNode(Some(Return));
    }

    /** The `run` and `loop` handlers (ExtensionsControlFlowV1Parser.parse). */
    method ControlFlowV1Handler(key: string, text: string, line: nat, inSub: bool) returns (node: Node)
      requires Valid() && reader.Present() && text == reader.Curr() && line == reader.LineNumber()
      modifies this, reader, context
      ensures Valid()
      ensures (node, Snap()) == ControlFlowV1(Src(), key, inSub, old(Snap()))
      decreases |reader.entries| - reader.index, 0
    {
      var res := grammar.selectors(text);
      if res.Err? {
        context.ReportErr(line, ControlFlowParse(key, res.error));
      }
      reader.Next();
      var body := ParseBlock(KeyClose, line, UnclosedStatement, inSub);
      var selector := if res.Ok? then Some(res.value) else None;
      node := if key == KeyRun then Run(Block(body), selector) else Loop(Block(body), selector);
    }

    /** The `subroutine` handler. */
    method SubroutineHandler(text: string, line: nat, isTop: bool) returns (node: Option<Node>)
      requires Valid() && reader.Present() && text == reader.Curr() && line == reader.LineNumber()
      modifies this, reader, context
      ensures Valid()
      ensures (node, Snap()) == SubroutineLine(Src(), isTop, old(Snap()))
      decreases |reader.entries| - reader.index, 0
    {
      reader.Next();
      if !isTop {
        context.ReportErr(line, SubroutineNotTopLevel);
      }
      var parts := Split(text);
      if BadArity(parts) {
        context.ReportErr(line, BadSubroutineDefinition);
        if NoName(parts) {
          return None;
        }
      }
      var body := ParseBlock(KeyEnd, line, UnclosedSubroutine, true);
      node := Some(Definition(Subroutine(Block(body), parts[1], line)));
    }

    /** The `subroutine_return` handler. */
    method SubroutineReturnHandler(text: string, line: nat, inSub: bool)
      requires Valid() && reader.Present()
      modifies reader, context
      ensures Valid()
      ensures Snap() == SubroutineReturnLine(text, line, inSub, old(Snap()))
    {
      reader.Next();
      if text != KeySubroutineReturn {
        context.ReportErr(line, SubroutineReturnArguments);
      }
      if !inSub {
        context.ReportErr(line, SubroutineReturnOutside);
      }
    }

    /** The `subroutine_call` handler. */
    method SubroutineCallHandler(text: string, line: nat) returns (node: Option<Node>)
      requires Valid() && reader.Present()
      modifies reader, context
      ensures Valid()
      ensures node == SubroutineCallLine(text, line)
      ensures Snap() == SubroutineCallReport(text, line, old(Snap()))
    {
      reader.Next();
      var parts := Split(text);
      if BadArity(parts) {
        context.ReportErr(line, BadSubroutineCall);
        if NoName(parts) {
          return None;
        }
      }
      node := Some(SubroutineCall(parts[1], line));
    }

    /** parseTopLevel: every statement of the file, with the subroutine
        definitions set apart from the top-level block. */
    method ParseTopLevel() returns (block: seq<Node>, subroutines: seq<Subroutine>)
      requires Valid()
      modifies this, reader, context
      ensures Valid()
      ensures (block, subroutines, Snap()) == ParseSpec.ParseTopLevel(Src(), old(Snap()))
    {
      ghost var goal := ParseSpec.ParseTopLevel(Src(), Snap());
      block, subroutines := [], [];
      while reader.Present()
        invariant Valid()
        invariant block + ParseSpec.ParseTopLevel(Src(), Snap()).0 == goal.0
        invariant subroutines + ParseSpec.ParseTopLevel(Src(), Snap()).1 == goal.1
        invariant ParseSpec.ParseTopLevel(Src(), Snap()).2 == goal.2
        decreases |reader.entries| - reader.index
      {
        var nodes, subs := TopLevelRound();
        ghost var rest := ParseSpec.ParseTopLevel(Src(), Snap());
        AppendAssoc(block, nodes, rest.0);
        AppendAssoc(subroutines, subs, rest.1);
        block, subroutines := block + nodes, subroutines + subs;
      }
      assert block + [] == block && subroutines + [] == subroutines;
    }

    /** One round of parseTopLevel: the next statement, filed as a
        subroutine definition or a block child, or nothing. */
    method TopLevelRound() returns (nodes: seq<Node>, subs: seq<Subroutine>)
      requires Valid() && reader.Present()
      modifies this, reader, context
      ensures Valid() && old(reader.index) < reader.index
      ensures var r0 := ParseSpec.ParseTopLevel(Src(), old(Snap()));
        var r1 := ParseSpec.ParseTopLevel(Src(), Snap());
        r0 == (nodes + r1.0, subs + r1.1, r1.2)
    {
      ghost var st0 := Snap();
      var ast := ParseNextCommand(true, false);
      ghost var r1 := ParseSpec.ParseTopLevel(Src(), Snap());
      assert ParseSpec.ParseTopLevel(Src(), st0) == match ast
        case None => r1
        case Some(Definition(s)) => (r1.0, [s] + r1.1, r1.2)
        case Some(x) => ([x] + r1.0, r1.1, r1.2);
      match ast {
        case None =>
          nodes, subs := [], [];
          assert [] + r1.0 == r1.0 && [] + r1.1 == r1.1;
        case Some(Definition(s)) =>
          nodes, subs := [], [s];
          assert [] + r1.0 == r1.0;
        case Some(x) =>
          nodes, subs := [x], [];
          assert [] + r1.1 == r1.1;
      }
    }
  }
}
