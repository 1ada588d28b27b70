/** The legacy, hard-coded parser (parse/Parser.java): the same reader and
    parse context as the statement parser, with `pragma`, `run` and `loop`
    recognised by a fixed switch instead of a handler table. Every method
    is proved to do what the matching `LegacySpec` function says. */
module Legacy {
  import opened Wrappers
  import opened Instructions
  import opened Text
  import opened Diagnostics
  import opened Features
  import opened Ast
  import opened LineReader
  import opened ParseSpec
  import opened LegacySpec
  import Compile

  /** The result of parseLine, up to the choice of code generator: `null`
      after a parse error, a thrown exception, or the parsed children of the
      top-level block (a null child included) and whether the debug dump
      was enabled, which selects the debug code generator. */
  datatype Outcome = Rejected(diags: seq<Diagnostic>) | Fault | Accepted(children: seq<Option<Node>>, debugDump: bool)

  /** parseLine over the lines, as far as this parser goes. */
  function ParseLines(lines: seq<string>, grammar: Grammar): Outcome
  {
    match Children(Compile.Source(lines, grammar), Compile.Start(lines))
    case Crash => Fault
    case Parsed(children, st) =>
      if HasError(st.diags) then Rejected(st.diags) else Accepted(children, st.features.debugDump)
  }

  class Parser {
    const context: ParseContext
    const reader: CommandLineReader
    const grammar: Grammar
    var features: Features

    /** The entries and grammars, which never change during a parse. */
    function Src(): Input
    {
      Input(reader.entries, reader.lineNumbers, grammar)
    }

    /** The parse state the fields hold. */
    function Snap(): PState
      reads this, reader, context
    {
      PState(reader.index, features, context.diagnostics)
    }

    predicate Valid()
      reads this, reader
    {
      reader.Valid() && reader.index <= |reader.entries|
    }

    /** The constructor assembles the lines itself, reporting into the
        given context. */
    constructor (context: ParseContext, lines: seq<string>, grammar: Grammar)
      requires NoBareSlash(Trimmed(lines))
      modifies context
      ensures this.context == context && fresh(reader) && Valid()
      ensures Src() == Compile.Source(lines, grammar)
      ensures Snap() == PState(0, NoFeatures, old(context.diagnostics) + Assemble(Trimmed(lines)).diags)
    {
      this.context := context;
      this.grammar := grammar;
      var r := CommandLineReader.FromLines(context, lines);
      this.reader := r;
      features := NoFeatures;
    }

    /** parsePragma: run the pragma grammar; a failure is reported as
        ERR_PRAGMA at the line. */
    method ParsePragma(text: string, line: nat)
      modifies this, context
      ensures Snap() == Pragma(grammar, text, line, old(Snap()))
    {
      match grammar.pragmas(text) {
        case Err(msg) =>
          context.ReportErr(line, PragmaFailed(PragmaSyntax(msg)));
        case Ok(op) =>
          var (f, unknown) := SetFlag(features, op.flag, op.enable);
          if unknown {
            context.ReportErr(line, PragmaFailed(UnknownFlag(op.flag)));
          } else {
            features := f;
          }
      }
    }

    /** parseControlFlowV1. `ok` is false where Java throws: the body loop
        reads the current line when none is left. */
    method ParseControlFlowV1(text: string, line: nat, kind: string) returns (node: Node, ok: bool)
      requires Valid() && reader.Present() && text == reader.Curr() && line == reader.LineNumber()
      modifies this, reader, context
      ensures Valid()
      ensures ok ==> RunOrLoop(Src(), kind, old(Snap())) == Parsed(node, Snap())
      ensures !ok ==> RunOrLoop(Src(), kind, old(Snap())) == Crash
      decreases |reader.entries| - reader.index, 0
    {
      var res := grammar.selectors(text);
      if res.Err? {
        context.ReportErr(line, ControlFlowParse(kind, res.error));
      }
      reader.Next();
      var selector := if res.Ok? then Some(res.value) else None;
      ghost var goal := Body(Src(), kind, line, Snap());
      PrefixedNil(goal);
      var body := [];
      while true
        invariant Valid() && old(reader.index) < reader.index
        invariant Prefixed(body, Body(Src(), kind, line, Snap())) == goal
        decreases |reader.entries| - reader.index
      {
        var nodes, more, scanned := BodyRound(kind, line);
        if !scanned {
          return Block(body), false;
        }
        PrefixedAppend(body, nodes, Body(Src(), kind, line, Snap()));
        body := body + nodes;
        if !more {
          break;
        }
      }
      node := if kind == KeyRun then Run(Block(body), selector) else Loop(Block(body), selector);
      ok := true;
    }

    /** One round of the body loop: a missing line (Java throws), the
        closing `}`, a null statement (unclosed), or one more statement. */
    method BodyRound(kind: string, line: nat) returns (nodes: seq<Node>, more: bool, ok: bool)
      requires Valid() && line in reader.lineNumbers
      modifies this, reader, context
      ensures Valid()
      ensures ok && more ==> old(reader.index) < reader.index
      ensures ok && more ==> Body(Src(), kind, line, old(Snap())) == Prefixed(nodes, Body(Src(), kind, line, Snap()))
      ensures ok && !more ==> Body(Src(), kind, line, old(Snap())) == Parsed(nodes, Snap())
      ensures !ok ==> Body(Src(), kind, line, old(Snap())) == Crash
      decreases |reader.entries| - reader.index, 3
    {
      if !reader.Present() {
        return [], false, false;
      }
      if reader.Curr() == KeyClose {
        reader.Next();
        return [], false, true;
      }
      var ast, scanned := ParseNextCommand();
      if !scanned {
        return [], false, false;
      }
      if ast.None? {
        context.ReportErr(line, LegacyUnclosed(kind));
        return [], false, true;
      }
      nodes, more, ok := [ast.value], true, true;
    }

    /** parseNextCommand. `ok` is false where Java throws: a non-pragma
        line while control flow v2 is enabled. */
    method ParseNextCommand() returns (n: Option<Node>, ok: bool)
      requires Valid()
      modifies this, reader, context
      ensures Valid()
      ensures ok ==> NextNode(Src(), old(Snap())) == Parsed(n, Snap())
      ensures !ok ==> NextNode(Src(), old(Snap())) == Crash
      decreases |reader.entries| - reader.index, 2
    {
      ghost var goal := NextNode(Src(), Snap());
      while reader.Present()
        invariant Valid() && old(reader.index) <= reader.index
        invariant NextNode(Src(), Snap()) == goal
        decreases |reader.entries| - reader.index
      {
        var found;
        n, found, ok := ScanRound();
        if found || !ok {
          return;
        }
      }
      n, ok := None, true;
    }

    /** One round of parseNextCommand on a present line. */
    method ScanRound() returns (n: Option<Node>, found: bool, ok: bool)
      requires Valid() && reader.Present()
      modifies this, reader, context
      ensures Valid()
      ensures ok && found ==> NextNode(Src(), old(Snap())) == Parsed(n, Snap())
      ensures ok && !found ==> old(reader.index) < reader.index && NextNode(Src(), Snap()) == NextNode(Src(), old(Snap()))
      ensures !ok ==> NextNode(Src(), old(Snap())) == Crash
      decreases |reader.entries| - reader.index, 1
    {
      var text := reader.Curr();
      var line := reader.LineNumber();
      var first := ReadUnquoted(text);
      if first == KeyPragma {
        ParsePragma(text, line);
        reader.Next();
        return None, false, true;
      }
      if features.v2ControlFlow {
        return None, false, false;
      }
      if first == KeyRun || first == KeyLoop {
        var node;
        node, ok := ParseControlFlowV1(text, line, first);
        return Some(node), true, ok;
      }
      n, found := ParseCommandLine(text, line);
      ok := true;
    }

    /** The command path of parseNextCommand: one line is consumed; a
        rejected line reports the grammar's message, then ERR_CF_V1_EXTRA_CLOSE
        for a lone `}` and ERR_BAD_CMD otherwise. */
    method ParseCommandLine(text: string, line: nat) returns (n: Option<Node>, found: bool)
      requires Valid() && reader.Present() && text == reader.Curr() && line == reader.LineNumber()
      requires ReadUnquoted(text) != KeyPragma && ReadUnquoted(text) != KeyRun && ReadUnquoted(text) != KeyLoop
      requires !features.v2ControlFlow
      modifies reader, context
      ensures Valid() && reader.index == old(reader.index) + 1
      ensures found ==> NextNode(Src(), old(Snap())) == Parsed(n, Snap())
      ensures !found ==> NextNode(Src(), Snap()) == NextNode(Src(), old(Snap()))
    {
      var res := grammar.commands(text);
      if res.Err? {
        context.ReportErr(line, ParseCommand(res.error));
      }
      reader.Next();
      if res.Err? {
        if text == KeyClose {
          context.ReportErr(line, ExtraClosing);
        } else {
          context.ReportErr(line, BadCommand(text));
        }
        n, found := None, false;
      } else {
        n, found := Some(Command(res.value)), true;
      }
    }

    /** parseTopLevel: the result of every parseNextCommand call, null or
        not, until the input is consumed. */
    method ParseTopLevel() returns (children: seq<Option<Node>>, ok: bool)
      requires Valid()
      modifies this, reader, context
      ensures Valid()
      ensures ok ==> Children(Src(), old(Snap())) == Parsed(children, Snap())
      ensures !ok ==> Children(Src(), old(Snap())) == Crash
    {
      ghost var goal := Children(Src(), Snap());
      PrefixedNil(goal);
      children := [];
      while reader.Present()
        invariant Valid()
        invariant Prefixed(children, Children(Src(), Snap())) == goal
        decreases |reader.entries| - reader.index
      {
        var n, scanned := ParseNextCommand();
        if !scanned {
          return children, false;
        }
        PrefixedAppend(children, [n], Children(Src(), Snap()));
        children := children + [n];
      }
      assert children + [] == children;
      ok := true;
    }
  }

  /** parseLine(dispatcher, dummySource, lines, id) up to emission: parse,
      print the diagnostics and give up on an error. `report` is the text
      dumpErrors logs; nothing is logged when parsing throws. */
  method ParseLine(lines: seq<string>, grammar: Grammar, id: string) returns (result: Outcome, report: string)
    requires NoBareSlash(Trimmed(lines))
    ensures result == ParseLines(lines, grammar)
    ensures var r := Children(Compile.Source(lines, grammar), Compile.Start(lines));
      report == if r.Crash? then "" else Report(r.st.diags, Compile.ReportContext, id, lines)
  {
    var context := new ParseContext();
    var parser := new Parser(context, lines, grammar);
    assert parser.Snap() == Compile.Start(lines);
    var children, ok := parser.ParseTopLevel();
    if !ok {
      return Fault, "";
    }
    Compile.RenderableAfterParse(lines, grammar, parser.Snap());
    var hasError;
    hasError, report := context.DumpErrors(Compile.ReportContext, id, lines);
    if hasError {
      return Rejected(context.diagnostics), report;
    }
    result := Accepted(children, parser.features.debugDump);
  }
}
