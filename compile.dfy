/** Parser.compileFunction: assemble the lines, parse them, print the
    diagnostics and give up on any error, otherwise emit the tree into a
    fresh code generator and link it. */
module Compile {
  import opened Wrappers
  import opened Instructions
  import opened CodeGen
  import opened Diagnostics
  import opened Features
  import opened Ast
  import opened LineReader
  import opened ParseSpec
  import opened Emission
  import opened Emitter
  import opened FunctionParser
  import ParseProps
  import EmissionProps
  import TopLevelProps

  /** The result of compileFunction: `null` after a parse error, a thrown
      exception during emission or linking, or the linked instructions. */
  datatype Compilation = Rejected(diags: seq<Diagnostic>) | Fault | Compiled(code: seq<Instr>)

  /** The number of lines of context printed around each diagnostic. */
  const ReportContext: nat := 2

  /** The reader's entries, as the parser sees them. */
  function Source(lines: seq<string>, grammar: Grammar): (src: Input)
    ensures ParseSpec.Valid(src)
  {
    var a := Assemble(Trimmed(lines));
    AssemblyShape(Trimmed(lines));
    Input(a.entries, a.lineNumbers, grammar)
  }

  /** The parse context's state when parsing starts: fromLines' reports. */
  function Start(lines: seq<string>): PState
  {
    PState(0, NoFeatures, Assemble(Trimmed(lines)).diags)
  }

  /** parseTopLevel over the assembled lines. */
  function ParseFile(lines: seq<string>, grammar: Grammar): (seq<Node>, seq<Subroutine>, PState)
  {
    ParseSpec.ParseTopLevel(Source(lines, grammar), Start(lines))
  }

  /** The codegen state emission starts from: a fresh generator, an empty
      subroutine table, and the parse diagnostics. */
  function EmitStart(diags: seq<Diagnostic>): EmitState
  {
    EmitState(Empty, map[], diags)
  }

  /** The second half of compileFunction: emit the TopLevel node into a
      fresh generator and context, then define (link) the function. */
  function EmitAndLink(block: seq<Node>, subs: seq<Subroutine>, diags: seq<Diagnostic>): Compilation
  {
    match EmitTopLevel(Block(block), subs, EmitStart(diags), None)
    case Crash => Fault
    case Done(e) =>
      match LinkItems(e.gen.items, Offsets(e.gen.labels))
      case None => Fault
      case Some(code) => Compiled(code)
  }

  /** compileFunction, when fromLines does not fail. */
  function CompileLines(lines: seq<string>, grammar: Grammar): Compilation
  {
    var (block, subs, st) := ParseFile(lines, grammar);
    if HasError(st.diags) then Rejected(st.diags) else EmitAndLink(block, subs, st.diags)
  }

  /** Every diagnostic of a parse can be printed with its context: the
      reader's reports lie at most one line past the end, the parser's on
      entry lines, and there are none at all for an empty file. This holds
      for any parser state that can follow the start. */
  lemma RenderableAfterParse(lines: seq<string>, grammar: Grammar, st: PState)
    requires Follows(Source(lines, grammar), Start(lines), st)
    ensures AllRenderable(st.diags, ReportContext, lines)
  {
    var t := Trimmed(lines);
    var a := Assemble(t);
    AssemblyShape(t);
    DiagLines(t, Starts(t, 0));
    forall d | d in st.diags
      ensures Renderable(d, ReportContext, lines)
    {
      assert d in a.diags || d.line in a.lineNumbers;
      if d in a.diags {
        assert Starts(t, 0) != [];
      } else {
        var k :| 0 <= k < |a.lineNumbers| && a.lineNumbers[k] == d.line;
        assert d.line < |t|;
      }
    }
  }

  /** Parsing is the only gate: the function is refused exactly when the
      parse (including the reader's reports) produced an error, and every
      error reported during emission is dropped. */
  lemma RejectedIffParseError(lines: seq<string>, grammar: Grammar)
    ensures CompileLines(lines, grammar).Rejected? <==> HasError(ParseFile(lines, grammar).2.diags)
    ensures CompileLines(lines, grammar).Rejected? ==> CompileLines(lines, grammar).diags == ParseFile(lines, grammar).2.diags
  {
  }

  /** Linking never fails after a clean parse: a compile that is neither
      rejected nor compiled has faulted during emission. */
  lemma FaultOnlyInEmission(lines: seq<string>, grammar: Grammar)
    ensures var (block, subs, st) := ParseFile(lines, grammar);
      CompileLines(lines, grammar).Fault? <==>
        !HasError(st.diags) && EmitTopLevel(Block(block), subs, EmitStart(st.diags), None).Crash?
  {
    var (block, subs, st) := ParseFile(lines, grammar);
    ParseProps.TopLevelStatements(Source(lines, grammar), Start(lines));
    assert Statement(Block(block));
    TopLevelProps.TopLevelLinks(Block(block), subs, EmitStart(st.diags), None);
  }

  /** A function that parses cleanly but defines a subroutine name twice
      does not compile: the redefinition is reported during emission,
      where no one reads it, and the second definition's label bind
      faults. */
  lemma DuplicateSubroutineFaults(lines: seq<string>, grammar: Grammar)
    requires var (_, subs, st) := ParseFile(lines, grammar);
      !HasError(st.diags) && !TopLevelProps.DistinctNames(subs)
    ensures CompileLines(lines, grammar) == Fault
  {
    var (block, subs, st) := ParseFile(lines, grammar);
    ParseProps.TopLevelStatements(Source(lines, grammar), Start(lines));
    EmitDuplicateFaults(block, subs, st.diags);
  }

  lemma EmitDuplicateFaults(block: seq<Node>, subs: seq<Subroutine>, diags: seq<Diagnostic>)
    requires forall x :: x in block ==> Statement(x)
    requires forall s :: s in subs ==> Statement(s.body)
    requires !TopLevelProps.DistinctNames(subs)
    ensures EmitAndLink(block, subs, diags) == Fault
  {
    assert Statement(Block(block));
    assert EmissionProps.Wf(EmitStart(diags));
    TopLevelProps.TopLevelDuplicateFaults(Block(block), subs, EmitStart(diags), None);
  }

  /** compileFunction(dispatcher, dummySource, lines, id): the function, or
      `Rejected` (Java's null) after printing the diagnostics; `report` is
      the text dumpErrors logs. The debug code generator produces the same
      instructions and only adds a log entry, so both branches are one. */
  method CompileFunction(lines: seq<string>, grammar: Grammar, id: string) returns (result: Compilation, report: string)
    requires NoBareSlash(Trimmed(lines))
    ensures result == CompileLines(lines, grammar)
    ensures report == Report(ParseFile(lines, grammar).2.diags, ReportContext, id, lines)
  {
    var parseCtx, block, subroutines := ParseFunction(lines, grammar);
    RenderableAfterParse(lines, grammar, ParseFile(lines, grammar).2);
    var hasError;
    hasError, report := parseCtx.DumpErrors(ReportContext, id, lines);
    if hasError {
      return Rejected(parseCtx.diagnostics), report;
    }
    result := EmitFunction(block, subroutines, parseCtx);
  }

  /** The parse half: a fresh parse context, the reader over the lines and
      a parser over both. */
  method ParseFunction(lines: seq<string>, grammar: Grammar) returns (parseCtx: ParseContext, block: seq<Node>, subroutines: seq<Subroutine>)
    requires NoBareSlash(Trimmed(lines))
    ensures fresh(parseCtx)
    ensures block == ParseFile(lines, grammar).0 && subroutines == ParseFile(lines, grammar).1
    ensures parseCtx.diagnostics == ParseFile(lines, grammar).2.diags
  {
    parseCtx := new ParseContext();
    var reader := CommandLineReader.FromLines(parseCtx, lines);
    var parser := new Parser(parseCtx, reader, grammar);
    assert parser.Src() == Source(lines, grammar) && parser.Snap() == Start(lines);
    block, subroutines := parser.ParseTopLevel();
  }

  /** The emission half: a fresh codegen context and generator, the
      TopLevel node emitted into them, then define. */
  method EmitFunction(block: seq<Node>, subroutines: seq<Subroutine>, parseCtx: ParseContext) returns (result: Compilation)
    modifies parseCtx
    ensures result == EmitAndLink(block, subroutines, old(parseCtx.diagnostics))
  {
    var context := new CodegenContext();
    var codegen := new CodeGenerator();
    assert Snapshot(parseCtx, context, codegen) == EmitStart(parseCtx.diagnostics);
    var ok := EmitNode(TopLevel(Block(block), subroutines), parseCtx, context, codegen);
    if !ok {
      return Fault;
    }
    var code := codegen.Define();
    result := if code.Some? then Compiled(code.value) else Fault;
  }
}
