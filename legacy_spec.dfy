/** What the legacy, hard-coded parser (parse/Parser.java) computes, as
    functions of the same assembled entries, cursor, feature set and
    diagnostics as the statement parser. Two places in it throw: any
    non-pragma line while control flow v2 is enabled, and `reader.curr()`
    called past the last entry by the `run`/`loop` body loop. Both are the
    `Crash` outcome. */
module LegacySpec {
  import opened Wrappers
  import opened Instructions
  import opened Text
  import opened Diagnostics
  import opened Features
  import opened Ast
  import opened ParseSpec

  /** A value and the state after it, or a thrown exception. */
  datatype Parsed<T> = Parsed(value: T, st: PState) | Crash

  /** `xs` put in front of a parsed list; a crash stays a crash. */
  function Prefixed<T>(xs: seq<T>, r: Parsed<seq<T>>): Parsed<seq<T>>
  {
    match r
    case Crash => Crash
    case Parsed(ys, st) => Parsed(xs + ys, st)
  }

  lemma PrefixedNil<T>(r: Parsed<seq<T>>)
    ensures Prefixed([], r) == r
  {
    if r.Parsed? {
      assert [] + r.value == r.value;
    }
  }

  lemma PrefixedAppend<T>(xs: seq<T>, ys: seq<T>, r: Parsed<seq<T>>)
    ensures Prefixed(xs, Prefixed(ys, r)) == Prefixed(xs + ys, r)
  {
    if r.Parsed? {
      assert xs + (ys + r.value) == (xs + ys) + r.value;
    }
  }

  /** parseNextCommand: scan forward to the next node. The scan is keyed on
      the unquoted word the line starts with. Only the end of the input
      gives null. */
  function NextNode(src: Input, st: PState): (r: Parsed<Option<Node>>)
    requires Valid(src) && Within(src, st)
    ensures r.Parsed? ==> Follows(src, st, r.st)
    ensures r.Parsed? && st.index < |src.entries| ==> st.index < r.st.index
    ensures r.Parsed? && r.value.None? ==> r.st.index == |src.entries|
    decreases |src.entries| - st.index, 1
  {
    if st.index == |src.entries| then Parsed(None, st)
    else
      var text := src.entries[st.index];
      var line := src.lineNumbers[st.index];
      var first := ReadUnquoted(text);
      if first == KeyPragma then NextNode(src, Next(Pragma(src.grammar, text, line, st)))
      else if st.features.v2ControlFlow then Crash
      else if first == KeyRun || first == KeyLoop then
        match RunOrLoop(src, first, st)
        case Crash => Crash
        case Parsed(n, st1) => Parsed(Some(n), st1)
      else
        match src.grammar.commands(text)
        case Ok(a) => Parsed(Some(Command(a)), Next(st))
        case Err(msg) =>
          var st1 := Next(ReportErr(st, line, ParseCommand(msg)));
          NextNode(src, ReportErr(st1, line, if text == KeyClose then ExtraClosing else BadCommand(text)))
  }

  /** parseControlFlowV1(text, lineNo, kind): the header is parsed by the
      selector grammar (a failure is reported and leaves a null selector),
      consumed once, and followed by the body. */
  function RunOrLoop(src: Input, kind: string, st: PState): (r: Parsed<Node>)
    requires Valid(src) && st.index < |src.entries|
    ensures r.Parsed? ==> Follows(src, st, r.st) && st.index < r.st.index
    decreases |src.entries| - st.index, 0
  {
    var text := src.entries[st.index];
    var line := src.lineNumbers[st.index];
    var sel := src.grammar.selectors(text);
    var st1 := if sel.Err? then ReportErr(st, line, ControlFlowParse(kind, sel.error)) else st;
    var selector := if sel.Ok? then Some(sel.value) else None;
    match Body(src, kind, line, Next(st1))
    case Crash => Crash
    case Parsed(body, st2) =>
      Parsed(if kind == KeyRun then Run(Block(body), selector) else Loop(Block(body), selector), st2)
  }

  /** The body loop of parseControlFlowV1: a `}` line ends it and is
      consumed; a null statement (the input ran out while scanning) ends it
      with ERR_UNCLOSED at the header line; the current line is read
      without checking that one is present. */
  function Body(src: Input, kind: string, line: nat, st: PState): (r: Parsed<seq<Node>>)
    requires Valid(src) && Within(src, st) && line in src.lineNumbers
    ensures r.Parsed? ==> Follows(src, st, r.st) && st.index < r.st.index
    decreases |src.entries| - st.index, 2
  {
    if st.index == |src.entries| then Crash
    else if src.entries[st.index] == KeyClose then Parsed([], Next(st))
    else
      match NextNode(src, st)
      case Crash => Crash
      case Parsed(None, st1) => Parsed([], ReportErr(st1, line, LegacyUnclosed(kind)))
      case Parsed(Some(n), st1) => Prefixed([n], Body(src, kind, line, st1))
  }

  /** parseTopLevel: one child per call of parseNextCommand until the
      input is consumed, a null one included. */
  function Children(src: Input, st: PState): (r: Parsed<seq<Option<Node>>>)
    requires Valid(src) && Within(src, st)
    ensures r.Parsed? ==> Follows(src, st, r.st) && r.st.index == |src.entries|
    decreases |src.entries| - st.index
  {
    if st.index == |src.entries| then Parsed([], st)
    else
      match NextNode(src, st)
      case Crash => Crash
      case Parsed(n, st1) => Prefixed([n], Children(src, st1))
  }
}
