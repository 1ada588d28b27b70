/** What the legacy parser guarantees, and where it differs from the
    statement parser. */
module LegacyProps {
  import opened Wrappers
  import opened Instructions
  import opened Text
  import opened Diagnostics
  import opened Features
  import opened Ast
  import opened ParseSpec
  import opened LegacySpec

  /** The line at `i` starts with the unquoted word `pragma`. */
  predicate PragmaAt(src: Input, i: nat)
    requires i < |src.entries|
  {
    ReadUnquoted(src.entries[i]) == KeyPragma
  }

  /** Every entry from `i` on is a pragma line. */
  predicate PragmasFrom(src: Input, i: nat)
  {
    forall j :: i <= j < |src.entries| ==> ReadUnquoted(src.entries[j]) == KeyPragma
  }

  /** A pragma line is consumed and scanning goes on: it never becomes a
      node, and it never throws, whatever the feature set. */
  lemma PragmaLineSkipped(src: Input, st: PState)
    requires Valid(src) && st.index < |src.entries| && PragmaAt(src, st.index)
    ensures NextNode(src, st) == NextNode(src, Next(Pragma(src.grammar, src.entries[st.index], src.lineNumbers[st.index], st)))
  {
  }

  /** A tail made of pragma lines only is eaten by one scan, which comes
      back with null at the end of the input. */
  lemma {:induction false} PragmasScanToNull(src: Input, st: PState)
    requires Valid(src) && Within(src, st) && PragmasFrom(src, st.index)
    ensures NextNode(src, st).Parsed? && NextNode(src, st).value.None?
    decreases |src.entries| - st.index
  {
    if st.index < |src.entries| {
      var text := src.entries[st.index];
      PragmasScanToNull(src, Next(Pragma(src.grammar, text, src.lineNumbers[st.index], st)));
    }
  }

  /** A file whose remaining lines are all pragmas gives exactly one null
      top-level child, which parseTopLevel keeps. */
  lemma PragmaTailIsNullChild(src: Input, st: PState)
    requires Valid(src) && st.index < |src.entries| && PragmasFrom(src, st.index)
    ensures Children(src, st).Parsed? && Children(src, st).value == [None]
  {
    PragmasScanToNull(src, st);
    var st1 := NextNode(src, st).st;
    assert Children(src, st1) == Parsed([], st1);
  }

  /** With control flow v2 enabled, any line that is not a pragma throws
      (NotImplementedException). */
  lemma V2Throws(src: Input, st: PState)
    requires Valid(src) && st.index < |src.entries| && !PragmaAt(src, st.index)
    requires st.features.v2ControlFlow
    ensures NextNode(src, st) == Crash && Children(src, st) == Crash
  {
  }

  /** A line the command grammar rejects is consumed after its grammar
      error; then a lone `}` is reported as an extra closer and any other
      line as a bad command, and scanning goes on. */
  lemma RejectedLineReported(src: Input, st: PState)
    requires Valid(src) && st.index < |src.entries| && !st.features.v2ControlFlow
    requires var first := ReadUnquoted(src.entries[st.index]);
      first != KeyPragma && first != KeyRun && first != KeyLoop
    requires src.grammar.commands(src.entries[st.index]).Err?
    ensures var text := src.entries[st.index];
      var line := src.lineNumbers[st.index];
      var second := if text == KeyClose then ExtraClosing else BadCommand(text);
      var ds := [Diagnostic(Error, line, ParseCommand(src.grammar.commands(text).error)), Diagnostic(Error, line, second)];
      NextNode(src, st) == NextNode(src, PState(st.index + 1, st.features, st.diags + ds))
  {
    var text := src.entries[st.index];
    var line := src.lineNumbers[st.index];
    var second := if text == KeyClose then ExtraClosing else BadCommand(text);
    var a := Diagnostic(Error, line, ParseCommand(src.grammar.commands(text).error));
    var st1 := ReportErr(Next(ReportErr(st, line, a.message)), line, second);
    assert NextNode(src, st) == NextNode(src, st1);
    assert (st.diags + [a]) + [Diagnostic(Error, line, second)] == st.diags + [a, Diagnostic(Error, line, second)];
  }

  /** The header of a `run`/`loop` is consumed once: the node is a Run for
      `run` and a Loop otherwise, its selector is null exactly when the
      selector grammar rejected the header, and then the first diagnostic
      added is that failure, at the header line. */
  lemma HeaderParsedOnce(src: Input, kind: string, st: PState)
    requires Valid(src) && st.index < |src.entries|
    requires RunOrLoop(src, kind, st).Parsed?
    ensures var r := RunOrLoop(src, kind, st);
      var sel := src.grammar.selectors(src.entries[st.index]);
      && (kind == KeyRun <==> r.value.Run?)
      && (r.value.Run? || r.value.Loop?)
      && (r.value.selector.None? <==> sel.Err?)
      && (sel.Ok? ==> r.value.selector == Some(sel.value))
      && (sel.Err? ==> (|st.diags| < |r.st.diags|
                         && r.st.diags[|st.diags|] == Diagnostic(Error, src.lineNumbers[st.index], ControlFlowParse(kind, sel.error))))
  {
    var text := src.entries[st.index];
    var line := src.lineNumbers[st.index];
    var sel := src.grammar.selectors(text);
    var st1 := if sel.Err? then ReportErr(st, line, ControlFlowParse(kind, sel.error)) else st;
    var b := Body(src, kind, line, Next(st1));
    assert b.Parsed?;
    assert Next(st1).diags <= b.st.diags;
  }

  /** The body loop ends in one of two ways: it consumed a `}`, or the
      input ran out during a scan and ERR_UNCLOSED was reported last, at
      the header line. */
  lemma {:induction false} BodyEnds(src: Input, kind: string, line: nat, st: PState)
    requires Valid(src) && Within(src, st) && line in src.lineNumbers
    requires Body(src, kind, line, st).Parsed?
    ensures var r := Body(src, kind, line, st).st;
      || src.entries[r.index - 1] == KeyClose
      || (r.index == |src.entries| && |r.diags| > 0 && r.diags[|r.diags| - 1] == Diagnostic(Error, line, LegacyUnclosed(kind)))
    decreases |src.entries| - st.index
  {
    if src.entries[st.index] != KeyClose {
      var n := NextNode(src, st);
      if n.value.Some? {
        BodyEnds(src, kind, line, n.st);
      }
    }
  }

  /** The line at `i` is a command the grammar accepts and none of the
      words the legacy scan looks at. */
  predicate PlainCommandAt(src: Input, i: nat)
    requires i < |src.entries|
  {
    var first := ReadUnquoted(src.entries[i]);
    && first != KeyPragma && first != KeyRun && first != KeyLoop
    && src.entries[i] != KeyClose
    && src.grammar.commands(src.entries[i]).Ok?
  }

  /** The body loop never checks that a line is left: a body that runs to
      the end of the input through accepted commands, without a `}`,
      throws instead of reporting ERR_UNCLOSED. */
  lemma {:induction false} UnclosedCommandsThrow(src: Input, kind: string, line: nat, st: PState)
    requires Valid(src) && Within(src, st) && line in src.lineNumbers && !st.features.v2ControlFlow
    requires forall j :: st.index <= j < |src.entries| ==> PlainCommandAt(src, j)
    ensures Body(src, kind, line, st) == Crash
    decreases |src.entries| - st.index
  {
    if st.index < |src.entries| {
      assert PlainCommandAt(src, st.index);
      UnclosedCommandsThrow(src, kind, line, Next(st));
    }
  }

  /** parseTopLevel keeps null children, but only as the last one: a scan
      returns null only when it reached the end of the input. */
  lemma {:induction false} NullOnlyLast(src: Input, st: PState)
    requires Valid(src) && Within(src, st) && Children(src, st).Parsed?
    ensures var cs := Children(src, st).value;
      forall k :: 0 <= k < |cs| - 1 ==> cs[k].Some?
    decreases |src.entries| - st.index
  {
    if st.index < |src.entries| {
      var n := NextNode(src, st);
      NullOnlyLast(src, n.st);
      if n.value.None? {
        assert Children(src, n.st) == Parsed([], n.st);
      }
    }
  }

  /** The node shapes the legacy parser builds: commands, and `run`/`loop`
      blocks of such nodes. */
  predicate LegacyShape(n: Node)
  {
    match n
    case Command(_) => true
    case Run(Block(cs), _) => forall k :: 0 <= k < |cs| ==> LegacyShape(cs[k])
    case Loop(Block(cs), _) => forall k :: 0 <= k < |cs| ==> LegacyShape(cs[k])
    case _ => false
  }

  /** The legacy parser builds no return, subroutine or nested top-level
      nodes: every node it returns is a command or a `run`/`loop` block. */
  lemma {:induction false} NextNodeShape(src: Input, st: PState)
    requires Valid(src) && Within(src, st)
    ensures var r := NextNode(src, st);
      r.Parsed? && r.value.Some? ==> LegacyShape(r.value.value)
    decreases |src.entries| - st.index, 1
  {
    if st.index < |src.entries| {
      var text := src.entries[st.index];
      var line := src.lineNumbers[st.index];
      var first := ReadUnquoted(text);
      if first == KeyPragma {
        NextNodeShape(src, Next(Pragma(src.grammar, text, line, st)));
      } else if st.features.v2ControlFlow {
      } else if first == KeyRun || first == KeyLoop {
        RunOrLoopShape(src, first, st);
      } else if src.grammar.commands(text).Err? {
        var st1 := Next(ReportErr(st, line, ParseCommand(src.grammar.commands(text).error)));
        NextNodeShape(src, ReportErr(st1, line, if text == KeyClose then ExtraClosing else BadCommand(text)));
      }
    }
  }

  lemma {:induction false} RunOrLoopShape(src: Input, kind: string, st: PState)
    requires Valid(src) && st.index < |src.entries|
    ensures var r := RunOrLoop(src, kind, st);
      r.Parsed? ==> LegacyShape(r.value)
    decreases |src.entries| - st.index, 0
  {
    var text := src.entries[st.index];
    var line := src.lineNumbers[st.index];
    var sel := src.grammar.selectors(text);
    var st1 := if sel.Err? then ReportErr(st, line, ControlFlowParse(kind, sel.error)) else st;
    var selector := if sel.Ok? then Some(sel.value) else None;
    BodyShape(src, kind, line, Next(st1));
    var b := Body(src, kind, line, Next(st1));
    if b.Parsed? {
      var node := if kind == KeyRun then Run(Block(b.value), selector) else Loop(Block(b.value), selector);
      assert RunOrLoop(src, kind, st) == Parsed(node, b.st);
      assert LegacyShape(node);
    }
  }

  lemma {:induction false} BodyShape(src: Input, kind: string, line: nat, st: PState)
    requires Valid(src) && Within(src, st) && line in src.lineNumbers
    ensures var r := Body(src, kind, line, st);
      r.Parsed? ==> forall k :: 0 <= k < |r.value| ==> LegacyShape(r.value[k])
    decreases |src.entries| - st.index, 2
  {
    if st.index < |src.entries| && src.entries[st.index] != KeyClose {
      NextNodeShape(src, st);
      var n := NextNode(src, st);
      if n.Parsed? && n.value.Some? {
        BodyShape(src, kind, line, n.st);
        var rest := Body(src, kind, line, n.st);
        if rest.Parsed? {
          assert Body(src, kind, line, st) == Parsed([n.value.value] + rest.value, rest.st);
        }
      }
    }
  }

  /** Every line from `i` on is one neither parser treats specially: no
      handler keyword as its first word, none of the legacy scan's words
      as its first unquoted word. */
  predicate PlainFrom(src: Input, i: nat)
  {
    forall j :: i <= j < |src.entries| ==>
      !IsKeyword(FirstToken(src.entries[j]))
      && ReadUnquoted(src.entries[j]) != KeyPragma
      && ReadUnquoted(src.entries[j]) != KeyRun
      && ReadUnquoted(src.entries[j]) != KeyLoop
  }

  /** On lines that neither parser treats specially, with control flow v2
      off, the legacy scan and the statement parser's parseNextCommand
      give the same node and the same state, diagnostics included. */
  lemma {:induction false} ScansAgreeOnPlainLines(src: Input, isTop: bool, inSub: bool, st: PState)
    requires Valid(src) && Within(src, st) && PlainFrom(src, st.index) && !st.features.v2ControlFlow
    ensures var r := ParseSpec.NextCommand(src, isTop, inSub, st);
      NextNode(src, st) == Parsed(r.0, r.1)
    decreases |src.entries| - st.index
  {
    if st.index < |src.entries| {
      var text := src.entries[st.index];
      var line := src.lineNumbers[st.index];
      assert !IsKeyword(FirstToken(text));
      assert text != KeyClose;
      var res := src.grammar.commands(text);
      if res.Err? {
        var st1 := ReportErr(Next(ReportErr(st, line, ParseCommand(res.error))), line, BadCommand(text));
        ScansAgreeOnPlainLines(src, isTop, inSub, st1);
      }
    }
  }

  /** The non-null nodes of a child list, in order. */
  function Present(cs: seq<Option<Node>>): (r: seq<Node>)
    ensures |r| <= |cs|
  {
    if cs == [] then []
    else (if cs[0].Some? then [cs[0].value] else []) + Present(cs[1..])
  }

  /** On a file of lines neither parser treats specially, with control
      flow v2 off, both parsers read the same top-level statements in the
      same order and end in the same state; the legacy one merely keeps a
      trailing null child, and the statement parser finds no subroutine. */
  lemma {:induction false} TopLevelsAgreeOnPlainLines(src: Input, st: PState)
    requires Valid(src) && Within(src, st) && PlainFrom(src, st.index) && !st.features.v2ControlFlow
    ensures var r := ParseSpec.ParseTopLevel(src, st);
      var c := Children(src, st);
      c.Parsed? && Present(c.value) == r.0 && r.1 == [] && c.st == r.2
    decreases |src.entries| - st.index
  {
    if st.index < |src.entries| {
      ScansAgreeOnPlainLines(src, true, false, st);
      NextNodeShape(src, st);
      var (n, st1) := ParseSpec.NextCommand(src, true, false, st);
      assert st1.features == st.features by {
        FeaturesKept(src, st);
      }
      TopLevelsAgreeOnPlainLines(src, st1);
      var rest := Children(src, st1);
      assert Children(src, st) == Parsed([n] + rest.value, rest.st);
      assert ([n] + rest.value)[1..] == rest.value;
    }
  }

  /** Scanning plain lines runs no pragma, so the feature set is kept. */
  lemma {:induction false} FeaturesKept(src: Input, st: PState)
    requires Valid(src) && Within(src, st) && PlainFrom(src, st.index) && !st.features.v2ControlFlow
    ensures NextNode(src, st).Parsed? && NextNode(src, st).st.features == st.features
    decreases |src.entries| - st.index
  {
    if st.index < |src.entries| {
      var text := src.entries[st.index];
      var line := src.lineNumbers[st.index];
      var res := src.grammar.commands(text);
      if res.Err? {
        FeaturesKept(src, ReportErr(Next(ReportErr(st, line, ParseCommand(res.error))), line, BadCommand(text)));
      }
    }
  }
}
