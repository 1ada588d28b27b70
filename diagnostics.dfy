/** Leveled, line-tagged diagnostics (Diagnostic.java) and the append-only
    ParseContext that collects them and renders the report (ParseContext.java). */
module Diagnostics {
  import opened Text

  datatype Level = Error | Warn

  /** Why a pragma line failed: the pragma grammar rejected it, or it names
      a feature flag the feature set does not know. */
  datatype PragmaFailure = PragmaSyntax(detail: string) | UnknownFlag(flag: string)

  /** Every message the front end reports, with the arguments its format
      string takes; `MessageText` renders it. */
  datatype Message =
    // line assembly
    | LineContinuation
    | BadCommand(text: string)
    | ForwardSlash(text: string, word: string)
    // statement parsing
    | ParseCommand(detail: string)
    | PragmaFailed(failure: PragmaFailure)
    | ControlFlowParse(kind: string, detail: string)
    | UnclosedStatement
    | ExtraClosing
    | ControlFlowV1Disabled
    | SubroutinesDisabled
    | SubroutineNotTopLevel
    | BadSubroutineDefinition
    | UnclosedSubroutine
    | SubroutineReturnArguments
    | SubroutineReturnOutside
    | BadSubroutineCall
    | LegacyUnclosed(kind: string)
    // emission
    | SubroutineRedefined(firstLine: nat)
    | SubroutineNotDefined(name: string)
    | BadBreak

  /** The text String.format produces for a message. */
  function MessageText(m: Message): string
  {
    match m
    case LineContinuation => "line continuation at end of input"
    case BadCommand(text) => "unknown or invalid command '" + text + "' (use '#' not '//' for comments)"
    case ForwardSlash(text, word) => "unknown or invalid command '" + text + "' (did you mean '" + word + "'?)"
    case ParseCommand(detail) => "failed to parse command: " + detail
    case PragmaFailed(PragmaSyntax(detail)) => "failed to parse pragma: " + detail
    case PragmaFailed(UnknownFlag(flag)) => "failed to parse pragma: unknown pragma feature flag " + flag
    case ControlFlowParse(kind, detail) => "failed to parse '" + kind + "' control flow statement: " + detail
    case UnclosedStatement => "unclosed statement"
    case ExtraClosing => "extraneous '}' (consider removing it)"
    case ControlFlowV1Disabled =>
      "'run' and 'loop' statements not enabled when 'control flow v2' is enabled, consider disabling it with 'pragma disable cfv2'"
    case SubroutinesDisabled => "subroutines are not enabled, use 'pragma enable subroutine' to enable this feature"
    case SubroutineNotTopLevel => "subroutine definition is only allowed at the top level"
    case BadSubroutineDefinition => "bad subroutine definition, expected 'subroutine <identifier>'"
    case UnclosedSubroutine => "unclosed subroutine definition"
    case SubroutineReturnArguments => "subroutine_return takes no parameters"
    case SubroutineReturnOutside => "subroutine_return is not valid outside of a subroutine"
    case BadSubroutineCall => "bad subroutine definition, expected 'subroutine_call <identifier>'"
    case LegacyUnclosed(kind) => "unclosed '" + kind + "' statement"
    case SubroutineRedefined(firstLine) => "re-definition of subroutine (previously defined on line " + NatToString(firstLine)
    case SubroutineNotDefined(name) => "subroutine '" + name + "' not defined"
    case BadBreak => "'break' may only be used inside iterative control flow"
  }

  /** Line numbers are 0-based indices into the physical source lines. */
  datatype Diagnostic = Diagnostic(level: Level, line: nat, message: Message)

  /** The enum constant's name, as DiagnosticLevel.toString prints it. */
  function LevelName(l: Level): string
  {
    match l
    case Error => "ERROR"
    case Warn => "WARN"
  }

  /** Some diagnostic in `ds` is an error. */
  predicate HasError(ds: seq<Diagnostic>)
  {
    exists k :: 0 <= k < |ds| && ds[k].level == Error
  }

  /** Every diagnostic's line is below `bound`. */
  predicate LinesBelow(ds: seq<Diagnostic>, bound: nat)
  {
    forall k :: 0 <= k < |ds| ==> ds[k].line < bound
  }

  // ---------------------------------------------------------------------
  // Rendering of the report (dumpErrors)
  // ---------------------------------------------------------------------

  /** The indices i = lo, lo+1, ..., hi that fall inside [0, n), in the order
      the for loop of dumpErrors visits them. */
  function WindowFrom(lo: int, hi: int, n: nat): (w: seq<nat>)
    decreases hi - lo + 1
  {
    if lo > hi then []
    else (if 0 <= lo < n then [lo as nat] else []) + WindowFrom(lo + 1, hi, n)
  }

  /** The source lines shown around a diagnostic on `line` with radius `context`. */
  function Window(line: nat, context: nat, n: nat): seq<nat>
  {
    WindowFrom(line - context, line + context, n)
  }

  function Max(a: int, b: int): int { if a < b then b else a }
  function Min(a: int, b: int): int { if a < b then a else b }

  /** The window is the run of consecutive indices from max(lo, 0) to
      min(hi, n - 1): clipped to the file and ascending. */
  lemma {:induction false} WindowFromShape(lo: int, hi: int, n: nat)
    ensures var w := WindowFrom(lo, hi, n);
      && |w| == Max(0, Min(hi, n - 1) - Max(lo, 0) + 1)
      && forall k :: 0 <= k < |w| ==> w[k] == Max(lo, 0) + k
    decreases hi - lo + 1
  {
    if lo <= hi {
      WindowFromShape(lo + 1, hi, n);
    }
  }

  /** The window of a diagnostic holds exactly the in-file lines at distance
      at most `context`, ascending; it is empty only when the diagnostic lies
      at least `context` lines past the end of the file. */
  lemma WindowContents(line: nat, context: nat, n: nat)
    ensures var w := Window(line, context, n);
      && (forall k :: 0 <= k < |w| ==> w[k] < n && line - context <= w[k] <= line + context)
      && (forall k, j :: 0 <= k < j < |w| ==> w[k] < w[j])
      && (forall i :: 0 <= i < n && line - context <= i <= line + context ==> i in w)
      && (w != [] <==> 0 < n && line < n + context)
  {
    var lo, hi := line - context, line + context;
    WindowFromShape(lo, hi, n);
    var w := Window(line, context, n);
    var first := Max(lo, 0);
    assert |w| == Max(0, Min(hi, n - 1) - first + 1);
    forall i | 0 <= i < n && lo <= i <= hi
      ensures i in w
    {
      assert w[i - first] == i;
    }
    if 0 < n && line < n + context {
      assert line - context < n;
      assert first <= Min(hi, n - 1);
    }
  }

  /** Diagnostic 5 of a ten-line file (index 4) with radius 2 shows lines 3 to 7. */
  lemma WindowExample()
    ensures Window(4, 2, 10) == [2, 3, 4, 5, 6]
  {
    WindowFromShape(2, 6, 10);
  }

  /** The header line of one diagnostic: level, unit id and 1-based line. */
  function Header(d: Diagnostic, id: string): string
  {
    LevelName(d.level) + " (" + id + ":" + NatToString(d.line + 1) + "): " + MessageText(d.message) + "\n"
  }

  /** One entry of the window: a 1-based line number and that line's text. */
  datatype LineEntry = LineEntry(number: nat, text: string)

  /** The entries the window loop of dumpErrors collects for i = lo..hi. */
  function EntriesFrom(lo: int, hi: int, lines: seq<string>): (es: seq<LineEntry>)
    ensures var w := WindowFrom(lo, hi, |lines|);
      |es| == |w| && forall k :: 0 <= k < |es| ==> w[k] < |lines| && es[k] == LineEntry(w[k] + 1, lines[w[k]])
    decreases hi - lo + 1
  {
    if lo > hi then []
    else (if 0 <= lo < |lines| then [LineEntry(lo as nat + 1, lines[lo])] else []) + EntriesFrom(lo + 1, hi, lines)
  }

  /** Concatenation regroups freely. */
  lemma AppendAssoc<T>(a: seq<T>, b: seq<T>, c: seq<T>)
    ensures (a + b) + c == a + (b + c)
  {
  }

  /** One step of the window: the entry for `lo`, if it is a line of the
      file, then the entries after it. */
  lemma EntriesFromStep(lo: int, hi: int, lines: seq<string>)
    requires lo <= hi
    ensures EntriesFrom(lo, hi, lines)
         == (if 0 <= lo < |lines| then [LineEntry(lo as nat + 1, lines[lo])] else []) + EntriesFrom(lo + 1, hi, lines)
  {
  }

  /** One pass of the window loop moves the entry for `i`, if it is a line
      of the file, onto the entries collected so far, keeping what the loop
      will have collected in the end unchanged. */
  lemma WindowStep(i: int, hi: int, lines: seq<string>, collected: seq<LineEntry>, total: seq<LineEntry>)
    requires i <= hi && collected + EntriesFrom(i, hi, lines) == total
    ensures (if 0 <= i < |lines| then collected + [LineEntry(i as nat + 1, lines[i])] else collected)
            + EntriesFrom(i + 1, hi, lines) == total
  {
    var rest := EntriesFrom(i + 1, hi, lines);
    EntriesFromStep(i, hi, lines);
    if 0 <= i < |lines| {
      AppendAssoc(collected, [LineEntry(i as nat + 1, lines[i])], rest);
    } else {
      assert [] + rest == rest;
    }
  }

  /** Past `hi` the window loop has nothing left to collect. */
  lemma WindowDone(i: int, hi: int, lines: seq<string>, collected: seq<LineEntry>, total: seq<LineEntry>)
    requires i > hi && collected + EntriesFrom(i, hi, lines) == total
    ensures collected == total
  {
    assert collected + [] == collected;
  }

  function Entries(line: nat, context: nat, lines: seq<string>): seq<LineEntry>
  {
    EntriesFrom(line - context, line + context, lines)
  }

  /** One context line: gutter, marker, source text and the HERE suffix. */
  function Row(e: LineEntry, errNumber: nat, pad: nat): string
  {
    LeftJustify(NatToString(e.number), pad)
      + (if e.number == errNumber then " * " else " | ")
      + e.text
      + (if e.number == errNumber then " <- HERE" else "")
      + "\n"
  }

  function Rows(es: seq<LineEntry>, errNumber: nat, pad: nat): string
  {
    if es == [] then "" else Rows(es[..|es| - 1], errNumber, pad) + Row(es[|es| - 1], errNumber, pad)
  }

  /** The gutter width: the digit count of the last (largest) shown line number. */
  function Pad(es: seq<LineEntry>): nat
  {
    if es == [] then 0 else |NatToString(es[|es| - 1].number)|
  }

  /** A diagnostic inside the file or less than `context` past its end has a
      non-empty window, so dumpErrors can read its last entry. */
  lemma WindowNonEmpty(line: nat, context: nat, lines: seq<string>)
    requires 0 < |lines| && line < |lines| + context
    ensures Entries(line, context, lines) != []
  {
    WindowContents(line, context, |lines|);
  }

  /** Every gutter cell of a window is exactly `Pad` wide: no shown line number is wider. */
  lemma GutterAligned(line: nat, context: nat, lines: seq<string>)
    requires 0 < |lines| && line < |lines| + context
    ensures var es := Entries(line, context, lines);
      es != [] && forall k :: 0 <= k < |es| ==> |LeftJustify(NatToString(es[k].number), Pad(es))| == Pad(es)
  {
    WindowContents(line, context, |lines|);
    var es := Entries(line, context, lines);
    forall k | 0 <= k < |es|
      ensures |NatToString(es[k].number)| <= Pad(es)
    {
      NatToStringMonotone(es[k].number, es[|es| - 1].number);
    }
  }

  /** Exactly the offending line is marked: the entry numbered line+1 exists
      iff the line is inside the file, and no other entry carries that number. */
  lemma ExactlyOneMarkedRow(line: nat, context: nat, lines: seq<string>)
    ensures var es := Entries(line, context, lines);
      && (line < |lines| ==> exists k :: 0 <= k < |es| && es[k].number == line + 1)
      && (forall k, j :: 0 <= k < |es| && 0 <= j < |es| && es[k].number == line + 1 && es[j].number == line + 1 ==> k == j)
      && (line >= |lines| ==> forall k :: 0 <= k < |es| ==> es[k].number != line + 1)
  {
    WindowContents(line, context, |lines|);
    var w := Window(line, context, |lines|);
    var es := Entries(line, context, lines);
    if line < |lines| {
      assert line in w;
      var j :| 0 <= j < |w| && w[j] == line;
      assert es[j].number == line + 1;
    }
  }

  /** The window of `d` is not empty: dumpErrors reads its last entry. */
  predicate Renderable(d: Diagnostic, context: nat, lines: seq<string>)
  {
    0 < |lines| && d.line < |lines| + context
  }

  predicate AllRenderable(ds: seq<Diagnostic>, context: nat, lines: seq<string>)
  {
    forall d :: d in ds ==> Renderable(d, context, lines)
  }

  /** The context rows printed under a diagnostic on `line`: one per window
      entry, the gutter sized from the last one. */
  function WindowRows(line: nat, context: nat, lines: seq<string>): string
  {
    var es := Entries(line, context, lines);
    Rows(es, line + 1, Pad(es))
  }

  function RenderOne(d: Diagnostic, context: nat, id: string, lines: seq<string>): string
  {
    Header(d, id) + WindowRows(d.line, context, lines)
  }

  /** The texts of the diagnostics, one per diagnostic, in insertion order. */
  function RenderEach(ds: seq<Diagnostic>, context: nat, id: string, lines: seq<string>): (r: seq<string>)
    ensures |r| == |ds|
    ensures forall k :: 0 <= k < |ds| ==> r[k] == RenderOne(ds[k], context, id, lines)
  {
    seq(|ds|, k requires 0 <= k < |ds| => RenderOne(ds[k], context, id, lines))
  }

  lemma HasErrorStep(ds: seq<Diagnostic>, i: nat)
    requires i < |ds|
    ensures HasError(ds[..i + 1]) <==> HasError(ds[..i]) || ds[i].level == Error
  {
    var p := ds[..i + 1];
    if HasError(ds[..i]) {
      var k :| 0 <= k < i && ds[..i][k].level == Error;
      assert p[k].level == Error;
    }
    if ds[i].level == Error {
      assert p[i].level == Error;
    }
  }

  lemma RenderEachStep(ds: seq<Diagnostic>, i: nat, context: nat, id: string, lines: seq<string>)
    requires i < |ds|
    ensures Concat(RenderEach(ds[..i + 1], context, id, lines))
         == Concat(RenderEach(ds[..i], context, id, lines)) + RenderOne(ds[i], context, id, lines)
  {
    var r := RenderEach(ds[..i + 1], context, id, lines);
    assert r[..i] == RenderEach(ds[..i], context, id, lines);
  }

  function Concat(ss: seq<string>): string
  {
    if ss == [] then "" else Concat(ss[..|ss| - 1]) + ss[|ss| - 1]
  }

  /** The text of consecutive pieces is the text of the first followed by the text of the rest. */
  lemma {:induction false} ConcatAppend(a: seq<string>, b: seq<string>)
    ensures Concat(a + b) == Concat(a) + Concat(b)
    decreases |b|
  {
    if b == [] {
      assert a + b == a;
    } else {
      var b' := b[..|b| - 1];
      assert (a + b)[..|a + b| - 1] == a + b';
      ConcatAppend(a, b');
    }
  }

  function Preamble(id: string): string
  {
    "While parsing function '" + id + "'\n"
  }

  /** The whole text dumpErrors logs; nothing at all when there are no diagnostics. */
  function Report(ds: seq<Diagnostic>, context: nat, id: string, lines: seq<string>): string
  {
    if ds == [] then "" else Preamble(id) + Concat(RenderEach(ds, context, id, lines))
  }

  /** The append-only diagnostic list of one compile. */
  class ParseContext {
    var diagnostics: seq<Diagnostic>

    constructor ()
      ensures diagnostics == []
    {
      diagnostics := [];
    }

    /** Appends one error on `line`. */
    method ReportErr(line: nat, message: Message)
      modifies this
      ensures diagnostics == old(diagnostics) + [Diagnostic(Error, line, message)]
    {
      diagnostics := diagnostics + [Diagnostic(Error, line, message)];
    }

    /** Appends one warning on `line`. */
    method ReportWarn(line: nat, message: Message)
      modifies this
      ensures diagnostics == old(diagnostics) + [Diagnostic(Warn, line, message)]
    {
      diagnostics := diagnostics + [Diagnostic(Warn, line, message)];
    }

    /** Renders every diagnostic with `context` lines around it and reports
        whether any of them is an error. The logger is replaced by the
        returned text. The diagnostic list is only read. */
    method DumpErrors(context: nat, id: string, lines: seq<string>) returns (hasError: bool, report: string)
      requires AllRenderable(diagnostics, context, lines)
      ensures hasError == HasError(diagnostics)
      ensures report == Report(diagnostics, context, id, lines)
      ensures diagnostics == [] ==> !hasError && report == ""
    {
      if |diagnostics| == 0 {
        return false, "";
      }
      var body;
      hasError, body := RenderAll(diagnostics, context, id, lines);
      report := Preamble(id) + body;
    }

    /** The per-diagnostic loop of dumpErrors. */
    static method RenderAll(ds: seq<Diagnostic>, context: nat, id: string, lines: seq<string>) returns (hasError: bool, body: string)
      requires AllRenderable(ds, context, lines)
      ensures hasError == HasError(ds)
      ensures body == Concat(RenderEach(ds, context, id, lines))
    {
      hasError := false;
      body := "";
      var i := 0;
      while i < |ds|
        invariant 0 <= i <= |ds|
        invariant hasError == HasError(ds[..i])
        invariant body == Concat(RenderEach(ds[..i], context, id, lines))
      {
        var d := ds[i];
        assert d in ds;
        if d.level == Error {
          hasError := true;
        }
        HasErrorStep(ds, i);
        var text := RenderDiagnostic(d, context, id, lines);
        RenderEachStep(ds, i, context, id, lines);
        body := body + text;
        i := i + 1;
      }
      assert ds[..i] == ds;
    }

    /** The body of the per-diagnostic loop of dumpErrors: the header, then
        the rows of the window. */
    static method RenderDiagnostic(d: Diagnostic, context: nat, id: string, lines: seq<string>) returns (text: string)
      requires Renderable(d, context, lines)
      ensures text == RenderOne(d, context, id, lines)
    {
      var rows := RenderWindow(d.line, context, lines);
      text := Header(d, id) + rows;
    }

    /** Collect the window, size the gutter from its last entry, render the rows. */
    static method RenderWindow(line: nat, context: nat, lines: seq<string>) returns (rows: string)
      requires 0 < |lines| && line < |lines| + context
      ensures rows == WindowRows(line, context, lines)
    {
      var lineEntry := CollectWindow(line, context, lines);
      WindowNonEmpty(line, context, lines);
      var pad := |NatToString(lineEntry[|lineEntry| - 1].number)|;
      assert pad == Pad(lineEntry);
      rows := RenderRows(lineEntry, line + 1, pad);
    }

    /** The window loop of dumpErrors: entries for line-context..line+context inside the file. */
    static method CollectWindow(line: nat, context: nat, lines: seq<string>) returns (lineEntry: seq<LineEntry>)
      ensures lineEntry == Entries(line, context, lines)
    {
      lineEntry := [];
      var i: int := line - context;
      while i <= line + context
        invariant line - context <= i <= line + context + 1
        invariant lineEntry + EntriesFrom(i, line + context, lines) == Entries(line, context, lines)
        decreases line + context - i
      {
        WindowStep(i, line + context, lines, lineEntry, Entries(line, context, lines));
        if 0 <= i < |lines| {
          lineEntry := lineEntry + [LineEntry(i as nat + 1, lines[i])];
        }
        i := i + 1;
      }
      WindowDone(i, line + context, lines, lineEntry, Entries(line, context, lines));
    }

    /** The row loop of dumpErrors. */
    static method RenderRows(lineEntry: seq<LineEntry>, errNumber: nat, pad: nat) returns (rows: string)
      ensures rows == Rows(lineEntry, errNumber, pad)
    {
      var k := 0;
      rows := "";
      while k < |lineEntry|
        invariant 0 <= k <= |lineEntry|
        invariant rows == Rows(lineEntry[..k], errNumber, pad)
      {
        assert lineEntry[..k + 1][..k] == lineEntry[..k];
        rows := rows + Row(lineEntry[k], errNumber, pad);
        k := k + 1;
      }
      assert lineEntry[..k] == lineEntry;
    }
  }
}
