/** Line assembly (CommandLineReader.fromLines) and the forward-only cursor
    over the assembled entries (CommandLineReader). */
module LineReader {
  import opened Text
  import opened Diagnostics

  // ---------------------------------------------------------------------
  // Specification of fromLines
  // ---------------------------------------------------------------------

  /** Every physical line trimmed, as fromLines reads it. The specification
      below works on these trimmed lines `t`. */
  function Trimmed(lines: seq<string>): (t: seq<string>)
    ensures |t| == |lines| && forall k :: 0 <= k < |lines| ==> t[k] == Trim(lines[k])
  {
    seq(|lines|, k requires 0 <= k < |lines| => Trim(lines[k]))
  }

  /** One logical line: the merged text, the index of the last physical line
      it consumed, and whether the continuation ran past the end of input. */
  datatype Merged = Merged(cmd: string, last: nat, overrun: bool)

  /** The do/while of fromLines: `acc` ends with a backslash and line `i` is the
      last one consumed. Each round strips one backslash and appends the next
      trimmed line; running out of lines leaves the backslash in place. */
  function Absorb(t: seq<string>, acc: string, i: nat): (m: Merged)
    requires i < |t| && EndsWithBackslash(acc)
    ensures i < m.last <= |t|
    ensures m.overrun <==> m.last == |t|
    ensures m.overrun ==> EndsWithBackslash(m.cmd)
    ensures !m.overrun ==> !EndsWithBackslash(m.cmd)
    decreases |t| - i
  {
    if i + 1 == |t| then Merged(acc, |t|, true)
    else
      var acc' := acc[..|acc| - 1] + t[i + 1];
      if EndsWithBackslash(acc') then Absorb(t, acc', i + 1) else Merged(acc', i + 1, false)
  }

  /** The logical line that starts at line `i`. */
  function Merge(t: seq<string>, i: nat): (m: Merged)
    requires i < |t|
    ensures i <= m.last <= |t|
    ensures m.overrun <==> m.last == |t|
    ensures m.last == i <==> !EndsWithBackslash(t[i])
    ensures m.last == i ==> m.cmd == t[i]
  {
    if EndsWithBackslash(t[i]) then Absorb(t, t[i], i) else Merged(t[i], i, false)
  }

  /** What fromLines does with a merged command, decided on its trimmed text:
      skip it, report it as "//" or as another '/'-prefixed word, keep it; a
      bare "/" makes fromLines read past the end of the text. */
  datatype Kind = Blank | SlashSlash | Slash(word: string) | BareSlash | Entry

  predicate IsBareSlash(cmd: string)
  {
    Trim(cmd) == "/"
  }

  function Classify(cmd: string): (k: Kind)
    ensures k == Entry <==> Trim(cmd) != [] && Trim(cmd)[0] != '#' && Trim(cmd)[0] != '/'
    ensures k == BareSlash <==> IsBareSlash(cmd)
    ensures k == Entry ==> cmd != []
  {
    var r := Trim(cmd);
    if r == [] || r[0] == '#' then Blank
    else if r[0] == '/' then
      if |r| == 1 then BareSlash
      else if r[1] == '/' then SlashSlash else Slash(ReadUnquoted(r[1..]))
    else Entry
  }

  /** The first line of every logical line from `i` on: each logical line
      starts right after the last line the previous one consumed. */
  function Starts(t: seq<string>, i: nat): (ss: seq<nat>)
    ensures ss != [] <==> i < |t|
    ensures ss != [] ==> ss[0] == i
    ensures forall k :: 0 <= k < |ss| ==> i <= ss[k] < |t|
    decreases |t| - i
  {
    if i >= |t| then [] else [i] + Starts(t, Merge(t, i).last + 1)
  }

  /** Every element of `ss` is a line index of `t`. */
  predicate Below(t: seq<string>, ss: seq<nat>)
  {
    forall k :: 0 <= k < |ss| ==> ss[k] < |t|
  }

  /** None of the logical lines from line `i` on trims to a bare "/". */
  predicate CleanFrom(t: seq<string>, i: nat)
    decreases |t| - i
  {
    i >= |t| || (!IsBareSlash(Merge(t, i).cmd) && CleanFrom(t, Merge(t, i).last + 1))
  }

  /** fromLines never meets a logical line that trims to a bare "/". */
  predicate NoBareSlash(t: seq<string>)
  {
    CleanFrom(t, 0)
  }

  /** The logical line starting at `s` is kept as an entry. */
  predicate Kept(t: seq<string>, s: nat)
    requires s < |t|
  {
    Classify(Merge(t, s).cmd) == Entry
  }

  /** The starts of the kept logical lines, in order: the recorded line numbers. */
  function KeptStarts(t: seq<string>, ss: seq<nat>): (ns: seq<nat>)
    requires Below(t, ss)
    ensures |ns| <= |ss| && Below(t, ns)
  {
    if ss == [] then []
    else
      var last := ss[|ss| - 1];
      KeptStarts(t, ss[..|ss| - 1]) + (if Kept(t, last) then [last] else [])
  }

  /** The trimmed first line of every kept logical line: the entries. */
  function EntryTexts(t: seq<string>, ns: seq<nat>): (es: seq<string>)
    requires Below(t, ns)
    ensures |es| == |ns| && forall k :: 0 <= k < |ns| ==> es[k] == t[ns[k]]
  {
    seq(|ns|, k requires 0 <= k < |ns| => t[ns[k]])
  }

  /** The report fromLines makes about a '/'-prefixed command, on line `at`. */
  function SlashDiags(cmd: string, at: nat): seq<Diagnostic>
  {
    match Classify(cmd)
    case SlashSlash => [Diagnostic(Error, at, BadCommand(cmd))]
    case Slash(word) => [Diagnostic(Error, at, ForwardSlash(cmd, word))]
    case _ => []
  }

  /** The diagnostics one logical line contributes, in the order fromLines
      reports them; `n` is the number of lines. */
  function LineDiags(n: nat, m: Merged): seq<Diagnostic>
  {
    (if m.overrun then [Diagnostic(Error, n, LineContinuation)] else []) + SlashDiags(m.cmd, m.last)
  }

  /** The diagnostics of the logical lines starting at `ss`, in order. */
  function DiagsOf(t: seq<string>, ss: seq<nat>): seq<Diagnostic>
    requires Below(t, ss)
  {
    if ss == [] then []
    else DiagsOf(t, ss[..|ss| - 1]) + LineDiags(|t|, Merge(t, ss[|ss| - 1]))
  }

  datatype Assembly = Assembly(entries: seq<string>, lineNumbers: seq<nat>, diags: seq<Diagnostic>)

  /** What fromLines produces from the trimmed lines `t` (when it does not
      fail on a bare "/"). */
  function Assemble(t: seq<string>): Assembly
  {
    var ss := Starts(t, 0);
    var ns := KeptStarts(t, ss);
    Assembly(EntryTexts(t, ns), ns, DiagsOf(t, ss))
  }

  // ---------------------------------------------------------------------
  // Properties of the assembly
  // ---------------------------------------------------------------------

  predicate StrictlyIncreasing(ns: seq<nat>)
  {
    forall k, j :: 0 <= k < j < |ns| ==> ns[k] < ns[j]
  }

  /** Every logical line fromLines reads is free of a bare "/" exactly when
      the guard holds. */
  lemma {:induction false} CleanFromStarts(t: seq<string>, i: nat)
    ensures CleanFrom(t, i) <==> forall s :: s in Starts(t, i) ==> !IsBareSlash(Merge(t, s).cmd)
    decreases |t| - i
  {
    if i < |t| {
      var next := Merge(t, i).last + 1;
      CleanFromStarts(t, next);
      assert Starts(t, i) == [i] + Starts(t, next);
    }
  }

  /** The kept starts are drawn from `ss`. */
  lemma {:induction false} KeptStartsBounded(t: seq<string>, ss: seq<nat>)
    requires Below(t, ss)
    ensures forall k :: 0 <= k < |KeptStarts(t, ss)| ==> KeptStarts(t, ss)[k] in ss
  {
    if ss != [] {
      var init := ss[..|ss| - 1];
      KeptStartsBounded(t, init);
      assert forall x :: x in init ==> x in ss;
    }
  }

  /** A start is recorded iff its logical line is kept. */
  lemma {:induction false} KeptStartsFilter(t: seq<string>, ss: seq<nat>)
    requires Below(t, ss)
    ensures forall k :: 0 <= k < |ss| ==> (ss[k] in KeptStarts(t, ss) <==> Kept(t, ss[k]))
  {
    if ss != [] {
      var init := ss[..|ss| - 1];
      KeptStartsFilter(t, init);
      KeptStartsBounded(t, init);
      var last := ss[|ss| - 1];
      var tail := if Kept(t, last) then [last] else [];
      assert KeptStarts(t, ss) == KeptStarts(t, init) + tail;
      forall k | 0 <= k < |ss|
        ensures ss[k] in KeptStarts(t, ss) <==> Kept(t, ss[k])
      {
        var x := ss[k];
        assert x in KeptStarts(t, ss) <==> x in KeptStarts(t, init) || x in tail;
        if k < |ss| - 1 {
          assert x == init[k];
        } else if x in KeptStarts(t, init) {
          var m :| 0 <= m < |init| && init[m] == x;
        }
      }
    }
  }

  /** Logical-line starts are strictly increasing. */
  lemma {:induction false} StartsIncreasing(t: seq<string>, i: nat)
    ensures StrictlyIncreasing(Starts(t, i))
    decreases |t| - i
  {
    if i < |t| {
      var next := Merge(t, i).last + 1;
      StartsIncreasing(t, next);
      var ss, rest := Starts(t, i), Starts(t, next);
      assert ss == [i] + rest;
      forall k, j | 0 <= k < j < |ss|
        ensures ss[k] < ss[j]
      {
        assert ss[j] == rest[j - 1];
        if k > 0 {
          assert ss[k] == rest[k - 1];
        }
      }
    }
  }

  /** Filtering keeps the order: the kept starts of an increasing list increase. */
  lemma {:induction false} KeptStartsIncreasing(t: seq<string>, ss: seq<nat>)
    requires Below(t, ss) && StrictlyIncreasing(ss)
    ensures StrictlyIncreasing(KeptStarts(t, ss))
  {
    if ss != [] {
      var init := ss[..|ss| - 1];
      var last := ss[|ss| - 1];
      KeptStartsIncreasing(t, init);
      KeptStartsBounded(t, init);
      var ks := KeptStarts(t, init);
      assert forall x :: x in init ==> x < last;
      assert forall k :: 0 <= k < |ks| ==> ks[k] < last;
    }
  }

  /** A line absorbed by a continuation never starts a logical line. */
  lemma {:induction false} AbsorbedNeverStarts(t: seq<string>, i: nat, s: nat, j: nat)
    requires s in Starts(t, i) && s < j <= Merge(t, s).last
    ensures j !in Starts(t, i)
    decreases |t| - i
  {
    if s != i {
      AbsorbedNeverStarts(t, Merge(t, i).last + 1, s, j);
    }
  }

  /** The recorded numbers are strictly increasing line indices, each the start
      of a logical line that is kept, and every kept logical line is recorded;
      each entry is the trimmed first line of its logical line and never empty. */
  lemma AssemblyShape(t: seq<string>)
    ensures var a := Assemble(t);
      && |a.entries| == |a.lineNumbers|
      && StrictlyIncreasing(a.lineNumbers)
      && Below(t, a.lineNumbers)
      && (forall n :: n in a.lineNumbers ==> n in Starts(t, 0))
      && (forall s :: s in Starts(t, 0) ==> (s in a.lineNumbers <==> Kept(t, s)))
      && (forall k :: 0 <= k < |a.entries| ==> a.entries[k] == t[a.lineNumbers[k]] && a.entries[k] != "")
  {
    var ss := Starts(t, 0);
    var a := Assemble(t);
    StartsIncreasing(t, 0);
    KeptStartsIncreasing(t, ss);
    KeptStartsBounded(t, ss);
    KeptStartsFilter(t, ss);
    forall k | 0 <= k < |a.entries|
      ensures a.entries[k] != ""
    {
      var n := a.lineNumbers[k];
      var j :| 0 <= j < |ss| && ss[j] == n;
      assert Kept(t, n);
    }
  }

  /** A kept logical line's merged text is a command: not blank, not a '#'
      comment, not '/'-prefixed. */
  lemma KeptMeansCommand(t: seq<string>, s: nat)
    requires s < |t|
    ensures var r := Trim(Merge(t, s).cmd);
      Kept(t, s) <==> r != [] && r[0] != '#' && r[0] != '/'
  {
  }

  /** Every diagnostic of the assembly is an error on a line no later than |t|. */
  lemma {:induction false} DiagLines(t: seq<string>, ss: seq<nat>)
    requires Below(t, ss)
    ensures forall d :: d in DiagsOf(t, ss) ==> d.level == Error && d.line <= |t|
  {
    if ss != [] {
      DiagLines(t, ss[..|ss| - 1]);
    }
  }

  /** A "//" line and any other "/" line each leave their report on the last
      line they consumed. */
  lemma {:induction false} SlashLinesReported(t: seq<string>, ss: seq<nat>, k: nat)
    requires Below(t, ss) && k < |ss|
    ensures var m := Merge(t, ss[k]);
      && (Classify(m.cmd) == SlashSlash ==> Diagnostic(Error, m.last, BadCommand(m.cmd)) in DiagsOf(t, ss))
      && (Classify(m.cmd).Slash? ==> Diagnostic(Error, m.last, ForwardSlash(m.cmd, Classify(m.cmd).word)) in DiagsOf(t, ss))
  {
    var init := ss[..|ss| - 1];
    if k < |ss| - 1 {
      assert ss[k] == init[k];
      SlashLinesReported(t, init, k);
    } else {
      var ld := LineDiags(|t|, Merge(t, ss[k]));
      if ld != [] {
        assert ld[|ld| - 1] in ld;
      }
    }
  }

  /** The rounds of fromLines from line `i` on, one logical line at a time:
      the entry and line number of each kept line, the reports of each. */
  function AssembleFrom(t: seq<string>, i: nat): Assembly
    decreases |t| - i
  {
    if i >= |t| then Assembly([], [], [])
    else
      var m := Merge(t, i);
      var rest := AssembleFrom(t, m.last + 1);
      var kept := Kept(t, i);
      Assembly((if kept then [t[i]] else []) + rest.entries,
               (if kept then [i] else []) + rest.lineNumbers,
               LineDiags(|t|, m) + rest.diags)
  }

  /** One round of `AssembleFrom`. */
  lemma AssembleFromStep(t: seq<string>, i: nat)
    requires i < |t|
    ensures var r := AssembleFrom(t, Merge(t, i).last + 1); var kept := Kept(t, i);
      AssembleFrom(t, i) == Assembly((if kept then [t[i]] else []) + r.entries,
                                     (if kept then [i] else []) + r.lineNumbers,
                                     LineDiags(|t|, Merge(t, i)) + r.diags)
  {
  }

  /** Once the rounds have passed the last line, what they collected is
      everything the rounds from the first line collect. */
  lemma RoundsDone(t: seq<string>, i: nat, entries: seq<string>, numbers: seq<nat>, diags: seq<Diagnostic>, before: seq<Diagnostic>)
    requires i >= |t|
    requires entries + AssembleFrom(t, i).entries == AssembleFrom(t, 0).entries
    requires numbers + AssembleFrom(t, i).lineNumbers == AssembleFrom(t, 0).lineNumbers
    requires diags + AssembleFrom(t, i).diags == before + AssembleFrom(t, 0).diags
    ensures entries == AssembleFrom(t, 0).entries && numbers == AssembleFrom(t, 0).lineNumbers
    ensures diags == before + AssembleFrom(t, 0).diags
  {
    assert entries + [] == entries && numbers + [] == numbers && diags + [] == diags;
  }

  /** A round over clean lines reads no bare `/` and leaves the rest clean. */
  lemma RoundClean(t: seq<string>, i: nat)
    requires i < |t| && CleanFrom(t, i)
    ensures !IsBareSlash(Merge(t, i).cmd) && CleanFrom(t, Merge(t, i).last + 1)
  {
  }

  /** Taking the round at `i` off the front of `AssembleFrom` moves its kept
      entry, its line number and its reports onto what was collected before. */
  lemma RoundAppends(t: seq<string>, i: nat, keep: bool, next: nat, entries: seq<string>, numbers: seq<nat>, diags: seq<Diagnostic>)
    requires i < |t| && keep == Kept(t, i) && next == Merge(t, i).last + 1
    ensures (if keep then entries + [t[i]] else entries) + AssembleFrom(t, next).entries
            == entries + AssembleFrom(t, i).entries
    ensures (if keep then numbers + [i] else numbers) + AssembleFrom(t, next).lineNumbers
            == numbers + AssembleFrom(t, i).lineNumbers
    ensures (diags + LineDiags(|t|, Merge(t, i))) + AssembleFrom(t, next).diags
            == diags + AssembleFrom(t, i).diags
  {
    var rest := AssembleFrom(t, next);
    AssembleFromStep(t, i);
    AppendAssoc(diags, LineDiags(|t|, Merge(t, i)), rest.diags);
    if keep {
      AppendAssoc(entries, [t[i]], rest.entries);
      AppendAssoc(numbers, [i], rest.lineNumbers);
    } else {
      assert [] + rest.entries == rest.entries && [] + rest.lineNumbers == rest.lineNumbers;
    }
  }

  lemma {:induction false} KeptStartsConcat(t: seq<string>, a: seq<nat>, b: seq<nat>)
    requires Below(t, a) && Below(t, b)
    ensures Below(t, a + b) && KeptStarts(t, a + b) == KeptStarts(t, a) + KeptStarts(t, b)
    decreases |b|
  {
    if b == [] {
      assert a + b == a;
    } else {
      var init := b[..|b| - 1];
      var last := b[|b| - 1];
      assert (a + b)[..|a + b| - 1] == a + init;
      KeptStartsConcat(t, a, init);
      AppendAssoc(KeptStarts(t, a), KeptStarts(t, init), if Kept(t, last) then [last] else []);
    }
  }

  lemma {:induction false} DiagsOfConcat(t: seq<string>, a: seq<nat>, b: seq<nat>)
    requires Below(t, a) && Below(t, b)
    ensures Below(t, a + b) && DiagsOf(t, a + b) == DiagsOf(t, a) + DiagsOf(t, b)
    decreases |b|
  {
    if b == [] {
      assert a + b == a;
    } else {
      var init := b[..|b| - 1];
      assert (a + b)[..|a + b| - 1] == a + init;
      DiagsOfConcat(t, a, init);
      AppendAssoc(DiagsOf(t, a), DiagsOf(t, init), LineDiags(|t|, Merge(t, b[|b| - 1])));
    }
  }

  lemma EntryTextsConcat(t: seq<string>, a: seq<nat>, b: seq<nat>)
    requires Below(t, a) && Below(t, b)
    ensures Below(t, a + b) && EntryTexts(t, a + b) == EntryTexts(t, a) + EntryTexts(t, b)
  {
    assert Below(t, a + b);
  }

  /** The line numbers of the rounds from `i` on are the kept starts. */
  lemma {:induction false} NumbersFromStarts(t: seq<string>, i: nat)
    ensures AssembleFrom(t, i).lineNumbers == KeptStarts(t, Starts(t, i))
    decreases |t| - i
  {
    if i < |t| {
      var next := Merge(t, i).last + 1;
      var rest := Starts(t, next);
      assert Starts(t, i) == [i] + rest;
      NumbersFromStarts(t, next);
      AssembleFromStep(t, i);
      assert [i][..0] == [];
      assert KeptStarts(t, [i]) == if Kept(t, i) then [i] else [];
      KeptStartsConcat(t, [i], rest);
    }
  }

  /** The entries of the rounds from `i` on are the texts of their numbers. */
  lemma {:induction false} EntriesFromNumbers(t: seq<string>, i: nat)
    ensures Below(t, AssembleFrom(t, i).lineNumbers)
    ensures AssembleFrom(t, i).entries == EntryTexts(t, AssembleFrom(t, i).lineNumbers)
    decreases |t| - i
  {
    if i < |t| {
      var next := Merge(t, i).last + 1;
      var r := AssembleFrom(t, next);
      EntriesFromNumbers(t, next);
      AssembleFromStep(t, i);
      var head := if Kept(t, i) then [i] else [];
      EntryTextsConcat(t, head, r.lineNumbers);
      if Kept(t, i) {
        assert EntryTexts(t, head) == [t[i]];
      } else {
        assert EntryTexts(t, head) == [];
      }
    } else {
      assert EntryTexts(t, []) == [];
    }
  }

  /** The reports of the rounds from `i` on are those of the starts. */
  lemma {:induction false} DiagsFromStarts(t: seq<string>, i: nat)
    ensures AssembleFrom(t, i).diags == DiagsOf(t, Starts(t, i))
    decreases |t| - i
  {
    if i < |t| {
      var next := Merge(t, i).last + 1;
      var rest := Starts(t, next);
      assert Starts(t, i) == [i] + rest;
      DiagsFromStarts(t, next);
      AssembleFromStep(t, i);
      assert [i][..0] == [];
      assert DiagsOf(t, [i]) == LineDiags(|t|, Merge(t, i));
      DiagsOfConcat(t, [i], rest);
    }
  }

  /** Round by round from the first line, fromLines builds the assembly. */
  lemma AssembleFromStarts(t: seq<string>)
    ensures AssembleFrom(t, 0) == Assemble(t)
  {
    NumbersFromStarts(t, 0);
    EntriesFromNumbers(t, 0);
    DiagsFromStarts(t, 0);
  }

  // ---------------------------------------------------------------------
  // The cursor and the imperative assembly
  // ---------------------------------------------------------------------

  class CommandLineReader {
    const entries: seq<string>
    const lineNumbers: seq<nat>
    var index: nat

    /** Both lists are equally long (they are filled together). */
    predicate Valid()
    {
      |entries| == |lineNumbers|
    }

    constructor (entries: seq<string>, lineNumbers: seq<nat>)
      requires |entries| == |lineNumbers|
      ensures this.entries == entries && this.lineNumbers == lineNumbers
      ensures index == 0 && Valid()
    {
      this.entries := entries;
      this.lineNumbers := lineNumbers;
      index := 0;
    }

    /** An entry is under the cursor. */
    predicate Present()
      reads this
    {
      index < |entries|
    }

    function Curr(): (text: string)
      reads this
      requires Present()
      ensures text in entries
    {
      entries[index]
    }

    function LineNumber(): (n: nat)
      reads this
      requires Valid() && Present()
      ensures n in lineNumbers
    {
      lineNumbers[index]
    }

    method Next()
      modifies this
      ensures index == old(index) + 1
    {
      index := index + 1;
    }

    /** fromLines: assembles `lines` into entries, reporting into `ctx`.
        Trimming is pure, so the lines are trimmed before the rounds start
        rather than one by one as each round reads them. */
    static method FromLines(ctx: ParseContext, lines: seq<string>) returns (reader: CommandLineReader)
      requires NoBareSlash(Trimmed(lines))
      modifies ctx
      ensures fresh(reader) && reader.Valid() && reader.index == 0
      ensures reader.entries == Assemble(Trimmed(lines)).entries
      ensures reader.lineNumbers == Assemble(Trimmed(lines)).lineNumbers
      ensures ctx.diagnostics == old(ctx.diagnostics) + Assemble(Trimmed(lines)).diags
    {
      var entries, entryLineNumbers := AssembleLines(ctx, Trimmed(lines));
      AssembleFromStarts(Trimmed(lines));
      reader := new CommandLineReader(entries, entryLineNumbers);
    }

    /** The rounds of fromLines over the trimmed lines `t`. */
    static method AssembleLines(ctx: ParseContext, t: seq<string>) returns (entries: seq<string>, entryLineNumbers: seq<nat>)
      requires NoBareSlash(t)
      modifies ctx
      ensures entries == AssembleFrom(t, 0).entries && entryLineNumbers == AssembleFrom(t, 0).lineNumbers
      ensures ctx.diagnostics == old(ctx.diagnostics) + AssembleFrom(t, 0).diags
    {
      entries, entryLineNumbers := [], [];
      var i := 0;
      while i < |t|
        invariant CleanFrom(t, i)
        invariant entries + AssembleFrom(t, i).entries == AssembleFrom(t, 0).entries
        invariant entryLineNumbers + AssembleFrom(t, i).lineNumbers == AssembleFrom(t, 0).lineNumbers
        invariant ctx.diagnostics + AssembleFrom(t, i).diags == old(ctx.diagnostics) + AssembleFrom(t, 0).diags
        decreases |t| + 1 - i
      {
        entries, entryLineNumbers, i := AssembleRound(ctx, t, i, entries, entryLineNumbers);
      }
      RoundsDone(t, i, entries, entryLineNumbers, ctx.diagnostics, old(ctx.diagnostics));
    }

    /** One round of fromLines at line `i`: the kept entry, its line number and
        the reports of the logical line there are added to what has been
        collected, and the next round starts after the last line it read. */
    static method AssembleRound(ctx: ParseContext, t: seq<string>, i: nat, entries: seq<string>, numbers: seq<nat>)
      returns (entries': seq<string>, numbers': seq<nat>, next: nat)
      requires i < |t| && CleanFrom(t, i)
      modifies ctx
      ensures i < next && CleanFrom(t, next)
      ensures entries' + AssembleFrom(t, next).entries == entries + AssembleFrom(t, i).entries
      ensures numbers' + AssembleFrom(t, next).lineNumbers == numbers + AssembleFrom(t, i).lineNumbers
      ensures ctx.diagnostics + AssembleFrom(t, next).diags == old(ctx.diagnostics) + AssembleFrom(t, i).diags
    {
      ghost var before := ctx.diagnostics;
      RoundClean(t, i);
      var keep, last := NextLogicalLine(ctx, t, i);
      next := last + 1;
      RoundAppends(t, i, keep, next, entries, numbers, before);
      if keep {
        entries', numbers' := entries + [t[i]], numbers + [i];
      } else {
        entries', numbers' := entries, numbers;
      }
    }

    /** One round of fromLines: reads the logical line starting at `i`, reports
        on it, and says whether it is kept and where it ended. */
    static method NextLogicalLine(ctx: ParseContext, t: seq<string>, i: nat) returns (keep: bool, last: nat)
      requires i < |t| && !IsBareSlash(Merge(t, i).cmd)
      modifies ctx
      ensures keep == Kept(t, i) && last == Merge(t, i).last
      ensures ctx.diagnostics == old(ctx.diagnostics) + LineDiags(|t|, Merge(t, i))
    {
      var cmd;
      cmd, last := ReadLogicalLine(ctx, t, i);
      keep := CheckCommand(ctx, cmd, last);
    }

    /** The second half of one round of fromLines: skips blank and comment
        lines, reports '/'-prefixed ones on line `i`, and keeps the rest. */
    static method CheckCommand(ctx: ParseContext, cmd: string, i: nat) returns (keep: bool)
      requires !IsBareSlash(cmd)
      modifies ctx
      ensures keep <==> Classify(cmd) == Entry
      ensures ctx.diagnostics == old(ctx.diagnostics) + SlashDiags(cmd, i)
    {
      var r := Trim(cmd);
      if r == [] || r[0] == '#' {
        return false;
      }
      if r[0] == '/' {
        if r[1] == '/' {
          ctx.ReportErr(i, BadCommand(cmd));
        } else {
          ctx.ReportErr(i, ForwardSlash(cmd, ReadUnquoted(r[1..])));
        }
        return false;
      }
      return true;
    }

    /** The first half of one round of fromLines: the text of the logical line
        starting at `i`, merged through backslash continuations, and the last
        line consumed; a continuation at the end of input is reported on
        line |t|. */
    static method ReadLogicalLine(ctx: ParseContext, t: seq<string>, i: nat) returns (cmd: string, last: nat)
      requires i < |t|
      modifies ctx
      ensures cmd == Merge(t, i).cmd && last == Merge(t, i).last
      ensures ctx.diagnostics == old(ctx.diagnostics)
        + (if Merge(t, i).overrun then [Diagnostic(Error, |t|, LineContinuation)] else [])
    {
      var line := t[i];
      if !EndsWithBackslash(line) {
        return line, i;
      }
      var reader := line;
      var j := i;
      while true
        invariant i <= j < |t|
        invariant EndsWithBackslash(reader)
        invariant Absorb(t, reader, j) == Merge(t, i)
        invariant ctx.diagnostics == old(ctx.diagnostics)
        decreases |t| - j
      {
        j := j + 1;
        if j == |t| {
          ctx.ReportErr(j, LineContinuation);
          break;
        }
        reader := reader[..|reader| - 1] + t[j];
        if !EndsWithBackslash(reader) {
          break;
        }
      }
      cmd, last := reader, j;
    }
  }
}
