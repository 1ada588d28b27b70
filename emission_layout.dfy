/** The code each node lays out: what it appends to the generator, how many
    instructions that is, which labels it defines and binds, and what it
    reports. */
module EmissionLayout {
  import opened Wrappers
  import opened Instructions
  import opened Linkables
  import opened CodeGen
  import opened Diagnostics
  import opened Ast
  import opened Emission
  import opened EmissionProps
  import opened EmissionLinks

  // ---------------------------------------------------------------------
  // Leaves
  // ---------------------------------------------------------------------

  /** CommandAST, ExitAST, ReturnAST and SubroutineReturnAST each emit one
      instruction that references no label, and define, bind and report
      nothing. */
  lemma LeafEmitsOne(n: Node, st: EmitState, breakExit: Option<Label>)
    requires n.Command? || n.Exit? || n.Return? || n.SubroutineReturn?
    ensures Emit(n, st, breakExit).Done?
    ensures var r := Emit(n, st, breakExit).st;
      |r.gen.items| == |st.gen.items| + 1 && r.gen.items[..|st.gen.items|] == st.gen.items
      && !r.gen.items[|st.gen.items|].Bind? && !r.gen.items[|st.gen.items|].Deferred?
      && InstrCount(r.gen.items) == InstrCount(st.gen.items) + 1
      && r.gen.labels == st.gen.labels && r.subs == st.subs && r.diags == st.diags
  {
    var r := Emit(n, st, breakExit).st;
    assert r.gen.items[..|st.gen.items|] == st.gen.items;
  }

  /** A command is emitted as the plain instruction of its action. */
  lemma CommandEmitsAction(a: Action, st: EmitState, breakExit: Option<Label>)
    ensures Emit(Command(a), st, breakExit).Done?
    ensures var r := Emit(Command(a), st, breakExit).st;
      LinkItems(NewItems(st, r), []) == Some([PlainInstr(a)])
  {
    var r := Emit(Command(a), st, breakExit).st;
    var xs := [Plain(a)];
    assert NewItems(st, r) == xs;
    assert xs[..|xs| - 1] == [];
    assert LinkItems(xs, []) == Some([] + [PlainInstr(a)]);
    assert [] + [PlainInstr(a)] == [PlainInstr(a)];
    assert LinkItems(NewItems(st, r), []) == Some([PlainInstr(a)]);
  }

  /** `return` and `subroutine_return` emit different instructions, and
      `exit` emits the unconditional branch to the end of the function. */
  lemma ReturnsDiffer(st: EmitState, breakExit: Option<Label>)
    ensures Emit(Return, st, breakExit).st.gen.items[|st.gen.items|]
         != Emit(SubroutineReturn, st, breakExit).st.gen.items[|st.gen.items|]
    ensures Emit(Exit, st, breakExit).st.gen.items[|st.gen.items|] == Control(BranchInstr(MaxInt))
  {
  }

  /** BreakAST emits nothing; it reports one error at its own line exactly
      when there is no enclosing break target. */
  lemma BreakReports(line: nat, st: EmitState, breakExit: Option<Label>)
    ensures Emit(Break(line), st, breakExit).Done?
    ensures Emit(Break(line), st, breakExit).st.gen == st.gen
    ensures Emit(Break(line), st, breakExit).st.subs == st.subs
    ensures breakExit.None? ==>
      Emit(Break(line), st, breakExit).st.diags == st.diags + [Diagnostic(Error, line, BadBreak)]
    ensures breakExit.Some? ==> Emit(Break(line), st, breakExit).st.diags == st.diags
  {
  }

  /** SubroutineCallAST succeeds exactly when the name is in the table; it
      then emits one deferred instruction whose only target is the name's
      label, and which links to a subroutine call at that label's offset. */
  lemma CallEmits(name: string, line: nat, st: EmitState, breakExit: Option<Label>)
    ensures Emit(SubroutineCall(name, line), st, breakExit).Done? <==> name in st.subs
    ensures name in st.subs ==>
      var r := Emit(SubroutineCall(name, line), st, breakExit).st;
      NewItems(st, r) == [Deferred(Linkable([st.subs[name]], GenSubroutineCall(st.subs[name])))]
      && r.gen.labels == st.gen.labels && r.subs == st.subs && r.diags == st.diags
      && forall arena: Arena :: Bound(arena, st.subs[name]) ==>
           Link(NewItems(st, r)[0].linkable, arena) == Some(SubroutineCallInstr(arena[st.subs[name]].value))
  {
    if name in st.subs {
      var r := Emit(SubroutineCall(name, line), st, breakExit).st;
      assert r.gen.items[..|st.gen.items|] == st.gen.items;
    }
  }

  // ---------------------------------------------------------------------
  // run and loop
  // ---------------------------------------------------------------------

  /** Three items of which only the middle one is a bind hold two instructions. */
  lemma InstrCountAroundBind(x: Item, b: Item, y: Item)
    requires !x.Bind? && b.Bind? && !y.Bind?
    ensures InstrCount([x, b, y]) == 2
  {
    InstrCountAppend([x], [b, y]);
    InstrCountAppend([b], [y]);
    assert [x] + [b, y] == [x, b, y];
    assert [b] + [y] == [b, y];
    assert [x][..0] == [] && [b][..0] == [] && [y][..0] == [];
  }

  /** RunAST's items before the body: the selector push, `begin` bound, the
      pop that branches to `exit`. */
  function RunHead(selector: Option<Action>, begin: Label): seq<Item>
  {
    [PushAndMatch(RunPush, selector), Bind(begin), PopOrBranch(RunPop, begin + 1)]
  }

  /** RunAST's items after the body: the branch back to `begin`, `exit`
      bound, the cleanup. */
  function RunTail(begin: Label): seq<Item>
  {
    [Deferred(Branch(begin)), Bind(begin + 1), Control(Named(RunCleanup, Cleanup))]
  }

  /** `g` ends with a `run` laid out after `pre` with labels from `L`: the
      head, the body's items and the tail, four instructions of the run's
      own; `begin` bound to the pop and `exit` to the cleanup, the last
      instruction. */
  predicate RunLaidOut(pre: seq<Item>, L: Label, selector: Option<Action>, bodyItems: seq<Item>, g: GenState)
  {
    var c := InstrCount(pre);
    var n := InstrCount(bodyItems);
    g.items == pre + RunHead(selector, L) + bodyItems + RunTail(L)
    && InstrCount(g.items) == c + n + 4
    && L + 1 < |g.labels|
    && g.labels[L] == LabelSlot(RunBeginName, Some(c + 1))
    && g.labels[L + 1] == LabelSlot(RunExitName, Some(c + n + 3))
  }

  /** A `run` that emits lays out its head, its body's code and its tail,
      in that order, with the two labels it defines bound as `RunLaidOut`
      says. */
  lemma {:induction false} RunLayout(body: Node, selector: Option<Action>, st: EmitState, breakExit: Option<Label>)
    requires Wf(st) && Statement(body)
    ensures EmitRun(body, selector, st, breakExit).Done? ==>
      Emit(body, RunEntry(st, selector), breakExit).Done?
      && RunLaidOut(st.gen.items, |st.gen.labels|, selector,
                    NewItems(RunEntry(st, selector), Emit(body, RunEntry(st, selector), breakExit).st),
                    EmitRun(body, selector, st, breakExit).st.gen)
  {
    RunTemplate(body, selector, st, breakExit);
    if EmitRun(body, selector, st, breakExit).Done? {
      var st5 := RunEntry(st, selector);
      RunEntryFacts(st, selector);
      EmitGrows(body, st5, breakExit);
      var st6 := Emit(body, st5, breakExit).st;
      RunBodyFrame(st, selector, st6);
      RunSurrounds(st, selector, st6);
    }
  }

  /** The items and labels of RunFinish around a body that extends RunEntry. */
  lemma RunSurrounds(st: EmitState, selector: Option<Action>, st6: EmitState)
    requires Extends(RunEntry(st, selector).gen, st6.gen)
    requires |st.gen.labels| + 1 < |st6.gen.labels|
    ensures RunLaidOut(st.gen.items, |st.gen.labels|, selector, NewItems(RunEntry(st, selector), st6),
                       RunFinish(st6, |st.gen.labels|).gen)
  {
    var L := |st.gen.labels|;
    var g5 := RunEntry(st, selector).gen;
    RunEntryLayout(st, selector);
    RunFinishLayout(st6, L);
    assert st6.gen.labels[L] == LabelSlot(RunBeginName, Some(InstrCount(st.gen.items) + 1));
    RunWrapLayout(st.gen.items, L, selector, g5.items, st6.gen, RunFinish(st6, L).gen);
  }

  /** The `run` layout from the shapes of its head and tail. */
  lemma RunWrapLayout(pre: seq<Item>, L: Label, selector: Option<Action>, entry: seq<Item>, g6: GenState, fin: GenState)
    requires entry == pre + RunHead(selector, L) && InstrCount(RunHead(selector, L)) == 2
    requires |entry| <= |g6.items| && g6.items[..|entry|] == entry
    requires fin.items == g6.items + RunTail(L) && InstrCount(RunTail(L)) == 2
    requires L + 1 < |fin.labels|
    requires fin.labels[L] == LabelSlot(RunBeginName, Some(InstrCount(pre) + 1))
    requires fin.labels[L + 1] == LabelSlot(RunExitName, Some(InstrCount(g6.items) + 1))
    ensures RunLaidOut(pre, L, selector, g6.items[|entry|..], fin)
  {
    var bodyItems := g6.items[|entry|..];
    assert g6.items == entry + bodyItems;
    CountAround(pre, RunHead(selector, L), bodyItems, RunTail(L));
  }

  /** The instruction count of a body between a head and a tail is the sum of the parts'. */
  lemma CountAround(pre: seq<Item>, head: seq<Item>, body: seq<Item>, tail: seq<Item>)
    ensures InstrCount(pre + head + body) == InstrCount(pre) + InstrCount(head) + InstrCount(body)
    ensures InstrCount(pre + head + body + tail) == InstrCount(pre) + InstrCount(head) + InstrCount(body) + InstrCount(tail)
  {
    InstrCountAppend(pre, head);
    InstrCountAppend(pre + head, body);
    InstrCountAppend(pre + head + body, tail);
  }

  /** RunEntry appends the head, two instructions, and binds `begin` after the push. */
  lemma RunEntryLayout(st: EmitState, selector: Option<Action>)
    ensures var L := |st.gen.labels|; var g5 := RunEntry(st, selector).gen;
      g5.items == st.gen.items + RunHead(selector, L) && InstrCount(RunHead(selector, L)) == 2
      && g5.labels[L] == LabelSlot(RunBeginName, Some(InstrCount(st.gen.items) + 1))
  {
    var L := |st.gen.labels|;
    InstrCountAroundBind(PushAndMatch(RunPush, selector), Bind(L), PopOrBranch(RunPop, L + 1));
  }

  /** RunFinish appends the tail, two instructions, and binds `exit` to the
      cleanup; `begin` keeps its slot. */
  lemma RunFinishLayout(st6: EmitState, L: Label)
    requires L + 1 < |st6.gen.labels|
    ensures var r := RunFinish(st6, L).gen;
      r.items == st6.gen.items + RunTail(L) && InstrCount(RunTail(L)) == 2
      && |r.labels| == |st6.gen.labels| && r.labels[L] == st6.gen.labels[L]
      && r.labels[L + 1] == LabelSlot(RunExitName, Some(InstrCount(st6.gen.items) + 1))
  {
    InstrCountAroundBind(Deferred(Branch(L)), Bind(L + 1), Control(Named(RunCleanup, Cleanup)));
  }

  /** LoopAST's items before the body: the push of `end`'s address,
      `wrapper` bound to the selector push, `begin` bound to the pop that
      branches to `exit`. */
  function LoopOpening(selector: Option<Action>, wrapper: Label): seq<Item>
  {
    [Deferred(PushInstrAddr(wrapper + 3)), Bind(wrapper), PushAndMatch(LoopPush, selector),
     Bind(wrapper + 1), PopOrBranch(LoopPop, wrapper + 2)]
  }

  /** LoopAST's items after the body: the recursive call of `wrapper`, the
      branch back to `begin`, `exit` bound to the function exit, `end` bound
      after it. */
  function LoopClosing(wrapper: Label): seq<Item>
  {
    [Deferred(Call(wrapper)), Deferred(Branch(wrapper + 1)), Bind(wrapper + 2),
     Control(Named(LoopFunctionExit, FunctionExit)), Bind(wrapper + 3)]
  }

  /** Five items holding three instructions, the binds second and fourth. */
  lemma InstrCountOpening(x: Item, b1: Item, y: Item, b2: Item, z: Item)
    requires !x.Bind? && b1.Bind? && !y.Bind? && b2.Bind? && !z.Bind?
    ensures InstrCount([x, b1, y, b2, z]) == 3
  {
    InstrCountAroundBind(x, b1, y);
    InstrCountAppend([x, b1, y], [b2, z]);
    assert [x, b1, y] + [b2, z] == [x, b1, y, b2, z];
    InstrCountAppend([b2], [z]);
    assert [b2] + [z] == [b2, z];
    assert [b2][..0] == [] && [z][..0] == [];
  }

  /** Five items holding three instructions, the binds third and fifth. */
  lemma InstrCountClosing(x: Item, y: Item, b1: Item, z: Item, b2: Item)
    requires !x.Bind? && !y.Bind? && b1.Bind? && !z.Bind? && b2.Bind?
    ensures InstrCount([x, y, b1, z, b2]) == 3
  {
    InstrCountAroundBind(y, b1, z);
    InstrCountAppend([x], [y, b1, z]);
    assert [x] + [y, b1, z] == [x, y, b1, z];
    assert [x][..0] == [];
    assert [x, y, b1, z, b2][..4] == [x, y, b1, z];
  }

  /** `g` ends with a `loop` laid out after `pre` with labels from `L`:
      the opening, the body's items and the closing, six instructions of the
      loop's own; `wrapper` bound to the selector push, `begin` to the pop,
      `exit` to the function exit and `end` after the last instruction,
      which is the address the opening pushes. */
  predicate LoopLaidOut(pre: seq<Item>, L: Label, selector: Option<Action>, bodyItems: seq<Item>, g: GenState)
  {
    var c := InstrCount(pre);
    var n := InstrCount(bodyItems);
    g.items == pre + LoopOpening(selector, L) + bodyItems + LoopClosing(L)
    && InstrCount(g.items) == c + n + 6
    && L + 3 < |g.labels|
    && g.labels[L] == LabelSlot(LoopWrapperName, Some(c + 1))
    && g.labels[L + 1] == LabelSlot(LoopBeginName, Some(c + 2))
    && g.labels[L + 2] == LabelSlot(LoopExitName, Some(c + n + 5))
    && g.labels[L + 3] == LabelSlot(LoopEndName, Some(c + n + 6))
  }

  /** A `loop` that emits lays out its opening, its body's code and its
      closing, in that order, with the four labels it defines bound as
      `LoopLaidOut` says. */
  lemma {:induction false} LoopLayout(body: Node, selector: Option<Action>, st: EmitState, breakExit: Option<Label>)
    requires Wf(st) && Statement(body)
    ensures EmitLoop(body, selector, st, breakExit).Done? ==>
      Emit(body, LoopEntry(st, selector), breakExit).Done?
      && LoopLaidOut(st.gen.items, |st.gen.labels|, selector,
                     NewItems(LoopEntry(st, selector), Emit(body, LoopEntry(st, selector), breakExit).st),
                     EmitLoop(body, selector, st, breakExit).st.gen)
  {
    LoopTemplate(body, selector, st, breakExit);
    if EmitLoop(body, selector, st, breakExit).Done? {
      var st9 := LoopEntry(st, selector);
      LoopEntryFacts(st, selector);
      EmitGrows(body, st9, breakExit);
      var st10 := Emit(body, st9, breakExit).st;
      LoopBodyFrame(st, selector, st10);
      LoopSurrounds(st, selector, st10);
    }
  }

  /** The items and labels of LoopFinish around a body that extends LoopEntry. */
  lemma LoopSurrounds(st: EmitState, selector: Option<Action>, st10: EmitState)
    requires Extends(LoopEntry(st, selector).gen, st10.gen)
    requires |st.gen.labels| + 3 < |st10.gen.labels|
    ensures LoopLaidOut(st.gen.items, |st.gen.labels|, selector, NewItems(LoopEntry(st, selector), st10),
                        LoopFinish(st10, |st.gen.labels|).gen)
  {
    var L := |st.gen.labels|;
    LoopSurroundItems(st, selector, st10);
    LoopSurroundLabels(st, selector, st10);
    LoopWrapLayout(st.gen.items, L, selector, LoopEntry(st, selector).gen.items, st10.gen, LoopFinish(st10, L).gen);
  }

  /** Around a body that extends LoopEntry, the items are the opening, the
      body's and the closing, in that order. */
  lemma LoopSurroundItems(st: EmitState, selector: Option<Action>, st10: EmitState)
    requires Extends(LoopEntry(st, selector).gen, st10.gen)
    requires |st.gen.labels| + 3 < |st10.gen.labels|
    ensures var L := |st.gen.labels|; var entry := LoopEntry(st, selector).gen.items;
      entry == st.gen.items + LoopOpening(selector, L) && InstrCount(LoopOpening(selector, L)) == 3
      && |entry| <= |st10.gen.items| && st10.gen.items[..|entry|] == entry
      && LoopFinish(st10, L).gen.items == st10.gen.items + LoopClosing(L) && InstrCount(LoopClosing(L)) == 3
  {
    LoopEntryLayout(st, selector);
    LoopFinishLayout(st10, |st.gen.labels|);
  }

  /** Around a body that extends LoopEntry, the four loop labels are bound
      where LoopEntry and LoopFinish bind them. */
  lemma LoopSurroundLabels(st: EmitState, selector: Option<Action>, st10: EmitState)
    requires Extends(LoopEntry(st, selector).gen, st10.gen)
    requires |st.gen.labels| + 3 < |st10.gen.labels|
    ensures var L := |st.gen.labels|; var c := InstrCount(st.gen.items); var fin := LoopFinish(st10, L).gen;
      L + 3 < |fin.labels|
      && fin.labels[L] == LabelSlot(LoopWrapperName, Some(c + 1))
      && fin.labels[L + 1] == LabelSlot(LoopBeginName, Some(c + 2))
      && fin.labels[L + 2] == LabelSlot(LoopExitName, Some(InstrCount(st10.gen.items) + 2))
      && fin.labels[L + 3] == LabelSlot(LoopEndName, Some(InstrCount(st10.gen.items) + 3))
  {
    var L := |st.gen.labels|;
    var g9 := LoopEntry(st, selector).gen;
    LoopEntryLayout(st, selector);
    LoopFinishLayout(st10, L);
    ExtendsKeepsBound(g9, st10.gen, L);
    ExtendsKeepsBound(g9, st10.gen, L + 1);
  }

  /** The `loop` layout from the shapes of its opening and closing. */
  lemma LoopWrapLayout(pre: seq<Item>, L: Label, selector: Option<Action>, entry: seq<Item>, g10: GenState, fin: GenState)
    requires entry == pre + LoopOpening(selector, L) && InstrCount(LoopOpening(selector, L)) == 3
    requires |entry| <= |g10.items| && g10.items[..|entry|] == entry
    requires fin.items == g10.items + LoopClosing(L) && InstrCount(LoopClosing(L)) == 3
    requires L + 3 < |fin.labels|
    requires fin.labels[L] == LabelSlot(LoopWrapperName, Some(InstrCount(pre) + 1))
    requires fin.labels[L + 1] == LabelSlot(LoopBeginName, Some(InstrCount(pre) + 2))
    requires fin.labels[L + 2] == LabelSlot(LoopExitName, Some(InstrCount(g10.items) + 2))
    requires fin.labels[L + 3] == LabelSlot(LoopEndName, Some(InstrCount(g10.items) + 3))
    ensures LoopLaidOut(pre, L, selector, g10.items[|entry|..], fin)
  {
    var bodyItems := g10.items[|entry|..];
    assert g10.items == entry + bodyItems;
    CountAround(pre, LoopOpening(selector, L), bodyItems, LoopClosing(L));
  }

  /** LoopEntry appends the opening, three instructions, and binds `wrapper`
      and `begin`. */
  lemma LoopEntryLayout(st: EmitState, selector: Option<Action>)
    ensures var L := |st.gen.labels|; var c := InstrCount(st.gen.items); var g9 := LoopEntry(st, selector).gen;
      g9.items == st.gen.items + LoopOpening(selector, L) && InstrCount(LoopOpening(selector, L)) == 3
      && g9.labels[L] == LabelSlot(LoopWrapperName, Some(c + 1))
      && g9.labels[L + 1] == LabelSlot(LoopBeginName, Some(c + 2))
  {
    var L := |st.gen.labels|;
    InstrCountOpening(Deferred(PushInstrAddr(L + 3)), Bind(L), PushAndMatch(LoopPush, selector),
                      Bind(L + 1), PopOrBranch(LoopPop, L + 2));
  }

  /** LoopFinish appends the closing, three instructions, and binds `exit`
      and `end`; `wrapper` and `begin` keep their slots. */
  lemma LoopFinishLayout(st10: EmitState, L: Label)
    requires L + 3 < |st10.gen.labels|
    ensures var r := LoopFinish(st10, L).gen; var c := InstrCount(st10.gen.items);
      r.items == st10.gen.items + LoopClosing(L) && InstrCount(LoopClosing(L)) == 3
      && |r.labels| == |st10.gen.labels| && r.labels[L] == st10.gen.labels[L]
      && r.labels[L + 1] == st10.gen.labels[L + 1]
      && r.labels[L + 2] == LabelSlot(LoopExitName, Some(c + 2))
      && r.labels[L + 3] == LabelSlot(LoopEndName, Some(c + 3))
  {
    InstrCountClosing(Deferred(Call(L)), Deferred(Branch(L + 1)), Bind(L + 2),
                      Control(Named(LoopFunctionExit, FunctionExit)), Bind(L + 3));
  }

  // ---------------------------------------------------------------------
  // Subroutine definitions and blocks
  // ---------------------------------------------------------------------

  /** A subroutine definition that emits binds its table entry to its first
      body instruction, then lays out the body and one subroutine return. */
  lemma {:induction false} DefinitionLayout(s: Subroutine, st: EmitState, breakExit: Option<Label>)
    requires Wf(st) && Statement(s.body)
    ensures EmitDefinition(s, st, breakExit).Done? ==>
      s.name in st.subs
      && var e := st.subs[s.name];
         var st1 := BindAt(st, e).st;
         var r := EmitDefinition(s, st, breakExit).st;
         BindAt(st, e).Done? && Emit(s.body, st1, breakExit).Done?
         && var bodyItems := NewItems(st1, Emit(s.body, st1, breakExit).st);
         r.gen.items == st.gen.items + [Bind(e)] + bodyItems + [Control(SubroutineRetInstr)]
         && InstrCount(r.gen.items) == InstrCount(st.gen.items) + InstrCount(bodyItems) + 1
         && e < |r.gen.labels| && r.gen.labels[e] == LabelSlot(st.gen.labels[e].name, Some(InstrCount(st.gen.items)))
  {
    if EmitDefinition(s, st, breakExit).Done? {
      var e := st.subs[s.name];
      BindStep(st, e, |st.gen.labels|);
      var st1 := BindAt(st, e).st;
      EmitGrows(s.body, st1, breakExit);
      var st2 := Emit(s.body, st1, breakExit).st;
      DefinitionSurrounds(st, e, st1, st2);
    }
  }

  lemma DefinitionSurrounds(st: EmitState, e: Label, st1: EmitState, st2: EmitState)
    requires BindAt(st, e).Done? && st1 == BindAt(st, e).st && Extends(st1.gen, st2.gen)
    ensures var r := Put(st2, Control(SubroutineRetInstr));
      var bodyItems := NewItems(st1, st2);
      r.gen.items == st.gen.items + [Bind(e)] + bodyItems + [Control(SubroutineRetInstr)]
      && InstrCount(r.gen.items) == InstrCount(st.gen.items) + InstrCount(bodyItems) + 1
      && e < |r.gen.labels| && r.gen.labels[e] == LabelSlot(st.gen.labels[e].name, Some(InstrCount(st.gen.items)))
  {
    var bodyItems := st2.gen.items[|st1.gen.items|..];
    assert st2.gen.items == st1.gen.items + bodyItems;
    assert [Bind(e)][..0] == [] && [Control(SubroutineRetInstr)][..0] == [];
    CountAround(st.gen.items, [Bind(e)], bodyItems, [Control(SubroutineRetInstr)]);
  }

  /** BlockAST emits its children in order: a block split in two emits the
      second part from where the first left off, and a crash in the first
      part ends emission. */
  lemma {:induction false} EmitAllAppend(xs: seq<Node>, ys: seq<Node>, st: EmitState, breakExit: Option<Label>)
    ensures EmitAll(xs + ys, st, breakExit)
         == match EmitAll(xs, st, breakExit)
            case Crash => Crash
            case Done(st1) => EmitAll(ys, st1, breakExit)
    decreases |xs|
  {
    if xs == [] {
      assert xs + ys == ys;
    } else {
      assert (xs + ys)[0] == xs[0] && (xs + ys)[1..] == xs[1..] + ys;
      match Emit(xs[0], st, breakExit)
      case Crash =>
      case Done(st1) => EmitAllAppend(xs[1..], ys, st1, breakExit);
    }
  }
}
