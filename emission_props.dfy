/** What the emit functions guarantee: emission only extends the generator
    and keeps its invariant, each `run`/`loop` expands to its fixed template
    around the body, every deferred instruction of a successful emission
    has its targets bound (so `define` links), and a subroutine defined
    twice makes emission fail. */
module EmissionProps {
  import opened Wrappers
  import opened Instructions
  import opened Linkables
  import opened CodeGen
  import opened Diagnostics
  import opened Ast
  import opened Emission

  /** The generator invariant, and every subroutine label exists. */
  predicate Wf(st: EmitState)
  {
    Consistent(st.gen) && forall name :: name in st.subs ==> st.subs[name] < |st.gen.labels|
  }

  /** `st2` continues `st1`: the generator only grew, the subroutine table is
      the same, diagnostics were only appended, and every label below `lim`
      that was unbound and is no subroutine entry is still unbound. */
  predicate Grows(st1: EmitState, st2: EmitState, lim: nat)
  {
    lim <= |st1.gen.labels| && Extends(st1.gen, st2.gen) && st2.subs == st1.subs
    && |st1.diags| <= |st2.diags| && st2.diags[..|st1.diags|] == st1.diags
    && forall l :: 0 <= l < lim && st1.gen.labels[l].offset.None? && l !in st1.subs.Values ==>
         st2.gen.labels[l].offset.None?
  }

  lemma GrowsRefl(st: EmitState, lim: nat)
    requires lim <= |st.gen.labels|
    ensures Grows(st, st, lim)
  {
    assert st.gen.items[..|st.gen.items|] == st.gen.items;
    assert st.diags[..|st.diags|] == st.diags;
  }

  lemma GrowsTrans(a: EmitState, b: EmitState, c: EmitState, lim: nat)
    requires Grows(a, b, lim) && Grows(b, c, lim)
    ensures Grows(a, c, lim)
  {
    ExtendsTransitive(a.gen, b.gen, c.gen);
    assert c.diags[..|a.diags|] == c.diags[..|b.diags|][..|a.diags|];
  }

  // ---------------------------------------------------------------------
  // Single steps
  // ---------------------------------------------------------------------

  lemma DefineStep(st: EmitState, name: string)
    requires Wf(st)
    ensures Wf(Define(st, name).0) && Grows(st, Define(st, name).0, |st.gen.labels|)
    ensures Define(st, name).1 == |st.gen.labels|
    ensures Define(st, name).0.gen == GenState(st.gen.items, st.gen.labels + [LabelSlot(name, None)])
  {
    AddLabelPreserves(st.gen, name);
    GrowsRefl(st, |st.gen.labels|);
  }

  lemma PutStep(st: EmitState, it: Item)
    requires Wf(st) && !it.Bind?
    ensures Wf(Put(st, it)) && Grows(st, Put(st, it), |st.gen.labels|)
  {
    AppendPreserves(st.gen, it);
    assert st.diags[..|st.diags|] == st.diags;
  }

  /** Binding a label at or above `lim`, or a subroutine entry. */
  lemma BindStep(st: EmitState, l: Label, lim: nat)
    requires Wf(st) && lim <= |st.gen.labels| && (l >= lim || l in st.subs.Values)
    ensures BindAt(st, l).Done? ==> Wf(BindAt(st, l).st) && Grows(st, BindAt(st, l).st, lim)
  {
    if BindAt(st, l).Done? {
      BindLabelPreserves(st.gen, l);
      assert st.diags[..|st.diags|] == st.diags;
    }
  }

  lemma ReportStep(st: EmitState, line: nat, m: Message)
    requires Wf(st)
    ensures Wf(ReportErr(st, line, m)) && Grows(st, ReportErr(st, line, m), |st.gen.labels|)
    ensures ReportErr(st, line, m).gen == st.gen
  {
    GrowsRefl(st, |st.gen.labels|);
  }

  // ---------------------------------------------------------------------
  // The frame of emission
  // ---------------------------------------------------------------------

  /** Emitting a statement keeps the generator invariant and only extends
      the state; it never binds a label that existed before unless it is a
      subroutine entry. */
  lemma {:induction false} EmitGrows(n: Node, st: EmitState, breakExit: Option<Label>)
    requires Wf(st) && Statement(n)
    ensures Emit(n, st, breakExit).Done? ==>
      Wf(Emit(n, st, breakExit).st) && Grows(st, Emit(n, st, breakExit).st, |st.gen.labels|)
    decreases n, 2
  {
    match n
    case Block(children) => EmitAllGrows(children, st, breakExit);
    case Command(a) => PutStep(st, Plain(a));
    case Exit => PutStep(st, Control(ExitBranch));
    case Return => PutStep(st, Control(RetInstr));
    case SubroutineReturn => PutStep(st, Control(SubroutineRetInstr));
    case Break(line) =>
      if breakExit.None? {
        ReportStep(st, line, BadBreak);
      } else {
        GrowsRefl(st, |st.gen.labels|);
      }
    case Run(body, selector) => EmitRunGrows(body, selector, st, breakExit);
    case Loop(body, selector) => EmitLoopGrows(body, selector, st, breakExit);
    case SubroutineCall(name, _) =>
      if name in st.subs {
        PutStep(st, CallTo(st.subs[name]));
      }
    case Definition(s) => EmitDefinitionGrows(s, st, breakExit);
    case TopLevel(_, _) => assert false;
  }

  lemma {:induction false} EmitAllGrows(ns: seq<Node>, st: EmitState, breakExit: Option<Label>)
    requires Wf(st) && forall k :: 0 <= k < |ns| ==> Statement(ns[k])
    ensures EmitAll(ns, st, breakExit).Done? ==>
      Wf(EmitAll(ns, st, breakExit).st) && Grows(st, EmitAll(ns, st, breakExit).st, |st.gen.labels|)
    decreases ns, 1
  {
    if ns == [] {
      GrowsRefl(st, |st.gen.labels|);
    } else {
      EmitGrows(ns[0], st, breakExit);
      if Emit(ns[0], st, breakExit).Done? {
        var st1 := Emit(ns[0], st, breakExit).st;
        EmitAllGrows(ns[1..], st1, breakExit);
        if EmitAll(ns[1..], st1, breakExit).Done? {
          GrowsTrans(st, st1, EmitAll(ns[1..], st1, breakExit).st, |st.gen.labels|);
        }
      }
    }
  }

  lemma {:induction false} EmitRunGrows(body: Node, selector: Option<Action>, st: EmitState, breakExit: Option<Label>)
    requires Wf(st) && Statement(body)
    ensures EmitRun(body, selector, st, breakExit).Done? ==>
      Wf(EmitRun(body, selector, st, breakExit).st) && Grows(st, EmitRun(body, selector, st, breakExit).st, |st.gen.labels|)
    decreases body, 4
  {
    RunTemplate(body, selector, st, breakExit);
    var st5 := RunEntry(st, selector);
    RunEntryFacts(st, selector);
    EmitGrows(body, st5, breakExit);
    if Emit(body, st5, breakExit).Done? {
      RunAround(st, st5, Emit(body, st5, breakExit).st);
    }
  }

  /** The body of a run, emitted from `RunEntry`, then closed by `RunFinish`. */
  lemma RunAround(st: EmitState, st5: EmitState, st6: EmitState)
    requires Wf(st) && Wf(st5) && Wf(st6)
    requires Grows(st, st5, |st.gen.labels|) && Grows(st5, st6, |st5.gen.labels|)
    requires |st5.gen.labels| == |st.gen.labels| + 2
    requires st5.gen.labels[|st.gen.labels| + 1] == LabelSlot(RunExitName, None)
    ensures Wf(RunFinish(st6, |st.gen.labels|)) && Grows(st, RunFinish(st6, |st.gen.labels|), |st.gen.labels|)
  {
    var L := |st.gen.labels|;
    GrowsTrans(st, st5, st6, L);
    assert L + 1 !in st6.subs.Values;
    RunFinishFacts(st6, L, L);
    GrowsTrans(st, st6, RunFinish(st6, L), L);
  }

  lemma {:induction false} EmitLoopGrows(body: Node, selector: Option<Action>, st: EmitState, breakExit: Option<Label>)
    requires Wf(st) && Statement(body)
    ensures EmitLoop(body, selector, st, breakExit).Done? ==>
      Wf(EmitLoop(body, selector, st, breakExit).st) && Grows(st, EmitLoop(body, selector, st, breakExit).st, |st.gen.labels|)
    decreases body, 4
  {
    LoopTemplate(body, selector, st, breakExit);
    var st9 := LoopEntry(st, selector);
    LoopEntryFacts(st, selector);
    EmitGrows(body, st9, breakExit);
    if Emit(body, st9, breakExit).Done? {
      LoopAround(st, st9, Emit(body, st9, breakExit).st);
    }
  }

  /** The body of a loop, emitted from `LoopEntry`, then closed by `LoopFinish`. */
  lemma LoopAround(st: EmitState, st9: EmitState, st10: EmitState)
    requires Wf(st) && Wf(st9) && Wf(st10)
    requires Grows(st, st9, |st.gen.labels|) && Grows(st9, st10, |st9.gen.labels|)
    requires |st9.gen.labels| == |st.gen.labels| + 4
    requires st9.gen.labels[|st.gen.labels| + 2] == LabelSlot(LoopExitName, None)
    requires st9.gen.labels[|st.gen.labels| + 3] == LabelSlot(LoopEndName, None)
    ensures Wf(LoopFinish(st10, |st.gen.labels|)) && Grows(st, LoopFinish(st10, |st.gen.labels|), |st.gen.labels|)
  {
    var L := |st.gen.labels|;
    GrowsTrans(st, st9, st10, L);
    assert L + 2 !in st10.subs.Values && L + 3 !in st10.subs.Values;
    LoopFinishFacts(st10, L, L);
    GrowsTrans(st, st10, LoopFinish(st10, L), L);
  }

  // ---------------------------------------------------------------------
  // The run/loop templates
  // ---------------------------------------------------------------------

  /** The state in which a `run` body starts: labels `begin` (the next free
      one) and `exit` defined, the push, `begin` bound to the pop that
      follows it, and the pop targeting `exit`. */
  function RunEntry(st: EmitState, selector: Option<Action>): EmitState
  {
    var begin := |st.gen.labels|;
    var c := InstrCount(st.gen.items);
    st.(gen := GenState(
      st.gen.items + [PushAndMatch(RunPush, selector), Bind(begin), PopOrBranch(RunPop, begin + 1)],
      st.gen.labels + [LabelSlot(RunBeginName, Some(c + 1)), LabelSlot(RunExitName, None)]))
  }

  /** The state after a `run` whose body left `st`: a branch back to
      `begin`, `exit` bound to the cleanup that follows it. */
  function RunFinish(st: EmitState, begin: Label): EmitState
  {
    var c := InstrCount(st.gen.items);
    var exit := begin + 1;
    st.(gen := GenState(
      st.gen.items + [Deferred(Branch(begin)), Bind(exit), Control(Named(RunCleanup, Cleanup))],
      if exit < |st.gen.labels| then st.gen.labels[exit := LabelSlot(RunExitName, Some(c + 1))] else st.gen.labels))
  }

  /** The opening steps of RunAST compute `RunEntry`. */
  lemma RunEntryShape(st: EmitState, selector: Option<Action>)
    ensures var st3 := Put(Define(Define(st, RunBeginName).0, RunExitName).0, PushAndMatch(RunPush, selector));
      BindAt(st3, |st.gen.labels|).Done?
      && Put(BindAt(st3, |st.gen.labels|).st, PopOrBranch(RunPop, |st.gen.labels| + 1)) == RunEntry(st, selector)
  {
    var L := |st.gen.labels|;
    var st3 := Put(Define(Define(st, RunBeginName).0, RunExitName).0, PushAndMatch(RunPush, selector));
    assert st3.gen.items[..|st3.gen.items| - 1] == st.gen.items;
    assert InstrCount(st3.gen.items) == InstrCount(st.gen.items) + 1;
    assert st3.gen.labels == st.gen.labels + [LabelSlot(RunBeginName, None), LabelSlot(RunExitName, None)];
    var st4 := BindAt(st3, L).st;
    assert st4.gen.labels == st.gen.labels + [LabelSlot(RunBeginName, Some(InstrCount(st.gen.items) + 1)), LabelSlot(RunExitName, None)];
    assert st4.gen.items + [PopOrBranch(RunPop, L + 1)]
        == st.gen.items + [PushAndMatch(RunPush, selector), Bind(L), PopOrBranch(RunPop, L + 1)];
  }

  lemma RunEntryFacts(st: EmitState, selector: Option<Action>)
    requires Wf(st)
    ensures Wf(RunEntry(st, selector)) && Grows(st, RunEntry(st, selector), |st.gen.labels|)
    ensures |RunEntry(st, selector).gen.labels| == |st.gen.labels| + 2
    ensures RunEntry(st, selector).gen.labels[|st.gen.labels| + 1] == LabelSlot(RunExitName, None)
  {
    var L := |st.gen.labels|;
    var st1 := Define(st, RunBeginName).0;
    DefineStep(st, RunBeginName);
    var st2 := Define(st1, RunExitName).0;
    DefineStep(st1, RunExitName);
    GrowsTrans(st, st1, st2, L);
    var st3 := Put(st2, PushAndMatch(RunPush, selector));
    PutStep(st2, PushAndMatch(RunPush, selector));
    GrowsTrans(st, st2, st3, L);
    RunEntryShape(st, selector);
    BindStep(st3, L, L);
    var st4 := BindAt(st3, L).st;
    GrowsTrans(st, st3, st4, L);
    PutStep(st4, PopOrBranch(RunPop, L + 1));
    GrowsTrans(st, st4, RunEntry(st, selector), L);
  }

  lemma RunFinishFacts(st: EmitState, begin: Label, lim: nat)
    requires Wf(st) && lim <= begin && begin + 1 < |st.gen.labels|
    requires st.gen.labels[begin + 1] == LabelSlot(RunExitName, None)
    ensures Wf(RunFinish(st, begin)) && Grows(st, RunFinish(st, begin), lim)
  {
    var st7 := Put(st, Deferred(Branch(begin)));
    PutStep(st, Deferred(Branch(begin)));
    BindStep(st7, begin + 1, lim);
    RunFinishShape(st, begin);
    var st8 := BindAt(st7, begin + 1).st;
    GrowsTrans(st, st7, st8, lim);
    PutStep(st8, Control(Named(RunCleanup, Cleanup)));
    GrowsTrans(st, st8, RunFinish(st, begin), lim);
  }

  /** The closing steps of RunAST compute `RunFinish`. */
  lemma RunFinishShape(st: EmitState, begin: Label)
    requires begin + 1 < |st.gen.labels| && st.gen.labels[begin + 1] == LabelSlot(RunExitName, None)
    ensures BindAt(Put(st, Deferred(Branch(begin))), begin + 1).Done?
    ensures Put(BindAt(Put(st, Deferred(Branch(begin))), begin + 1).st, Control(Named(RunCleanup, Cleanup)))
         == RunFinish(st, begin)
  {
    var st7 := Put(st, Deferred(Branch(begin)));
    assert st7.gen.items[..|st7.gen.items| - 1] == st.gen.items;
    assert InstrCount(st7.gen.items) == InstrCount(st.gen.items) + 1;
    var st8 := BindAt(st7, begin + 1).st;
    assert st8.gen.labels == st.gen.labels[begin + 1 := LabelSlot(RunExitName, Some(InstrCount(st.gen.items) + 1))];
    assert st8.gen.items + [Control(Named(RunCleanup, Cleanup))]
        == st.gen.items + [Deferred(Branch(begin)), Bind(begin + 1), Control(Named(RunCleanup, Cleanup))];
  }

  /** RunAST's template: the body is emitted from `RunEntry` and a body that
      emits is wrapped into `RunFinish`; no bind of the template fails. */
  lemma {:induction false} RunTemplate(body: Node, selector: Option<Action>, st: EmitState, breakExit: Option<Label>)
    requires Wf(st) && Statement(body)
    ensures EmitRun(body, selector, st, breakExit)
         == match Emit(body, RunEntry(st, selector), breakExit)
            case Crash => Crash
            case Done(st6) => Done(RunFinish(st6, |st.gen.labels|))
    decreases body, 3
  {
    var L := |st.gen.labels|;
    RunEntryShape(st, selector);
    RunEntryFacts(st, selector);
    var st5 := RunEntry(st, selector);
    EmitGrows(body, st5, breakExit);
    if Emit(body, st5, breakExit).Done? {
      var st6 := Emit(body, st5, breakExit).st;
      assert L + 1 !in st6.subs.Values;
      assert st6.gen.labels[L + 1] == LabelSlot(RunExitName, None);
      RunFinishShape(st6, L);
    }
  }

  lemma {:induction false} EmitDefinitionGrows(s: Subroutine, st: EmitState, breakExit: Option<Label>)
    requires Wf(st) && Statement(s.body)
    ensures EmitDefinition(s, st, breakExit).Done? ==>
      Wf(EmitDefinition(s, st, breakExit).st) && Grows(st, EmitDefinition(s, st, breakExit).st, |st.gen.labels|)
    decreases s, 0
  {
    var L := |st.gen.labels|;
    if s.name in st.subs {
      BindStep(st, st.subs[s.name], L);
      if BindAt(st, st.subs[s.name]).Done? {
        var st1 := BindAt(st, st.subs[s.name]).st;
        EmitGrows(s.body, st1, breakExit);
        if Emit(s.body, st1, breakExit).Done? {
          var st2 := Emit(s.body, st1, breakExit).st;
          GrowsTrans(st, st1, st2, L);
          PutStep(st2, Control(SubroutineRetInstr));
          GrowsTrans(st, st2, Put(st2, Control(SubroutineRetInstr)), L);
        }
      }
    }
  }

  /** The state in which a `loop` body starts: labels `wrapper` (the next
      free one), `begin`, `exit` and `end` defined; the push of `end`'s
      address, `wrapper` bound to the selector push that follows it, `begin`
      bound to the pop that follows that, and the pop targeting `exit`. */
  function LoopEntry(st: EmitState, selector: Option<Action>): EmitState
  {
    var wrapper := |st.gen.labels|;
    var c := InstrCount(st.gen.items);
    st.(gen := GenState(
      st.gen.items + [Deferred(PushInstrAddr(wrapper + 3)), Bind(wrapper), PushAndMatch(LoopPush, selector),
                      Bind(wrapper + 1), PopOrBranch(LoopPop, wrapper + 2)],
      st.gen.labels + [LabelSlot(LoopWrapperName, Some(c + 1)), LabelSlot(LoopBeginName, Some(c + 2)),
                       LabelSlot(LoopExitName, None), LabelSlot(LoopEndName, None)]))
  }

  /** The state after a `loop` whose body left `st`: the recursive call of
      `wrapper`, the branch back to `begin`, `exit` bound to the function
      exit that follows, and `end` bound just after it. */
  function LoopFinish(st: EmitState, wrapper: Label): EmitState
  {
    var c := InstrCount(st.gen.items);
    var exit := wrapper + 2;
    var end := wrapper + 3;
    st.(gen := GenState(
      st.gen.items + [Deferred(Call(wrapper)), Deferred(Branch(wrapper + 1)), Bind(exit),
                      Control(Named(LoopFunctionExit, FunctionExit)), Bind(end)],
      if end < |st.gen.labels| then
        st.gen.labels[exit := LabelSlot(LoopExitName, Some(c + 2))][end := LabelSlot(LoopEndName, Some(c + 3))]
      else st.gen.labels))
  }

  /** The state after LoopAST's label definitions, the push of `end`'s
      address and the bind of `wrapper`. */
  function LoopHead(st: EmitState): EmitState
  {
    var L := |st.gen.labels|;
    st.(gen := GenState(
      st.gen.items + [Deferred(PushInstrAddr(L + 3)), Bind(L)],
      st.gen.labels + [LabelSlot(LoopWrapperName, Some(InstrCount(st.gen.items) + 1)), LabelSlot(LoopBeginName, None),
                       LabelSlot(LoopExitName, None), LabelSlot(LoopEndName, None)]))
  }

  lemma LoopHeadShape(st: EmitState)
    ensures BindAt(Put(LoopDefines(st), Deferred(PushInstrAddr(|st.gen.labels| + 3))), |st.gen.labels|)
         == Done(LoopHead(st))
  {
    var L := |st.gen.labels|;
    LoopDefinesShape(st);
    var st5 := Put(LoopDefines(st), Deferred(PushInstrAddr(L + 3)));
    assert st5.gen.items[..|st5.gen.items| - 1] == st.gen.items;
    assert InstrCount(st5.gen.items) == InstrCount(st.gen.items) + 1;
    assert st5.gen.items + [Bind(L)] == st.gen.items + [Deferred(PushInstrAddr(L + 3)), Bind(L)];
  }

  /** After `LoopHead`, the selector push, the bind of `begin` and the pop
      give `LoopEntry`. */
  lemma LoopTailShape(st: EmitState, selector: Option<Action>)
    ensures var L := |st.gen.labels|;
      var st7 := Put(LoopHead(st), PushAndMatch(LoopPush, selector));
      BindAt(st7, L + 1).Done?
      && Put(BindAt(st7, L + 1).st, PopOrBranch(LoopPop, L + 2)) == LoopEntry(st, selector)
  {
    var L := |st.gen.labels|;
    var c := InstrCount(st.gen.items);
    var st6 := LoopHead(st);
    var st7 := Put(st6, PushAndMatch(LoopPush, selector));
    assert st7.gen.items[..|st7.gen.items| - 1] == st6.gen.items;
    assert st6.gen.items[..|st6.gen.items| - 1] == st.gen.items + [Deferred(PushInstrAddr(L + 3))];
    assert (st.gen.items + [Deferred(PushInstrAddr(L + 3))])[..|st.gen.items|] == st.gen.items;
    assert InstrCount(st6.gen.items) == c + 1;
    assert InstrCount(st7.gen.items) == c + 2;
    var st8 := BindAt(st7, L + 1).st;
    assert st8.gen.labels == st.gen.labels + [
      LabelSlot(LoopWrapperName, Some(c + 1)), LabelSlot(LoopBeginName, Some(c + 2)),
      LabelSlot(LoopExitName, None), LabelSlot(LoopEndName, None)];
    assert st8.gen.items + [PopOrBranch(LoopPop, L + 2)]
        == st.gen.items + [Deferred(PushInstrAddr(L + 3)), Bind(L), PushAndMatch(LoopPush, selector),
                           Bind(L + 1), PopOrBranch(LoopPop, L + 2)];
  }

  /** The opening steps of LoopAST compute `LoopEntry`. */
  lemma LoopEntryShape(st: EmitState, selector: Option<Action>)
    ensures var L := |st.gen.labels|;
      var st5 := Put(LoopDefines(st), Deferred(PushInstrAddr(L + 3)));
      BindAt(st5, L).Done?
      && var st7 := Put(BindAt(st5, L).st, PushAndMatch(LoopPush, selector));
      BindAt(st7, L + 1).Done?
      && Put(BindAt(st7, L + 1).st, PopOrBranch(LoopPop, L + 2)) == LoopEntry(st, selector)
  {
    LoopHeadShape(st);
    LoopTailShape(st, selector);
  }

  /** The opening of LoopAST up to the bind of `wrapper` keeps the invariant. */
  lemma LoopHeadFacts(st: EmitState)
    requires Wf(st)
    ensures Wf(LoopHead(st)) && Grows(st, LoopHead(st), |st.gen.labels|)
  {
    var L := |st.gen.labels|;
    LoopDefinesFacts(st);
    LoopHeadShape(st);
    var st4 := LoopDefines(st);
    var st5 := Put(st4, Deferred(PushInstrAddr(L + 3)));
    PutStep(st4, Deferred(PushInstrAddr(L + 3)));
    GrowsTrans(st, st4, st5, L);
    BindStep(st5, L, L);
    GrowsTrans(st, st5, LoopHead(st), L);
  }

  lemma LoopEntryFacts(st: EmitState, selector: Option<Action>)
    requires Wf(st)
    ensures Wf(LoopEntry(st, selector)) && Grows(st, LoopEntry(st, selector), |st.gen.labels|)
    ensures |LoopEntry(st, selector).gen.labels| == |st.gen.labels| + 4
    ensures LoopEntry(st, selector).gen.labels[|st.gen.labels| + 2] == LabelSlot(LoopExitName, None)
    ensures LoopEntry(st, selector).gen.labels[|st.gen.labels| + 3] == LabelSlot(LoopEndName, None)
  {
    var L := |st.gen.labels|;
    LoopHeadFacts(st);
    LoopTailShape(st, selector);
    var st6 := LoopHead(st);
    var st7 := Put(st6, PushAndMatch(LoopPush, selector));
    PutStep(st6, PushAndMatch(LoopPush, selector));
    GrowsTrans(st, st6, st7, L);
    BindStep(st7, L + 1, L);
    var st8 := BindAt(st7, L + 1).st;
    GrowsTrans(st, st7, st8, L);
    var st9 := Put(st8, PopOrBranch(LoopPop, L + 2));
    PutStep(st8, PopOrBranch(LoopPop, L + 2));
    GrowsTrans(st, st8, st9, L);
  }

  /** The four label definitions LoopAST starts with. */
  function LoopDefines(st: EmitState): EmitState
  {
    Define(Define(Define(Define(st, LoopWrapperName).0, LoopBeginName).0, LoopExitName).0, LoopEndName).0
  }

  lemma LoopDefinesShape(st: EmitState)
    ensures LoopDefines(st) == st.(gen := GenState(st.gen.items, st.gen.labels + [
      LabelSlot(LoopWrapperName, None), LabelSlot(LoopBeginName, None),
      LabelSlot(LoopExitName, None), LabelSlot(LoopEndName, None)]))
  {
  }

  lemma LoopDefinesFacts(st: EmitState)
    requires Wf(st)
    ensures Wf(LoopDefines(st)) && Grows(st, LoopDefines(st), |st.gen.labels|)
  {
    var L := |st.gen.labels|;
    var st1 := Define(st, LoopWrapperName).0;
    DefineStep(st, LoopWrapperName);
    var st2 := Define(st1, LoopBeginName).0;
    DefineStep(st1, LoopBeginName);
    GrowsTrans(st, st1, st2, L);
    var st3 := Define(st2, LoopExitName).0;
    DefineStep(st2, LoopExitName);
    GrowsTrans(st, st2, st3, L);
    DefineStep(st3, LoopEndName);
    GrowsTrans(st, st3, LoopDefines(st), L);
  }

  /** One emitted instruction: one more in the count, labels untouched. */
  lemma PutCount(st: EmitState, it: Item)
    requires !it.Bind?
    ensures InstrCount(Put(st, it).gen.items) == InstrCount(st.gen.items) + 1
  {
    var items := Put(st, it).gen.items;
    assert items[..|items| - 1] == st.gen.items;
  }

  /** An instruction followed by the bind of an unbound label: the label
      gets the offset just after the instruction. */
  lemma PutBind(st: EmitState, it: Item, l: Label)
    requires !it.Bind? && l < |st.gen.labels| && st.gen.labels[l].offset.None?
    ensures BindAt(Put(st, it), l) == Done(st.(gen := GenState(st.gen.items + [it, Bind(l)],
      st.gen.labels[l := LabelSlot(st.gen.labels[l].name, Some(InstrCount(st.gen.items) + 1))])))
    ensures InstrCount(st.gen.items + [it, Bind(l)]) == InstrCount(st.gen.items) + 1
  {
    var items := st.gen.items + [it, Bind(l)];
    assert items[..|items| - 1] == st.gen.items + [it];
    assert (st.gen.items + [it])[..|st.gen.items|] == st.gen.items;
    assert st.gen.items + [it] + [Bind(l)] == items;
  }

  /** The closing items in two pieces are the closing items. */
  lemma ClosingPieces<T>(s: seq<T>, a: T, b: T, c: T, d: T, e: T)
    ensures s + [a, b, c] + [d, e] == s + [a, b, c, d, e]
  {
  }

  /** The first closing steps of LoopAST: the call of `wrapper`, the branch
      to `begin` and the bind of `exit`, two instructions on. */
  lemma LoopCloseExit(st: EmitState, wrapper: Label)
    requires wrapper + 2 < |st.gen.labels| && st.gen.labels[wrapper + 2] == LabelSlot(LoopExitName, None)
    ensures var c := InstrCount(st.gen.items);
      var items := st.gen.items + [Deferred(Call(wrapper)), Deferred(Branch(wrapper + 1)), Bind(wrapper + 2)];
      BindAt(Put(Put(st, Deferred(Call(wrapper))), Deferred(Branch(wrapper + 1))), wrapper + 2)
        == Done(st.(gen := GenState(items, st.gen.labels[wrapper + 2 := LabelSlot(LoopExitName, Some(c + 2))])))
      && InstrCount(items) == c + 2
  {
    var st1 := Put(st, Deferred(Call(wrapper)));
    PutCount(st, Deferred(Call(wrapper)));
    PutBind(st1, Deferred(Branch(wrapper + 1)), wrapper + 2);
    assert st1.gen.items + [Deferred(Branch(wrapper + 1)), Bind(wrapper + 2)]
        == st.gen.items + [Deferred(Call(wrapper)), Deferred(Branch(wrapper + 1)), Bind(wrapper + 2)];
  }

  /** The call, the branch and the bind of `exit` add two instructions. */
  lemma ClosingCount(items: seq<Item>, wrapper: Label)
    ensures InstrCount(items + [Deferred(Call(wrapper)), Deferred(Branch(wrapper + 1)), Bind(wrapper + 2)])
         == InstrCount(items) + 2
  {
    var tail := [Deferred(Call(wrapper)), Deferred(Branch(wrapper + 1)), Bind(wrapper + 2)];
    InstrCountAppend(items, tail);
    var two := tail[..2];
    var one := two[..1];
    assert one[..0] == [];
    assert InstrCount(one) == 1;
    assert InstrCount(two) == 2;
  }

  /** The function exit and the bind of `end` after the first closing steps
      complete `LoopFinish`. */
  lemma LoopCloseEnd(st: EmitState, wrapper: Label)
    requires wrapper + 3 < |st.gen.labels| && st.gen.labels[wrapper + 3] == LabelSlot(LoopEndName, None)
    ensures var c := InstrCount(st.gen.items);
      var items := st.gen.items + [Deferred(Call(wrapper)), Deferred(Branch(wrapper + 1)), Bind(wrapper + 2)];
      var st3 := st.(gen := GenState(items, st.gen.labels[wrapper + 2 := LabelSlot(LoopExitName, Some(c + 2))]));
      BindAt(Put(st3, Control(Named(LoopFunctionExit, FunctionExit))), wrapper + 3) == Done(LoopFinish(st, wrapper))
  {
    var c := InstrCount(st.gen.items);
    var labels3 := st.gen.labels[wrapper + 2 := LabelSlot(LoopExitName, Some(c + 2))];
    var items3 := st.gen.items + [Deferred(Call(wrapper)), Deferred(Branch(wrapper + 1)), Bind(wrapper + 2)];
    ClosingCount(st.gen.items, wrapper);
    assert labels3[wrapper + 3] == LabelSlot(LoopEndName, None);
    PutBind(st.(gen := GenState(items3, labels3)), Control(Named(LoopFunctionExit, FunctionExit)), wrapper + 3);
    ClosingPieces(st.gen.items, Deferred(Call(wrapper)), Deferred(Branch(wrapper + 1)), Bind(wrapper + 2),
                  Control(Named(LoopFunctionExit, FunctionExit)), Bind(wrapper + 3));
  }

  /** The closing steps of LoopAST compute `LoopFinish`. */
  lemma LoopFinishShape(st: EmitState, wrapper: Label)
    requires wrapper + 3 < |st.gen.labels|
    requires st.gen.labels[wrapper + 2] == LabelSlot(LoopExitName, None)
    requires st.gen.labels[wrapper + 3] == LabelSlot(LoopEndName, None)
    ensures var st2 := Put(Put(st, Deferred(Call(wrapper))), Deferred(Branch(wrapper + 1)));
      BindAt(st2, wrapper + 2).Done?
      && BindAt(Put(BindAt(st2, wrapper + 2).st, Control(Named(LoopFunctionExit, FunctionExit))), wrapper + 3)
         == Done(LoopFinish(st, wrapper))
  {
    LoopCloseExit(st, wrapper);
    LoopCloseEnd(st, wrapper);
  }

  lemma LoopFinishFacts(st: EmitState, wrapper: Label, lim: nat)
    requires Wf(st) && lim <= wrapper && wrapper + 3 < |st.gen.labels|
    requires st.gen.labels[wrapper + 2] == LabelSlot(LoopExitName, None)
    requires st.gen.labels[wrapper + 3] == LabelSlot(LoopEndName, None)
    ensures Wf(LoopFinish(st, wrapper)) && Grows(st, LoopFinish(st, wrapper), lim)
  {
    LoopFinishShape(st, wrapper);
    var st1 := Put(st, Deferred(Call(wrapper)));
    PutStep(st, Deferred(Call(wrapper)));
    var st2 := Put(st1, Deferred(Branch(wrapper + 1)));
    PutStep(st1, Deferred(Branch(wrapper + 1)));
    GrowsTrans(st, st1, st2, lim);
    BindStep(st2, wrapper + 2, lim);
    var st3 := BindAt(st2, wrapper + 2).st;
    GrowsTrans(st, st2, st3, lim);
    var st4 := Put(st3, Control(Named(LoopFunctionExit, FunctionExit)));
    PutStep(st3, Control(Named(LoopFunctionExit, FunctionExit)));
    GrowsTrans(st, st3, st4, lim);
    BindStep(st4, wrapper + 3, lim);
    GrowsTrans(st, st4, LoopFinish(st, wrapper), lim);
  }

  /** LoopAST's template: the body is emitted from `LoopEntry` and a body
      that emits is wrapped into `LoopFinish`; no bind of the template fails. */
  lemma {:induction false} LoopTemplate(body: Node, selector: Option<Action>, st: EmitState, breakExit: Option<Label>)
    requires Wf(st) && Statement(body)
    ensures EmitLoop(body, selector, st, breakExit)
         == match Emit(body, LoopEntry(st, selector), breakExit)
            case Crash => Crash
            case Done(st10) => Done(LoopFinish(st10, |st.gen.labels|))
    decreases body, 3
  {
    var L := |st.gen.labels|;
    LoopEntryShape(st, selector);
    LoopEntryFacts(st, selector);
    var (st1, wrapper) := Define(st, LoopWrapperName);
    var (st2, begin) := Define(st1, LoopBeginName);
    var (st3, exit) := Define(st2, LoopExitName);
    var (st4, end) := Define(st3, LoopEndName);
    assert wrapper == L && begin == L + 1 && exit == L + 2 && end == L + 3;
    assert st4 == LoopDefines(st);
    var st5 := Put(st4, Deferred(PushInstrAddr(end)));
    var st6 := BindAt(st5, wrapper).st;
    var st7 := Put(st6, PushAndMatch(LoopPush, selector));
    var st8 := BindAt(st7, begin).st;
    var st9 := Put(st8, PopOrBranch(LoopPop, exit));
    assert st9 == LoopEntry(st, selector);
    EmitGrows(body, st9, breakExit);
    if Emit(body, st9, breakExit).Done? {
      var st10 := Emit(body, st9, breakExit).st;
      assert L + 2 !in st10.subs.Values && L + 3 !in st10.subs.Values;
      assert st10.gen.labels[L + 2] == LabelSlot(LoopExitName, None);
      assert st10.gen.labels[L + 3] == LabelSlot(LoopEndName, None);
      LoopFinishShape(st10, L);
    }
  }
}
