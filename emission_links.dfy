/** Linking after emission: every deferred instruction a statement emits
    targets a label the statement itself binds or a subroutine entry, so a
    whole function whose subroutines are all emitted links. */
module EmissionLinks {
  import opened Wrappers
  import opened Instructions
  import opened Linkables
  import opened CodeGen
  import opened Ast
  import opened Emission
  import opened EmissionProps

  predicate IsBound(g: GenState, l: Label)
  {
    l < |g.labels| && g.labels[l].offset.Some?
  }

  /** Every deferred item declares the labels it reads, and each target is
      bound in `g` or is an entry of the subroutine table. */
  predicate Resolved(items: seq<Item>, g: GenState, subs: map<string, Label>)
  {
    forall k :: 0 <= k < |items| && items[k].Deferred? ==>
      Declares(items[k].linkable)
      && forall l :: l in items[k].linkable.targets ==> IsBound(g, l) || l in subs.Values
  }

  /** The items `st2` emitted after `st1`. */
  function NewItems(st1: EmitState, st2: EmitState): seq<Item>
  {
    if |st1.gen.items| <= |st2.gen.items| then st2.gen.items[|st1.gen.items|..] else []
  }

  lemma ResolvedConcat(xs: seq<Item>, ys: seq<Item>, g: GenState, subs: map<string, Label>)
    requires Resolved(xs, g, subs) && Resolved(ys, g, subs)
    ensures Resolved(xs + ys, g, subs)
  {
    forall k | 0 <= k < |xs + ys| && (xs + ys)[k].Deferred?
      ensures Declares((xs + ys)[k].linkable)
      ensures forall l :: l in (xs + ys)[k].linkable.targets ==> IsBound(g, l) || l in subs.Values
    {
      if k >= |xs| {
        assert (xs + ys)[k] == ys[k - |xs|];
      }
    }
  }

  /** A later state keeps every bound label bound. */
  lemma ResolvedLater(xs: seq<Item>, g1: GenState, g2: GenState, subs: map<string, Label>)
    requires Resolved(xs, g1, subs) && Extends(g1, g2)
    ensures Resolved(xs, g2, subs)
  {
  }

  /** Emitted items split at an intermediate state. */
  lemma NewItemsSplit(a: EmitState, b: EmitState, c: EmitState)
    requires Extends(a.gen, b.gen) && Extends(b.gen, c.gen)
    ensures NewItems(a, c) == NewItems(a, b) + NewItems(b, c)
  {
    ExtendsTransitive(a.gen, b.gen, c.gen);
    assert c.gen.items[..|b.gen.items|] == b.gen.items;
    assert c.gen.items[|a.gen.items|..] == c.gen.items[|a.gen.items|..|b.gen.items|] + c.gen.items[|b.gen.items|..];
  }

  /** The items emitted around a body: before it, by it, and after it. */
  lemma NewItemsAround(a: EmitState, b: EmitState, c: EmitState, d: EmitState)
    requires Extends(a.gen, b.gen) && Extends(b.gen, c.gen) && Extends(c.gen, d.gen)
    ensures NewItems(a, d) == NewItems(a, b) + NewItems(b, c) + NewItems(c, d)
  {
    NewItemsSplit(a, b, c);
    ExtendsTransitive(a.gen, b.gen, c.gen);
    NewItemsSplit(a, c, d);
  }

  /** A body whose items are resolved, between an opening and a closing
      part whose items are resolved in the final state. */
  lemma ResolvedAround(a: EmitState, b: EmitState, c: EmitState, d: EmitState, subs: map<string, Label>)
    requires Extends(a.gen, b.gen) && Extends(b.gen, c.gen) && Extends(c.gen, d.gen)
    requires Resolved(NewItems(a, b), d.gen, subs) && Resolved(NewItems(b, c), c.gen, subs)
    requires Resolved(NewItems(c, d), d.gen, subs)
    ensures Resolved(NewItems(a, d), d.gen, subs)
  {
    NewItemsAround(a, b, c, d);
    ResolvedLater(NewItems(b, c), c.gen, d.gen, subs);
    ResolvedConcat(NewItems(a, b), NewItems(b, c), d.gen, subs);
    ResolvedConcat(NewItems(a, b) + NewItems(b, c), NewItems(c, d), d.gen, subs);
  }

  /** The targets of every deferred item a statement emits are bound once
      the statement is emitted, or are subroutine entries. */
  lemma {:induction false} EmitResolves(n: Node, st: EmitState, breakExit: Option<Label>)
    requires Wf(st) && Statement(n)
    ensures Emit(n, st, breakExit).Done? ==>
      Resolved(NewItems(st, Emit(n, st, breakExit).st), Emit(n, st, breakExit).st.gen, st.subs)
    decreases n, 2
  {
    match n
    case Block(children) => EmitAllResolves(children, st, breakExit);
    case Run(body, selector) => EmitRunResolves(body, selector, st, breakExit);
    case Loop(body, selector) => EmitLoopResolves(body, selector, st, breakExit);
    case SubroutineCall(name, _) =>
      if name in st.subs {
        var st1 := Emit(n, st, breakExit).st;
        assert NewItems(st, st1) == [CallTo(st.subs[name])];
      }
    case Definition(s) => EmitDefinitionResolves(s, st, breakExit);
    case TopLevel(_, _) => assert false;
    case Break(_) =>
      assert NewItems(st, Emit(n, st, breakExit).st) == [];
    case _ =>
      var st1 := Emit(n, st, breakExit).st;
      assert |NewItems(st, st1)| == 1 && !NewItems(st, st1)[0].Deferred?;
  }

  lemma {:induction false} EmitAllResolves(ns: seq<Node>, st: EmitState, breakExit: Option<Label>)
    requires Wf(st) && forall k :: 0 <= k < |ns| ==> Statement(ns[k])
    ensures EmitAll(ns, st, breakExit).Done? ==>
      Resolved(NewItems(st, EmitAll(ns, st, breakExit).st), EmitAll(ns, st, breakExit).st.gen, st.subs)
    decreases ns, 1
  {
    if ns == [] {
      assert NewItems(st, st) == [];
    } else {
      EmitGrows(ns[0], st, breakExit);
      EmitResolves(ns[0], st, breakExit);
      if Emit(ns[0], st, breakExit).Done? {
        var st1 := Emit(ns[0], st, breakExit).st;
        EmitAllGrows(ns[1..], st1, breakExit);
        EmitAllResolves(ns[1..], st1, breakExit);
        if EmitAll(ns[1..], st1, breakExit).Done? {
          var st2 := EmitAll(ns[1..], st1, breakExit).st;
          NewItemsSplit(st, st1, st2);
          ResolvedLater(NewItems(st, st1), st1.gen, st2.gen, st.subs);
          ResolvedConcat(NewItems(st, st1), NewItems(st1, st2), st2.gen, st.subs);
        }
      }
    }
  }

  lemma {:induction false} EmitRunResolves(body: Node, selector: Option<Action>, st: EmitState, breakExit: Option<Label>)
    requires Wf(st) && Statement(body)
    ensures EmitRun(body, selector, st, breakExit).Done? ==>
      Resolved(NewItems(st, EmitRun(body, selector, st, breakExit).st), EmitRun(body, selector, st, breakExit).st.gen, st.subs)
    decreases body, 4
  {
    RunTemplate(body, selector, st, breakExit);
    var st5 := RunEntry(st, selector);
    RunEntryFacts(st, selector);
    EmitGrows(body, st5, breakExit);
    EmitResolves(body, st5, breakExit);
    if Emit(body, st5, breakExit).Done? {
      var st6 := Emit(body, st5, breakExit).st;
      RunBodyFrame(st, selector, st6);
      RunResolvedAround(st, selector, st6);
    }
  }

  /** What a `run` body leaves of the template's labels. */
  lemma RunBodyFrame(st: EmitState, selector: Option<Action>, st6: EmitState)
    requires Wf(st) && Grows(RunEntry(st, selector), st6, |RunEntry(st, selector).gen.labels|)
    ensures Extends(RunEntry(st, selector).gen, st6.gen) && st6.subs == st.subs
    ensures IsBound(st6.gen, |st.gen.labels|)
    ensures st6.gen.labels[|st.gen.labels| + 1] == LabelSlot(RunExitName, None)
  {
    assert |st.gen.labels| + 1 !in st.subs.Values;
  }

  lemma RunResolvedAround(st: EmitState, selector: Option<Action>, st6: EmitState)
    requires Extends(RunEntry(st, selector).gen, st6.gen)
    requires IsBound(st6.gen, |st.gen.labels|)
    requires st6.gen.labels[|st.gen.labels| + 1] == LabelSlot(RunExitName, None)
    requires Resolved(NewItems(RunEntry(st, selector), st6), st6.gen, st.subs)
    ensures Resolved(NewItems(st, RunFinish(st6, |st.gen.labels|)), RunFinish(st6, |st.gen.labels|).gen, st.subs)
  {
    var L := |st.gen.labels|;
    var st5 := RunEntry(st, selector);
    var fin := RunFinish(st6, L);
    RunEntryEmits(st, selector);
    RunFinishEmits(st6, L, st.subs);
    RunEntryResolved(st, selector, fin.gen, st.subs);
    ResolvedAround(st, st5, st6, fin, st.subs);
  }

  lemma RunEntryEmits(st: EmitState, selector: Option<Action>)
    ensures Extends(st.gen, RunEntry(st, selector).gen)
    ensures NewItems(st, RunEntry(st, selector))
         == [PushAndMatch(RunPush, selector), Bind(|st.gen.labels|), PopOrBranch(RunPop, |st.gen.labels| + 1)]
  {
    assert RunEntry(st, selector).gen.items[..|st.gen.items|] == st.gen.items;
  }

  /** The opening items of a `run` read only `exit`. */
  lemma RunEntryResolved(st: EmitState, selector: Option<Action>, g: GenState, subs: map<string, Label>)
    requires IsBound(g, |st.gen.labels| + 1)
    ensures Resolved(NewItems(st, RunEntry(st, selector)), g, subs)
  {
    RunEntryEmits(st, selector);
  }

  /** The closing items of a `run` read `begin`, bound before, and `exit`,
      bound by them. */
  lemma RunFinishEmits(st6: EmitState, begin: Label, subs: map<string, Label>)
    requires IsBound(st6.gen, begin) && begin + 1 < |st6.gen.labels|
    requires st6.gen.labels[begin + 1] == LabelSlot(RunExitName, None)
    ensures Extends(st6.gen, RunFinish(st6, begin).gen) && IsBound(RunFinish(st6, begin).gen, begin + 1)
    ensures Resolved(NewItems(st6, RunFinish(st6, begin)), RunFinish(st6, begin).gen, subs)
  {
    var fin := RunFinish(st6, begin);
    assert fin.gen.items[..|st6.gen.items|] == st6.gen.items;
    assert NewItems(st6, fin) == [Deferred(Branch(begin)), Bind(begin + 1), Control(Named(RunCleanup, Cleanup))];
    assert IsBound(fin.gen, begin);
  }

  lemma {:induction false} EmitLoopResolves(body: Node, selector: Option<Action>, st: EmitState, breakExit: Option<Label>)
    requires Wf(st) && Statement(body)
    ensures EmitLoop(body, selector, st, breakExit).Done? ==>
      Resolved(NewItems(st, EmitLoop(body, selector, st, breakExit).st), EmitLoop(body, selector, st, breakExit).st.gen, st.subs)
    decreases body, 4
  {
    LoopTemplate(body, selector, st, breakExit);
    var st9 := LoopEntry(st, selector);
    LoopEntryFacts(st, selector);
    EmitGrows(body, st9, breakExit);
    EmitResolves(body, st9, breakExit);
    if Emit(body, st9, breakExit).Done? {
      var st10 := Emit(body, st9, breakExit).st;
      LoopBodyFrame(st, selector, st10);
      LoopResolvedAround(st, selector, st10);
    }
  }

  /** What a `loop` body leaves of the template's labels. */
  lemma LoopBodyFrame(st: EmitState, selector: Option<Action>, st10: EmitState)
    requires Wf(st) && Grows(LoopEntry(st, selector), st10, |LoopEntry(st, selector).gen.labels|)
    ensures Extends(LoopEntry(st, selector).gen, st10.gen) && st10.subs == st.subs
    ensures IsBound(st10.gen, |st.gen.labels|) && IsBound(st10.gen, |st.gen.labels| + 1)
    ensures st10.gen.labels[|st.gen.labels| + 2] == LabelSlot(LoopExitName, None)
    ensures st10.gen.labels[|st.gen.labels| + 3] == LabelSlot(LoopEndName, None)
  {
    assert |st.gen.labels| + 2 !in st.subs.Values && |st.gen.labels| + 3 !in st.subs.Values;
  }

  lemma LoopResolvedAround(st: EmitState, selector: Option<Action>, st10: EmitState)
    requires Extends(LoopEntry(st, selector).gen, st10.gen)
    requires IsBound(st10.gen, |st.gen.labels|) && IsBound(st10.gen, |st.gen.labels| + 1)
    requires st10.gen.labels[|st.gen.labels| + 2] == LabelSlot(LoopExitName, None)
    requires st10.gen.labels[|st.gen.labels| + 3] == LabelSlot(LoopEndName, None)
    requires Resolved(NewItems(LoopEntry(st, selector), st10), st10.gen, st.subs)
    ensures Resolved(NewItems(st, LoopFinish(st10, |st.gen.labels|)), LoopFinish(st10, |st.gen.labels|).gen, st.subs)
  {
    var L := |st.gen.labels|;
    LoopEntryEmits(st, selector);
    LoopFinishEmits(st10, L, st.subs);
    LoopWrapResolved(st, LoopEntry(st, selector), st10, LoopFinish(st10, L), selector);
  }

  /** The `loop` template's three parts, on states whose shape is known. */
  lemma LoopWrapResolved(st: EmitState, st9: EmitState, st10: EmitState, fin: EmitState, selector: Option<Action>)
    requires Extends(st.gen, st9.gen) && Extends(st9.gen, st10.gen) && Extends(st10.gen, fin.gen)
    requires var L := |st.gen.labels|;
      NewItems(st, st9)
      == [Deferred(PushInstrAddr(L + 3)), Bind(L), PushAndMatch(LoopPush, selector), Bind(L + 1), PopOrBranch(LoopPop, L + 2)]
    requires IsBound(fin.gen, |st.gen.labels| + 2) && IsBound(fin.gen, |st.gen.labels| + 3)
    requires Resolved(NewItems(st9, st10), st10.gen, st.subs)
    requires Resolved(NewItems(st10, fin), fin.gen, st.subs)
    ensures Resolved(NewItems(st, fin), fin.gen, st.subs)
  {
    assert Resolved(NewItems(st, st9), fin.gen, st.subs);
    ResolvedAround(st, st9, st10, fin, st.subs);
  }

  lemma LoopEntryEmits(st: EmitState, selector: Option<Action>)
    ensures Extends(st.gen, LoopEntry(st, selector).gen)
    ensures var L := |st.gen.labels|;
      NewItems(st, LoopEntry(st, selector))
      == [Deferred(PushInstrAddr(L + 3)), Bind(L), PushAndMatch(LoopPush, selector), Bind(L + 1), PopOrBranch(LoopPop, L + 2)]
  {
    assert LoopEntry(st, selector).gen.items[..|st.gen.items|] == st.gen.items;
  }

  /** The closing items of a `loop` read `wrapper` and `begin`, bound before,
      and `exit`, bound by them; `end` is bound last. */
  lemma LoopFinishEmits(st10: EmitState, wrapper: Label, subs: map<string, Label>)
    requires IsBound(st10.gen, wrapper) && IsBound(st10.gen, wrapper + 1) && wrapper + 3 < |st10.gen.labels|
    requires st10.gen.labels[wrapper + 2] == LabelSlot(LoopExitName, None)
    requires st10.gen.labels[wrapper + 3] == LabelSlot(LoopEndName, None)
    ensures Extends(st10.gen, LoopFinish(st10, wrapper).gen)
    ensures IsBound(LoopFinish(st10, wrapper).gen, wrapper + 2) && IsBound(LoopFinish(st10, wrapper).gen, wrapper + 3)
    ensures Resolved(NewItems(st10, LoopFinish(st10, wrapper)), LoopFinish(st10, wrapper).gen, subs)
  {
    var fin := LoopFinish(st10, wrapper);
    LoopFinishItems(st10, wrapper);
    assert IsBound(fin.gen, wrapper) && IsBound(fin.gen, wrapper + 1);
  }

  lemma LoopFinishItems(st10: EmitState, wrapper: Label)
    ensures |st10.gen.items| <= |LoopFinish(st10, wrapper).gen.items|
    ensures NewItems(st10, LoopFinish(st10, wrapper))
         == [Deferred(Call(wrapper)), Deferred(Branch(wrapper + 1)), Bind(wrapper + 2),
             Control(Named(LoopFunctionExit, FunctionExit)), Bind(wrapper + 3)]
  {
  }

  lemma {:induction false} EmitDefinitionResolves(s: Subroutine, st: EmitState, breakExit: Option<Label>)
    requires Wf(st) && Statement(s.body)
    ensures EmitDefinition(s, st, breakExit).Done? ==>
      Resolved(NewItems(st, EmitDefinition(s, st, breakExit).st), EmitDefinition(s, st, breakExit).st.gen, st.subs)
    decreases s, 0
  {
    if s.name in st.subs {
      BindStep(st, st.subs[s.name], |st.gen.labels|);
      if BindAt(st, st.subs[s.name]).Done? {
        var st1 := BindAt(st, st.subs[s.name]).st;
        EmitGrows(s.body, st1, breakExit);
        EmitResolves(s.body, st1, breakExit);
        if Emit(s.body, st1, breakExit).Done? {
          DefinitionResolvedAround(st, st1, Emit(s.body, st1, breakExit).st);
        }
      }
    }
  }

  lemma DefinitionResolvedAround(st: EmitState, st1: EmitState, st2: EmitState)
    requires Extends(st.gen, st1.gen) && |st1.gen.items| == |st.gen.items| + 1
    requires st1.gen.items[|st.gen.items|].Bind?
    requires Extends(st1.gen, st2.gen) && st1.subs == st.subs
    requires Resolved(NewItems(st1, st2), st2.gen, st.subs)
    ensures Resolved(NewItems(st, Put(st2, Control(SubroutineRetInstr))), Put(st2, Control(SubroutineRetInstr)).gen, st.subs)
  {
    var fin := Put(st2, Control(SubroutineRetInstr));
    assert Extends(st2.gen, fin.gen) by {
      assert fin.gen.items[..|st2.gen.items|] == st2.gen.items;
    }
    assert NewItems(st, st1) == [st1.gen.items[|st.gen.items|]];
    assert NewItems(st2, fin) == [Control(SubroutineRetInstr)];
    ResolvedAround(st, st1, st2, fin, st.subs);
  }
}
