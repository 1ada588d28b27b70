/** The `emit` methods of the AST nodes, as they run against the mutable
    code generator, codegen context and parse context. Each one is proved to
    leave exactly the state the `Emission` functions describe, and to fail
    exactly where those functions crash. */
module Emitter {
  import opened Wrappers
  import opened Instructions
  import opened Linkables
  import opened CodeGen
  import opened Diagnostics
  import opened Ast
  import opened Emission

  /** The codegen context: the subroutine label table and the label a
      `break` would branch to (none of the nodes here sets it). */
  class CodegenContext {
    var subroutines: map<string, Label>
    var breakExitLabel: Option<Label>

    constructor ()
      ensures subroutines == map[] && breakExitLabel == None
    {
      subroutines := map[];
      breakExitLabel := None;
    }
  }

  /** The three objects emission changes, as one emission state. */
  function Snapshot(pctx: ParseContext, cctx: CodegenContext, gen: CodeGenerator): EmitState
    reads pctx, cctx, gen
  {
    EmitState(gen.State(), cctx.subroutines, pctx.diagnostics)
  }

  /** ASTNode.emit(parseCtx, codegenCtx, generator) for any node. On `false`
      the Java code has thrown and the objects are left as they were at
      that point. */
  method EmitNode(n: Node, pctx: ParseContext, cctx: CodegenContext, gen: CodeGenerator) returns (ok: bool)
    modifies pctx, cctx, gen
    ensures cctx.breakExitLabel == old(cctx.breakExitLabel)
    ensures ok == Emit(n, old(Snapshot(pctx, cctx, gen)), old(cctx.breakExitLabel)).Done?
    ensures ok ==> Snapshot(pctx, cctx, gen) == Emit(n, old(Snapshot(pctx, cctx, gen)), old(cctx.breakExitLabel)).st
    decreases n, 2
  {
    match n {
      case Block(children) =>
        ok := EmitBlock(children, pctx, cctx, gen);
      case Command(a) =>
        gen.EmitPlain(a);
        ok := true;
      case Exit =>
        gen.EmitControl(ExitBranch);
        ok := true;
      case Return =>
        gen.EmitControl(RetInstr);
        ok := true;
      case SubroutineReturn =>
        gen.EmitControl(SubroutineRetInstr);
        ok := true;
      case Break(line) =>
        if cctx.breakExitLabel.None? {
          pctx.ReportErr(line, BadBreak);
        }
        ok := true;
      case Run(body, selector) =>
        ok := EmitRunNode(body, selector, pctx, cctx, gen);
      case Loop(body, selector) =>
        ok := EmitLoopNode(body, selector, pctx, cctx, gen);
      case SubroutineCall(name, line) =>
        ok := EmitCallNode(name, line, pctx, cctx, gen);
      case Definition(s) =>
        ok := EmitDefinitionNode(s, pctx, cctx, gen);
      case TopLevel(block, subs) =>
        ok := EmitTopLevelNode(block, subs, pctx, cctx, gen);
    }
  }

  /** BlockAST.emit: the children, in order. */
  method EmitBlock(children: seq<Node>, pctx: ParseContext, cctx: CodegenContext, gen: CodeGenerator) returns (ok: bool)
    modifies pctx, cctx, gen
    ensures cctx.breakExitLabel == old(cctx.breakExitLabel)
    ensures ok == EmitAll(children, old(Snapshot(pctx, cctx, gen)), old(cctx.breakExitLabel)).Done?
    ensures ok ==> Snapshot(pctx, cctx, gen) == EmitAll(children, old(Snapshot(pctx, cctx, gen)), old(cctx.breakExitLabel)).st
    decreases children, 1
  {
    ghost var st0 := Snapshot(pctx, cctx, gen);
    var brk := cctx.breakExitLabel;
    var k := 0;
    while k < |children|
      invariant 0 <= k <= |children|
      invariant cctx.breakExitLabel == brk
      invariant EmitAll(children[k..], Snapshot(pctx, cctx, gen), brk) == EmitAll(children, st0, brk)
    {
      assert children[k..][1..] == children[k + 1..];
      ok := EmitNode(children[k], pctx, cctx, gen);
      if !ok {
        return;
      }
      k := k + 1;
    }
    ok := true;
  }

  /** SubroutineCallAST.emit: an undefined name is reported, then the null
      label makes List.of throw. */
  method EmitCallNode(name: string, line: nat, pctx: ParseContext, cctx: CodegenContext, gen: CodeGenerator) returns (ok: bool)
    modifies pctx, gen
    ensures ok <==> name in old(cctx.subroutines)
    ensures !ok ==> pctx.diagnostics == old(pctx.diagnostics) + [Diagnostic(Error, line, SubroutineNotDefined(name))]
    ensures ok ==> Snapshot(pctx, cctx, gen) == Emit(SubroutineCall(name, line), old(Snapshot(pctx, cctx, gen)), cctx.breakExitLabel).st
  {
    if name !in cctx.subroutines {
      pctx.ReportErr(line, SubroutineNotDefined(name));
      return false;
    }
    var target := cctx.subroutines[name];
    gen.EmitControlLinkable([target], GenSubroutineCall(target));
    ok := true;
  }

  /** What RunAST.emit does once `exit`'s pop-or-branch is in place: the
      body, the branch back to `begin`, `exit` bound, the cleanup. */
  function RunRest(body: Node, begin: Label, exit: Label, st5: EmitState, breakExit: Option<Label>): Outcome
  {
    match Emit(body, st5, breakExit)
    case Crash => Crash
    case Done(st6) =>
      match BindAt(Put(st6, Deferred(Branch(begin))), exit)
      case Crash => Crash
      case Done(st8) => Done(Put(st8, Control(Named(RunCleanup, Cleanup))))
  }

  lemma RunSplit(body: Node, selector: Option<Action>, st: EmitState, breakExit: Option<Label>)
    ensures var begin := |st.gen.labels|;
      var st3 := Put(Define(Define(st, RunBeginName).0, RunExitName).0, PushAndMatch(RunPush, selector));
      EmitRun(body, selector, st, breakExit)
      == match BindAt(st3, begin)
         case Crash => Crash
         case Done(st4) => RunRest(body, begin, begin + 1, Put(st4, PopOrBranch(RunPop, begin + 1)), breakExit)
  {
  }

  /** RunAST.emit. */
  method EmitRunNode(body: Node, selector: Option<Action>, pctx: ParseContext, cctx: CodegenContext, gen: CodeGenerator)
    returns (ok: bool)
    modifies pctx, cctx, gen
    ensures cctx.breakExitLabel == old(cctx.breakExitLabel)
    ensures ok == EmitRun(body, selector, old(Snapshot(pctx, cctx, gen)), old(cctx.breakExitLabel)).Done?
    ensures ok ==> Snapshot(pctx, cctx, gen) == EmitRun(body, selector, old(Snapshot(pctx, cctx, gen)), old(cctx.breakExitLabel)).st
    decreases body, 4
  {
    ghost var st := Snapshot(pctx, cctx, gen);
    RunSplit(body, selector, st, cctx.breakExitLabel);
    var begin := gen.DefineLabel(RunBeginName);
    var exit := gen.DefineLabel(RunExitName);
    gen.EmitControlNamed(RunPush, PushSourceAndMatch(selector));
    ghost var st3 := Snapshot(pctx, cctx, gen);
    assert st3 == Put(Define(Define(st, RunBeginName).0, RunExitName).0, PushAndMatch(RunPush, selector));
    ok := gen.EmitLabel(begin);
    if !ok {
      return;
    }
    gen.EmitControlLinkable([exit], GenPopOrBranch(RunPop, exit));
    assert Snapshot(pctx, cctx, gen) == Put(BindAt(st3, begin).st, PopOrBranch(RunPop, exit));
    ok := EmitRunTail(body, begin, exit, pctx, cctx, gen);
  }

  method EmitRunTail(body: Node, begin: Label, exit: Label, pctx: ParseContext, cctx: CodegenContext, gen: CodeGenerator)
    returns (ok: bool)
    modifies pctx, cctx, gen
    ensures cctx.breakExitLabel == old(cctx.breakExitLabel)
    ensures ok == RunRest(body, begin, exit, old(Snapshot(pctx, cctx, gen)), old(cctx.breakExitLabel)).Done?
    ensures ok ==> Snapshot(pctx, cctx, gen) == RunRest(body, begin, exit, old(Snapshot(pctx, cctx, gen)), old(cctx.breakExitLabel)).st
    decreases body, 3
  {
    ok := EmitNode(body, pctx, cctx, gen);
    if !ok {
      return;
    }
    ghost var st6 := Snapshot(pctx, cctx, gen);
    gen.EmitLinkable(Branch(begin));
    ghost var st7 := Snapshot(pctx, cctx, gen);
    assert st7 == Put(st6, Deferred(Branch(begin)));
    ok := gen.EmitLabel(exit);
    if !ok {
      return;
    }
    gen.EmitControlNamed(RunCleanup, Cleanup);
    assert Snapshot(pctx, cctx, gen) == Put(BindAt(st7, exit).st, Control(Named(RunCleanup, Cleanup)));
  }

  /** What LoopAST.emit does once `exit`'s pop-or-branch is in place: the
      body, the recursive call of `wrapper`, the branch back to `begin`,
      `exit` bound to the function exit, `end` bound after it. */
  function LoopRest(body: Node, wrapper: Label, st9: EmitState, breakExit: Option<Label>): Outcome
  {
    match Emit(body, st9, breakExit)
    case Crash => Crash
    case Done(st10) => LoopClose(wrapper, st10)
  }

  /** The steps of LoopAST.emit after the body. */
  function LoopClose(wrapper: Label, st10: EmitState): Outcome
  {
    match BindAt(Put(Put(st10, Deferred(Call(wrapper))), Deferred(Branch(wrapper + 1))), wrapper + 2)
    case Crash => Crash
    case Done(st12) => BindAt(Put(st12, Control(Named(LoopFunctionExit, FunctionExit))), wrapper + 3)
  }

  lemma LoopSplit(body: Node, selector: Option<Action>, st: EmitState, breakExit: Option<Label>)
    ensures var L := |st.gen.labels|;
      var st5 := Put(Define(Define(Define(Define(st, LoopWrapperName).0, LoopBeginName).0, LoopExitName).0, LoopEndName).0,
                     Deferred(PushInstrAddr(L + 3)));
      EmitLoop(body, selector, st, breakExit)
      == match BindAt(st5, L)
         case Crash => Crash
         case Done(st6) =>
           match BindAt(Put(st6, PushAndMatch(LoopPush, selector)), L + 1)
           case Crash => Crash
           case Done(st8) => LoopRest(body, L, Put(st8, PopOrBranch(LoopPop, L + 2)), breakExit)
  {
  }

  /** LoopAST.emit. */
  method EmitLoopNode(body: Node, selector: Option<Action>, pctx: ParseContext, cctx: CodegenContext, gen: CodeGenerator)
    returns (ok: bool)
    modifies pctx, cctx, gen
    ensures cctx.breakExitLabel == old(cctx.breakExitLabel)
    ensures ok == EmitLoop(body, selector, old(Snapshot(pctx, cctx, gen)), old(cctx.breakExitLabel)).Done?
    ensures ok ==> Snapshot(pctx, cctx, gen) == EmitLoop(body, selector, old(Snapshot(pctx, cctx, gen)), old(cctx.breakExitLabel)).st
    decreases body, 4
  {
    ghost var st := Snapshot(pctx, cctx, gen);
    LoopSplit(body, selector, st, cctx.breakExitLabel);
    var wrapper, begin, exit := EmitLoopDefines(gen, pctx, cctx);
    ghost var st5 := Snapshot(pctx, cctx, gen);
    ok := gen.EmitLabel(wrapper);
    if !ok {
      return;
    }
    gen.EmitControlNamed(LoopPush, PushSourceAndMatch(selector));
    ghost var st7 := Snapshot(pctx, cctx, gen);
    assert st7 == Put(BindAt(st5, wrapper).st, PushAndMatch(LoopPush, selector));
    ok := gen.EmitLabel(begin);
    if !ok {
      return;
    }
    gen.EmitControlLinkable([exit], GenPopOrBranch(LoopPop, exit));
    assert Snapshot(pctx, cctx, gen) == Put(BindAt(st7, begin).st, PopOrBranch(LoopPop, exit));
    ok := EmitLoopTail(body, wrapper, pctx, cctx, gen);
  }

  /** The four labels of LoopAST and the push of `end`'s address. */
  method EmitLoopDefines(gen: CodeGenerator, pctx: ParseContext, cctx: CodegenContext)
    returns (wrapper: Label, begin: Label, exit: Label)
    modifies gen
    ensures var L := |old(gen.labels)|;
      wrapper == L && begin == L + 1 && exit == L + 2
      && Snapshot(pctx, cctx, gen)
         == Put(Define(Define(Define(Define(old(Snapshot(pctx, cctx, gen)), LoopWrapperName).0, LoopBeginName).0,
                              LoopExitName).0, LoopEndName).0,
                Deferred(PushInstrAddr(L + 3)))
  {
    ghost var st := Snapshot(pctx, cctx, gen);
    wrapper := gen.DefineLabel(LoopWrapperName);
    begin := gen.DefineLabel(LoopBeginName);
    exit := gen.DefineLabel(LoopExitName);
    var end := gen.DefineLabel(LoopEndName);
    gen.EmitLinkable(PushInstrAddr(end));
    assert Snapshot(pctx, cctx, gen)
        == Put(Define(Define(Define(Define(st, LoopWrapperName).0, LoopBeginName).0, LoopExitName).0, LoopEndName).0,
               Deferred(PushInstrAddr(end)));
  }

  method EmitLoopTail(body: Node, wrapper: Label, pctx: ParseContext, cctx: CodegenContext, gen: CodeGenerator)
    returns (ok: bool)
    modifies pctx, cctx, gen
    ensures cctx.breakExitLabel == old(cctx.breakExitLabel)
    ensures ok == LoopRest(body, wrapper, old(Snapshot(pctx, cctx, gen)), old(cctx.breakExitLabel)).Done?
    ensures ok ==> Snapshot(pctx, cctx, gen) == LoopRest(body, wrapper, old(Snapshot(pctx, cctx, gen)), old(cctx.breakExitLabel)).st
    decreases body, 3
  {
    ok := EmitNode(body, pctx, cctx, gen);
    if !ok {
      return;
    }
    ok := EmitLoopClose(wrapper, gen, pctx, cctx);
  }

  method EmitLoopClose(wrapper: Label, gen: CodeGenerator, pctx: ParseContext, cctx: CodegenContext) returns (ok: bool)
    modifies gen
    ensures ok == LoopClose(wrapper, old(Snapshot(pctx, cctx, gen))).Done?
    ensures ok ==> Snapshot(pctx, cctx, gen) == LoopClose(wrapper, old(Snapshot(pctx, cctx, gen))).st
  {
    ghost var st10 := Snapshot(pctx, cctx, gen);
    gen.EmitLinkable(Call(wrapper));
    gen.EmitLinkable(Branch(wrapper + 1));
    ghost var st11 := Snapshot(pctx, cctx, gen);
    assert st11 == Put(Put(st10, Deferred(Call(wrapper))), Deferred(Branch(wrapper + 1)));
    ok := gen.EmitLabel(wrapper + 2);
    if !ok {
      return;
    }
    gen.EmitControlNamed(LoopFunctionExit, FunctionExit);
    ghost var st13 := Snapshot(pctx, cctx, gen);
    assert st13 == Put(BindAt(st11, wrapper + 2).st, Control(Named(LoopFunctionExit, FunctionExit)));
    ok := gen.EmitLabel(wrapper + 3);
    if !ok {
      return;
    }
    assert Snapshot(pctx, cctx, gen) == BindAt(st13, wrapper + 3).st;
  }

  /** SubroutineDefinitionAST.emit: the table's label, the body, the
      subroutine return. A name missing from the table is a null label. */
  method EmitDefinitionNode(s: Subroutine, pctx: ParseContext, cctx: CodegenContext, gen: CodeGenerator) returns (ok: bool)
    modifies pctx, cctx, gen
    ensures cctx.breakExitLabel == old(cctx.breakExitLabel)
    ensures ok == EmitDefinition(s, old(Snapshot(pctx, cctx, gen)), old(cctx.breakExitLabel)).Done?
    ensures ok ==> Snapshot(pctx, cctx, gen) == EmitDefinition(s, old(Snapshot(pctx, cctx, gen)), old(cctx.breakExitLabel)).st
    decreases s, 0
  {
    if s.name !in cctx.subroutines {
      return false;
    }
    ghost var st := Snapshot(pctx, cctx, gen);
    ok := gen.EmitLabel(cctx.subroutines[s.name]);
    if !ok {
      return;
    }
    assert Snapshot(pctx, cctx, gen) == BindAt(st, st.subs[s.name]).st;
    ok := EmitNode(s.body, pctx, cctx, gen);
    if !ok {
      return;
    }
    gen.EmitControl(SubroutineRetInstr);
  }

  /** What TopLevelAST.emit does once the table is built: the block, the
      exit when there are subroutines, every subroutine in list order. */
  function TopLevelRest(block: Node, subs: seq<Subroutine>, st1: EmitState, breakExit: Option<Label>): Outcome
  {
    match Emit(block, st1, breakExit)
    case Crash => Crash
    case Done(st2) => EmitDefinitions(subs, if |subs| > 0 then Put(st2, Control(ExitBranch)) else st2, breakExit)
  }

  /** TopLevelAST.emit: the first-definition table, one label per distinct
      name, then the rest. */
  method EmitTopLevelNode(block: Node, subs: seq<Subroutine>, pctx: ParseContext, cctx: CodegenContext, gen: CodeGenerator)
    returns (ok: bool)
    modifies pctx, cctx, gen
    ensures cctx.breakExitLabel == old(cctx.breakExitLabel)
    ensures ok == EmitTopLevel(block, subs, old(Snapshot(pctx, cctx, gen)), old(cctx.breakExitLabel)).Done?
    ensures ok ==> Snapshot(pctx, cctx, gen) == EmitTopLevel(block, subs, old(Snapshot(pctx, cctx, gen)), old(cctx.breakExitLabel)).st
    decreases TopLevel(block, subs), 1
  {
    ghost var st := Snapshot(pctx, cctx, gen);
    var first, order := DedupeInto(subs, pctx);
    assert Snapshot(pctx, cctx, gen) == st.(diags := st.diags + Dedupe(subs).diags);
    DefineAll(order, pctx, cctx, gen);
    ok := EmitTopLevelRest(block, subs, pctx, cctx, gen);
  }

  method EmitTopLevelRest(block: Node, subs: seq<Subroutine>, pctx: ParseContext, cctx: CodegenContext, gen: CodeGenerator)
    returns (ok: bool)
    modifies pctx, cctx, gen
    ensures cctx.breakExitLabel == old(cctx.breakExitLabel)
    ensures ok == TopLevelRest(block, subs, old(Snapshot(pctx, cctx, gen)), old(cctx.breakExitLabel)).Done?
    ensures ok ==> Snapshot(pctx, cctx, gen) == TopLevelRest(block, subs, old(Snapshot(pctx, cctx, gen)), old(cctx.breakExitLabel)).st
    decreases TopLevel(block, subs), 0, 1
  {
    ok := EmitNode(block, pctx, cctx, gen);
    if !ok {
      return;
    }
    if |subs| > 0 {
      gen.EmitControl(ExitBranch);
    }
    ok := EmitDefinitionNodes(block, subs, pctx, cctx, gen);
  }

  /** The last loop of TopLevelAST.emit: every subroutine in list order,
      stopping at the first that fails. */
  method EmitDefinitionNodes(ghost block: Node, subs: seq<Subroutine>, pctx: ParseContext, cctx: CodegenContext, gen: CodeGenerator)
    returns (ok: bool)
    modifies pctx, cctx, gen
    ensures cctx.breakExitLabel == old(cctx.breakExitLabel)
    ensures ok == EmitDefinitions(subs, old(Snapshot(pctx, cctx, gen)), old(cctx.breakExitLabel)).Done?
    ensures ok ==> Snapshot(pctx, cctx, gen) == EmitDefinitions(subs, old(Snapshot(pctx, cctx, gen)), old(cctx.breakExitLabel)).st
    decreases TopLevel(block, subs), 0, 0
  {
    var brk := cctx.breakExitLabel;
    ghost var st3 := Snapshot(pctx, cctx, gen);
    var i := 0;
    while i < |subs|
      invariant 0 <= i <= |subs|
      invariant cctx.breakExitLabel == brk
      invariant EmitDefinitions(subs[i..], Snapshot(pctx, cctx, gen), brk) == EmitDefinitions(subs, st3, brk)
    {
      DefinitionsStep(subs, i, Snapshot(pctx, cctx, gen), brk);
      ok := EmitDefinitionNode(subs[i], pctx, cctx, gen);
      if !ok {
        return;
      }
      i := i + 1;
    }
    ok := true;
  }

  /** One round of the definitions loop: the first remaining definition,
      then the ones after it. */
  lemma DefinitionsStep(subs: seq<Subroutine>, i: nat, st: EmitState, breakExit: Option<Label>)
    requires i < |subs|
    ensures EmitDefinitions(subs[i..], st, breakExit)
         == match EmitDefinition(subs[i], st, breakExit)
            case Crash => Crash
            case Done(st1) => EmitDefinitions(subs[i + 1..], st1, breakExit)
  {
    assert subs[i..][1..] == subs[i + 1..];
  }

  /** The first loop of TopLevelAST.emit: keep each name's first definition,
      report every later one. */
  method DedupeInto(subs: seq<Subroutine>, pctx: ParseContext) returns (first: map<string, nat>, order: seq<string>)
    modifies pctx
    ensures first == Dedupe(subs).first && order == Dedupe(subs).order
    ensures pctx.diagnostics == old(pctx.diagnostics) + Dedupe(subs).diags
  {
    first := map[];
    order := [];
    var k := 0;
    while k < |subs|
      invariant 0 <= k <= |subs|
      invariant first == Dedupe(subs[..k]).first && order == Dedupe(subs[..k]).order
      invariant pctx.diagnostics == old(pctx.diagnostics) + Dedupe(subs[..k]).diags
    {
      assert subs[..k + 1][..k] == subs[..k];
      var s := subs[k];
      if s.name in first {
        pctx.ReportErr(s.line, SubroutineRedefined(first[s.name]));
      } else {
        first := first[s.name := s.line];
        order := order + [s.name];
      }
      k := k + 1;
    }
    assert subs[..k] == subs;
  }

  /** The forEach of TopLevelAST.emit: one "subroutine_" label per name,
      entered in the table. */
  method DefineAll(names: seq<string>, pctx: ParseContext, cctx: CodegenContext, gen: CodeGenerator)
    modifies cctx, gen
    ensures cctx.breakExitLabel == old(cctx.breakExitLabel)
    ensures Snapshot(pctx, cctx, gen) == DefineSubroutines(old(Snapshot(pctx, cctx, gen)), names)
  {
    ghost var st0 := Snapshot(pctx, cctx, gen);
    var j := 0;
    while j < |names|
      invariant 0 <= j <= |names|
      invariant cctx.breakExitLabel == old(cctx.breakExitLabel)
      invariant DefineSubroutines(Snapshot(pctx, cctx, gen), names[j..]) == DefineSubroutines(st0, names)
    {
      assert names[j..][1..] == names[j + 1..];
      var l := gen.DefineLabel("subroutine_" + names[j]);
      cctx.subroutines := cctx.subroutines[names[j] := l];
      j := j + 1;
    }
  }
}
