/** What each AST node's `emit(parseCtx, codegenCtx, generator)` does, as a
    function of the generator state, the codegen context's subroutine table
    and the diagnostic list. `breakExit` is the codegen context's
    breakExitLabel, which no node shown here changes. A Java exception during
    emission (a null label, a label bound twice) is `Crash`. */
module Emission {
  import opened Wrappers
  import opened Instructions
  import opened Linkables
  import opened CodeGen
  import opened Diagnostics
  import opened Ast

  datatype EmitState = EmitState(gen: GenState, subs: map<string, Label>, diags: seq<Diagnostic>)

  datatype Outcome = Done(st: EmitState) | Crash

  // ---------------------------------------------------------------------
  // Generator steps on the emission state
  // ---------------------------------------------------------------------

  function Define(st: EmitState, name: string): (EmitState, Label)
  {
    var (g, l) := AddLabel(st.gen, name);
    (st.(gen := g), l)
  }

  function Put(st: EmitState, it: Item): EmitState
    requires !it.Bind?
  {
    st.(gen := Append(st.gen, it))
  }

  function BindAt(st: EmitState, l: Label): Outcome
  {
    match BindLabel(st.gen, l)
    case None => Crash
    case Some(g) => Done(st.(gen := g))
  }

  function ReportErr(st: EmitState, line: nat, m: Message): EmitState
  {
    st.(diags := st.diags + [Diagnostic(Error, line, m)])
  }

  // ---------------------------------------------------------------------
  // The fixed pieces of the run/loop templates
  // ---------------------------------------------------------------------

  const RunBeginName := "cfv1$run$loop_begin"
  const RunExitName := "cfv1$run$loop_exit"
  const LoopWrapperName := "cfv1$loop$wrapper_func"
  const LoopBeginName := "cfv1$loop$loop_begin"
  const LoopExitName := "cfv1$loop$loop_exit"
  const LoopEndName := "cfv1$loop$end"

  const RunPush := "cfv1::run::push_source_and_match"
  const RunPop := "cfv1::run::pop_source_or_branch"
  const RunCleanup := "cfv1::run::cleanup"
  const LoopPush := "cfv1::loop::push_source_and_match"
  const LoopPop := "cfv1::loop::pop_source_or_branch"
  const LoopFunctionExit := "cfv1::loop::function_exit"

  function PushAndMatch(name: string, selector: Option<Action>): Item
  {
    Control(Named(name, PushSourceAndMatch(selector)))
  }

  function PopOrBranch(name: string, exit: Label): Item
  {
    Deferred(Wrap([exit], GenPopOrBranch(name, exit)))
  }

  /** The subroutine table's label for a name, as SubroutineCallAST links it. */
  function CallTo(l: Label): Item
  {
    Deferred(Wrap([l], GenSubroutineCall(l)))
  }

  // ---------------------------------------------------------------------
  // emit
  // ---------------------------------------------------------------------

  function Emit(n: Node, st: EmitState, breakExit: Option<Label>): Outcome
    decreases n, 2
  {
    match n
    case Block(children) => EmitAll(children, st, breakExit)
    case Command(a) => Done(Put(st, Plain(a)))
    case Exit => Done(Put(st, Control(ExitBranch)))
    case Return => Done(Put(st, Control(RetInstr)))
    case SubroutineReturn => Done(Put(st, Control(SubroutineRetInstr)))
    case Break(line) => Done(if breakExit.None? then ReportErr(st, line, BadBreak) else st)
    case Run(body, selector) => EmitRun(body, selector, st, breakExit)
    case Loop(body, selector) => EmitLoop(body, selector, st, breakExit)
    case SubroutineCall(name, line) =>
      // the missing name is reported, then List.of(null) throws
      if name !in st.subs then Crash
      else Done(Put(st, CallTo(st.subs[name])))
    case Definition(s) => EmitDefinition(s, st, breakExit)
    case TopLevel(block, subs) => EmitTopLevel(block, subs, st, breakExit)
  }

  /** BlockAST.emit: each child in order; the first crash ends emission. */
  function EmitAll(ns: seq<Node>, st: EmitState, breakExit: Option<Label>): Outcome
    decreases ns, 1
  {
    if ns == [] then Done(st)
    else
      match Emit(ns[0], st, breakExit)
      case Crash => Crash
      case Done(st1) => EmitAll(ns[1..], st1, breakExit)
  }

  /** RunAST.emit. */
  function EmitRun(body: Node, selector: Option<Action>, st: EmitState, breakExit: Option<Label>): Outcome
    decreases body, 3
  {
    var (st1, begin) := Define(st, RunBeginName);
    var (st2, exit) := Define(st1, RunExitName);
    var st3 := Put(st2, PushAndMatch(RunPush, selector));
    match BindAt(st3, begin)
    case Crash => Crash
    case Done(st4) =>
      var st5 := Put(st4, PopOrBranch(RunPop, exit));
      match Emit(body, st5, breakExit)
      case Crash => Crash
      case Done(st6) =>
        var st7 := Put(st6, Deferred(Branch(begin)));
        match BindAt(st7, exit)
        case Crash => Crash
        case Done(st8) => Done(Put(st8, Control(Named(RunCleanup, Cleanup))))
  }

  /** LoopAST.emit. */
  function EmitLoop(body: Node, selector: Option<Action>, st: EmitState, breakExit: Option<Label>): Outcome
    decreases body, 3
  {
    var (st1, wrapper) := Define(st, LoopWrapperName);
    var (st2, begin) := Define(st1, LoopBeginName);
    var (st3, exit) := Define(st2, LoopExitName);
    var (st4, end) := Define(st3, LoopEndName);
    var st5 := Put(st4, Deferred(PushInstrAddr(end)));
    match BindAt(st5, wrapper)
    case Crash => Crash
    case Done(st6) =>
      var st7 := Put(st6, PushAndMatch(LoopPush, selector));
      match BindAt(st7, begin)
      case Crash => Crash
      case Done(st8) =>
        var st9 := Put(st8, PopOrBranch(LoopPop, exit));
        match Emit(body, st9, breakExit)
        case Crash => Crash
        case Done(st10) =>
          var st11 := Put(Put(st10, Deferred(Call(wrapper))), Deferred(Branch(begin)));
          match BindAt(st11, exit)
          case Crash => Crash
          case Done(st12) =>
            var st13 := Put(st12, Control(Named(LoopFunctionExit, FunctionExit)));
            BindAt(st13, end)
  }

  /** SubroutineDefinitionAST.emit: bind the table's label (a missing name
      is a null label), the body, then the subroutine return. */
  function EmitDefinition(s: Subroutine, st: EmitState, breakExit: Option<Label>): Outcome
    decreases s, 0
  {
    if s.name !in st.subs then Crash
    else
      match BindAt(st, st.subs[s.name])
      case Crash => Crash
      case Done(st1) =>
        match Emit(s.body, st1, breakExit)
        case Crash => Crash
        case Done(st2) => Done(Put(st2, Control(SubroutineRetInstr)))
  }

  /** The loop emitting each subroutine of the list, in order, duplicates included. */
  function EmitDefinitions(subs: seq<Subroutine>, st: EmitState, breakExit: Option<Label>): Outcome
    decreases subs, 1
  {
    if subs == [] then Done(st)
    else
      match EmitDefinition(subs[0], st, breakExit)
      case Crash => Crash
      case Done(st1) => EmitDefinitions(subs[1..], st1, breakExit)
  }

  /** The first-definition table TopLevelAST builds: the line of each name's
      first definition, the names in first-occurrence order, and one error
      per later duplicate, at its own line, citing the first one's line. */
  datatype Table = Table(first: map<string, nat>, order: seq<string>, diags: seq<Diagnostic>)

  function Dedupe(subs: seq<Subroutine>): (t: Table)
    ensures forall name :: name in t.first <==> name in t.order
    decreases |subs|
  {
    if subs == [] then Table(map[], [], [])
    else
      var t := Dedupe(subs[..|subs| - 1]);
      var s := subs[|subs| - 1];
      if s.name in t.first then
        Table(t.first, t.order, t.diags + [Diagnostic(Error, s.line, SubroutineRedefined(t.first[s.name]))])
      else
        Table(t.first[s.name := s.line], t.order + [s.name], t.diags)
  }

  /** codegenCtx.subroutines().put(name, generator.defineLabel("subroutine_" + name))
      for each name of the table. */
  function DefineSubroutines(st: EmitState, names: seq<string>): EmitState
    decreases |names|
  {
    if names == [] then st
    else
      var (st1, l) := Define(st, "subroutine_" + names[0]);
      DefineSubroutines(st1.(subs := st1.subs[names[0] := l]), names[1..])
  }

  /** TopLevelAST.emit. */
  function EmitTopLevel(block: Node, subs: seq<Subroutine>, st: EmitState, breakExit: Option<Label>): Outcome
    decreases TopLevel(block, subs), 1
  {
    var t := Dedupe(subs);
    var st1 := DefineSubroutines(st.(diags := st.diags + t.diags), t.order);
    match Emit(block, st1, breakExit)
    case Crash => Crash
    case Done(st2) =>
      var st3 := if |subs| > 0 then Put(st2, Control(ExitBranch)) else st2;
      EmitDefinitions(subs, st3, breakExit)
  }
}
