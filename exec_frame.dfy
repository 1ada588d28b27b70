/** The control lambdas RunAST and LoopAST emit, as functions on the
    execution frame they mutate: the current source, the source stack, the
    source-list stack and the instruction-address stack (each stack's top is
    its last element), and the instruction pointer. Popping or peeking an
    empty stack fails (`None`), as does running a null selector. */
module ExecFrame {
  import opened Wrappers
  import opened Instructions

  /** An execution context (a CommandSourceStack). */
  datatype Source = Source(id: nat)

  datatype Frame = Frame(
    source: Source,
    sources: seq<Source>,
    lists: seq<seq<Source>>,
    addrs: seq<int>,
    instr: int)

  /** The callback the `run`/`loop` selector runs for each matched source:
      append it to the top pending list. */
  function AddMatch(f: Frame, s: Source): (r: Option<Frame>)
    ensures r.Some? <==> f.lists != []
    ensures r.Some? ==> r.value == f.(lists := f.lists[..|f.lists| - 1] + [f.lists[|f.lists| - 1] + [s]])
  {
    if f.lists == [] then None
    else Some(f.(lists := f.lists[..|f.lists| - 1] + [f.lists[|f.lists| - 1] + [s]]))
  }

  /** The selector run: the callback once per matched source, in order. */
  function AddMatches(f: Frame, matches: seq<Source>): Option<Frame>
    decreases |matches|
  {
    if matches == [] then Some(f)
    else
      match AddMatch(f, matches[0])
      case None => None
      case Some(f1) => AddMatches(f1, matches[1..])
  }

  /** One step of the named control lambda; `matches` stands for the sources
      the external selector yields when push_source_and_match runs it. */
  function Execute(op: FrameOp, f: Frame, matches: seq<Source>): Option<Frame>
  {
    match op
    case PushSourceAndMatch(selector) =>
      if selector.None? then None
      else AddMatches(f.(sources := f.sources + [f.source], lists := f.lists + [[]]), matches)
    case PopSourceOrBranch(exitTarget) =>
      if f.lists == [] then None
      else
        var top := f.lists[|f.lists| - 1];
        if top == [] then Some(f.(instr := exitTarget))
        else Some(f.(lists := f.lists[..|f.lists| - 1] + [top[1..]], source := top[0]))
    case FunctionExit =>
      if f.lists == [] || f.sources == [] || f.addrs == [] then None
      else Some(f.(lists := f.lists[..|f.lists| - 1],
                   source := f.sources[|f.sources| - 1], sources := f.sources[..|f.sources| - 1],
                   instr := f.addrs[|f.addrs| - 1], addrs := f.addrs[..|f.addrs| - 1]))
    case Cleanup =>
      if f.lists == [] || f.sources == [] then None
      else Some(f.(lists := f.lists[..|f.lists| - 1],
                   source := f.sources[|f.sources| - 1], sources := f.sources[..|f.sources| - 1]))
  }

  /** The selector callbacks append the matches, in order, to the top list. */
  lemma {:induction false} AddMatchesAppends(f: Frame, matches: seq<Source>)
    requires f.lists != []
    ensures AddMatches(f, matches) == Some(f.(lists := f.lists[..|f.lists| - 1] + [f.lists[|f.lists| - 1] + matches]))
    decreases |matches|
  {
    if matches == [] {
      assert f.lists[|f.lists| - 1] + matches == f.lists[|f.lists| - 1];
      assert f.lists[..|f.lists| - 1] + [f.lists[|f.lists| - 1]] == f.lists;
    } else {
      var f1 := AddMatch(f, matches[0]).value;
      AddMatchesAppends(f1, matches[1..]);
      assert f1.lists[..|f1.lists| - 1] == f.lists[..|f.lists| - 1];
      assert f.lists[|f.lists| - 1] + [matches[0]] + matches[1..] == f.lists[|f.lists| - 1] + matches;
    }
  }

  /** push_source_and_match saves the current source and pushes a list
      holding exactly the selector's matches; nothing else changes. */
  lemma PushSourceAndMatchEffect(f: Frame, a: Action, matches: seq<Source>)
    ensures Execute(PushSourceAndMatch(Some(a)), f, matches)
         == Some(f.(sources := f.sources + [f.source], lists := f.lists + [matches]))
  {
    var f0 := f.(sources := f.sources + [f.source], lists := f.lists + [[]]);
    AddMatchesAppends(f0, matches);
    assert f0.lists[..|f0.lists| - 1] == f.lists;
    assert f0.lists[|f0.lists| - 1] + matches == matches;
  }

  /** `n` consecutive runs of pop_source_or_branch (the loop body in between
      restores the frame, so only the lambdas are composed here). */
  function Pops(f: Frame, exitTarget: nat, n: nat): Option<Frame>
    decreases n
  {
    if n == 0 then Some(f)
    else
      match Execute(PopSourceOrBranch(exitTarget), f, [])
      case None => None
      case Some(f1) => Pops(f1, exitTarget, n - 1)
  }

  /** Draining the pending list: after `j` pops the top list is the old one
      without its first `j` sources and the current source is the `j`-th match. */
  lemma {:induction false} PopsVisitInOrder(f: Frame, exitTarget: nat, rest: seq<Source>, j: nat)
    requires f.lists != [] && f.lists[|f.lists| - 1] == rest && j <= |rest|
    ensures Pops(f, exitTarget, j).Some?
    ensures Pops(f, exitTarget, j).value.lists == f.lists[..|f.lists| - 1] + [rest[j..]]
    ensures j > 0 ==> Pops(f, exitTarget, j).value.source == rest[j - 1]
    ensures j == 0 ==> Pops(f, exitTarget, j).value.source == f.source
    ensures Pops(f, exitTarget, j).value.sources == f.sources
    ensures Pops(f, exitTarget, j).value.addrs == f.addrs
    ensures Pops(f, exitTarget, j).value.instr == f.instr
    decreases j
  {
    if j == 0 {
      assert f.lists[..|f.lists| - 1] + [rest[0..]] == f.lists;
    } else {
      var f1 := Execute(PopSourceOrBranch(exitTarget), f, []).value;
      assert f1.lists[|f1.lists| - 1] == rest[1..];
      PopsVisitInOrder(f1, exitTarget, rest[1..], j - 1);
      assert f1.lists[..|f1.lists| - 1] == f.lists[..|f.lists| - 1];
      assert rest[1..][j - 1..] == rest[j..];
    }
  }

  /** Once the pending list is empty, pop_source_or_branch jumps to the
      loop exit and leaves every stack and the source as they are. */
  lemma EmptyListBranches(f: Frame, exitTarget: nat)
    requires f.lists != [] && f.lists[|f.lists| - 1] == []
    ensures Execute(PopSourceOrBranch(exitTarget), f, []) == Some(f.(instr := exitTarget))
  {
  }

  /** A whole `run` iteration over `matches`: setup, one pop per match, the
      final pop that branches to the exit, then cleanup. The source and the
      source and list stacks are back to where they were. */
  lemma {:induction false} RunRestoresFrame(f: Frame, a: Action, matches: seq<Source>, exitTarget: nat)
    ensures Execute(PushSourceAndMatch(Some(a)), f, matches).Some?
    ensures Pops(Execute(PushSourceAndMatch(Some(a)), f, matches).value, exitTarget, |matches| + 1).Some?
    ensures
      var g := Pops(Execute(PushSourceAndMatch(Some(a)), f, matches).value, exitTarget, |matches| + 1).value;
      g.instr == exitTarget && Execute(Cleanup, g, []) == Some(f.(instr := exitTarget))
  {
    PushSourceAndMatchEffect(f, a, matches);
    var f1 := Execute(PushSourceAndMatch(Some(a)), f, matches).value;
    PopsVisitInOrder(f1, exitTarget, matches, |matches|);
    var f2 := Pops(f1, exitTarget, |matches|).value;
    assert f1.lists == f.lists + [matches];
    assert f1.lists[..|f1.lists| - 1] == f.lists;
    assert matches[|matches|..] == [];
    assert f2.lists == f.lists + [[]];
    PopsAppend(f1, exitTarget, |matches|);
    var g := Pops(f1, exitTarget, |matches| + 1).value;
    assert g == f2.(instr := exitTarget);
    assert (f.lists + [[]])[..|f.lists|] == f.lists;
  }

  /** A whole `loop` level: the caller pushed the address of `end`; setup,
      draining and function_exit restore the source and all three stacks
      and continue at that address. */
  lemma {:induction false} LoopExitRestoresFrame(f: Frame, a: Action, matches: seq<Source>, exitTarget: nat, endAddr: int)
    ensures
      var f0 := f.(addrs := f.addrs + [endAddr]);
      Execute(PushSourceAndMatch(Some(a)), f0, matches).Some?
      && Pops(Execute(PushSourceAndMatch(Some(a)), f0, matches).value, exitTarget, |matches| + 1).Some?
      && Execute(FunctionExit, Pops(Execute(PushSourceAndMatch(Some(a)), f0, matches).value, exitTarget, |matches| + 1).value, [])
         == Some(f.(instr := endAddr))
  {
    var f0 := f.(addrs := f.addrs + [endAddr]);
    RunRestoresFrame(f0, a, matches, exitTarget);
    var g := Pops(Execute(PushSourceAndMatch(Some(a)), f0, matches).value, exitTarget, |matches| + 1).value;
    PushSourceAndMatchEffect(f0, a, matches);
    var f1 := Execute(PushSourceAndMatch(Some(a)), f0, matches).value;
    PopsVisitInOrder(f1, exitTarget, matches, |matches|);
    PopsAppend(f1, exitTarget, |matches|);
    assert (f.lists + [[]])[..|f.lists|] == f.lists;
    assert (f.sources + [f.source])[..|f.sources|] == f.sources;
  }

  /** One more pop after `n` pops. */
  lemma {:induction false} PopsAppend(f: Frame, exitTarget: nat, n: nat)
    requires Pops(f, exitTarget, n).Some?
    ensures Pops(f, exitTarget, n + 1) == Execute(PopSourceOrBranch(exitTarget), Pops(f, exitTarget, n).value, [])
    decreases n
  {
    if n > 0 {
      var f1 := Execute(PopSourceOrBranch(exitTarget), f, []).value;
      PopsAppend(f1, exitTarget, n - 1);
    }
  }
}
