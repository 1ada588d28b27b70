/** Linkable.java: a control instruction whose construction is deferred to
    link time, together with the labels it needs resolved first. */
module Linkables {
  import opened Wrappers
  import opened Instructions

  /** A label is an index into the code generator's label arena. */
  type Label = nat

  /** Offsets of the arena's labels: `None` while a label is unbound. */
  type Arena = seq<Option<nat>>

  predicate Bound(arena: Arena, l: Label)
  {
    l < |arena| && arena[l].Some?
  }

  /** The supplier inside a linkable, one case per lambda the sources write. */
  datatype Gen =
    | GenCall(callee: Label)
    | GenBranch(dest: Label)
    | GenPushInstrAddr(addr: Label)
    | GenExit
    | GenPopOrBranch(name: string, exit: Label)
    | GenSubroutineCall(subroutine: Label)

  datatype Linkable = Linkable(targets: seq<Label>, gen: Gen)

  /** The labels whose offset a supplier reads when it runs. */
  function Reads(g: Gen): seq<Label>
  {
    match g
    case GenCall(l) => [l]
    case GenBranch(l) => [l]
    case GenPushInstrAddr(l) => [l]
    case GenExit => []
    case GenPopOrBranch(_, l) => [l]
    case GenSubroutineCall(l) => [l]
  }

  /** Running the supplier: `label.offset()` fails on an unbound label. */
  function Build(g: Gen, arena: Arena): (r: Option<ControlInstr>)
    ensures r.Some? <==> forall l :: l in Reads(g) ==> Bound(arena, l)
  {
    match g
    case GenExit => Some(ExitBranch)
    case GenCall(l) => if Bound(arena, l) then Some(CallInstr(arena[l].value)) else None
    case GenBranch(l) => if Bound(arena, l) then Some(BranchInstr(arena[l].value)) else None
    case GenPushInstrAddr(l) => if Bound(arena, l) then Some(PushInstrAddrInstr(arena[l].value)) else None
    case GenPopOrBranch(name, l) =>
      if Bound(arena, l) then Some(Named(name, PopSourceOrBranch(arena[l].value))) else None
    case GenSubroutineCall(l) => if Bound(arena, l) then Some(SubroutineCallInstr(arena[l].value)) else None
  }

  /** Linkable.link(): runs the supplier against the final label offsets. */
  function Link(lk: Linkable, arena: Arena): Option<ControlInstr>
  {
    Build(lk.gen, arena)
  }

  /** A linkable declares every label its supplier reads. */
  predicate Declares(lk: Linkable)
  {
    forall l :: l in Reads(lk.gen) ==> l in lk.targets
  }

  /** wrap(targets, gen): the targets are kept as given and linking runs `gen`. */
  function Wrap(targets: seq<Label>, gen: Gen): (lk: Linkable)
    ensures lk.targets == targets
    ensures forall arena: Arena :: Link(lk, arena) == Build(gen, arena)
  {
    Linkable(targets, gen)
  }

  /** wrap(gen): a linkable with the default, empty target list. */
  function WrapUntargeted(gen: Gen): (lk: Linkable)
    ensures lk.targets == []
    ensures forall arena: Arena :: Link(lk, arena) == Build(gen, arena)
  {
    Wrap([], gen)
  }

  /** call(target): targets exactly [target]; links to a call carrying the
      target's offset at link time. */
  function Call(target: Label): (lk: Linkable)
    ensures lk.targets == [target] && Declares(lk)
    ensures forall arena: Arena :: Bound(arena, target) ==> Link(lk, arena) == Some(CallInstr(arena[target].value))
    ensures forall arena: Arena :: !Bound(arena, target) ==> Link(lk, arena) == None
  {
    Wrap([target], GenCall(target))
  }

  /** branch(target). */
  function Branch(target: Label): (lk: Linkable)
    ensures lk.targets == [target] && Declares(lk)
    ensures forall arena: Arena :: Bound(arena, target) ==> Link(lk, arena) == Some(BranchInstr(arena[target].value))
    ensures forall arena: Arena :: !Bound(arena, target) ==> Link(lk, arena) == None
  {
    Wrap([target], GenBranch(target))
  }

  /** pushInstrAddr(target). */
  function PushInstrAddr(target: Label): (lk: Linkable)
    ensures lk.targets == [target] && Declares(lk)
    ensures forall arena: Arena :: Bound(arena, target) ==> Link(lk, arena) == Some(PushInstrAddrInstr(arena[target].value))
    ensures forall arena: Arena :: !Bound(arena, target) ==> Link(lk, arena) == None
  {
    Wrap([target], GenPushInstrAddr(target))
  }

  /** exit(): no targets, links to a branch to Integer.MAX_VALUE whatever the offsets. */
  function Exit(): (lk: Linkable)
    ensures lk.targets == [] && Declares(lk)
    ensures forall arena: Arena :: Link(lk, arena) == Some(BranchInstr(MaxInt))
  {
    Wrap([], GenExit)
  }

  /** Linking reads only the offsets of the declared targets: two arenas that
      agree on them link a declaring linkable to the same instruction. */
  lemma LinkReadsOnlyTargets(lk: Linkable, a1: Arena, a2: Arena)
    requires Declares(lk)
    requires forall l :: l in lk.targets ==> (Bound(a1, l) <==> Bound(a2, l))
    requires forall l :: l in lk.targets && Bound(a1, l) && Bound(a2, l) ==> a1[l] == a2[l]
    ensures Link(lk, a1) == Link(lk, a2)
  {
    match lk.gen
    case GenExit =>
    case GenCall(l) => assert l in Reads(lk.gen);
    case GenBranch(l) => assert l in Reads(lk.gen);
    case GenPushInstrAddr(l) => assert l in Reads(lk.gen);
    case GenPopOrBranch(_, l) => assert l in Reads(lk.gen);
    case GenSubroutineCall(l) => assert l in Reads(lk.gen);
  }

  /** A declaring linkable links once all of its targets are bound. */
  lemma LinkSucceedsWhenTargetsBound(lk: Linkable, arena: Arena)
    requires Declares(lk)
    requires forall l :: l in lk.targets ==> Bound(arena, l)
    ensures Link(lk, arena).Some?
  {
  }
}
