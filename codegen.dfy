/** The code generator the AST emits into. Its implementation is not part of
    this model; it is modelled by its observable state: the sequence of
    emitted items and the label arena, where a bound label's offset is the
    number of instructions emitted before its bind. */
module CodeGen {
  import opened Wrappers
  import opened Instructions
  import opened Linkables

  /** One emission: a label bind (no instruction of its own), a plain action,
      a control instruction, or a linkable resolved at define time. */
  datatype Item =
    | Bind(bound: Label)
    | Plain(action: Action)
    | Control(instr: ControlInstr)
    | Deferred(linkable: Linkable)

  datatype LabelSlot = LabelSlot(name: string, offset: Option<nat>)

  datatype GenState = GenState(items: seq<Item>, labels: seq<LabelSlot>)

  /** The number of instructions among the items (binds take no slot). */
  function InstrCount(items: seq<Item>): (n: nat)
    ensures n <= |items|
  {
    if items == [] then 0
    else InstrCount(items[..|items| - 1]) + (if items[|items| - 1].Bind? then 0 else 1)
  }

  lemma InstrCountAppend(items: seq<Item>, more: seq<Item>)
    ensures InstrCount(items + more) == InstrCount(items) + InstrCount(more)
    decreases |more|
  {
    if more == [] {
      assert items + more == items;
    } else {
      assert (items + more)[..|items + more| - 1] == items + more[..|more| - 1];
      assert (items + more)[|items + more| - 1] == more[|more| - 1];
      InstrCountAppend(items, more[..|more| - 1]);
    }
  }

  /** The label offsets, as `link` reads them. */
  function Offsets(labels: seq<LabelSlot>): (arena: Arena)
    ensures |arena| == |labels|
    ensures forall l :: 0 <= l < |labels| ==> arena[l] == labels[l].offset
  {
    seq(|labels|, l requires 0 <= l < |labels| => labels[l].offset)
  }

  /** Every bind names an existing label and records the instruction count
      before it as that label's offset. */
  predicate BindsRecorded(g: GenState)
  {
    forall k :: 0 <= k < |g.items| && g.items[k].Bind? ==>
      g.items[k].bound < |g.labels| && g.labels[g.items[k].bound].offset == Some(InstrCount(g.items[..k]))
  }

  /** No label is bound by two items. */
  predicate BindsUnique(items: seq<Item>)
  {
    forall k, j :: 0 <= k < j < |items| && items[k].Bind? && items[j].Bind? ==> items[k].bound != items[j].bound
  }

  /** A label has an offset only through a bind. */
  predicate OffsetsFromBinds(g: GenState)
  {
    forall l :: 0 <= l < |g.labels| && g.labels[l].offset.Some? ==> Bind(l) in g.items
  }

  /** The generator's invariant. */
  predicate Consistent(g: GenState)
  {
    BindsRecorded(g) && BindsUnique(g.items) && OffsetsFromBinds(g)
  }

  const Empty: GenState := GenState([], [])

  /** defineLabel(name): a fresh, unbound label at the end of the arena. */
  function AddLabel(g: GenState, name: string): (r: (GenState, Label))
  {
    (GenState(g.items, g.labels + [LabelSlot(name, None)]), |g.labels|)
  }

  /** emitLabel(l): binds `l` to the current instruction count. Binding a
      label twice (or one the arena does not hold) is a fault. */
  function BindLabel(g: GenState, l: Label): (r: Option<GenState>)
    ensures r.Some? <==> l < |g.labels| && g.labels[l].offset.None?
    ensures r.Some? ==> r.value.items == g.items + [Bind(l)] && |r.value.labels| == |g.labels|
    ensures r.Some? ==> r.value.labels[l] == LabelSlot(g.labels[l].name, Some(InstrCount(g.items)))
  {
    if l < |g.labels| && g.labels[l].offset.None? then
      Some(GenState(g.items + [Bind(l)], g.labels[l := LabelSlot(g.labels[l].name, Some(InstrCount(g.items)))]))
    else None
  }

  /** Binding one label leaves every other label's slot as it was. */
  lemma BindLeavesOthers(g: GenState, l: Label, m: Label)
    requires BindLabel(g, l).Some? && m < |g.labels| && m != l
    ensures BindLabel(g, l).value.labels[m] == g.labels[m]
  {
  }

  /** emitPlain / emitControl / emitLinkable: one more instruction. */
  function Append(g: GenState, it: Item): GenState
    requires !it.Bind?
  {
    GenState(g.items + [it], g.labels)
  }

  /** `g2` continues `g1`: items and labels only grow, names never change and
      a bound label keeps its offset. */
  predicate Extends(g1: GenState, g2: GenState)
  {
    |g1.items| <= |g2.items| && g2.items[..|g1.items|] == g1.items
    && |g1.labels| <= |g2.labels|
    && (forall l :: 0 <= l < |g1.labels| ==> g2.labels[l].name == g1.labels[l].name)
    && (forall l :: 0 <= l < |g1.labels| && g1.labels[l].offset.Some? ==> g2.labels[l].offset == g1.labels[l].offset)
  }

  /** A label bound before an extension keeps its slot. */
  lemma ExtendsKeepsBound(g1: GenState, g2: GenState, l: Label)
    requires Extends(g1, g2) && l < |g1.labels| && g1.labels[l].offset.Some?
    ensures g2.labels[l] == g1.labels[l]
  {
    assert g2.labels[l].name == g1.labels[l].name;
  }

  lemma ExtendsTransitive(g1: GenState, g2: GenState, g3: GenState)
    requires Extends(g1, g2) && Extends(g2, g3)
    ensures Extends(g1, g3)
  {
    assert g3.items[..|g1.items|] == g3.items[..|g2.items|][..|g1.items|];
  }

  lemma AddLabelPreserves(g: GenState, name: string)
    requires Consistent(g)
    ensures Consistent(AddLabel(g, name).0) && Extends(g, AddLabel(g, name).0)
    ensures AddLabel(g, name).1 == |g.labels| && AddLabel(g, name).0.labels[|g.labels|].offset.None?
  {
  }

  lemma BindLabelPreserves(g: GenState, l: Label)
    requires Consistent(g) && BindLabel(g, l).Some?
    ensures Consistent(BindLabel(g, l).value) && Extends(g, BindLabel(g, l).value)
  {
    var g' := BindLabel(g, l).value;
    assert g'.items[..|g.items|] == g.items;
    assert Bind(l) !in g.items;
    BindKeepsRecorded(g, l);
    BindKeepsUnique(g, l);
    BindKeepsOffsets(g, l);
  }

  lemma {:induction false} BindKeepsRecorded(g: GenState, l: Label)
    requires BindsRecorded(g) && BindLabel(g, l).Some? && Bind(l) !in g.items
    ensures BindsRecorded(BindLabel(g, l).value)
  {
    var g' := BindLabel(g, l).value;
    var n := |g.items|;
    forall k | 0 <= k < |g'.items| && g'.items[k].Bind?
      ensures g'.items[k].bound < |g'.labels|
      ensures g'.labels[g'.items[k].bound].offset == Some(InstrCount(g'.items[..k]))
    {
      if k < n {
        assert g'.items[..k] == g.items[..k];
        assert g.items[k] in g.items;
      } else {
        assert g'.items[..k] == g.items;
      }
    }
  }

  lemma {:induction false} BindKeepsUnique(g: GenState, l: Label)
    requires BindsUnique(g.items) && BindLabel(g, l).Some? && Bind(l) !in g.items
    ensures BindsUnique(BindLabel(g, l).value.items)
  {
    var items := BindLabel(g, l).value.items;
    forall k, j | 0 <= k < j < |items| && items[k].Bind? && items[j].Bind?
      ensures items[k].bound != items[j].bound
    {
      if j == |g.items| {
        assert g.items[k] in g.items;
      }
    }
  }

  lemma {:induction false} BindKeepsOffsets(g: GenState, l: Label)
    requires OffsetsFromBinds(g) && BindLabel(g, l).Some?
    ensures OffsetsFromBinds(BindLabel(g, l).value)
  {
    var g' := BindLabel(g, l).value;
    forall m | 0 <= m < |g'.labels| && g'.labels[m].offset.Some?
      ensures Bind(m) in g'.items
    {
      if m != l {
        assert Bind(m) in g.items;
      } else {
        assert g'.items[|g.items|] == Bind(l);
      }
    }
  }

  lemma {:induction false} AppendPreserves(g: GenState, it: Item)
    requires Consistent(g) && !it.Bind?
    ensures Consistent(Append(g, it)) && Extends(g, Append(g, it))
    ensures InstrCount(Append(g, it).items) == InstrCount(g.items) + 1
  {
    var g' := Append(g, it);
    forall k | 0 <= k < |g'.items| && g'.items[k].Bind?
      ensures g'.items[k].bound < |g'.labels| && g'.labels[g'.items[k].bound].offset == Some(InstrCount(g'.items[..k]))
    {
      assert k < |g.items|;
      assert g'.items[..k] == g.items[..k];
    }
    forall m | 0 <= m < |g'.labels| && g'.labels[m].offset.Some?
      ensures Bind(m) in g'.items
    {
      assert Bind(m) in g.items;
    }
    assert g'.items[..|g'.items| - 1] == g.items;
  }

  /** define(): every item but a bind becomes one instruction, a linkable
      through `link` against the final offsets; an unbound target is a fault. */
  function LinkItems(items: seq<Item>, arena: Arena): (r: Option<seq<Instr>>)
    ensures r.Some? ==> |r.value| == InstrCount(items)
  {
    if items == [] then Some([])
    else
      match LinkItems(items[..|items| - 1], arena)
      case None => None
      case Some(code) =>
        match items[|items| - 1]
        case Bind(_) => Some(code)
        case Plain(a) => Some(code + [PlainInstr(a)])
        case Control(c) => Some(code + [ControlOf(c)])
        case Deferred(lk) =>
          match Link(lk, arena)
          case None => None
          case Some(c) => Some(code + [ControlOf(c)])
  }

  /** Every linkable item declares what it reads and has all its targets bound. */
  predicate TargetsBound(items: seq<Item>, arena: Arena)
  {
    forall k :: 0 <= k < |items| && items[k].Deferred? ==>
      Declares(items[k].linkable) && forall l :: l in items[k].linkable.targets ==> Bound(arena, l)
  }

  /** Linking succeeds once the targets of every (declaring) linkable are bound. */
  lemma {:induction false} LinkItemsSucceeds(items: seq<Item>, arena: Arena)
    requires TargetsBound(items, arena)
    ensures LinkItems(items, arena).Some?
    decreases |items|
  {
    if items != [] {
      var init := items[..|items| - 1];
      assert TargetsBound(init, arena) by {
        forall k | 0 <= k < |init| && init[k].Deferred?
          ensures Declares(init[k].linkable) && forall l :: l in init[k].linkable.targets ==> Bound(arena, l)
        {
          assert init[k] == items[k];
        }
      }
      LinkItemsSucceeds(init, arena);
      var last := items[|items| - 1];
      if last.Deferred? {
        LinkSucceedsWhenTargetsBound(last.linkable, arena);
      }
    }
  }

  /** The code generator: the emitted items and the label arena. */
  class CodeGenerator {
    var items: seq<Item>
    var labels: seq<LabelSlot>

    function State(): GenState
      reads this
    {
      GenState(items, labels)
    }

    constructor ()
      ensures State() == Empty
    {
      items := [];
      labels := [];
    }

    method DefineLabel(name: string) returns (l: Label)
      modifies this
      ensures (State(), l) == AddLabel(old(State()), name)
    {
      l := |labels|;
      labels := labels + [LabelSlot(name, None)];
    }

    /** Returns false, changing nothing, when the label is already bound. */
    method EmitLabel(l: Label) returns (ok: bool)
      modifies this
      ensures ok == BindLabel(old(State()), l).Some?
      ensures ok ==> State() == BindLabel(old(State()), l).value
      ensures !ok ==> State() == old(State())
    {
      if l >= |labels| || labels[l].offset.Some? {
        return false;
      }
      var count := CountInstructions(items);
      labels := labels[l := LabelSlot(labels[l].name, Some(count))];
      items := items + [Bind(l)];
      ok := true;
    }

    /** The instruction count, as the generator's running offset. */
    static method CountInstructions(xs: seq<Item>) returns (n: nat)
      ensures n == InstrCount(xs)
    {
      n := 0;
      var k := 0;
      while k < |xs|
        invariant 0 <= k <= |xs|
        invariant n == InstrCount(xs[..k])
      {
        assert xs[..k + 1][..k] == xs[..k];
        if !xs[k].Bind? {
          n := n + 1;
        }
        k := k + 1;
      }
      assert xs[..k] == xs;
    }

    method EmitPlain(action: Action)
      modifies this
      ensures State() == Append(old(State()), Plain(action))
    {
      items := items + [Plain(action)];
    }

    method EmitControl(instr: ControlInstr)
      modifies this
      ensures State() == Append(old(State()), Control(instr))
    {
      items := items + [Control(instr)];
    }

    /** emitControlNamed(name, lambda): a control whose debug name is given. */
    method EmitControlNamed(name: string, op: FrameOp)
      modifies this
      ensures State() == Append(old(State()), Control(Named(name, op)))
    {
      EmitControl(Named(name, op));
    }

    method EmitLinkable(lk: Linkable)
      modifies this
      ensures State() == Append(old(State()), Deferred(lk))
    {
      items := items + [Deferred(lk)];
    }

    /** emitControlLinkable(targets, gen) == emitLinkable(Linkable.wrap(targets, gen)). */
    method EmitControlLinkable(targets: seq<Label>, gen: Gen)
      modifies this
      ensures State() == Append(old(State()), Deferred(Wrap(targets, gen)))
    {
      EmitLinkable(Wrap(targets, gen));
    }

    /** define(): the linked instruction array; only reads the generator. */
    method Define() returns (code: Option<seq<Instr>>)
      ensures code == LinkItems(items, Offsets(labels))
    {
      var arena := Offsets(labels);
      var out: seq<Instr> := [];
      var k := 0;
      while k < |items|
        invariant 0 <= k <= |items|
        invariant LinkItems(items[..k], arena) == Some(out)
      {
        assert items[..k + 1][..k] == items[..k];
        match items[k] {
          case Bind(_) =>
          case Plain(a) => out := out + [PlainInstr(a)];
          case Control(c) => out := out + [ControlOf(c)];
          case Deferred(lk) =>
            var c := Link(lk, arena);
            if c.None? {
              assert LinkItems(items[..k + 1], arena) == None;
              LinkPrefixFails(items, k + 1, arena);
              return None;
            }
            out := out + [ControlOf(c.value)];
        }
        k := k + 1;
      }
      assert items[..k] == items;
      code := Some(out);
    }
  }

  /** Once a prefix fails to link, so does every longer prefix. */
  lemma {:induction false} LinkPrefixFails(items: seq<Item>, k: nat, arena: Arena)
    requires k <= |items| && LinkItems(items[..k], arena).None?
    ensures LinkItems(items, arena).None?
    decreases |items| - k
  {
    if k < |items| {
      assert items[..k + 1][..k] == items[..k];
      LinkPrefixFails(items, k + 1, arena);
    } else {
      assert items[..k] == items;
    }
  }
}
