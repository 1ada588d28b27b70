/** The AST node set, its `visit` children, `toString` names and the
    indented pre-order `dump` (ASTNode.java and the node classes). */
module Ast {
  import opened Wrappers
  import opened Instructions
  import opened Text

  /** A `null` in a Java node field is `None`; the body of Run, Loop and a
      subroutine definition is always a BlockAST in the sources. */
  datatype Node =
    | Block(children: seq<Node>)
    | Command(action: Action)
    | Exit
    | Return
    | SubroutineReturn
    | Break(line: nat)
    | Run(body: Node, selector: Option<Action>)
    | Loop(body: Node, selector: Option<Action>)
    | SubroutineCall(callee: string, line: nat)
    | Definition(def: Subroutine)
    | TopLevel(block: Node, subroutines: seq<Subroutine>)

  /** SubroutineDefinitionAST: `name()` and `line()` are its fields. */
  datatype Subroutine = Subroutine(body: Node, name: string, line: nat)

  /** A statement tree: no TopLevel node anywhere inside. The parsers build
      a TopLevel only at the root. */
  predicate Statement(n: Node)
  {
    match n
    case Block(children) => forall k :: 0 <= k < |children| ==> Statement(children[k])
    case Run(body, _) => Statement(body)
    case Loop(body, _) => Statement(body)
    case Definition(s) => Statement(s.body)
    case TopLevel(_, _) => false
    case _ => true
  }

  /** The definition nodes of a subroutine list, in order. */
  function Definitions(subs: seq<Subroutine>): (r: seq<Node>)
    ensures |r| == |subs| && forall k :: 0 <= k < |subs| ==> r[k] == Definition(subs[k])
  {
    seq(|subs|, k requires 0 <= k < |subs| => Definition(subs[k]))
  }

  /** visit(callback): the direct children, in callback order. */
  function Visit(n: Node): seq<Node>
  {
    match n
    case Block(children) => children
    case Run(body, _) => [body]
    case Loop(body, _) => [body]
    case Definition(s) => [s.body]
    case TopLevel(block, subs) => Definitions(subs) + [block]
    case _ => []
  }

  /** The text an action prints as; a null selector prints "null". */
  function ActionText(a: Option<Action>): string
  {
    match a
    case None => "null"
    case Some(act) => act.text
  }

  /** toString(). BreakAST declares none, so its name is Object.toString()
      without the `@` and identity hash code that follow the class name. */
  function NodeName(n: Node): string
  {
    match n
    case Block(_) => "BlockAST"
    case Command(a) => "CommandAST[" + a.text + "]"
    case Exit => "ExitAST"
    case Return => "ReturnAST"
    case SubroutineReturn => "SubroutineReturnAST"
    case Break(_) => "com.floweytf.mcfext.parse.ast.cfv2.BreakAST"
    case Run(_, a) => "RunAST[" + ActionText(a) + "]"
    case Loop(_, a) => "LoopAST[" + ActionText(a) + "]"
    case SubroutineCall(name, _) => "SubroutineCallAST[" + name + "]"
    case Definition(s) => "SubroutineDefinitionAST[" + s.name + "]"
    case TopLevel(_, _) => "TopLevelAST"
  }

  /** One line of the dump before rendering: the visitor's indent counter
      when the node was accepted, and the node's name. */
  datatype DumpLine = DumpLine(depth: nat, text: string)

  /** The dump visitor accepting `n` with its counter at `depth`: the node's
      line, then every child accepted with the counter one higher. */
  function Entries(n: Node, depth: nat): (r: seq<DumpLine>)
    ensures |r| >= 1 && r[0] == DumpLine(depth, NodeName(n))
    ensures forall k :: 0 < k < |r| ==> r[k].depth > depth
    decreases n, 1
  {
    [DumpLine(depth, NodeName(n))] + ChildEntries(n, depth + 1)
  }

  function ChildEntries(n: Node, depth: nat): (r: seq<DumpLine>)
    ensures forall k :: 0 <= k < |r| ==> r[k].depth >= depth
    decreases n, 0
  {
    match n
    case Block(children) => EntriesAll(children, depth)
    case Run(body, _) => Entries(body, depth)
    case Loop(body, _) => Entries(body, depth)
    case Definition(s) => Entries(s.body, depth)
    case TopLevel(block, subs) => DefinitionEntries(subs, depth) + Entries(block, depth)
    case _ => []
  }

  function EntriesAll(ns: seq<Node>, depth: nat): (r: seq<DumpLine>)
    ensures forall k :: 0 <= k < |r| ==> r[k].depth >= depth
    decreases ns
  {
    if ns == [] then [] else Entries(ns[0], depth) + EntriesAll(ns[1..], depth)
  }

  /** The entries of a TopLevel's subroutine list, each as its definition node. */
  function DefinitionEntries(subs: seq<Subroutine>, depth: nat): (r: seq<DumpLine>)
    ensures forall k :: 0 <= k < |r| ==> r[k].depth >= depth
    decreases subs
  {
    if subs == [] then []
    else
      [DumpLine(depth, NodeName(Definition(subs[0])))] + Entries(subs[0].body, depth + 1)
      + DefinitionEntries(subs[1..], depth)
  }

  lemma {:induction false} EntriesAllAppend(xs: seq<Node>, ys: seq<Node>, depth: nat)
    ensures EntriesAll(xs + ys, depth) == EntriesAll(xs, depth) + EntriesAll(ys, depth)
    decreases |xs|
  {
    if xs == [] {
      assert xs + ys == ys;
    } else {
      assert (xs + ys)[1..] == xs[1..] + ys;
      EntriesAllAppend(xs[1..], ys, depth);
    }
  }

  lemma {:induction false} DefinitionEntriesAsNodes(subs: seq<Subroutine>, depth: nat)
    ensures DefinitionEntries(subs, depth) == EntriesAll(Definitions(subs), depth)
    decreases |subs|
  {
    if subs != [] {
      var ds := Definitions(subs);
      assert ds[1..] == Definitions(subs[1..]);
      DefinitionEntriesAsNodes(subs[1..], depth);
      assert EntriesAll(ds, depth) == Entries(ds[0], depth) + EntriesAll(ds[1..], depth);
      assert Entries(ds[0], depth) == [DumpLine(depth, NodeName(ds[0]))] + Entries(subs[0].body, depth + 1);
    }
  }

  /** The dump is pre-order over `visit`: a node's line first, then the
      dumps of the children `visit` yields, in that order, one level deeper. */
  lemma {:induction false} DumpFollowsVisit(n: Node, depth: nat)
    ensures Entries(n, depth) == [DumpLine(depth, NodeName(n))] + EntriesAll(Visit(n), depth + 1)
  {
    match n
    case Block(_) =>
    case TopLevel(block, subs) =>
      DefinitionEntriesAsNodes(subs, depth + 1);
      EntriesAllAppend(Definitions(subs), [block], depth + 1);
      assert EntriesAll([block], depth + 1) == Entries(block, depth + 1) + EntriesAll([], depth + 1);
    case Run(body, _) =>
      assert EntriesAll([body], depth + 1) == Entries(body, depth + 1) + EntriesAll([], depth + 1);
    case Loop(body, _) =>
      assert EntriesAll([body], depth + 1) == Entries(body, depth + 1) + EntriesAll([], depth + 1);
    case Definition(s) =>
      assert EntriesAll([s.body], depth + 1) == Entries(s.body, depth + 1) + EntriesAll([], depth + 1);
    case _ =>
  }

  /** `"  ".repeat(indent) + toString + "\n"`. */
  function RenderLine(e: DumpLine): (r: string)
    ensures |r| == 2 * e.depth + |e.text| + 1 && r[|r| - 1] == '\n'
    ensures r[..2 * e.depth] == Spaces(2 * e.depth) && r[2 * e.depth..|r| - 1] == e.text
  {
    Spaces(2 * e.depth) + e.text + "\n"
  }

  function RenderLines(es: seq<DumpLine>): string
  {
    if es == [] then "" else RenderLine(es[0]) + RenderLines(es[1..])
  }

  /** dump(): the rendered entries of the root, accepted with the counter at 0. */
  function Dump(n: Node): (r: string)
    ensures r != [] && r[|r| - 1] == '\n'
    ensures |NodeName(n)| < |r| && r[..|NodeName(n)| + 1] == NodeName(n) + "\n"
  {
    var es := Entries(n, 0);
    RenderLinesEndsWithNewline(es);
    assert RenderLines(es) == RenderLine(es[0]) + RenderLines(es[1..]);
    assert RenderLine(es[0]) == NodeName(n) + "\n";
    RenderLines(es)
  }

  lemma {:induction false} RenderLinesEndsWithNewline(es: seq<DumpLine>)
    requires es != []
    ensures RenderLines(es) != [] && RenderLines(es)[|RenderLines(es)| - 1] == '\n'
    decreases |es|
  {
    if es[1..] != [] {
      RenderLinesEndsWithNewline(es[1..]);
    }
  }
}
