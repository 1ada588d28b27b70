/** What TopLevelAST.emit guarantees: the first-definition table, one fresh
    label per distinct subroutine name, every subroutine entry bound once all
    definitions are emitted, a whole function that emits without a fault
    links, and a name defined twice makes emission fault. */
module TopLevelProps {
  import opened Wrappers
  import opened Instructions
  import opened Linkables
  import opened CodeGen
  import opened Diagnostics
  import opened Ast
  import opened Emission
  import opened EmissionProps
  import opened EmissionLinks

  // ---------------------------------------------------------------------
  // The first-definition table
  // ---------------------------------------------------------------------

  /** Some subroutine of the list carries this name. */
  predicate Defines(subs: seq<Subroutine>, name: string)
  {
    exists k :: 0 <= k < |subs| && subs[k].name == name
  }

  /** The k-th subroutine is the first of its name. */
  predicate FirstOfName(subs: seq<Subroutine>, k: nat)
    requires k < |subs|
  {
    forall j :: 0 <= j < k ==> subs[j].name != subs[k].name
  }

  predicate DistinctNames(subs: seq<Subroutine>)
  {
    forall j, k :: 0 <= j < k < |subs| ==> subs[j].name != subs[k].name
  }

  predicate Distinct(xs: seq<string>)
  {
    forall i, j :: 0 <= i < j < |xs| ==> xs[i] != xs[j]
  }

  /** A later duplicate's report: an error at its own line citing the line
      of the first definition of its name. */
  predicate ReportsDuplicate(subs: seq<Subroutine>, first: map<string, nat>, d: Diagnostic)
  {
    exists k :: 0 <= k < |subs| && !FirstOfName(subs, k) && subs[k].name in first
      && d == Diagnostic(Error, subs[k].line, SubroutineRedefined(first[subs[k].name]))
  }

  /** The table maps exactly the defined names. */
  lemma {:induction false} DedupeKeys(subs: seq<Subroutine>)
    ensures forall name :: name in Dedupe(subs).first <==> Defines(subs, name)
    decreases |subs|
  {
    if subs != [] {
      var init := subs[..|subs| - 1];
      DedupeKeys(init);
      forall name
        ensures Defines(subs, name) <==> Defines(init, name) || name == subs[|subs| - 1].name
      {
        if Defines(init, name) {
          var k :| 0 <= k < |init| && init[k].name == name;
          assert subs[k] == init[k];
        }
        if Defines(subs, name) && name != subs[|subs| - 1].name {
          var k :| 0 <= k < |subs| && subs[k].name == name;
          assert init[k] == subs[k];
        }
      }
    }
  }

  /** Each name maps to the line of its first definition. */
  lemma {:induction false} DedupeFirst(subs: seq<Subroutine>)
    ensures forall k :: 0 <= k < |subs| && FirstOfName(subs, k) ==>
      subs[k].name in Dedupe(subs).first && Dedupe(subs).first[subs[k].name] == subs[k].line
    decreases |subs|
  {
    if subs != [] {
      var init := subs[..|subs| - 1];
      var s := subs[|subs| - 1];
      var t0 := Dedupe(init);
      DedupeFirst(init);
      DedupeKeys(init);
      forall k | 0 <= k < |subs| && FirstOfName(subs, k)
        ensures subs[k].name in Dedupe(subs).first && Dedupe(subs).first[subs[k].name] == subs[k].line
      {
        if k < |init| {
          assert init[k] == subs[k];
          assert FirstOfName(init, k);
          assert Defines(init, subs[k].name);
        } else {
          assert forall j :: 0 <= j < |init| ==> init[j].name != s.name;
        }
      }
    }
  }

  /** The name list has no repeats, and every subroutine is either a first
      definition (named in the list) or a reported duplicate. */
  lemma {:induction false} DedupeOrder(subs: seq<Subroutine>)
    ensures Distinct(Dedupe(subs).order)
    ensures |Dedupe(subs).diags| + |Dedupe(subs).order| == |subs|
    decreases |subs|
  {
    if subs != [] {
      DedupeOrder(subs[..|subs| - 1]);
    }
  }

  /** Each report is an error at a later duplicate's line, citing the line
      the table holds for its name. */
  lemma {:induction false} DedupeReports(subs: seq<Subroutine>)
    ensures forall i :: 0 <= i < |Dedupe(subs).diags| ==>
      ReportsDuplicate(subs, Dedupe(subs).first, Dedupe(subs).diags[i])
    decreases |subs|
  {
    if subs != [] {
      var init := subs[..|subs| - 1];
      var s := subs[|subs| - 1];
      var t0 := Dedupe(init);
      var t := Dedupe(subs);
      DedupeReports(init);
      DedupeKeys(init);
      forall i | 0 <= i < |t.diags|
        ensures ReportsDuplicate(subs, t.first, t.diags[i])
      {
        if i < |t0.diags| {
          var k :| 0 <= k < |init| && !FirstOfName(init, k) && init[k].name in t0.first
            && t0.diags[i] == Diagnostic(Error, init[k].line, SubroutineRedefined(t0.first[init[k].name]));
          assert init[k] == subs[k];
          assert !FirstOfName(subs, k);
          assert t.diags[i] == t0.diags[i];
        } else {
          assert s.name in t0.first;
          var j :| 0 <= j < |init| && init[j].name == s.name;
          assert subs[j] == init[j];
          assert !FirstOfName(subs, |subs| - 1);
        }
      }
    }
  }

  /** No duplicate is reported exactly when all names are distinct. */
  lemma {:induction false} DedupeClean(subs: seq<Subroutine>)
    ensures Dedupe(subs).diags == [] <==> DistinctNames(subs)
    decreases |subs|
  {
    if subs != [] {
      var init := subs[..|subs| - 1];
      var s := subs[|subs| - 1];
      DedupeClean(init);
      DedupeKeys(init);
      assert forall k :: 0 <= k < |init| ==> init[k] == subs[k];
      if s.name in Dedupe(init).first {
        var j :| 0 <= j < |init| && init[j].name == s.name;
        assert subs[j].name == subs[|subs| - 1].name;
      } else {
        assert DistinctNames(subs) <==> DistinctNames(init);
      }
    }
  }

  // ---------------------------------------------------------------------
  // The subroutine label table
  // ---------------------------------------------------------------------

  /** The slots of the subroutine labels, one per name. */
  function SubroutineSlots(names: seq<string>): (r: seq<LabelSlot>)
    ensures |r| == |names|
    ensures forall i :: 0 <= i < |names| ==> r[i] == LabelSlot("subroutine_" + names[i], None)
  {
    seq(|names|, i requires 0 <= i < |names| => LabelSlot("subroutine_" + names[i], None))
  }

  /** Defining the table's labels appends one unbound label
      "subroutine_<name>" per name, in list order; the items and the
      diagnostics are untouched. */
  lemma {:induction false} DefineSubroutinesGen(st: EmitState, names: seq<string>)
    ensures DefineSubroutines(st, names).gen == GenState(st.gen.items, st.gen.labels + SubroutineSlots(names))
    ensures DefineSubroutines(st, names).diags == st.diags
    decreases |names|
  {
    if names != [] {
      var (st0, l) := Define(st, "subroutine_" + names[0]);
      DefineSubroutinesGen(st0.(subs := st0.subs[names[0] := l]), names[1..]);
      SlotsCons(st.gen.labels, names);
    } else {
      assert st.gen.labels + SubroutineSlots(names) == st.gen.labels;
    }
  }

  lemma SlotsCons(labels: seq<LabelSlot>, names: seq<string>)
    requires names != []
    ensures labels + [LabelSlot("subroutine_" + names[0], None)] + SubroutineSlots(names[1..])
         == labels + SubroutineSlots(names)
  {
    assert SubroutineSlots(names) == [LabelSlot("subroutine_" + names[0], None)] + SubroutineSlots(names[1..]);
  }

  /** Each name of the list is recorded with its own label, the next free
      one at the time; other names keep their entries. */
  lemma {:induction false} DefineSubroutinesSubs(st: EmitState, names: seq<string>)
    requires Distinct(names)
    ensures forall name :: name in DefineSubroutines(st, names).subs <==> name in st.subs || name in names
    ensures forall i :: 0 <= i < |names| ==> DefineSubroutines(st, names).subs[names[i]] == |st.gen.labels| + i
    ensures forall name :: name in st.subs && name !in names ==> DefineSubroutines(st, names).subs[name] == st.subs[name]
    decreases |names|
  {
    if names != [] {
      var L := |st.gen.labels|;
      var (st0, l) := Define(st, "subroutine_" + names[0]);
      var st1 := st0.(subs := st0.subs[names[0] := l]);
      assert Distinct(names[1..]);
      DefineSubroutinesSubs(st1, names[1..]);
      var r := DefineSubroutines(st, names);
      assert r == DefineSubroutines(st1, names[1..]);
      forall i | 0 <= i < |names|
        ensures r.subs[names[i]] == L + i
      {
        if i == 0 {
          assert names[0] !in names[1..];
        } else {
          assert names[i] == names[1..][i - 1];
        }
      }
      forall name | name in names
        ensures name in r.subs
      {
        if name != names[0] {
          var i :| 0 <= i < |names| && names[i] == name;
          assert names[1..][i - 1] == name;
        }
      }
    }
  }

  /** Defining the table keeps the generator invariant. */
  lemma {:induction false} DefineSubroutinesWf(st: EmitState, names: seq<string>)
    requires Wf(st)
    ensures Wf(DefineSubroutines(st, names))
    decreases |names|
  {
    if names != [] {
      var (st0, l) := Define(st, "subroutine_" + names[0]);
      DefineStep(st, "subroutine_" + names[0]);
      DefineSubroutinesWf(st0.(subs := st0.subs[names[0] := l]), names[1..]);
    }
  }

  // ---------------------------------------------------------------------
  // Subroutine definitions
  // ---------------------------------------------------------------------

  /** A definition that emits binds its table entry. */
  lemma DefinitionBinds(s: Subroutine, st: EmitState, breakExit: Option<Label>)
    requires Wf(st) && Statement(s.body)
    ensures EmitDefinition(s, st, breakExit).Done? ==>
      s.name in st.subs && IsBound(EmitDefinition(s, st, breakExit).st.gen, st.subs[s.name])
  {
    if s.name in st.subs {
      BindStep(st, st.subs[s.name], |st.gen.labels|);
      if BindAt(st, st.subs[s.name]).Done? {
        var st1 := BindAt(st, st.subs[s.name]).st;
        EmitGrows(s.body, st1, breakExit);
        if Emit(s.body, st1, breakExit).Done? {
          var st2 := Emit(s.body, st1, breakExit).st;
          PutStep(st2, Control(SubroutineRetInstr));
        }
      }
    }
  }

  /** A definition whose entry is already bound faults: its label is bound
      a second time. */
  lemma RebindFaults(s: Subroutine, st: EmitState, breakExit: Option<Label>)
    requires s.name in st.subs && IsBound(st.gen, st.subs[s.name])
    ensures EmitDefinition(s, st, breakExit).Crash?
  {
  }

  /** Emitting the definition list keeps the invariant and only extends the
      state; once it succeeds, every listed name has its entry bound. */
  lemma {:induction false} EmitDefinitionsGrows(subs: seq<Subroutine>, st: EmitState, breakExit: Option<Label>)
    requires Wf(st) && forall k :: 0 <= k < |subs| ==> Statement(subs[k].body)
    ensures EmitDefinitions(subs, st, breakExit).Done? ==>
      Wf(EmitDefinitions(subs, st, breakExit).st)
      && Grows(st, EmitDefinitions(subs, st, breakExit).st, |st.gen.labels|)
      && forall k :: 0 <= k < |subs| ==>
           subs[k].name in st.subs && IsBound(EmitDefinitions(subs, st, breakExit).st.gen, st.subs[subs[k].name])
    decreases |subs|
  {
    if subs == [] {
      GrowsRefl(st, |st.gen.labels|);
    } else {
      EmitDefinitionGrows(subs[0], st, breakExit);
      DefinitionBinds(subs[0], st, breakExit);
      if EmitDefinition(subs[0], st, breakExit).Done? {
        var st1 := EmitDefinition(subs[0], st, breakExit).st;
        EmitDefinitionsGrows(subs[1..], st1, breakExit);
        if EmitDefinitions(subs[1..], st1, breakExit).Done? {
          var r := EmitDefinitions(subs[1..], st1, breakExit).st;
          GrowsTrans(st, st1, r, |st.gen.labels|);
          forall k | 0 <= k < |subs|
            ensures subs[k].name in st.subs && IsBound(r.gen, st.subs[subs[k].name])
          {
            if k > 0 {
              assert subs[k] == subs[1..][k - 1];
            }
          }
        }
      }
    }
  }

  /** The items the definition list emits have their targets bound or are
      subroutine entries. */
  lemma {:induction false} EmitDefinitionsResolves(subs: seq<Subroutine>, st: EmitState, breakExit: Option<Label>)
    requires Wf(st) && forall k :: 0 <= k < |subs| ==> Statement(subs[k].body)
    ensures EmitDefinitions(subs, st, breakExit).Done? ==>
      Resolved(NewItems(st, EmitDefinitions(subs, st, breakExit).st), EmitDefinitions(subs, st, breakExit).st.gen, st.subs)
    decreases |subs|
  {
    if subs == [] {
      assert NewItems(st, st) == [];
    } else {
      EmitDefinitionGrows(subs[0], st, breakExit);
      EmitDefinitionResolves(subs[0], st, breakExit);
      if EmitDefinition(subs[0], st, breakExit).Done? {
        var st1 := EmitDefinition(subs[0], st, breakExit).st;
        EmitDefinitionsGrows(subs[1..], st1, breakExit);
        EmitDefinitionsResolves(subs[1..], st1, breakExit);
        if EmitDefinitions(subs[1..], st1, breakExit).Done? {
          var st2 := EmitDefinitions(subs[1..], st1, breakExit).st;
          NewItemsSplit(st, st1, st2);
          ResolvedLater(NewItems(st, st1), st1.gen, st2.gen, st.subs);
          ResolvedConcat(NewItems(st, st1), NewItems(st1, st2), st2.gen, st.subs);
        }
      }
    }
  }

  /** Once some listed name has its entry bound, emitting the list faults. */
  lemma {:induction false} BoundEntryFaults(subs: seq<Subroutine>, k: nat, st: EmitState, breakExit: Option<Label>)
    requires Wf(st) && forall j :: 0 <= j < |subs| ==> Statement(subs[j].body)
    requires k < |subs| && subs[k].name in st.subs && IsBound(st.gen, st.subs[subs[k].name])
    ensures EmitDefinitions(subs, st, breakExit).Crash?
    decreases |subs|
  {
    if k == 0 {
      RebindFaults(subs[0], st, breakExit);
    } else {
      EmitDefinitionGrows(subs[0], st, breakExit);
      if EmitDefinition(subs[0], st, breakExit).Done? {
        var st1 := EmitDefinition(subs[0], st, breakExit).st;
        assert subs[1..][k - 1] == subs[k];
        BoundEntryFaults(subs[1..], k - 1, st1, breakExit);
      }
    }
  }

  /** A name defined twice makes emitting the list fault: the second
      definition binds the entry the first one bound. */
  lemma {:induction false} DuplicateDefinitionsFault(subs: seq<Subroutine>, st: EmitState, breakExit: Option<Label>)
    requires Wf(st) && forall j :: 0 <= j < |subs| ==> Statement(subs[j].body)
    requires !DistinctNames(subs)
    ensures EmitDefinitions(subs, st, breakExit).Crash?
    decreases |subs|
  {
    var i, k :| 0 <= i < k < |subs| && subs[i].name == subs[k].name;
    EmitDefinitionGrows(subs[0], st, breakExit);
    DefinitionBinds(subs[0], st, breakExit);
    if EmitDefinition(subs[0], st, breakExit).Done? {
      var st1 := EmitDefinition(subs[0], st, breakExit).st;
      assert subs[1..][k - 1] == subs[k];
      if i == 0 {
        BoundEntryFaults(subs[1..], k - 1, st1, breakExit);
      } else {
        assert subs[1..][i - 1] == subs[i];
        DuplicateDefinitionsFault(subs[1..], st1, breakExit);
      }
    }
  }

  // ---------------------------------------------------------------------
  // The whole function
  // ---------------------------------------------------------------------

  /** The state in which TopLevelAST emits its block: the duplicate reports
      appended and the subroutine labels defined. */
  function TableState(subs: seq<Subroutine>, st: EmitState): EmitState
  {
    DefineSubroutines(st.(diags := st.diags + Dedupe(subs).diags), Dedupe(subs).order)
  }

  /** Defining the labels of distinct names into an empty table: the table
      holds exactly those names, each with a fresh unbound label named after
      it, no two sharing a label. */
  lemma TableFacts(st0: EmitState, names: seq<string>)
    requires Wf(st0) && st0.subs == map[] && Distinct(names)
    ensures var st1 := DefineSubroutines(st0, names);
      Wf(st1) && st1.gen.items == st0.gen.items
      && (forall name :: name in st1.subs <==> name in names)
      && (forall name :: name in st1.subs ==>
            st1.gen.labels[st1.subs[name]] == LabelSlot("subroutine_" + name, None))
      && (forall n1, n2 :: n1 in st1.subs && n2 in st1.subs && n1 != n2 ==> st1.subs[n1] != st1.subs[n2])
  {
    var st1 := DefineSubroutines(st0, names);
    DefineSubroutinesWf(st0, names);
    DefineSubroutinesGen(st0, names);
    DefineSubroutinesSubs(st0, names);
    forall name | name in st1.subs
      ensures st1.gen.labels[st1.subs[name]] == LabelSlot("subroutine_" + name, None)
    {
      TableSlotOf(st0, names, name);
    }
    forall n1, n2 | n1 in st1.subs && n2 in st1.subs && n1 != n2
      ensures st1.subs[n1] != st1.subs[n2]
    {
      TableLabelsDiffer(st0, names, n1, n2);
    }
  }

  /** A listed name's table entry is an unbound label named after it. */
  lemma TableSlotOf(st0: EmitState, names: seq<string>, name: string)
    requires st0.subs == map[] && Distinct(names) && name in names
    ensures var st1 := DefineSubroutines(st0, names);
      name in st1.subs && st1.subs[name] < |st1.gen.labels|
      && st1.gen.labels[st1.subs[name]] == LabelSlot("subroutine_" + name, None)
  {
    var i :| 0 <= i < |names| && names[i] == name;
    DefineSubroutinesGen(st0, names);
    DefineSubroutinesSubs(st0, names);
    var st1 := DefineSubroutines(st0, names);
    assert st1.subs[name] == |st0.gen.labels| + i;
    assert st1.gen.labels[|st0.gen.labels| + i] == SubroutineSlots(names)[i];
  }

  /** Two listed names get different labels. */
  lemma TableLabelsDiffer(st0: EmitState, names: seq<string>, n1: string, n2: string)
    requires st0.subs == map[] && Distinct(names) && n1 in names && n2 in names && n1 != n2
    ensures var st1 := DefineSubroutines(st0, names);
      n1 in st1.subs && n2 in st1.subs && st1.subs[n1] != st1.subs[n2]
  {
    var i :| 0 <= i < |names| && names[i] == n1;
    var j :| 0 <= j < |names| && names[j] == n2;
    DefineSubroutinesSubs(st0, names);
    var st1 := DefineSubroutines(st0, names);
    assert st1.subs[n1] == |st0.gen.labels| + i && st1.subs[n2] == |st0.gen.labels| + j;
  }

  /** Before anything is emitted, starting from a fresh generator and an
      empty table, every defined name, and no other, has exactly one label
      in the table: a fresh, unbound label named after it, distinct from the
      other names' labels. */
  lemma TopLevelTable(subs: seq<Subroutine>, st: EmitState)
    requires st.gen == Empty && st.subs == map[]
    ensures var st1 := TableState(subs, st);
      Wf(st1) && st1.gen.items == []
      && (forall name :: name in st1.subs <==> Defines(subs, name))
      && (forall name :: name in st1.subs ==>
            st1.gen.labels[st1.subs[name]] == LabelSlot("subroutine_" + name, None))
      && (forall n1, n2 :: n1 in st1.subs && n2 in st1.subs && n1 != n2 ==> st1.subs[n1] != st1.subs[n2])
  {
    DedupeOrder(subs);
    DedupeKeys(subs);
    TableFacts(st.(diags := st.diags + Dedupe(subs).diags), Dedupe(subs).order);
  }

  /** A function that defines a subroutine name twice faults during
      emission, after reporting the redefinition. */
  lemma TopLevelDuplicateFaults(block: Node, subs: seq<Subroutine>, st: EmitState, breakExit: Option<Label>)
    requires Wf(st) && Statement(block) && forall k :: 0 <= k < |subs| ==> Statement(subs[k].body)
    requires !DistinctNames(subs)
    ensures Dedupe(subs).diags != []
    ensures EmitTopLevel(block, subs, st, breakExit).Crash?
  {
    DedupeClean(subs);
    var st1 := TableState(subs, st);
    DefineSubroutinesWf(st.(diags := st.diags + Dedupe(subs).diags), Dedupe(subs).order);
    EmitGrows(block, st1, breakExit);
    if Emit(block, st1, breakExit).Done? {
      var st2 := Emit(block, st1, breakExit).st;
      var st3 := if |subs| > 0 then Put(st2, Control(ExitBranch)) else st2;
      if |subs| > 0 {
        PutStep(st2, Control(ExitBranch));
      }
      DuplicateDefinitionsFault(subs, st3, breakExit);
    }
  }

  /** The block and the exit that separates it from the subroutines. */
  lemma BlockThenExit(block: Node, subs: seq<Subroutine>, st1: EmitState, breakExit: Option<Label>)
    requires Wf(st1) && Statement(block) && st1.gen.items == []
    requires Emit(block, st1, breakExit).Done?
    ensures var st2 := Emit(block, st1, breakExit).st;
      var st3 := if |subs| > 0 then Put(st2, Control(ExitBranch)) else st2;
      Wf(st3) && Extends(st1.gen, st3.gen) && st3.subs == st1.subs
      && Resolved(st3.gen.items, st3.gen, st1.subs)
  {
    var st2 := Emit(block, st1, breakExit).st;
    EmitGrows(block, st1, breakExit);
    EmitResolves(block, st1, breakExit);
    assert NewItems(st1, st2) == st2.gen.items;
    if |subs| > 0 {
      var st3 := Put(st2, Control(ExitBranch));
      PutStep(st2, Control(ExitBranch));
      ExtendsTransitive(st1.gen, st2.gen, st3.gen);
      ResolvedLater(st2.gen.items, st2.gen, st3.gen, st1.subs);
      assert Resolved([Control(ExitBranch)], st3.gen, st1.subs);
      ResolvedConcat(st2.gen.items, [Control(ExitBranch)], st3.gen, st1.subs);
    }
  }

  /** Resolved items whose subroutine entries are all bound link. */
  lemma ResolvedLinks(items: seq<Item>, g: GenState, subs: map<string, Label>)
    requires Resolved(items, g, subs) && forall name :: name in subs ==> IsBound(g, subs[name])
    ensures TargetsBound(items, Offsets(g.labels))
    ensures LinkItems(items, Offsets(g.labels)).Some?
  {
    forall k | 0 <= k < |items| && items[k].Deferred?
      ensures forall l :: l in items[k].linkable.targets ==> Bound(Offsets(g.labels), l)
    {
      forall l | l in items[k].linkable.targets
        ensures Bound(Offsets(g.labels), l)
      {
        if l in subs.Values {
          var name :| name in subs && subs[name] == l;
        }
      }
    }
    LinkItemsSucceeds(items, Offsets(g.labels));
  }

  /** The function's items: the block and exit, resolved against the
      table, then the definitions; once every entry is bound they link. */
  lemma LinksOnceEntriesBound(st1: EmitState, st3: EmitState, r: EmitState)
    requires st1.gen.items == [] && Extends(st1.gen, st3.gen) && Extends(st3.gen, r.gen)
    requires Resolved(st3.gen.items, st3.gen, st1.subs) && Resolved(NewItems(st3, r), r.gen, st1.subs)
    requires forall name :: name in st1.subs ==> IsBound(r.gen, st1.subs[name])
    ensures LinkItems(r.gen.items, Offsets(r.gen.labels)).Some?
  {
    NewItemsSplit(st1, st3, r);
    assert NewItems(st1, r) == r.gen.items;
    assert NewItems(st1, st3) == st3.gen.items;
    ResolvedLater(st3.gen.items, st3.gen, r.gen, st1.subs);
    ResolvedConcat(st3.gen.items, NewItems(st3, r), r.gen, st1.subs);
    ResolvedLinks(r.gen.items, r.gen, st1.subs);
  }

  /** What TopLevelAST emits after its table: the block, the exit when
      there are subroutines, then the definitions. */
  function AfterTable(block: Node, subs: seq<Subroutine>, st1: EmitState, breakExit: Option<Label>): Outcome
  {
    match Emit(block, st1, breakExit)
    case Crash => Crash
    case Done(st2) =>
      EmitDefinitions(subs, if |subs| > 0 then Put(st2, Control(ExitBranch)) else st2, breakExit)
  }

  /** From a table holding exactly the defined names and no emitted items,
      a fault-free emission links. */
  lemma AfterTableLinks(block: Node, subs: seq<Subroutine>, st1: EmitState, breakExit: Option<Label>)
    requires Wf(st1) && st1.gen.items == [] && forall name :: name in st1.subs <==> Defines(subs, name)
    requires Statement(block) && forall k :: 0 <= k < |subs| ==> Statement(subs[k].body)
    ensures AfterTable(block, subs, st1, breakExit).Done? ==>
      LinkItems(AfterTable(block, subs, st1, breakExit).st.gen.items,
                Offsets(AfterTable(block, subs, st1, breakExit).st.gen.labels)).Some?
  {
    if AfterTable(block, subs, st1, breakExit).Done? {
      var st2 := Emit(block, st1, breakExit).st;
      var st3 := if |subs| > 0 then Put(st2, Control(ExitBranch)) else st2;
      BlockThenExit(block, subs, st1, breakExit);
      var r := EmitDefinitions(subs, st3, breakExit).st;
      EmitDefinitionsGrows(subs, st3, breakExit);
      EmitDefinitionsResolves(subs, st3, breakExit);
      forall name | name in st1.subs
        ensures IsBound(r.gen, st1.subs[name])
      {
        var k :| 0 <= k < |subs| && subs[k].name == name;
      }
      LinksOnceEntriesBound(st1, st3, r);
    }
  }

  /** A function emitted from a fresh generator and an empty table without a
      fault has distinct subroutine names (so no redefinition was reported)
      and `define` links every deferred instruction: each targets a label
      the function binds. */
  lemma TopLevelLinks(block: Node, subs: seq<Subroutine>, st: EmitState, breakExit: Option<Label>)
    requires st.gen == Empty && st.subs == map[]
    requires Statement(block) && forall k :: 0 <= k < |subs| ==> Statement(subs[k].body)
    ensures EmitTopLevel(block, subs, st, breakExit).Done? ==>
      DistinctNames(subs) && Dedupe(subs).diags == []
      && LinkItems(EmitTopLevel(block, subs, st, breakExit).st.gen.items,
                   Offsets(EmitTopLevel(block, subs, st, breakExit).st.gen.labels)).Some?
  {
    assert EmitTopLevel(block, subs, st, breakExit) == AfterTable(block, subs, TableState(subs, st), breakExit);
    if EmitTopLevel(block, subs, st, breakExit).Done? {
      assert Wf(st);
      if !DistinctNames(subs) {
        TopLevelDuplicateFaults(block, subs, st, breakExit);
      }
      DedupeClean(subs);
      TopLevelTable(subs, st);
      AfterTableLinks(block, subs, TableState(subs, st), breakExit);
    }
  }
}
