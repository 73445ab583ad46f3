/** Properties of the bench translation as a whole: which input names count
    as used, which outputs are dropped, when the translation fails, and the
    layout of the text it writes. */
module BenchProperties {
  import opened Netlist
  import opened BenchSpec

  // ---------------------------------------------------------------------------
  // Reference definitions, item by item

  /** Whether an item consumes the net named x: an input pin of a translated
      instance connected to x, or a non-constant assign whose source is x. */
  predicate Consumes(item: Item, dict: map<string, BenchCell>, x: string)
  {
    match item
    case InstanceList(inst, _) =>
      inst.cellName in dict && x in InputsOf(inst.portlist, dict[inst.cellName].output).Values
    case Assign(_, r) => !IsZeroConstant(Render(r)) && Render(r) == x
    case OtherItem => false
  }

  /** The targets of the zero-constant assigns, in item order. */
  function ZeroTargets(items: seq<Item>): (targets: seq<string>)
    decreases |items|
  {
    if items == [] then []
    else (if items[0].Assign? && IsZeroConstant(Render(items[0].right))
          then [Render(items[0].left)] else [])
         + ZeroTargets(items[1..])
  }

  /** Whether translating an item fails: its cell is missing from the library
      or the cell's template throws. */
  predicate Fails(item: Item, dict: map<string, BenchCell>, extract: Template)
  {
    match item
    case InstanceList(inst, _) =>
      inst.cellName !in dict ||
      var cell := dict[inst.cellName];
      extract(cell, inst.name, InputsOf(inst.portlist, cell.output), OutputsOf(inst.portlist, cell.output)).None?
    case _ => false
  }

  /** The error a failing instance reports: its missing cell by name, else
      the instance whose template threw. */
  function InstanceError(inst: Instance, dict: map<string, BenchCell>): (e: TranslateError)
  {
    if inst.cellName !in dict then CellNotFound(inst.cellName) else TemplateFailed(inst.name)
  }

  /** The text one item adds to the gate section: the template's statement
      and " \n" for a translated instance, one BUFF line for a non-constant
      assign, nothing for a zero-constant assign or any other item. */
  function ItemText(item: Item, dict: map<string, BenchCell>, extract: Template): (text: string)
  {
    match item
    case InstanceList(inst, _) =>
      if inst.cellName !in dict then ""
      else
        var cell := dict[inst.cellName];
        (match extract(cell, inst.name, InputsOf(inst.portlist, cell.output), OutputsOf(inst.portlist, cell.output))
         case None => ""
         case Some(statement) => statement + " \n")
    case Assign(l, r) => if IsZeroConstant(Render(r)) then "" else BuffLine(Render(l), Render(r))
    case OtherItem => ""
  }

  /** The texts of the items, concatenated in item order. */
  function ItemsText(items: seq<Item>, dict: map<string, BenchCell>, extract: Template): (text: string)
    decreases |items|
  {
    if items == [] then "" else ItemText(items[0], dict, extract) + ItemsText(items[1..], dict, extract)
  }

  /** An assign writes no gate exactly when its source is a zero constant;
      otherwise it writes the one line `left = BUFF(right) `. */
  lemma AssignText(l: Arg, r: Arg, dict: map<string, BenchCell>, extract: Template)
    ensures ItemText(Assign(l, r), dict, extract) == "" <==> IsZeroConstant(Render(r))
    ensures !IsZeroConstant(Render(r)) ==>
              ItemText(Assign(l, r), dict, extract) == Render(l) + " = BUFF(" + Render(r) + ") \n"
  {
    if !IsZeroConstant(Render(r)) {
      assert |BuffLine(Render(l), Render(r))| > 0;
    }
  }

  // ---------------------------------------------------------------------------
  // The item loop

  /** The item loop fails exactly when some item fails, whatever was
      accumulated before it; a missing cell is reported by name. */
  lemma {:induction false} RunItemsFailure(acc: Acc, items: seq<Item>, dict: map<string, BenchCell>, extract: Template)
    ensures RunItems(acc, items, dict, extract).Failure? <==>
              exists i :: 0 <= i < |items| && Fails(items[i], dict, extract)
    ensures var r := RunItems(acc, items, dict, extract);
            r.Failure? && r.error.CellNotFound? ==>
              var c := r.error.cellName;
              c !in dict && exists i :: 0 <= i < |items| && items[i].InstanceList? && items[i].first.cellName == c
    ensures RunItems(acc, items, dict, extract).Failure? ==> !RunItems(acc, items, dict, extract).error.NoModuleFound?
    ensures var r := RunItems(acc, items, dict, extract);
            r.Failure? ==>
              exists i :: 0 <= i < |items| && items[i].InstanceList? && Fails(items[i], dict, extract) &&
                (forall j :: 0 <= j < i ==> !Fails(items[j], dict, extract)) &&
                r.error == InstanceError(items[i].first, dict)
    decreases |items|
  {
    if items != [] {
      var r := Step(acc, items[0], dict, extract);
      if r.Success? {
        RunItemsFailure(r.value, items[1..], dict, extract);
        var rest := RunItems(r.value, items[1..], dict, extract);
        assert !Fails(items[0], dict, extract);
        if rest.Failure? {
          var i :| 0 <= i < |items[1..]| && items[1..][i].InstanceList? && Fails(items[1..][i], dict, extract) &&
                   (forall j :: 0 <= j < i ==> !Fails(items[1..][j], dict, extract)) &&
                   rest.error == InstanceError(items[1..][i].first, dict);
          assert items[i + 1] == items[1..][i];
          forall j | 0 <= j < i + 1 ensures !Fails(items[j], dict, extract) {
            if j > 0 { assert items[j] == items[1..][j - 1]; }
          }
        }
        if exists i :: 0 <= i < |items[1..]| && Fails(items[1..][i], dict, extract) {
          var i :| 0 <= i < |items[1..]| && Fails(items[1..][i], dict, extract);
          assert Fails(items[i + 1], dict, extract);
        }
        if exists i :: 0 <= i < |items| && Fails(items[i], dict, extract) {
          var i :| 0 <= i < |items| && Fails(items[i], dict, extract);
          assert i != 0;
          assert Fails(items[1..][i - 1], dict, extract);
        }
        if rest.Failure? && rest.error.CellNotFound? {
          var c := rest.error.cellName;
          var i :| 0 <= i < |items[1..]| && items[1..][i].InstanceList? && items[1..][i].first.cellName == c;
          assert items[i + 1] == items[1..][i];
        }
      } else {
        assert Fails(items[0], dict, extract);
        assert RunItems(acc, items, dict, extract).error == InstanceError(items[0].first, dict);
      }
    }
  }

  /** One successful step appends exactly the item's text. */
  lemma StepText(acc: Acc, item: Item, dict: map<string, BenchCell>, extract: Template)
    requires Step(acc, item, dict, extract).Success?
    ensures Step(acc, item, dict, extract).value.statements == acc.statements + ItemText(item, dict, extract)
  {
    match item
    case InstanceList(inst, _) =>
      var cell := dict[inst.cellName];
      var text := extract(cell, inst.name, InputsOf(inst.portlist, cell.output), OutputsOf(inst.portlist, cell.output)).value;
      assert acc.statements + text + " \n" == acc.statements + (text + " \n");
    case Assign(l, r) =>
      if IsZeroConstant(Render(r)) {
        assert acc.statements + "" == acc.statements;
      }
    case OtherItem =>
      assert acc.statements + "" == acc.statements;
  }

  /** A successful item loop is a successful first step followed by the
      loop over the remaining items. */
  lemma RunItemsCons(acc: Acc, items: seq<Item>, dict: map<string, BenchCell>, extract: Template)
    requires items != [] && RunItems(acc, items, dict, extract).Success?
    ensures Step(acc, items[0], dict, extract).Success?
    ensures RunItems(acc, items, dict, extract) ==
              RunItems(Step(acc, items[0], dict, extract).value, items[1..], dict, extract)
  {
  }

  /** On success, the gate section is the text of every item in item order,
      after what was accumulated before. */
  lemma {:induction false} RunItemsText(acc: Acc, items: seq<Item>, dict: map<string, BenchCell>, extract: Template)
    requires RunItems(acc, items, dict, extract).Success?
    ensures RunItems(acc, items, dict, extract).value.statements == acc.statements + ItemsText(items, dict, extract)
    decreases |items|
  {
    if items != [] {
      RunItemsCons(acc, items, dict, extract);
      var next := Step(acc, items[0], dict, extract).value;
      var rest := RunItems(next, items[1..], dict, extract);
      var head, tail := ItemText(items[0], dict, extract), ItemsText(items[1..], dict, extract);
      assert ItemsText(items, dict, extract) == head + tail;
      StepText(acc, items[0], dict, extract);
      RunItemsText(next, items[1..], dict, extract);
      assert rest.value.statements == acc.statements + head + tail;
      assert acc.statements + head + tail == acc.statements + (head + tail);
    }
  }

  /** One step succeeds or fails whatever statements precede it, and on
      success appends the same text after them. */
  lemma StepPrefix(prefix: string, used: set<string>, floating: seq<string>,
                   item: Item, dict: map<string, BenchCell>, extract: Template)
    ensures Step(Acc(prefix, used, floating), item, dict, extract).Success? <==>
            Step(Acc("", used, floating), item, dict, extract).Success?
    ensures Step(Acc(prefix, used, floating), item, dict, extract).Success? ==>
              var b := Step(Acc("", used, floating), item, dict, extract).value;
              Step(Acc(prefix, used, floating), item, dict, extract).value == b.(statements := prefix + b.statements)
  {
    match item
    case InstanceList(inst, _) =>
      if inst.cellName in dict {
        var cell := dict[inst.cellName];
        var text := extract(cell, inst.name, InputsOf(inst.portlist, cell.output), OutputsOf(inst.portlist, cell.output));
        if text.Some? {
          assert prefix + text.value + " \n" == prefix + ("" + text.value + " \n");
        }
      }
    case Assign(l, r) =>
      assert prefix + BuffLine(Render(l), Render(r)) == prefix + ("" + BuffLine(Render(l), Render(r)));
      assert prefix == prefix + "";
    case OtherItem =>
      assert prefix == prefix + "";
  }

  /** The item loop's statements extend what came before without depending
      on it: the INPUT lines it starts from are a fixed prefix. */
  lemma {:induction false} RunItemsStatements(prefix: string, used: set<string>, floating: seq<string>,
                                              items: seq<Item>, dict: map<string, BenchCell>, extract: Template)
    ensures RunItems(Acc(prefix, used, floating), items, dict, extract).Success? <==>
            RunItems(Acc("", used, floating), items, dict, extract).Success?
    ensures RunItems(Acc(prefix, used, floating), items, dict, extract).Success? ==>
              RunItems(Acc(prefix, used, floating), items, dict, extract).value ==
              var r := RunItems(Acc("", used, floating), items, dict, extract).value;
              r.(statements := prefix + r.statements)
    decreases |items|
  {
    if items != [] {
      var b := Step(Acc("", used, floating), items[0], dict, extract);
      StepPrefix(prefix, used, floating, items[0], dict, extract);
      if b.Success? {
        var s := b.value.statements;
        var withPrefix := RunItems(Acc(prefix + s, b.value.used, b.value.floating), items[1..], dict, extract);
        var withS := RunItems(Acc(s, b.value.used, b.value.floating), items[1..], dict, extract);
        var tail := RunItems(Acc("", b.value.used, b.value.floating), items[1..], dict, extract);
        assert RunItems(Acc(prefix, used, floating), items, dict, extract) == withPrefix;
        assert RunItems(Acc("", used, floating), items, dict, extract) == withS;
        RunItemsStatements(prefix + s, b.value.used, b.value.floating, items[1..], dict, extract);
        RunItemsStatements(s, b.value.used, b.value.floating, items[1..], dict, extract);
        if tail.Success? {
          assert withPrefix.value == tail.value.(statements := prefix + s + tail.value.statements);
          assert withS.value == tail.value.(statements := s + tail.value.statements);
          assert prefix + s + tail.value.statements == prefix + (s + tail.value.statements);
        }
      } else {
        assert RunItems(Acc(prefix, used, floating), items, dict, extract).Failure?;
        assert RunItems(Acc("", used, floating), items, dict, extract).Failure?;
      }
    }
  }

  /** A used input is exactly a name consumed by some item: the input-map
      values of every instance and the source of every non-constant assign. */
  lemma {:induction false} RunItemsUsed(acc: Acc, items: seq<Item>, dict: map<string, BenchCell>, extract: Template, x: string)
    requires RunItems(acc, items, dict, extract).Success?
    ensures x in RunItems(acc, items, dict, extract).value.used <==>
              x in acc.used || exists i :: 0 <= i < |items| && Consumes(items[i], dict, x)
    decreases |items|
  {
    if items != [] {
      var next := Step(acc, items[0], dict, extract).value;
      RunItemsUsed(next, items[1..], dict, extract, x);
      assert x in next.used <==> x in acc.used || Consumes(items[0], dict, x);
      if exists i :: 0 <= i < |items[1..]| && Consumes(items[1..][i], dict, x) {
        var i :| 0 <= i < |items[1..]| && Consumes(items[1..][i], dict, x);
        assert Consumes(items[i + 1], dict, x);
      }
      if exists i :: 0 <= i < |items| && Consumes(items[i], dict, x) {
        var i :| 0 <= i < |items| && Consumes(items[i], dict, x);
        if i > 0 {
          assert Consumes(items[1..][i - 1], dict, x);
        }
      }
    }
  }

  /** One successful step adds the target of a zero-constant assign to the
      floating outputs, and nothing for any other item. */
  lemma StepFloating(acc: Acc, item: Item, dict: map<string, BenchCell>, extract: Template)
    requires Step(acc, item, dict, extract).Success?
    ensures Step(acc, item, dict, extract).value.floating ==
              acc.floating + if item.Assign? && IsZeroConstant(Render(item.right)) then [Render(item.left)] else []
  {
    if !(item.Assign? && IsZeroConstant(Render(item.right))) {
      assert acc.floating + [] == acc.floating;
    }
  }

  /** The floating outputs are the targets of the zero-constant assigns, in
      item order. */
  lemma {:induction false} RunItemsFloating(acc: Acc, items: seq<Item>, dict: map<string, BenchCell>, extract: Template)
    requires RunItems(acc, items, dict, extract).Success?
    ensures RunItems(acc, items, dict, extract).value.floating == acc.floating + ZeroTargets(items)
    decreases |items|
  {
    if items != [] {
      RunItemsCons(acc, items, dict, extract);
      var next := Step(acc, items[0], dict, extract).value;
      RunItemsFloating(next, items[1..], dict, extract);
      StepFloating(acc, items[0], dict, extract);
      var head := if items[0].Assign? && IsZeroConstant(Render(items[0].right)) then [Render(items[0].left)] else [];
      assert ZeroTargets(items) == head + ZeroTargets(items[1..]);
      assert acc.floating + head + ZeroTargets(items[1..]) == acc.floating + (head + ZeroTargets(items[1..]));
    }
  }

  // ---------------------------------------------------------------------------
  // Filters

  /** The ignored inputs are the declared inputs nobody uses, in order. */
  lemma {:induction false} UnusedMembership(names: seq<string>, used: set<string>)
    ensures forall x :: x in Unused(names, used) <==> x in names && x !in used
    ensures |Unused(names, used)| <= |names|
    decreases |names|
  {
    if names != [] {
      UnusedMembership(names[1..], used);
      assert names == [names[0]] + names[1..];
    }
  }

  lemma {:induction false} UnusedAppend(a: seq<string>, b: seq<string>, used: set<string>)
    ensures Unused(a + b, used) == Unused(a, used) + Unused(b, used)
    decreases |a|
  {
    if a == [] {
      assert a + b == b;
    } else {
      assert (a + b)[0] == a[0];
      assert (a + b)[1..] == a[1..] + b;
      UnusedAppend(a[1..], b, used);
    }
  }

  /** An output port is kept exactly when its whole name is not a floating
      output. */
  lemma {:induction false} KeptOutputsMembership(outputs: seq<Port>, floating: seq<string>)
    ensures forall p :: p in KeptOutputs(outputs, floating) <==> p in outputs && p.name !in floating
    decreases |outputs|
  {
    if outputs != [] {
      KeptOutputsMembership(outputs[1..], floating);
      assert outputs == [outputs[0]] + outputs[1..];
    }
  }

  lemma {:induction false} KeptOutputsAppend(a: seq<Port>, b: seq<Port>, floating: seq<string>)
    ensures KeptOutputs(a + b, floating) == KeptOutputs(a, floating) + KeptOutputs(b, floating)
    decreases |a|
  {
    if a == [] {
      assert a + b == b;
    } else {
      assert (a + b)[0] == a[0];
      assert (a + b)[1..] == a[1..] + b;
      var head := if a[0].name in floating then [] else [a[0]];
      assert KeptOutputs(a + b, floating) == head + KeptOutputs(a[1..] + b, floating);
      assert KeptOutputs(a, floating) == head + KeptOutputs(a[1..], floating);
      KeptOutputsAppend(a[1..], b, floating);
    }
  }

  // ---------------------------------------------------------------------------
  // The whole translation

  /** The translation fails with a data error exactly when the description
      holds no module definition. */
  lemma NoModuleFoundIff(defs: seq<Definition>, cells: seq<BenchCell>, extract: Template)
    ensures Translation(defs, cells, extract) == Failure(NoModuleFound) <==>
              forall j :: 0 <= j < |defs| ==> !defs[j].ModuleDef?
  {
    if FirstModule(defs).Some? {
      var m := defs[FirstModule(defs).value];
      var init := Acc(Lines("INPUT", PortNames(m.inputs)), {}, []);
      var r := RunItems(init, m.items, CellsDict(cells), extract);
      RunItemsFailure(init, m.items, CellsDict(cells), extract);
    }
  }

  /** The declared input bits that some item consumes. */
  ghost function Consumed(names: seq<string>, items: seq<Item>, dict: map<string, BenchCell>): (consumed: set<string>)
  {
    set x | x in names && exists i :: 0 <= i < |items| && Consumes(items[i], dict, x)
  }

  /** The used-input set of a successful item loop agrees with the consumed
      names on every declared input bit, so both leave the same inputs
      ignored. */
  lemma IgnoredInputs(names: seq<string>, items: seq<Item>, dict: map<string, BenchCell>, extract: Template)
    requires RunItems(Acc(Lines("INPUT", names), {}, []), items, dict, extract).Success?
    ensures Unused(names, RunItems(Acc(Lines("INPUT", names), {}, []), items, dict, extract).value.used)
            == Unused(names, Consumed(names, items, dict))
  {
    var init := Acc(Lines("INPUT", names), {}, []);
    var r := RunItems(init, items, dict, extract);
    forall x | x in names
      ensures x in r.value.used <==> x in Consumed(names, items, dict)
    {
      RunItemsUsed(init, items, dict, extract, x);
    }
    UnusedRestrict(names, r.value.used, Consumed(names, items, dict));
  }

  /** What the translation writes, for the first module m of the
      description when it succeeds: the header naming m; one pseudo-OUTPUT
      line per declared input bit that no item consumes, in declaration
      order, the last newline dropped; then the INPUT lines of every
      declared input bit, the statements of the items in order, and the
      OUTPUT lines of the output ports that no zero-constant assign names. */
  lemma TranslationLayout(defs: seq<Definition>, cells: seq<BenchCell>, extract: Template)
    requires Translation(defs, cells, extract).Success?
    ensures FirstModule(defs).Some?
    ensures var m := defs[FirstModule(defs).value];
            var dict := CellsDict(cells);
            var file := Translation(defs, cells, extract).value;
            var gates := RunItems(Acc("", {}, []), m.items, dict, extract);
            && gates.Success?
            && file.header == Header(m.name)
            && file.floating == DropLast(Lines("OUTPUT", Unused(PortNames(m.inputs), Consumed(PortNames(m.inputs), m.items, dict))))
            && file.statements == Lines("INPUT", PortNames(m.inputs)) + gates.value.statements
                                  + Lines("OUTPUT", PortNames(KeptOutputs(m.outputs, ZeroTargets(m.items))))
    ensures var m := defs[FirstModule(defs).value];
            RunItems(Acc("", {}, []), m.items, CellsDict(cells), extract).value.statements
              == ItemsText(m.items, CellsDict(cells), extract)
  {
    var m := defs[FirstModule(defs).value];
    var dict := CellsDict(cells);
    var names := PortNames(m.inputs);
    var init := Acc(Lines("INPUT", names), {}, []);
    var r := RunItems(init, m.items, dict, extract);
    assert r.Success?;
    var file := BenchFile(Header(m.name), DropLast(Lines("OUTPUT", Unused(names, r.value.used))),
                          r.value.statements + Lines("OUTPUT", PortNames(KeptOutputs(m.outputs, r.value.floating))));
    assert Translation(defs, cells, extract) == Success(file);
    RunItemsStatements(Lines("INPUT", names), {}, [], m.items, dict, extract);
    RunItemsFloating(init, m.items, dict, extract);
    assert r.value.floating == ZeroTargets(m.items);
    assert r.value.statements == Lines("INPUT", names) + RunItems(Acc("", {}, []), m.items, dict, extract).value.statements;
    IgnoredInputs(names, m.items, dict, extract);
    RunItemsText(Acc("", {}, []), m.items, dict, extract);
    assert "" + ItemsText(m.items, dict, extract) == ItemsText(m.items, dict, extract);
  }

  /** Filtering names by two sets that agree on those names gives the same
      result. */
  lemma {:induction false} UnusedRestrict(names: seq<string>, a: set<string>, b: set<string>)
    requires forall x :: x in names ==> (x in a <==> x in b)
    ensures Unused(names, a) == Unused(names, b)
    decreases |names|
  {
    if names != [] {
      assert names[0] in names;
      assert forall x :: x in names[1..] ==> x in names;
      UnusedRestrict(names[1..], a, b);
    }
  }

  /** An output port named by the target of a zero-constant assign emits no
      OUTPUT line; every other output port is kept. */
  lemma ZeroAssignDropsOutput(items: seq<Item>, outputs: seq<Port>, p: Port)
    requires p in outputs
    ensures p !in KeptOutputs(outputs, ZeroTargets(items)) <==>
              exists i :: 0 <= i < |items| && items[i].Assign? &&
                IsZeroConstant(Render(items[i].right)) && Render(items[i].left) == p.name
  {
    KeptOutputsMembership(outputs, ZeroTargets(items));
    ZeroTargetsMembership(items, p.name);
  }

  lemma {:induction false} ZeroTargetsMembership(items: seq<Item>, x: string)
    ensures x in ZeroTargets(items) <==>
              exists i :: 0 <= i < |items| && items[i].Assign? &&
                IsZeroConstant(Render(items[i].right)) && Render(items[i].left) == x
    decreases |items|
  {
    if items != [] {
      ZeroTargetsMembership(items[1..], x);
      if exists i :: 0 <= i < |items[1..]| && items[1..][i].Assign? &&
           IsZeroConstant(Render(items[1..][i].right)) && Render(items[1..][i].left) == x {
        var i :| 0 <= i < |items[1..]| && items[1..][i].Assign? &&
                 IsZeroConstant(Render(items[1..][i].right)) && Render(items[1..][i].left) == x;
        assert items[i + 1] == items[1..][i];
      }
      if exists i :: 0 <= i < |items| && items[i].Assign? &&
           IsZeroConstant(Render(items[i].right)) && Render(items[i].left) == x {
        var i :| 0 <= i < |items| && items[i].Assign? &&
                 IsZeroConstant(Render(items[i].right)) && Render(items[i].left) == x;
        if i > 0 {
          assert items[1..][i - 1] == items[i];
        }
      }
    }
  }

  /** An indexed net never counts as a zero constant. */
  lemma PointerIsNeverZero(base: string, ptr: string)
    ensures !IsZeroConstant(Render(Pointer(base, ptr)))
  {
  }

  // ---------------------------------------------------------------------------
  // Only the first instance of an instance list is translated

  /** Every instance list cut down to its first instance. */
  function FirstInstances(items: seq<Item>): (r: seq<Item>)
    ensures |r| == |items|
    decreases |items|
  {
    if items == [] then []
    else (if items[0].InstanceList? then [InstanceList(items[0].first, [])] else [items[0]])
         + FirstInstances(items[1..])
  }

  /** The instances after the first one of each instance list have no
      effect on the translation. */
  lemma {:induction false} OnlyFirstInstance(acc: Acc, items: seq<Item>, dict: map<string, BenchCell>, extract: Template)
    ensures RunItems(acc, items, dict, extract) == RunItems(acc, FirstInstances(items), dict, extract)
    decreases |items|
  {
    if items != [] {
      var trimmed := FirstInstances(items);
      assert trimmed[1..] == FirstInstances(items[1..]);
      assert Step(acc, items[0], dict, extract) == Step(acc, trimmed[0], dict, extract);
      match Step(acc, items[0], dict, extract)
      case Failure(_) =>
      case Success(next) => OnlyFirstInstance(next, items[1..], dict, extract);
    }
  }
}
