/** Two small modules worked through the translation: one AND cell, and the
    same module with its output tied to a zero constant instead. */
module BenchScenarios {
  import opened Netlist
  import opened BenchSpec

  const And2 := BenchCell("AND2", "Y", "AND")

  /** The connections `.A(a), .B(b), .Y(c)`. */
  const GateHooks := [Hook("A", Plain("a")), Hook("B", Plain("b")), Hook("Y", Plain("c"))]

  /** `module top(a, b, c)` with `AND2 u1(.A(a), .B(b), .Y(c))`. */
  const GateModule := ModuleDef("top", [Port("a", 0, 0), Port("b", 0, 0)], [Port("c", 0, 0)],
                                [InstanceList(Instance("AND2", "u1", GateHooks), [])])

  /** The same ports with `assign c = 1'b0;` as the only item. */
  const ConstantModule := ModuleDef("top", [Port("a", 0, 0), Port("b", 0, 0)], [Port("c", 0, 0)],
                                    [Assign(Plain("c"), Plain("1'b0"))])

  lemma GateHookSplit()
    ensures InputsOf(GateHooks, "Y") == map["A" := "a", "B" := "b"]
    ensures OutputsOf(GateHooks, "Y") == ["c"]
    ensures map["A" := "a", "B" := "b"].Values == {"a", "b"}
  {
    var hooks := GateHooks;
    var ins := map["A" := "a", "B" := "b"];
    assert hooks[..2] == [hooks[0], hooks[1]] && hooks[..2][..1] == [hooks[0]];
    assert InputsOf(hooks[..1], "Y") == map["A" := "a"] by {
      assert hooks[..1][..0] == [];
    }
    assert InputsOf(hooks[..2], "Y") == ins;
    assert hooks[1..][1..][1..] == [];
    assert ins.Values == {"a", "b"} by {
      assert ins["A"] == "a" && ins["B"] == "b";
      forall v | v in ins.Values ensures v in {"a", "b"} {
        var k :| k in ins && ins[k] == v;
      }
    }
  }

  lemma OneCellDict()
    ensures CellsDict([And2]) == map["AND2" := And2]
  {
  }

  /** The gate module: two INPUT lines, the cell's statement, OUTPUT(c), and
      no floating input. */
  lemma GateScenario(extract: Template, gate: string)
    requires extract(And2, "u1", map["A" := "a", "B" := "b"], ["c"]) == Some(gate)
    ensures Translation([GateModule], [And2], extract) ==
              Success(BenchFile(Header("top"), "",
                                "INPUT(a) \nINPUT(b) \n" + gate + " \n" + "OUTPUT(c) \n"))
  {
    var m := GateModule;
    var dict := CellsDict([And2]);
    OneCellDict();
    GateHookSplit();
    assert BitNames(Port("a", 0, 0)) == ["a"];
    assert BitNames(Port("b", 0, 0)) == ["b"];
    assert PortNames(m.inputs) == ["a", "b"];
    var inputLines := Lines("INPUT", ["a", "b"]);
    assert inputLines == "INPUT(a) \nINPUT(b) \n";
    var init := Acc(inputLines, {}, []);
    var after := Acc(inputLines + gate + " \n", {"a", "b"}, []);
    assert m.items[0].first == Instance("AND2", "u1", GateHooks);
    assert "AND2" in dict && dict["AND2"] == And2 && And2.output == "Y";
    assert extract(dict["AND2"], "u1", InputsOf(GateHooks, "Y"), OutputsOf(GateHooks, "Y")) == Some(gate);
    assert init.used + map["A" := "a", "B" := "b"].Values == {"a", "b"};
    assert Step(init, m.items[0], dict, extract) == Success(after);
    assert m.items[1..] == [];
    assert RunItems(init, m.items, dict, extract) == Success(after);
    assert Unused(["a", "b"], {"a", "b"}) == [];
    assert BitNames(Port("c", 0, 0)) == ["c"];
    assert KeptOutputs(m.outputs, []) == m.outputs;
    assert PortNames(m.outputs) == ["c"];
    assert Lines("OUTPUT", ["c"]) == "OUTPUT(c) \n";
    assert Translation([m], [And2], extract) ==
             Success(BenchFile(Header(m.name), DropLast(Lines("OUTPUT", [])),
                               after.statements + Lines("OUTPUT", PortNames(KeptOutputs(m.outputs, [])))));
  }

  /** The zero-constant assign adds c to the floating outputs and writes
      no statement. */
  lemma ConstantItems(inputLines: string, extract: Template)
    ensures RunItems(Acc(inputLines, {}, []), ConstantModule.items, CellsDict([]), extract)
            == Success(Acc(inputLines, {}, ["c"]))
  {
    var init := Acc(inputLines, {}, []);
    var items := ConstantModule.items;
    assert items[0] == Assign(Plain("c"), Plain("1'b0"));
    assert IsZeroConstant(Render(Plain("1'b0")));
    assert init.(floating := init.floating + [Render(Plain("c"))]) == Acc(inputLines, {}, ["c"]);
    assert Step(init, items[0], CellsDict([]), extract) == Success(Acc(inputLines, {}, ["c"]));
    assert items[1..] == [];
  }

  /** Both scalar inputs are declared, and both are left floating when
      nothing consumes them. */
  lemma ConstantLines()
    ensures PortNames(ConstantModule.inputs) == ["a", "b"]
    ensures Lines("INPUT", ["a", "b"]) == "INPUT(a) \nINPUT(b) \n"
    ensures DropLast(Lines("OUTPUT", Unused(["a", "b"], {}))) == "OUTPUT(a) \nOUTPUT(b) "
    ensures Lines("OUTPUT", PortNames(KeptOutputs(ConstantModule.outputs, ["c"]))) == ""
  {
    ConstantInputLines();
    ConstantFloatingLines();
    assert KeptOutputs(ConstantModule.outputs, ["c"]) == [];
  }

  /** Two scalar inputs give two INPUT lines. */
  lemma ConstantInputLines()
    ensures PortNames(ConstantModule.inputs) == ["a", "b"]
    ensures Lines("INPUT", ["a", "b"]) == "INPUT(a) \nINPUT(b) \n"
  {
    assert BitNames(Port("a", 0, 0)) == ["a"];
    assert BitNames(Port("b", 0, 0)) == ["b"];
  }

  /** Neither input is used, so both become pseudo-OUTPUT lines. */
  lemma ConstantFloatingLines()
    ensures DropLast(Lines("OUTPUT", Unused(["a", "b"], {}))) == "OUTPUT(a) \nOUTPUT(b) "
  {
    assert Unused(["a", "b"], {}) == ["a", "b"];
    assert Lines("OUTPUT", ["a", "b"]) == "OUTPUT(a) \nOUTPUT(b) \n";
  }

  /** The constant module: no gate for c and no OUTPUT(c); a and b are
      consumed by nothing, so both are declared as pseudo-outputs. */
  lemma ConstantScenario(extract: Template)
    ensures Translation([ConstantModule], [], extract) ==
              Success(BenchFile(Header("top"), "OUTPUT(a) \nOUTPUT(b) ", "INPUT(a) \nINPUT(b) \n"))
  {
    var m := ConstantModule;
    assert FirstModule([m]) == Some(0);
    ConstantLines();
    var inputLines := "INPUT(a) \nINPUT(b) \n";
    ConstantItems(inputLines, extract);
    assert inputLines + "" == inputLines;
  }
}
