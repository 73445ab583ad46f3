/** The translation body of `bench(arguments:)` as the source runs it: loops
    that append to the arrays inputNames, usedInputs and floatingOutputs, to
    the string buffers benchStatements and floatingStatements, and to the
    per-instance input dictionary. Each method is proved against the
    function of BenchSpec that says what its loop computes. */
module Bench {
  import opened Netlist
  import opened BenchSpec

  /** The cell dictionary, built by inserting every decoded cell in order. */
  method BuildCellsDict(cells: seq<BenchCell>) returns (cellsDict: map<string, BenchCell>)
    ensures cellsDict == CellsDict(cells)
    ensures cellsDict.Keys == set c | c in cells :: c.name
  {
    cellsDict := map[];
    for i := 0 to |cells|
      invariant cellsDict == CellsDict(cells[..i])
    {
      assert cells[..i + 1][..i] == cells[..i];
      cellsDict := cellsDict[cells[i].name := cells[i]];
    }
    assert cells[..|cells|] == cells;
    CellsDictLastWins(cells);
  }

  /** The first module definition of the description, or None when there
      is none (the caller then fails with a data error). */
  method SelectModule(defs: seq<Definition>) returns (found: Option<nat>)
    ensures found == FirstModule(defs)
    ensures found.Some? ==> found.value < |defs| && defs[found.value].ModuleDef?
  {
    found := None;
    var i := 0;
    while i < |defs|
      invariant 0 <= i <= |defs|
      invariant forall j :: 0 <= j < i ==> !defs[j].ModuleDef?
    {
      if defs[i].ModuleDef? {
        found := Some(i);
        return;
      }
      i := i + 1;
    }
  }

  /** Bit-blasts one port: a multi-bit port bit by bit over its range,
      ascending whichever bound is declared first, a scalar port under its
      own name; one `TAG(name)` line per bit. */
  method EmitPort(tag: string, port: Port) returns (names: seq<string>, statements: string)
    ensures names == BitNames(port)
    ensures statements == Lines(tag, names)
  {
    if port.Width() > 1 {
      var lo, hi := if port.from > port.to then port.to else port.from,
                    if port.from > port.to then port.from else port.to;
      names, statements := [], "";
      for index := lo to hi + 1
        invariant names == BitRange(port.name, lo, index - 1)
        invariant statements == Lines(tag, names)
      {
        var name := Bit(port.name, index);
        LinesSnoc(tag, names, name);
        BitRangeSnoc(port.name, lo, index - 1);
        names := names + [name];
        statements := statements + Line(tag, name);
      }
    } else {
      var name := port.name;
      LinesSnoc(tag, [], name);
      names, statements := [name], Line(tag, name);
    }
  }

  /** Bit-blasts ports in declaration order: each bit's name is recorded and
      one `TAG(name)` line is appended for it. */
  method EmitPorts(tag: string, ports: seq<Port>) returns (names: seq<string>, statements: string)
    ensures names == PortNames(ports)
    ensures statements == Lines(tag, names)
  {
    names, statements := [], "";
    for i := 0 to |ports|
      invariant names == PortNames(ports[..i])
      invariant statements == Lines(tag, names)
    {
      var bits, lines := EmitPort(tag, ports[i]);
      PortNamesSnoc(ports[..i], ports[i]);
      assert ports[..i + 1] == ports[..i] + [ports[i]];
      LinesAppend(tag, names, bits);
      names := names + bits;
      statements := statements + lines;
    }
    assert ports[..|ports|] == ports;
  }

  /** Splits an instance's hooks into the outputs (hooks on the cell's output
      pin, rendered in order) and the input map (every other pin). */
  method SplitHooks(hooks: seq<Hook>, output: string) returns (inputs: map<string, string>, outputs: seq<string>)
    ensures inputs == InputsOf(hooks, output)
    ensures outputs == OutputsOf(hooks, output)
  {
    inputs, outputs := map[], [];
    for i := 0 to |hooks|
      invariant inputs == InputsOf(hooks[..i], output)
      invariant outputs + OutputsOf(hooks[i..], output) == OutputsOf(hooks, output)
    {
      var hook := hooks[i];
      assert hooks[..i + 1][..i] == hooks[..i];
      assert hooks[i..][1..] == hooks[i + 1..];
      if hook.portname == output {
        outputs := outputs + [Render(hook.arg)];
      } else {
        inputs := inputs[hook.portname := Render(hook.arg)];
      }
    }
    assert hooks[..|hooks|] == hooks;
  }

  /** Appends every value of a map to the used-input list, in whatever order
      the dictionary yields them: `keys` is that order, every key once. */
  method AppendValues(used: seq<string>, m: map<string, string>) returns (result: seq<string>, ghost keys: seq<string>)
    ensures |keys| == |m| && Distinct(keys) && forall k :: k in keys <==> k in m
    ensures result == used + ValuesAt(m, keys)
    ensures Elements(result) == Elements(used) + m.Values
  {
    result, keys := used, [];
    var remaining := m.Keys;
    while remaining != {}
      invariant remaining <= m.Keys
      invariant forall k :: k in keys <==> k in m && k !in remaining
      invariant Distinct(keys) && |keys| == |m| - |remaining|
      invariant result == used + ValuesAt(m, keys)
      invariant Elements(result) + (set k | k in remaining :: m[k]) == Elements(used) + m.Values
      decreases |remaining|
    {
      var k :| k in remaining;
      assert (set j | j in remaining :: m[j]) == {m[k]} + (set j | j in remaining - {k} :: m[j]);
      assert Elements(result + [m[k]]) == Elements(result) + {m[k]};
      assert (keys + [k])[..|keys|] == keys;
      result, keys := result + [m[k]], keys + [k];
      remaining := remaining - {k};
    }
    assert m.Keys == set k | k in keys;
  }

  /** The item loop: instances become template statements, assigns become
      BUFF statements or floating outputs. Stops at the first failure. */
  method TranslateItems(inputStatements: string, items: seq<Item>, cellsDict: map<string, BenchCell>, extract: Template)
    returns (err: Option<TranslateError>, benchStatements: string, usedInputs: seq<string>, floatingOutputs: seq<string>)
    ensures var r := RunItems(Acc(inputStatements, {}, []), items, cellsDict, extract);
            && (r.Failure? <==> err.Some?)
            && (r.Failure? ==> err.value == r.error)
            && (r.Success? ==> && benchStatements == r.value.statements
                               && Elements(usedInputs) == r.value.used
                               && floatingOutputs == r.value.floating)
  {
    err, benchStatements, usedInputs, floatingOutputs := None, inputStatements, [], [];
    assert Elements([]) == {};
    for i := 0 to |items|
      invariant RunItems(Acc(inputStatements, {}, []), items, cellsDict, extract)
             == RunItems(Acc(benchStatements, Elements(usedInputs), floatingOutputs), items[i..], cellsDict, extract)
    {
      assert items[i..][1..] == items[i + 1..];
      match items[i]
      case InstanceList(instance, _) =>
        if instance.cellName !in cellsDict {
          err := Some(CellNotFound(instance.cellName));
          return;
        }
        var cell := cellsDict[instance.cellName];
        var inputs, outputs := SplitHooks(instance.portlist, cell.output);
        var statements := extract(cell, instance.name, inputs, outputs);
        if statements.None? {
          err := Some(TemplateFailed(instance.name));
          return;
        }
        benchStatements := benchStatements + statements.value + " \n";
        ghost var order;
        usedInputs, order := AppendValues(usedInputs, inputs);
      case Assign(l, r) =>
        var right := Render(r);
        var left := Render(l);
        if IsZeroConstant(right) {
          floatingOutputs := floatingOutputs + [left];
        } else {
          benchStatements := benchStatements + BuffLine(left, right);
          assert Elements(usedInputs + [right]) == Elements(usedInputs) + {right};
          usedInputs := usedInputs + [right];
        }
      case OtherItem =>
    }
    assert items[|items|..] == [];
  }

  /** One pseudo-OUTPUT line per ignored input, in order. */
  method EmitFloating(ignoredInputs: seq<string>) returns (floatingStatements: string)
    ensures floatingStatements == Lines("OUTPUT", ignoredInputs)
  {
    floatingStatements := "";
    for i := 0 to |ignoredInputs|
      invariant floatingStatements == Lines("OUTPUT", ignoredInputs[..i])
    {
      LinesAppend("OUTPUT", ignoredInputs[..i], [ignoredInputs[i]]);
      assert ignoredInputs[..i + 1] == ignoredInputs[..i] + [ignoredInputs[i]];
      floatingStatements := floatingStatements + Line("OUTPUT", ignoredInputs[i]);
    }
    assert ignoredInputs[..|ignoredInputs|] == ignoredInputs;
  }

  /** The whole translation: the three strings written to the bench file,
      or the reason it fails. */
  method Translate(defs: seq<Definition>, cells: seq<BenchCell>, extract: Template) returns (r: Result<BenchFile>)
    ensures r == Translation(defs, cells, extract)
  {
    var cellsDict := BuildCellsDict(cells);
    var found := SelectModule(defs);
    if found.None? {
      return Failure(NoModuleFound);
    }
    var definition := defs[found.value];
    var inputNames, inputStatements := EmitPorts("INPUT", definition.inputs);
    var err, benchStatements, usedInputs, floatingOutputs :=
      TranslateItems(inputStatements, definition.items, cellsDict, extract);
    if err.Some? {
      return Failure(err.value);
    }
    var ignoredInputs := Unused(inputNames, Elements(usedInputs));
    var filteredOutputs := KeptOutputs(definition.outputs, floatingOutputs);
    var _, outputStatements := EmitPorts("OUTPUT", filteredOutputs);
    benchStatements := benchStatements + outputStatements;
    var floatingStatements := EmitFloating(ignoredInputs);
    r := Success(BenchFile(Header(definition.name), DropLast(floatingStatements), benchStatements));
  }
}
