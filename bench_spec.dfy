/** The bench translation as functions: what each loop of `bench(arguments:)`
    computes, and the properties of those results. */
module BenchSpec {
  import opened Netlist

  // ---------------------------------------------------------------------------
  // Cell library

  /** The cell dictionary: cells inserted in order, a later cell overwriting
      an earlier one of the same name. */
  function CellsDict(cells: seq<BenchCell>): (dict: map<string, BenchCell>)
    decreases |cells|
  {
    if cells == [] then map[]
    else CellsDict(cells[..|cells| - 1])[cells[|cells| - 1].name := cells[|cells| - 1]]
  }

  /** Whether no cell after position i has the same name as cells[i]. */
  predicate IsLastOfName(cells: seq<BenchCell>, i: int)
    requires 0 <= i < |cells|
  {
    forall j :: i < j < |cells| ==> cells[j].name != cells[i].name
  }

  /** The dictionary holds exactly the cell names, and each name maps to the
      last cell that carries it. */
  lemma {:induction false} CellsDictLastWins(cells: seq<BenchCell>)
    ensures CellsDict(cells).Keys == set c | c in cells :: c.name
    ensures forall i :: 0 <= i < |cells| && IsLastOfName(cells, i) ==>
              CellsDict(cells)[cells[i].name] == cells[i]
  {
    if cells != [] {
      var n := |cells| - 1;
      var front := cells[..n];
      CellsDictLastWins(front);
      assert cells == front + [cells[n]];
      assert CellsDict(cells) == CellsDict(front)[cells[n].name := cells[n]];
      assert (set c | c in cells :: c.name) == (set c | c in front :: c.name) + {cells[n].name};
      forall i | 0 <= i < |cells| && IsLastOfName(cells, i)
        ensures CellsDict(cells)[cells[i].name] == cells[i]
      {
        if i < n {
          assert cells[n].name != cells[i].name;
          assert IsLastOfName(front, i);
        }
      }
    }
  }

  // ---------------------------------------------------------------------------
  // Module selection

  /** Index of the first module definition, if there is one. */
  function FirstModule(defs: seq<Definition>): (r: Option<nat>)
    ensures r.Some? ==> r.value < |defs| && defs[r.value].ModuleDef? &&
                        forall j :: 0 <= j < r.value ==> !defs[j].ModuleDef?
    ensures r.None? <==> forall j :: 0 <= j < |defs| ==> !defs[j].ModuleDef?
    decreases |defs|
  {
    if defs == [] then None
    else if defs[0].ModuleDef? then Some(0)
    else match FirstModule(defs[1..])
      case None => None
      case Some(i) => Some(i + 1)
  }

  // ---------------------------------------------------------------------------
  // Bit-blasting

  /** The name of one bit of a vector port. */
  function Bit(name: string, index: int): (bit: string)
  {
    name + "[" + IntToString(index) + "]"
  }

  /** Bit names name[lo], name[lo+1], ..., name[hi]. */
  function BitRange(name: string, lo: int, hi: int): (names: seq<string>)
    decreases hi - lo
  {
    if lo > hi then [] else [Bit(name, lo)] + BitRange(name, lo + 1, hi)
  }

  /** The names a port expands to: its bits in ascending order for a
      multi-bit port, its own name for a scalar one. */
  function BitNames(p: Port): (names: seq<string>)
  {
    if p.Width() > 1 then BitRange(p.name, p.Lo(), p.Hi()) else [p.name]
  }

  /** The bit names of a sequence of ports, port after port. */
  function PortNames(ports: seq<Port>): (names: seq<string>)
    decreases |ports|
  {
    if ports == [] then [] else BitNames(ports[0]) + PortNames(ports[1..])
  }

  lemma {:induction false} BitRangeShape(name: string, lo: int, hi: int)
    ensures |BitRange(name, lo, hi)| == if lo <= hi then hi - lo + 1 else 0
    ensures forall k :: 0 <= k < |BitRange(name, lo, hi)| ==>
              BitRange(name, lo, hi)[k] == Bit(name, lo + k)
    decreases hi - lo
  {
    if lo <= hi {
      BitRangeShape(name, lo + 1, hi);
    }
  }

  /** Extending a range by one bit appends that bit's name. */
  lemma {:induction false} BitRangeSnoc(name: string, lo: int, hi: int)
    requires lo <= hi + 1
    ensures BitRange(name, lo, hi + 1) == BitRange(name, lo, hi) + [Bit(name, hi + 1)]
    decreases hi - lo
  {
    if lo <= hi {
      BitRangeSnoc(name, lo + 1, hi);
    }
  }

  /** A port expands to exactly Width() names; a multi-bit port to
      name[i] for i ascending from min(from, to) to max(from, to), a scalar
      one to its bare name. */
  lemma BitNamesShape(p: Port)
    ensures |BitNames(p)| == p.Width()
    ensures p.Width() > 1 ==>
              forall k :: 0 <= k < p.Width() ==>
                BitNames(p)[k] == Bit(p.name, p.Lo() + k)
    ensures p.Width() == 1 ==> BitNames(p) == [p.name]
  {
    BitRangeShape(p.name, p.Lo(), p.Hi());
  }

  /** The order in which the range bounds are declared does not matter. */
  lemma BitNamesSymmetric(name: string, a: int, b: int)
    ensures BitNames(Port(name, a, b)) == BitNames(Port(name, b, a))
  {
  }

  lemma {:induction false} PortNamesAppend(a: seq<Port>, b: seq<Port>)
    ensures PortNames(a + b) == PortNames(a) + PortNames(b)
    decreases |a|
  {
    if a == [] {
      assert a + b == b;
    } else {
      assert (a + b)[0] == a[0];
      assert (a + b)[1..] == a[1..] + b;
      PortNamesAppend(a[1..], b);
    }
  }

  /** Appending one port appends exactly its bit names. */
  lemma PortNamesSnoc(ports: seq<Port>, p: Port)
    ensures PortNames(ports + [p]) == PortNames(ports) + BitNames(p)
  {
    PortNamesAppend(ports, [p]);
    assert [p][1..] == [];
  }

  /** The bit names of a sequence of ports are the bit names of each port,
      concatenated in declaration order: a port's names start where those
      of the ports before it end. */
  lemma {:induction false} PortNamesLayout(ports: seq<Port>, i: nat)
    requires i < |ports|
    ensures PortNames(ports) ==
              PortNames(ports[..i]) + BitNames(ports[i]) + PortNames(ports[i + 1..])
    ensures |PortNames(ports)| >= |PortNames(ports[..i])| + ports[i].Width()
  {
    assert ports == ports[..i] + ([ports[i]] + ports[i + 1..]);
    PortNamesAppend(ports[..i], [ports[i]] + ports[i + 1..]);
    assert ([ports[i]] + ports[i + 1..])[1..] == ports[i + 1..];
    BitNamesShape(ports[i]);
  }

  // ---------------------------------------------------------------------------
  // Line emission

  /** One declaration line, `TAG(name) ` followed by a newline. */
  function Line(tag: string, name: string): (line: string)
  {
    tag + "(" + name + ") \n"
  }

  /** One declaration line per name, in order. */
  function Lines(tag: string, names: seq<string>): (text: string)
    decreases |names|
  {
    if names == [] then "" else Line(tag, names[0]) + Lines(tag, names[1..])
  }

  lemma {:induction false} LinesAppend(tag: string, a: seq<string>, b: seq<string>)
    ensures Lines(tag, a + b) == Lines(tag, a) + Lines(tag, b)
    decreases |a|
  {
    if a == [] {
      assert a + b == b;
    } else {
      assert (a + b)[0] == a[0];
      assert (a + b)[1..] == a[1..] + b;
      LinesAppend(tag, a[1..], b);
    }
  }

  /** Appending one name appends exactly its line. */
  lemma LinesSnoc(tag: string, names: seq<string>, name: string)
    ensures Lines(tag, names + [name]) == Lines(tag, names) + Line(tag, name)
  {
    LinesAppend(tag, names, [name]);
    assert [name][1..] == [];
  }

  /** Length of the first line of s, up to its first newline or its end. */
  function LineEnd(s: string): (k: nat)
    ensures k <= |s|
    ensures '\n' !in s[..k]
    ensures k < |s| ==> s[k] == '\n'
    decreases |s|
  {
    if s == [] then 0
    else if s[0] == '\n' then 0
    else
      var k := 1 + LineEnd(s[1..]);
      assert s[..k] == [s[0]] + s[1..][..k - 1];
      k
  }

  /** Reads back one declaration line `TAG(name) ` (without its newline):
      the name, or None when the line does not have that shape. */
  function ParseDecl(tag: string, line: string): (name: Option<string>)
    ensures name.Some? ==> line == tag + "(" + name.value + ") "
  {
    if |line| >= |tag| + 3 && line[..|tag| + 1] == tag + "(" && line[|line| - 2..] == ") "
    then
      var name := line[|tag| + 1..|line| - 2];
      assert line == line[..|tag| + 1] + name + line[|line| - 2..];
      Some(name)
    else None
  }

  /** Reads back newline-terminated declaration lines `TAG(name) `: the
      names in order, or None when some line is not a declaration of tag or
      the text does not end in a newline. */
  function ParseDecls(tag: string, s: string): (names: Option<seq<string>>)
    decreases |s|
  {
    if s == [] then Some([])
    else
      var k := LineEnd(s);
      if k == |s| then None
      else match (ParseDecl(tag, s[..k]), ParseDecls(tag, s[k + 1..]))
        case (Some(name), Some(rest)) => Some([name] + rest)
        case _ => None
  }

  lemma {:induction false} LineEndAfter(a: string, rest: string)
    requires '\n' !in a
    ensures LineEnd(a + "\n" + rest) == |a|
    decreases |a|
  {
    if a != [] {
      assert (a + "\n" + rest)[1..] == a[1..] + "\n" + rest;
      assert a[0] in a;
      LineEndAfter(a[1..], rest);
    }
  }

  /** A declaration line with no newline in its tag or name holds no
      newline before its terminator. */
  lemma DeclHasNoNewline(tag: string, name: string)
    requires '\n' !in tag && '\n' !in name
    ensures '\n' !in tag + "(" + name + ") "
  {
    var a := tag + "(" + name + ") ";
    forall i | 0 <= i < |a| ensures a[i] != '\n' {
      if i < |tag| { assert a[i] == tag[i]; }
      else if i == |tag| { assert a[i] == '('; }
      else if i < |tag| + 1 + |name| { assert a[i] == name[i - |tag| - 1]; }
    }
  }

  /** A declaration line reads back as its name, whatever follows it. */
  lemma ParseDeclsLine(tag: string, name: string, rest: string)
    requires '\n' !in tag && '\n' !in name
    ensures ParseDecls(tag, Line(tag, name) + rest) ==
              if ParseDecls(tag, rest).Some? then Some([name] + ParseDecls(tag, rest).value) else None
  {
    var a := tag + "(" + name + ") ";
    DeclHasNoNewline(tag, name);
    var s := a + "\n" + rest;
    assert Line(tag, name) + rest == s;
    LineEndAfter(a, rest);
    assert s[..|a|] == a;
    assert a[..|tag| + 1] == tag + "(" && a[|a| - 2..] == ") ";
    assert a[|tag| + 1..|a| - 2] == name;
    assert ParseDecl(tag, a) == Some(name);
    assert s[|a| + 1..] == rest;
  }

  /** Reading the declaration lines back gives the names they declare, as
      long as neither the tag nor any name holds a newline. */
  lemma {:induction false} ParseDeclsRoundTrip(tag: string, names: seq<string>)
    requires '\n' !in tag
    requires forall n :: n in names ==> '\n' !in n
    ensures ParseDecls(tag, Lines(tag, names)) == Some(names)
    decreases |names|
  {
    if names != [] {
      assert names[0] in names;
      assert forall n :: n in names[1..] ==> n in names;
      ParseDeclsRoundTrip(tag, names[1..]);
      ParseDeclsLine(tag, names[0], Lines(tag, names[1..]));
      assert names == [names[0]] + names[1..];
    }
  }

  /** Whatever ParseDecls accepts is exactly the declaration lines of the
      names it returns: the reading is an inverse of Lines on all text. */
  lemma {:induction false} ParseDeclsSound(tag: string, s: string)
    requires ParseDecls(tag, s).Some?
    ensures Lines(tag, ParseDecls(tag, s).value) == s
    decreases |s|
  {
    if s != [] {
      var k := LineEnd(s);
      var name := ParseDecl(tag, s[..k]).value;
      var rest := ParseDecls(tag, s[k + 1..]).value;
      ParseDeclsSound(tag, s[k + 1..]);
      assert ([name] + rest)[1..] == rest;
      assert s == s[..k] + "\n" + s[k + 1..];
    }
  }

  /** Lines declared under one tag are not read back under a tag that starts
      with a different character: INPUT lines never pass as OUTPUT lines. */
  lemma ParseDeclsOtherTag(tag: string, other: string, names: seq<string>)
    requires |tag| > 0 && |other| > 0 && tag[0] != other[0]
    requires names != []
    ensures ParseDecls(tag, Lines(other, names)) == None
  {
    var s := Lines(other, names);
    var k := LineEnd(s);
    assert s[0] == other[0];
    if k < |s| {
      assert k > 0 ==> s[..k][0] == other[0];
      assert ParseDecl(tag, s[..k]).None?;
    }
  }

  /** Swift's `dropLast()` on a string: everything but the last character. */
  function DropLast(s: string): (r: string)
    ensures |r| == if s == [] then 0 else |s| - 1
    ensures r == s[..|r|]
  {
    if s == [] then s else s[..|s| - 1]
  }

  /** The comment block written before everything else. */
  function Header(moduleName: string): (header: string)
  {
    "#    Bench for " + moduleName + "\n" +
    "#    Automatically generated by Fault.\n" +
    "#    Don't modify. \n"
  }

  /** The header is a block of comment lines: it opens with the line naming
      the module and ends with a newline. */
  lemma HeaderShape(moduleName: string)
    ensures "#    Bench for " + moduleName + "\n" <= Header(moduleName)
    ensures Header(moduleName)[0] == '#' && Header(moduleName)[|Header(moduleName)| - 1] == '\n'
  {
    var first := "#    Bench for " + moduleName + "\n";
    assert Header(moduleName) == first + "#    Automatically generated by Fault.\n" + "#    Don't modify. \n";
    assert Header(moduleName)[0] == first[0];
  }

  // ---------------------------------------------------------------------------
  // Instances

  /** Rendered arguments of the hooks on the cell's output pin, in order. */
  function OutputsOf(hooks: seq<Hook>, output: string): (outputs: seq<string>)
    decreases |hooks|
  {
    if hooks == [] then []
    else (if hooks[0].portname == output then [Render(hooks[0].arg)] else [])
         + OutputsOf(hooks[1..], output)
  }

  /** The input map as the hook loop builds it: hooks in order, a later hook
      on the same pin overwriting an earlier one, output-pin hooks skipped. */
  function InputsOf(hooks: seq<Hook>, output: string): (inputs: map<string, string>)
    decreases |hooks|
  {
    if hooks == [] then map[]
    else
      var h := hooks[|hooks| - 1];
      var m := InputsOf(hooks[..|hooks| - 1], output);
      if h.portname == output then m else m[h.portname := Render(h.arg)]
  }

  /** Whether no hook after position i connects the same pin. */
  predicate IsLastOnPin(hooks: seq<Hook>, i: int)
    requires 0 <= i < |hooks|
  {
    forall j :: i < j < |hooks| ==> hooks[j].portname != hooks[i].portname
  }

  /** Every hook lands on exactly one side: a hook on the output pin in the
      outputs, any other hook in the input map (and the output pin is never
      an input key); an input pin carries the argument of its last hook. */
  lemma {:induction false} HookPartition(hooks: seq<Hook>, output: string)
    ensures output !in InputsOf(hooks, output)
    ensures InputsOf(hooks, output).Keys ==
              (set h | h in hooks && h.portname != output :: h.portname)
    ensures forall i :: 0 <= i < |hooks| && hooks[i].portname != output && IsLastOnPin(hooks, i) ==>
              InputsOf(hooks, output)[hooks[i].portname] == Render(hooks[i].arg)
    decreases |hooks|
  {
    if hooks != [] {
      var n := |hooks| - 1;
      var front := hooks[..n];
      HookPartition(front, output);
      assert hooks == front + [hooks[n]];
      forall i | 0 <= i < |hooks| && hooks[i].portname != output && IsLastOnPin(hooks, i)
        ensures InputsOf(hooks, output)[hooks[i].portname] == Render(hooks[i].arg)
      {
        if i < n {
          assert hooks[n].portname != hooks[i].portname;
          assert IsLastOnPin(front, i);
        }
      }
    }
  }

  /** The outputs are exactly the rendered arguments of the output-pin hooks:
      each such hook contributes its argument, and nothing else appears. */
  lemma {:induction false} OutputsOfShape(hooks: seq<Hook>, output: string)
    ensures forall i :: 0 <= i < |hooks| && hooks[i].portname == output ==>
              Render(hooks[i].arg) in OutputsOf(hooks, output)
    ensures forall s :: s in OutputsOf(hooks, output) ==>
              exists h :: h in hooks && h.portname == output && Render(h.arg) == s
    ensures |OutputsOf(hooks, output)| <= |hooks|
    decreases |hooks|
  {
    if hooks != [] {
      OutputsOfShape(hooks[1..], output);
      forall i | 0 <= i < |hooks| && hooks[i].portname == output
        ensures Render(hooks[i].arg) in OutputsOf(hooks, output)
      {
        if i > 0 {
          assert hooks[i] == hooks[1..][i - 1];
        }
      }
      forall s | s in OutputsOf(hooks, output)
        ensures exists h :: h in hooks && h.portname == output && Render(h.arg) == s
      {
        if s !in OutputsOf(hooks[1..], output) {
          assert hooks[0] in hooks;
        } else {
          var h :| h in hooks[1..] && h.portname == output && Render(h.arg) == s;
          assert h in hooks;
        }
      }
    }
  }

  // ---------------------------------------------------------------------------
  // Items

  /** How a translation can fail: no module in the description (a data
      error); an instance of a cell missing from the library (a trap on a
      force-unwrapped lookup); a cell template that throws (an internal
      error). */
  datatype TranslateError =
    | NoModuleFound
    | CellNotFound(cellName: string)
    | TemplateFailed(instanceName: string)

  datatype Result<T> = Success(value: T) | Failure(error: TranslateError)

  /** The state the item loop accumulates: the bench statements so far, the
      set of used input names, the floating outputs in order. */
  datatype Acc = Acc(statements: string, used: set<string>, floating: seq<string>)

  /** A cell template: instance name, input map and outputs to statement
      text, or None when it throws. */
  type Template = (BenchCell, string, map<string, string>, seq<string>) -> Option<string>

  /** One BUFF statement for a non-constant assign. */
  function BuffLine(left: string, right: string): (line: string)
  {
    left + " = BUFF(" + right + ") \n"
  }

  /** One iteration of the item loop. */
  function Step(acc: Acc, item: Item, dict: map<string, BenchCell>, extract: Template): (r: Result<Acc>)
    ensures r.Failure? ==> item.InstanceList? && !r.error.NoModuleFound?
    ensures r.Success? ==> acc.used <= r.value.used
  {
    match item
    case InstanceList(inst, _) =>
      if inst.cellName !in dict then Failure(CellNotFound(inst.cellName))
      else
        var cell := dict[inst.cellName];
        var ins := InputsOf(inst.portlist, cell.output);
        var outs := OutputsOf(inst.portlist, cell.output);
        (match extract(cell, inst.name, ins, outs)
         case None => Failure(TemplateFailed(inst.name))
         case Some(text) => Success(acc.(statements := acc.statements + text + " \n",
                                         used := acc.used + ins.Values)))
    case Assign(l, r) =>
      var left := Render(l);
      var right := Render(r);
      if IsZeroConstant(right) then Success(acc.(floating := acc.floating + [left]))
      else Success(acc.(statements := acc.statements + BuffLine(left, right),
                        used := acc.used + {right}))
    case OtherItem => Success(acc)
  }

  /** The item loop: every item in order, stopping at the first failure. */
  function RunItems(acc: Acc, items: seq<Item>, dict: map<string, BenchCell>, extract: Template): (r: Result<Acc>)
    ensures r.Failure? ==> !r.error.NoModuleFound?
    ensures r.Success? ==> acc.used <= r.value.used
    decreases |items|
  {
    if items == [] then Success(acc)
    else match Step(acc, items[0], dict, extract)
      case Failure(e) => Failure(e)
      case Success(next) => RunItems(next, items[1..], dict, extract)
  }

  /** The input names no gate or buffer consumes, in declaration order. */
  function Unused(names: seq<string>, used: set<string>): (ignored: seq<string>)
    ensures |ignored| <= |names|
    ensures forall x :: x in ignored ==> x in names && x !in used
    decreases |names|
  {
    if names == [] then []
    else (if names[0] in used then [] else [names[0]]) + Unused(names[1..], used)
  }

  /** The distinct elements of a list. */
  function Elements(s: seq<string>): (elements: set<string>)
  {
    set x | x in s
  }

  /** The values of a map at the given keys, in the order of the keys. */
  function ValuesAt(m: map<string, string>, keys: seq<string>): (values: seq<string>)
    requires forall k :: k in keys ==> k in m
    decreases |keys|
  {
    if keys == [] then [] else ValuesAt(m, keys[..|keys| - 1]) + [m[keys[|keys| - 1]]]
  }

  /** Whether a list holds no element twice. */
  predicate Distinct(keys: seq<string>)
  {
    forall a, b :: 0 <= a < b < |keys| ==> keys[a] != keys[b]
  }

  /** The output ports whose name is not a floating output, in order. */
  function KeptOutputs(outputs: seq<Port>, floating: seq<string>): (kept: seq<Port>)
    ensures |kept| <= |outputs|
    ensures forall i :: 0 <= i < |kept| ==> kept[i].name !in floating
    decreases |outputs|
  {
    if outputs == [] then []
    else (if outputs[0].name in floating then [] else [outputs[0]]) + KeptOutputs(outputs[1..], floating)
  }

  // ---------------------------------------------------------------------------
  // The whole translation

  /** The three strings written to the bench file, in order. */
  datatype BenchFile = BenchFile(header: string, floating: string, statements: string)

  function Translation(defs: seq<Definition>, cells: seq<BenchCell>, extract: Template): (r: Result<BenchFile>)
    ensures r == Failure(NoModuleFound) <==> FirstModule(defs).None?
    ensures r.Success? ==> FirstModule(defs).Some? && r.value.header == Header(defs[FirstModule(defs).value].name)
  {
    match FirstModule(defs)
    case None => Failure(NoModuleFound)
    case Some(i) =>
      var m := defs[i];
      var inputNames := PortNames(m.inputs);
      match RunItems(Acc(Lines("INPUT", inputNames), {}, []), m.items, CellsDict(cells), extract)
      case Failure(e) => Failure(e)
      case Success(acc) =>
        var ignored := Unused(inputNames, acc.used);
        var kept := KeptOutputs(m.outputs, acc.floating);
        Success(BenchFile(Header(m.name),
                          DropLast(Lines("OUTPUT", ignored)),
                          acc.statements + Lines("OUTPUT", PortNames(kept))))
  }
}
