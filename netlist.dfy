/** The structural netlist that the bench translator consumes: the typed form of
    the pyverilog AST nodes that `bench(arguments:)` inspects by type name, plus
    the cell library records decoded from the cell-model JSON. */
module Netlist {

  datatype Option<T> = None | Some(value: T)

  /** A declared port with inclusive bit-range bounds, in either order. */
  datatype Port = Port(name: string, from: int, to: int)
  {
    /** Number of bits: |from - to| + 1; a port of width 1 is scalar. */
    function Width(): (w: nat)
      ensures w >= 1
      ensures w == 1 <==> from == to
    {
      if from > to then from - to + 1 else to - from + 1
    }

    /** Lower end of the bit range, whichever bound is declared first. */
    function Lo(): (lo: int) { if from > to then to else from }

    /** Upper end of the bit range, whichever bound is declared first. */
    function Hi(): (hi: int) { if from > to then from else to }
  }

  /** The argument of a port connection or one side of an assign: a `Pointer`
      node (an indexed net `base[ptr]`) or anything else (an identifier or a
      constant literal such as 1'b0), which is rendered as its own text. */
  datatype Arg = Plain(text: string) | Pointer(base: string, ptr: string)

  /** One port connection of an instance: `.portname(arg)`. */
  datatype Hook = Hook(portname: string, arg: Arg)

  /** One instance of a library cell. */
  datatype Instance = Instance(cellName: string, name: string, portlist: seq<Hook>)

  /** A structural item of a module body. An instance list always holds at
      least one instance; `rest` holds the ones after the first. */
  datatype Item =
    | InstanceList(first: Instance, rest: seq<Instance>)
    | Assign(left: Arg, right: Arg)
    | OtherItem

  /** A top-level definition of the parsed description. */
  datatype Definition =
    | ModuleDef(name: string, inputs: seq<Port>, outputs: seq<Port>, items: seq<Item>)
    | OtherDefinition

  /** A cell of the library: its name, the name of its one output pin, and the
      data its bench template is built from. */
  datatype BenchCell = BenchCell(name: string, output: string, template: string)

  /** The textual form of an argument: `base[ptr]` for a pointer, the plain
      text otherwise. */
  function Render(a: Arg): (s: string)
    ensures a.Pointer? ==> |s| > 0 && s[|s| - 1] == ']'
    ensures a.Pointer? ==> |s| == |a.base| + |a.ptr| + 2 && s[..|a.base|] == a.base &&
                           s[|a.base|] == '[' && s[|a.base| + 1..|s| - 1] == a.ptr
    ensures a.Plain? ==> s == a.text
  {
    match a
    case Plain(text) => text
    case Pointer(base, ptr) => base + "[" + ptr + "]"
  }

  /** Only these two spellings of a zero constant are recognised: a
      one-bit literal of value 0, written in binary or in hexadecimal. */
  function IsZeroConstant(s: string): (zero: bool)
    ensures zero ==> |s| == 4
  {
    s == "1'b0" || s == "1'h0"
  }

  /** A zero constant is spelled `1'`, a base letter b or h, then `0`. */
  lemma ZeroConstantSpelling(s: string)
    ensures IsZeroConstant(s) <==>
              |s| == 4 && s[0] == '1' && s[1] == '\'' && (s[2] == 'b' || s[2] == 'h') && s[3] == '0'
  {
    if |s| == 4 && s[0] == '1' && s[1] == '\'' && s[3] == '0' {
      if s[2] == 'b' { assert s == "1'b0"; }
      if s[2] == 'h' { assert s == "1'h0"; }
    }
  }

  /** Decimal text of a natural number. */
  function NatToString(n: nat): (s: string)
    ensures |s| > 0 && '0' <= s[0] <= '9'
    decreases n
  {
    var digit := ('0' as int + n % 10) as char;
    if n < 10 then [digit] else NatToString(n / 10) + [digit]
  }

  /** Decimal text of an integer, as Swift interpolates an `Int`. */
  function IntToString(i: int): (s: string)
    ensures |s| > 0
    ensures s[0] == '-' <==> i < 0
  {
    if i < 0 then "-" + NatToString(-i) else NatToString(i)
  }

  /** The number a string of decimal digits denotes. */
  function DecimalValue(s: string): (v: int)
    decreases |s|
  {
    if s == [] then 0 else DecimalValue(s[..|s| - 1]) * 10 + (s[|s| - 1] as int - '0' as int)
  }

  /** The decimal text of a number reads back as that number. */
  lemma {:induction false} NatToStringValue(n: nat)
    ensures DecimalValue(NatToString(n)) == n
    decreases n
  {
    var s := NatToString(n);
    assert s[|s| - 1] as int - '0' as int == n % 10;
    if n >= 10 {
      NatToStringValue(n / 10);
      assert s[..|s| - 1] == NatToString(n / 10);
    } else {
      assert s[..|s| - 1] == [];
    }
  }

  /** The decimal text of an integer reads back as that integer: its sign,
      then the digits of its magnitude. */
  lemma IntToStringValue(i: int)
    ensures var s := IntToString(i);
            if i < 0 then s[1..] == NatToString(-i) && DecimalValue(s[1..]) == -i
            else DecimalValue(s) == i
  {
    if i < 0 {
      NatToStringValue(-i);
      assert IntToString(i)[1..] == NatToString(-i);
    } else {
      NatToStringValue(i);
    }
  }
}
