# Fault `bench`: netlist-to-bench translation

This project models the core of the `fault bench` subcommand of Fault, an
automatic test pattern generation toolchain. The core turns one structural
Verilog module and a cell library into the flat "bench" netlist that ATPG
back-ends read. It does this in five steps:

- it builds a dictionary of library cells by name;
- it picks the first module definition of the parsed description;
- it bit-blasts the input ports into `INPUT(...)` lines;
- it translates the first instance of every instance list through its
  cell's template, and every continuous assign into a `BUFF` gate, dropping
  assigns of a zero constant;
- it declares every input bit that nothing consumes as a pseudo-`OUTPUT`, and
  bit-blasts the output ports that were not dropped into `OUTPUT(...)` lines.

Files:

- `netlist.dfy` (module `Netlist`): the typed netlist. It holds ports with
  their bit ranges, arguments (`Plain` text or an indexed `Pointer`), hooks,
  instances, items and definitions, plus the library cell record. It also
  holds the rendering of an argument, the recognised zero constants and the
  decimal rendering of a bit index.
- `bench_spec.dfy` (module `BenchSpec`): one function per loop of the
  translation, saying what the loop computes. It also holds the lemmas about
  bit-blasting, line emission with its parse-back, the cell dictionary and
  the split of hooks.
- `bench.dfy` (module `Bench`): the translation as the source runs it.
  Loops append to `inputNames`, `usedInputs` and `floatingOutputs`, to the
  statement buffers, and to the per-instance input dictionary. Most methods
  are proved equal to a `BenchSpec` function. `AppendValues` is proved to
  append the map's values in some order of its keys, each key once, and
  `TranslateItems` returns a used-input list whose elements are exactly the
  used set of `RunItems`.
- `bench_properties.dfy` (module `BenchProperties`): the lemmas about the
  item step, the item loop and the whole `Translation`. These cover which inputs count as used, which outputs are
  dropped, when the translation fails, the layout of the written text, and
  the fact that only the first instance of an instance list is translated.
- `bench_scenarios.dfy` (module `BenchScenarios`): two worked modules. One
  has an AND cell driving `c`. The other has `c` tied to `1'b0`.

The cell template (`BenchCell.extract` in the source) is not part of this
model. It is a parameter `extract` of type `Template`: a function from the
cell, the instance name, the input map and the output list to the statement
text. It returns `None` when the template throws.

Errors are modelled as `TranslateError`:

- `NoModuleFound`: the description has no module. The source exits with a
  data error.
- `CellNotFound`: an instance names a cell missing from the library. The
  source traps on a force-unwrapped dictionary lookup.
- `TemplateFailed`: the template throws. The source reports an internal
  error.

## Model

| member | source | states |
|---|---|---|
| `Netlist.Port.Width` | Sources/Fault/Entries/bench.swift:181-182 | a port is at least one bit wide, and exactly one bit wide (scalar) iff its two bounds are equal |
| `Netlist.Render` | Sources/Fault/Entries/bench.swift:212-224 | a `Pointer` argument renders as its base, `[`, its index text and `]`, so its text ends in `]`; anything else renders as its own text |
| `Netlist.IsZeroConstant` | Sources/Fault/Entries/bench.swift:249 | the zero-constant test accepts exactly the texts `1'b0` and `1'h0`, so anything it accepts is four characters long |
| `Netlist.ZeroConstantSpelling` | Sources/Fault/Entries/bench.swift:249 | a text is a zero constant iff it is `1'`, then `b` or `h`, then `0` |
| `Netlist.IntToString` | Sources/Fault/Entries/bench.swift:184 | a bit index is written in decimal as Swift interpolates an `Int`: never empty, with a leading `-` exactly for a negative index |
| `Netlist.NatToStringValue` | Sources/Fault/Entries/bench.swift:184 | the decimal digits written for a natural number read back as that number |
| `Netlist.IntToStringValue` | Sources/Fault/Entries/bench.swift:184 | the written index reads back as the index: its sign, then the digits of its magnitude |
| `BenchSpec.CellsDictLastWins` | Sources/Fault/Entries/bench.swift:150-152 | the cell dictionary's keys are exactly the cell names, and each name maps to the last cell carrying it (a later duplicate overwrites an earlier one) |
| `Bench.BuildCellsDict` | Sources/Fault/Entries/bench.swift:150-152 | the reduce(into:) loop builds exactly `CellsDict(cells)`, whose keys are the cell names |
| `BenchSpec.FirstModule` | Sources/Fault/Entries/bench.swift:160-167 | the selected index holds a module definition and no earlier definition is one; there is no selection iff no definition is a module |
| `Bench.SelectModule` | Sources/Fault/Entries/bench.swift:160-167 | the search loop that breaks at the first `ModuleDef` returns exactly `FirstModule(defs)` |
| `BenchSpec.BitRangeShape` | Sources/Fault/Entries/bench.swift:182-186 | iterating lo...hi yields hi-lo+1 names, the k-th being `name[lo+k]` |
| `BenchSpec.BitRangeSnoc` | Sources/Fault/Entries/bench.swift:183-186 | each loop iteration appends the next bit's name after those of the lower bits |
| `BenchSpec.BitNamesShape` | Sources/Fault/Entries/bench.swift:180-194 | a port expands to exactly \|from-to\|+1 names; a multi-bit port to `name[i]` for i ascending from min(from,to); a scalar port to its bare name |
| `BenchSpec.BitNamesSymmetric` | Sources/Fault/Entries/bench.swift:182 | the expansion does not depend on which bound is declared first |
| `BenchSpec.PortNamesAppend` | Sources/Fault/Entries/bench.swift:180-194 | bit-blasting two port lists one after the other is bit-blasting their concatenation |
| `BenchSpec.PortNamesLayout` | Sources/Fault/Entries/bench.swift:180-194 | the input names list each port's bits in declaration order, a port's bits directly after those of the ports before it |
| `BenchSpec.LinesAppend` | Sources/Fault/Entries/bench.swift:186 | appending declaration lines for two name lists is appending the lines of their concatenation: one line per name, in order |
| `BenchSpec.ParseDecl` | Sources/Fault/Entries/bench.swift:186 | a line read back as a declaration of `name` is exactly `TAG(name) ` |
| `BenchSpec.ParseDeclsLine` | Sources/Fault/Entries/bench.swift:186 | one `TAG(name) ` line reads back as `name`, followed by whatever the rest of the text reads back as |
| `BenchSpec.ParseDeclsRoundTrip` | Sources/Fault/Entries/bench.swift:186 | reading the `TAG(name) ` lines back yields exactly the declared names, in order, when no name holds a newline |
| `BenchSpec.ParseDeclsSound` | Sources/Fault/Entries/bench.swift:186 | any text read back as declarations is exactly the declaration lines of the names read, so line emission and reading are inverse |
| `BenchSpec.ParseDeclsOtherTag` | Sources/Fault/Entries/bench.swift:186 | lines declared under one tag are rejected when read under a tag with a different first letter (`INPUT` against `OUTPUT`) |
| `Bench.EmitPort` | Sources/Fault/Entries/bench.swift:181-193 | one port's loop records exactly `BitNames(port)` and appends one `TAG(name)` line per recorded name |
| `Bench.EmitPorts` | Sources/Fault/Entries/bench.swift:180-194 | the input loop records `inputNames` = the bit names of all input ports in order, and exactly one `INPUT` line per element, in the same order; it is reused for the output loop |
| `BenchSpec.HookPartition` | Sources/Fault/Entries/bench.swift:206-226 | the output pin is never a key of the input map; the keys are exactly the pins of the non-output hooks; each input pin maps to the rendered argument of its last hook |
| `BenchSpec.OutputsOfShape` | Sources/Fault/Entries/bench.swift:207-218 | every hook on the output pin contributes its rendered argument to the outputs, and the outputs hold nothing else |
| `Bench.SplitHooks` | Sources/Fault/Entries/bench.swift:206-226 | the hook loop builds exactly `InputsOf` and `OutputsOf` of the instance's hooks |
| `Bench.AppendValues` | Sources/Fault/Entries/bench.swift:231 | appending the input map's values to `usedInputs` gives the earlier entries followed by the value of every key of the map, each key exactly once, in an order of the keys that is not fixed |
| `Bench.TranslateItems` | Sources/Fault/Entries/bench.swift:196-260 | the item loop fails exactly when `RunItems` fails, with the same error; otherwise its statements and floating outputs equal `RunItems`'s, and its used-input list has exactly `RunItems`'s used set as elements |
| `Bench.EmitFloating` | Sources/Fault/Entries/bench.swift:277-280 | one pseudo-`OUTPUT` line per ignored input, in order |
| `Bench.Translate` | Sources/Fault/Entries/bench.swift:150-291 | the whole translation returns exactly `Translation(defs, cells, extract)` |
| `BenchSpec.DropLast` | Sources/Fault/Entries/bench.swift:289 | the floating statements lose exactly their last character |
| `BenchSpec.HeaderShape` | Sources/Fault/Entries/bench.swift:282-286 | `Header` is the boilerplate comment block: it opens with `#    Bench for ` and the module name on its own line, and ends with a newline |
| `BenchSpec.Step` | Sources/Fault/Entries/bench.swift:200-257 | one item: an instance is looked up and run through its template, an assign becomes a `BUFF` line or a floating output; only an instance can fail, never with the missing-module error, and a step never forgets a used name |
| `BenchSpec.RunItems` | Sources/Fault/Entries/bench.swift:196-258 | the item loop in item order, stopping at the first failure; its error is never the missing-module error, and the used names only grow |
| `BenchSpec.Unused` | Sources/Fault/Entries/bench.swift:261 | the filter keeps at most the declared names, and every name it keeps is declared and unused |
| `BenchSpec.KeptOutputs` | Sources/Fault/Entries/bench.swift:264 | the filter keeps at most as many ports as were declared, and no port it keeps has a floating output as its name (`KeptOutputsMembership` gives both directions) |
| `BenchSpec.Translation` | Sources/Fault/Entries/bench.swift:150-291 | the whole translation fails with the missing-module error iff the description has no module; on success the header names the first module |
| `BenchProperties.RunItemsFailure` | Sources/Fault/Entries/bench.swift:202-204 | the item loop fails iff some instance's cell is missing or its template throws; the error is that of the first failing instance: its missing cell by name, else its instance name for the throwing template; a failure is never a missing-module error |
| `BenchProperties.AssignText` | Sources/Fault/Entries/bench.swift:249-256 | an assign writes no gate iff its source is `1'b0` or `1'h0`, and otherwise writes exactly the line `left = BUFF(right) ` |
| `BenchProperties.StepText` | Sources/Fault/Entries/bench.swift:200-258 | one successful item step appends exactly that item's text to the statements |
| `BenchProperties.StepPrefix` | Sources/Fault/Entries/bench.swift:200-257 | one item step succeeds or fails regardless of the statements before it, and appends the same text after them |
| `BenchProperties.RunItemsText` | Sources/Fault/Entries/bench.swift:196-260 | on success the gate section is the texts of the items concatenated in item order: a template statement plus ` \n` per instance, one `BUFF` line per non-constant assign, nothing for the rest |
| `BenchProperties.RunItemsStatements` | Sources/Fault/Entries/bench.swift:196-260 | the item loop succeeds regardless of the INPUT lines before it and appends its statements after them |
| `BenchProperties.RunItemsUsed` | Sources/Fault/Entries/bench.swift:231-256 | a name is used iff it is an input-map value of some translated instance or the source of some non-constant assign |
| `BenchProperties.StepFloating` | Sources/Fault/Entries/bench.swift:249-251 | one successful item step adds the target of a zero-constant assign to the floating outputs, and nothing for any other item |
| `BenchProperties.RunItemsFloating` | Sources/Fault/Entries/bench.swift:249-251 | the floating outputs are the targets of the zero-constant assigns, in item order |
| `BenchProperties.ZeroTargetsMembership` | Sources/Fault/Entries/bench.swift:249-251 | a name is a floating output iff some assign of `1'b0` or `1'h0` targets it |
| `BenchProperties.PointerIsNeverZero` | Sources/Fault/Entries/bench.swift:236-249 | an indexed right side never counts as a zero constant: only the exact texts `1'b0` and `1'h0` do |
| `BenchProperties.UnusedMembership` | Sources/Fault/Entries/bench.swift:261 | a name is ignored iff it is a declared input bit that is not used |
| `BenchProperties.UnusedAppend` | Sources/Fault/Entries/bench.swift:261 | the ignored inputs keep declaration order: filtering a concatenation is concatenating the filtered parts |
| `BenchProperties.UnusedRestrict` | Sources/Fault/Entries/bench.swift:261 | the filter depends only on which of the declared names are used |
| `BenchProperties.IgnoredInputs` | Sources/Fault/Entries/bench.swift:231-261 | the ignored inputs are exactly the declared input bits that no instance input and no non-constant assign source names |
| `BenchProperties.KeptOutputsMembership` | Sources/Fault/Entries/bench.swift:264 | an output port is kept iff its whole name is not a floating output |
| `BenchProperties.KeptOutputsAppend` | Sources/Fault/Entries/bench.swift:264 | kept output ports stay in declaration order |
| `BenchProperties.ZeroAssignDropsOutput` | Sources/Fault/Entries/bench.swift:249-275 | an output port gets no `OUTPUT` line iff some zero-constant assign targets its whole name |
| `BenchProperties.NoModuleFoundIff` | Sources/Fault/Entries/bench.swift:160-172 | the translation fails with the no-module data error iff no definition is a module |
| `BenchProperties.TranslationLayout` | Sources/Fault/Entries/bench.swift:176-291 | a successful translation writes, in order: the header naming the module; one pseudo-`OUTPUT` per unconsumed input bit (last newline dropped); the `INPUT` lines; the item texts in item order; the `OUTPUT` lines of the ports no zero assign names |
| `BenchProperties.OnlyFirstInstance` | Sources/Fault/Entries/bench.swift:200-201 | the instances after the first one of each instance list have no effect on the translation |
| `BenchScenarios.GateScenario` | Sources/Fault/Entries/bench.swift:176-291 | a module with an AND cell driving `c` from `a`,`b` gives `INPUT(a)`, `INPUT(b)`, the cell's statement, `OUTPUT(c)` and no pseudo-outputs |
| `BenchScenarios.ConstantScenario` | Sources/Fault/Entries/bench.swift:249-291 | the same module with `assign c = 1'b0` gives no gate and no `OUTPUT(c)`, and declares the then-unused `a`,`b` as pseudo-outputs |

## Left out

- Command-line parsing, help text, argument-count checks and exit codes
  (bench.swift:9-65) are not modelled. They are argument plumbing.
- Existence checks on the netlist and cell-model files, and all file reads and
  writes, are not modelled. The model returns the three strings passed in
  order to the file writer: the boilerplate, the floating statements with
  their last character dropped, and the bench statements. How the writer
  joins them (the Defile library's `print`) is not part of this model.
- Deriving the cell library from a `.v`/`.sv` file (bench.swift:74-133) is
  not modelled. It consists of the shell `grep`, `mkdir` and `rm -rf`
  calls, regular-expression extraction, a temporary directory, and JSON
  encoding. The library is given as its decoded list of cells.
- Decoding the cell-model JSON (bench.swift:144-148) is not modelled. The
  model starts from the decoded cells.
- Parsing through pyverilog (bench.swift:155-159) is not modelled. The same
  holds for dispatching on Python type names. The parsed description is
  given as the `Definition` datatype.
- `Port.extract` is not part of this model. The module's input and output
  ports are given in the `ModuleDef`, with width |from-to|+1. The error that
  `Port.extract` can throw is not modelled.
- `BenchCell.extract` is not part of this model. It is the `extract`
  parameter; its throwing is the `None` result.
- The console messages (the zero-constant warning, the floating-input count)
  are logging only and are not modelled.
- `Bench.AppendValues` does not fix the order of the appended values. Swift
  dictionaries yield their values in an unspecified order, so the order is
  a ghost result of the method. Only membership in `usedInputs` matters
  downstream, so `Bench.TranslateItems` states its used-input list up to
  its elements.
- String comparison is code point by code point. Swift compares `String`s
  by Unicode canonical equivalence: in `==` (bench.swift:212 and :249), in
  `contains` (:261 and :264) and in the cell dictionary's keys (:204).
  Verilog identifiers are ASCII, for which both comparisons agree.
- Pyverilog never produces an empty instance list, so `InstanceList` always
  holds a first instance.
