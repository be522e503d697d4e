/**
 The configuration pipeline: the server validates registers, stores connection
 settings, elides default fields and groups machines by line; the worker's
 loader puts the defaults back. YAML and JSON are taken to carry structures
 faithfully, an omitted field reading back as its zero value.
 */
module ConfigPipeline {
  import opened Wrappers

  datatype Fake = Fake(min: real, max: real, pattern: string)

  datatype Register = Register(name: string, address: int, kind: string, dataType: string, unit: string,
                               scale: real, offset: real, byteOrder: string, fake: Option<Fake>)

  /** A register as the worker reads it; the server never writes a length. */
  datatype RegisterConfig = RegisterConfig(reg: Register, length: int)

  datatype ConfigMachine = ConfigMachine(id: string, name: string, model: string, line: string,
                                         host: string, port: int, slaveId: int)

  datatype MachineDoc = MachineDoc(name: string, model: string, host: string, port: int, slaveId: int,
                                   timeout: int, registers: seq<RegisterConfig>)

  datatype LineDoc = LineDoc(name: string, displayOrder: int, machines: seq<MachineDoc>)

  datatype Document = Document(siteCode: string, siteName: string, timezone: string, pollInterval: int,
                               logLevel: string, lines: seq<LineDoc>)

  const SECOND: int := 1_000_000_000

  // ---- accepting registers ----

  function ApplyRegisterDefaults(r: Register): Register {
    r.(kind := if r.kind == "" then "holding" else r.kind,
       dataType := if r.dataType == "" then "float32" else r.dataType,
       byteOrder := if r.byteOrder == "" then "big" else r.byteOrder,
       scale := if r.scale == 0.0 then 1.0 else r.scale)
  }

  const REGISTER_KINDS: set<string> := {"holding", "input", "coil", "discrete"}
  const DATA_TYPES: set<string> :=
    {"uint16", "int16", "uint32", "int32", "float32", "float64", "bool", "string", "timestamp_unix"}
  const BYTE_ORDERS: set<string> := {"big", "little", "mid-big", "mid-little"}

  predicate ValidRegister(r: Register) {
    && r.name != "" && r.address >= 0
    && r.kind in REGISTER_KINDS && r.dataType in DATA_TYPES && r.byteOrder in BYTE_ORDERS
  }

  /** A register as SetRegisters stores it. */
  predicate Accepted(r: Register) {
    ValidRegister(r) && r.scale != 0.0
  }

  /** What is filled in for a register, and which registers are then valid, field by field. */
  lemma RegisterFields(o: Register)
    ensures ApplyRegisterDefaults(o) ==
      Register(o.name, o.address, if o.kind == "" then "holding" else o.kind,
               if o.dataType == "" then "float32" else o.dataType, o.unit,
               if o.scale == 0.0 then 1.0 else o.scale, o.offset,
               if o.byteOrder == "" then "big" else o.byteOrder, o.fake)
    ensures ValidRegister(ApplyRegisterDefaults(o)) <==>
      && o.name != "" && o.address >= 0
      && o.kind in {"", "holding", "input", "coil", "discrete"}
      && o.dataType in {"", "uint16", "int16", "uint32", "int32", "float32", "float64", "bool", "string",
                        "timestamp_unix"}
      && o.byteOrder in {"", "big", "little", "mid-big", "mid-little"}
  {
  }

  /** Defaults and validates in place, register by register; the first invalid one rejects the request. */
  method SetRegisters(body: array<Register>) returns (r: Result<seq<Register>, nat>)
    modifies body
    ensures r.Success? <==> forall i | 0 <= i < body.Length :: ValidRegister(ApplyRegisterDefaults(old(body[i])))
    ensures r.Success? ==>
      && r.value == body[..]
      && (forall i | 0 <= i < body.Length :: body[i] == ApplyRegisterDefaults(old(body[i])) && Accepted(body[i]))
    ensures r.Failure? ==>
      && r.error < body.Length && !ValidRegister(ApplyRegisterDefaults(old(body[r.error])))
      && (forall i | 0 <= i < r.error :: ValidRegister(ApplyRegisterDefaults(old(body[i]))))
  {
    var i := 0;
    while i < body.Length
      invariant 0 <= i <= body.Length
      invariant forall k | 0 <= k < i :: body[k] == ApplyRegisterDefaults(old(body[k])) && Accepted(body[k])
      invariant forall k | i <= k < body.Length :: body[k] == old(body[k])
    {
      body[i] := ApplyRegisterDefaults(body[i]);
      if !ValidRegister(body[i]) { return Failure(i); }
      i := i + 1;
    }
    return Success(body[..]);
  }

  datatype MachineInput = MachineInput(id: string, host: string, port: int, slaveId: int)

  /** Stores the machines of a configuration with connection defaults. */
  method SetConfigMachines(machines: seq<MachineInput>) returns (rows: seq<MachineInput>)
    ensures |rows| == |machines|
    ensures forall i | 0 <= i < |rows| ::
      && rows[i].id == machines[i].id && rows[i].host == machines[i].host
      && rows[i].port != 0 && (machines[i].port != 0 ==> rows[i].port == machines[i].port)
      && rows[i].slaveId != 0 && (machines[i].slaveId != 0 ==> rows[i].slaveId == machines[i].slaveId)
      && (machines[i].port == 0 ==> rows[i].port == 502) && (machines[i].slaveId == 0 ==> rows[i].slaveId == 1)
  {
    rows := [];
    for k := 0 to |machines|
      invariant |rows| == k
      invariant forall i | 0 <= i < k :: rows[i] == machines[i].(
        port := if machines[i].port == 0 then 502 else machines[i].port,
        slaveId := if machines[i].slaveId == 0 then 1 else machines[i].slaveId)
    {
      var m := machines[k];
      var port := m.port;
      if port == 0 { port := 502; }
      var slaveId := m.slaveId;
      if slaveId == 0 { slaveId := 1; }
      rows := rows + [MachineInput(m.id, m.host, port, slaveId)];
    }
  }

  // ---- generating the document ----

  /** Fields at their defaults are left out. */
  function Elide(r: Register): Register {
    r.(kind := if r.kind == "holding" then "" else r.kind,
       dataType := if r.dataType == "float32" then "" else r.dataType,
       scale := if r.scale == 1.0 then 0.0 else r.scale,
       byteOrder := if r.byteOrder == "big" then "" else r.byteOrder)
  }

  function Elided(rs: seq<Register>): seq<RegisterConfig> {
    seq(|rs|, i requires 0 <= i < |rs| => RegisterConfig(Elide(rs[i]), 0))
  }

  /** What the document leaves out, field by field. */
  lemma ElidedFields(r: Register)
    ensures Elide(r) ==
      Register(r.name, r.address, if r.kind == "holding" then "" else r.kind,
               if r.dataType == "float32" then "" else r.dataType, r.unit,
               if r.scale == 1.0 then 0.0 else r.scale, r.offset,
               if r.byteOrder == "big" then "" else r.byteOrder, r.fake)
  {
  }

  type RegisterStore = string -> seq<Register>

  function ToDoc(m: ConfigMachine, stored: RegisterStore): MachineDoc {
    MachineDoc(m.name, m.model, m.host, m.port, m.slaveId, 0, Elided(stored(m.id)))
  }

  function Docs(ms: seq<ConfigMachine>, stored: RegisterStore): seq<MachineDoc> {
    seq(|ms|, i requires 0 <= i < |ms| => ToDoc(ms[i], stored))
  }

  /** Line names in the order in which they first occur. */
  function LineNames(ms: seq<ConfigMachine>): (names: seq<string>)
    ensures forall m | m in ms :: m.line in names
    ensures forall i, j | 0 <= i < j < |names| :: names[i] != names[j]
  {
    if ms == [] then []
    else
      var m, names := ms[|ms| - 1], LineNames(ms[..|ms| - 1]);
      if m.line in names then names else names + [m.line]
  }

  function OfLine(ms: seq<ConfigMachine>, name: string): (r: seq<ConfigMachine>)
    ensures forall m | m in r :: m.line == name
  {
    if ms == [] then []
    else
      var m, init := ms[|ms| - 1], OfLine(ms[..|ms| - 1], name);
      if m.line == name then init + [m] else init
  }

  function Grouped(ms: seq<ConfigMachine>, stored: RegisterStore): seq<LineDoc> {
    var names := LineNames(ms);
    seq(|names|, i requires 0 <= i < |names| => LineDoc(names[i], i + 1, Docs(OfLine(ms, names[i]), stored)))
  }

  method ElideAll(source: seq<Register>) returns (regs: seq<RegisterConfig>)
    ensures regs == Elided(source)
  {
    regs := [];
    for j := 0 to |source|
      invariant regs == Elided(source[..j])
    {
      assert source[..j + 1][..j] == source[..j];
      regs := regs + [RegisterConfig(Elide(source[j]), 0)];
    }
    assert source[..|source|] == source;
  }

  /** The map of lines that the loop builds up, machine by machine. */
  function LineMap(ms: seq<ConfigMachine>, stored: RegisterStore): map<string, LineDoc> {
    if ms == [] then map[] else Joined(LineMap(ms[..|ms| - 1], stored), ms[|ms| - 1], stored)
  }

  function Joined(before: map<string, LineDoc>, m: ConfigMachine, stored: RegisterStore): map<string, LineDoc> {
    var line := if m.line in before then before[m.line] else LineDoc(m.line, 0, []);
    before[m.line := line.(machines := line.machines + [ToDoc(m, stored)])]
  }

  lemma {:induction false} LineMapHolds(ms: seq<ConfigMachine>, stored: RegisterStore, n: string)
    ensures n in LineMap(ms, stored) <==> n in LineNames(ms)
    ensures n in LineMap(ms, stored) ==> LineMap(ms, stored)[n] == LineDoc(n, 0, Docs(OfLine(ms, n), stored))
  {
    if ms == [] {
    } else {
      var m, init := ms[|ms| - 1], ms[..|ms| - 1];
      LineMapHolds(init, stored, n);
      if m.line == n {
        DocsConcat(OfLine(init, n), [m], stored);
        assert Docs([m], stored) == [ToDoc(m, stored)];
        if n !in LineNames(init) { NotOfLine(init, n); }
      }
    }
  }

  lemma LinesSnoc(ms: seq<ConfigMachine>, m: ConfigMachine, stored: RegisterStore)
    ensures m.line in LineMap(ms, stored) <==> m.line in LineNames(ms)
    ensures LineNames(ms + [m]) == if m.line in LineNames(ms) then LineNames(ms) else LineNames(ms) + [m.line]
    ensures LineMap(ms + [m], stored) == Joined(LineMap(ms, stored), m, stored)
  {
    assert (ms + [m])[..|ms|] == ms;
    LineMapHolds(ms, stored, m.line);
  }

  /** The first loop: groups machines by line through a map of lines and a list of their names. */
  method CollectLines(ms: seq<ConfigMachine>, stored: RegisterStore)
    returns (lineMap: map<string, LineDoc>, lineOrder: seq<string>)
    ensures lineOrder == LineNames(ms) && lineMap == LineMap(ms, stored)
  {
    lineMap, lineOrder := map[], [];
    for k := 0 to |ms|
      invariant lineOrder == LineNames(ms[..k]) && lineMap == LineMap(ms[..k], stored)
    {
      assert ms[..k + 1] == ms[..k] + [ms[k]];
      LinesSnoc(ms[..k], ms[k], stored);
      lineMap, lineOrder := Join(lineMap, lineOrder, ms[k], stored);
    }
    assert ms[..|ms|] == ms;
  }

  /** Adds one machine to its line, and the line to the list when it is new. */
  method Join(before: map<string, LineDoc>, names: seq<string>, m: ConfigMachine, stored: RegisterStore)
    returns (lineMap: map<string, LineDoc>, lineOrder: seq<string>)
    ensures lineMap == Joined(before, m, stored)
    ensures lineOrder == if m.line in before then names else names + [m.line]
  {
    lineMap, lineOrder := before, names;
    if m.line !in lineMap {
      lineMap := lineMap[m.line := LineDoc(m.line, 0, [])];
      lineOrder := lineOrder + [m.line];
    }
    var regs := ElideAll(stored(m.id));
    var line := lineMap[m.line];
    lineMap := lineMap[m.line := line.(machines := line.machines +
      [MachineDoc(m.name, m.model, m.host, m.port, m.slaveId, 0, regs)])];
  }

  method GenerateLines(ms: seq<ConfigMachine>, stored: RegisterStore) returns (lines: seq<LineDoc>)
    ensures lines == Grouped(ms, stored)
  {
    var lineMap, lineOrder := CollectLines(ms, stored);
    ghost var groups := Grouped(ms, stored);
    lines := [];
    for i := 0 to |lineOrder|
      invariant lines == groups[..i]
    {
      LineMapHolds(ms, stored, lineOrder[i]);
      var line := lineMap[lineOrder[i]].(displayOrder := i + 1);
      assert groups[i] == line;
      lines := lines + [line];
    }
  }

  lemma {:induction false} NotOfLine(ms: seq<ConfigMachine>, name: string)
    requires name !in LineNames(ms)
    ensures OfLine(ms, name) == []
  {
    if ms == [] {
    } else {
      NotOfLine(ms[..|ms| - 1], name);
    }
  }

  // ---- grouping loses nothing ----

  function Flatten(lines: seq<LineDoc>): seq<MachineDoc> {
    if lines == [] then [] else Flatten(lines[..|lines| - 1]) + lines[|lines| - 1].machines
  }

  /** Machines of one line are neighbours. */
  predicate Contiguous(ms: seq<ConfigMachine>) {
    forall i, j, k | 0 <= i < j < k < |ms| && ms[i].line == ms[k].line :: ms[j].line == ms[i].line
  }

  /** ORDER BY pl.name makes the machines of a line neighbours, under any antisymmetric collation. */
  lemma OrderedIsContiguous(ms: seq<ConfigMachine>, le: (string, string) -> bool)
    requires forall a, b | le(a, b) && le(b, a) :: a == b
    requires forall i, j | 0 <= i < j < |ms| :: le(ms[i].line, ms[j].line)
    ensures Contiguous(ms)
  {
  }

  /** The machines of the given lines, line after line. */
  function Blocks(ms: seq<ConfigMachine>, names: seq<string>): seq<ConfigMachine> {
    if names == [] then [] else Blocks(ms, names[..|names| - 1]) + OfLine(ms, names[|names| - 1])
  }

  lemma {:induction false} BlocksIgnore(ms: seq<ConfigMachine>, m: ConfigMachine, names: seq<string>)
    requires m.line !in names
    ensures Blocks(ms + [m], names) == Blocks(ms, names)
  {
    if names == [] {
    } else {
      BlocksIgnore(ms, m, names[..|names| - 1]);
      assert (ms + [m])[..|ms|] == ms;
    }
  }

  lemma {:induction false} NameHasMachine(ms: seq<ConfigMachine>, name: string) returns (i: nat)
    requires name in LineNames(ms)
    ensures i < |ms| && ms[i].line == name
  {
    if ms[|ms| - 1].line == name {
      i := |ms| - 1;
    } else {
      i := NameHasMachine(ms[..|ms| - 1], name);
    }
  }

  lemma {:induction false} LastName(ms: seq<ConfigMachine>)
    requires ms != [] && Contiguous(ms)
    ensures LineNames(ms) != [] && LineNames(ms)[|LineNames(ms)| - 1] == ms[|ms| - 1].line
  {
    var init, last := ms[..|ms| - 1], |ms| - 1;
    if ms[last].line in LineNames(init) {
      var i := NameHasMachine(init, ms[last].line);
      assert ms[last - 1].line == ms[last].line by { assert ms[i].line == ms[last].line; }
      LastName(init);
    }
  }

  lemma BlocksSnoc(ms: seq<ConfigMachine>, names: seq<string>, name: string)
    ensures Blocks(ms, names + [name]) == Blocks(ms, names) + OfLine(ms, name)
  {
    assert (names + [name])[..|names|] == names;
  }

  lemma SnocOfLine(ms: seq<ConfigMachine>, m: ConfigMachine)
    ensures OfLine(ms + [m], m.line) == OfLine(ms, m.line) + [m]
  {
    assert (ms + [m])[..|ms|] == ms;
  }

  lemma BlocksExtend(ms: seq<ConfigMachine>, m: ConfigMachine, rest: seq<string>)
    requires m.line !in rest
    ensures Blocks(ms + [m], rest + [m.line]) == Blocks(ms, rest) + OfLine(ms, m.line) + [m]
  {
    BlocksIgnore(ms, m, rest);
    BlocksSnoc(ms + [m], rest, m.line);
    SnocOfLine(ms, m);
    assert Blocks(ms, rest) + (OfLine(ms, m.line) + [m]) == Blocks(ms, rest) + OfLine(ms, m.line) + [m];
  }

  lemma AppendToNewLine(ms: seq<ConfigMachine>, m: ConfigMachine, rest: seq<string>)
    requires m.line !in rest && OfLine(ms, m.line) == [] && Blocks(ms, rest) == ms
    ensures Blocks(ms + [m], rest + [m.line]) == ms + [m]
  {
    BlocksExtend(ms, m, rest);
    assert ms + [] == ms;
  }

  lemma AppendToLastLine(ms: seq<ConfigMachine>, m: ConfigMachine, rest: seq<string>)
    requires m.line !in rest && Blocks(ms, rest + [m.line]) == ms
    ensures Blocks(ms + [m], rest + [m.line]) == ms + [m]
  {
    BlocksExtend(ms, m, rest);
    BlocksSnoc(ms, rest, m.line);
  }

  /** The names of all lines but the last one. */
  lemma NamesBefore(ms: seq<ConfigMachine>) returns (rest: seq<string>)
    requires ms != [] && Contiguous(ms)
    ensures var init, line := ms[..|ms| - 1], ms[|ms| - 1].line;
      LineNames(ms) == rest + [line] && line !in rest && (LineNames(init) == rest || LineNames(init) == rest + [line])
  {
    var names := LineNames(ms);
    LastName(ms);
    rest := names[..|names| - 1];
    assert names == rest + [ms[|ms| - 1].line];
  }

  lemma {:induction false} ContiguousBlocks(ms: seq<ConfigMachine>)
    requires Contiguous(ms)
    ensures Blocks(ms, LineNames(ms)) == ms
  {
    if ms == [] {
    } else {
      var init, m := ms[..|ms| - 1], ms[|ms| - 1];
      assert ms == init + [m];
      ContiguousBlocks(init);
      var rest := NamesBefore(ms);
      if LineNames(init) == rest {
        NotOfLine(init, m.line);
        AppendToNewLine(init, m, rest);
      } else {
        AppendToLastLine(init, m, rest);
      }
    }
  }

  lemma {:induction false} BlocksContiguous(ms: seq<ConfigMachine>, names: seq<string>)
    requires forall i, j | 0 <= i < j < |names| :: names[i] != names[j]
    ensures Contiguous(Blocks(ms, names))
    ensures forall m | m in Blocks(ms, names) :: m.line in names
  {
    if names == [] {
    } else {
      var init, name := names[..|names| - 1], names[|names| - 1];
      BlocksContiguous(ms, init);
      var a, b := Blocks(ms, init), OfLine(ms, name);
      var c := a + b;
      forall i | 0 <= i < |a| ensures a[i].line in init && a[i].line != name { assert a[i] in a; }
      forall i, j, k | 0 <= i < j < k < |c| && c[i].line == c[k].line ensures c[j].line == c[i].line {
        if k < |a| {
          assert a[i].line == a[k].line ==> a[j].line == a[i].line;
        } else {
          assert c[k] in b;
          assert i >= |a|;
          assert c[j] in b && c[i] in b;
        }
      }
    }
  }

  /** The groups, line after line, are the input itself exactly when machines of a line are neighbours. */
  lemma GroupingLosesNothing(ms: seq<ConfigMachine>)
    ensures Blocks(ms, LineNames(ms)) == ms <==> Contiguous(ms)
  {
    BlocksContiguous(ms, LineNames(ms));
    if Contiguous(ms) { ContiguousBlocks(ms); }
  }

  lemma {:induction false} FlattenBlocks(ms: seq<ConfigMachine>, stored: RegisterStore, k: nat)
    requires k <= |LineNames(ms)|
    ensures Flatten(Grouped(ms, stored)[..k]) == Docs(Blocks(ms, LineNames(ms)[..k]), stored)
  {
    var names, lines := LineNames(ms), Grouped(ms, stored);
    if k > 0 {
      FlattenBlocks(ms, stored, k - 1);
      assert lines[..k][..k - 1] == lines[..k - 1] && names[..k][..k - 1] == names[..k - 1];
      assert lines[..k][k - 1] == lines[k - 1] && names[..k][k - 1] == names[k - 1];
      DocsConcat(Blocks(ms, names[..k - 1]), OfLine(ms, names[k - 1]), stored);
    }
  }

  lemma DocsConcat(a: seq<ConfigMachine>, b: seq<ConfigMachine>, stored: RegisterStore)
    ensures Docs(a + b, stored) == Docs(a, stored) + Docs(b, stored)
  {
  }

  lemma FlattenGrouped(ms: seq<ConfigMachine>, stored: RegisterStore)
    ensures Flatten(Grouped(ms, stored)) == Docs(Blocks(ms, LineNames(ms)), stored)
  {
    var n := |LineNames(ms)|;
    FlattenBlocks(ms, stored, n);
    assert Grouped(ms, stored)[..n] == Grouped(ms, stored);
    assert LineNames(ms)[..n] == LineNames(ms);
  }

  /** The document holds every machine once and in input order. */
  lemma DocumentKeepsMachines(ms: seq<ConfigMachine>, stored: RegisterStore)
    requires Contiguous(ms)
    ensures Flatten(Grouped(ms, stored)) == Docs(ms, stored)
  {
    FlattenGrouped(ms, stored);
    ContiguousBlocks(ms);
  }

  /** Its lines have distinct names and are numbered from 1, and the loader leaves both as they are. */
  lemma LinesNumbered(ms: seq<ConfigMachine>, stored: RegisterStore)
    ensures var lines, loaded := Grouped(ms, stored), LoadedLines(Grouped(ms, stored));
      && |loaded| == |lines|
      && (forall i, j | 0 <= i < j < |loaded| :: loaded[i].name != loaded[j].name)
      && (forall i | 0 <= i < |loaded| ::
            loaded[i].name == lines[i].name && loaded[i].displayOrder == lines[i].displayOrder == i + 1)
  {
    var names, loaded := LineNames(ms), LoadedLines(Grouped(ms, stored));
    assert |loaded| == |names| && forall i | 0 <= i < |loaded| :: loaded[i].name == names[i];
  }

  // ---- loading the document ----

  function LoadedFake(f: Fake): Fake {
    f.(max := if f.max == 0.0 && f.min == 0.0 then 100.0 else f.max,
       pattern := if f.pattern == "" then "random" else f.pattern)
  }

  function LoadedRegister(c: RegisterConfig): RegisterConfig {
    var r := ApplyRegisterDefaults(c.reg);
    c.(reg := r.(fake := if r.fake.Some? then Some(LoadedFake(r.fake.value)) else None))
  }

  function LoadedMachine(m: MachineDoc): MachineDoc {
    m.(port := if m.port == 0 then 502 else m.port,
       slaveId := if m.slaveId == 0 then 1 else m.slaveId,
       timeout := if m.timeout == 0 then 3 * SECOND else m.timeout,
       registers := seq(|m.registers|, k requires 0 <= k < |m.registers| => LoadedRegister(m.registers[k])))
  }

  function LoadedLine(l: LineDoc, i: nat): LineDoc {
    l.(displayOrder := if l.displayOrder == 0 then i + 1 else l.displayOrder,
       machines := seq(|l.machines|, j requires 0 <= j < |l.machines| => LoadedMachine(l.machines[j])))
  }

  function LoadedLines(lines: seq<LineDoc>): seq<LineDoc> {
    seq(|lines|, i requires 0 <= i < |lines| => LoadedLine(lines[i], i))
  }

  function Loaded(doc: Document): Document {
    Document(doc.siteCode,
             if doc.siteName == "" then doc.siteCode else doc.siteName,
             if doc.timezone == "" then "UTC" else doc.timezone,
             if doc.pollInterval == 0 then 5 * SECOND else doc.pollInterval,
             if doc.logLevel == "" then "info" else doc.logLevel,
             LoadedLines(doc.lines))
  }

  /** What loading fills in for the document and for each line, field by field. */
  lemma LoadedDocument(doc: Document)
    ensures var got := Loaded(doc);
      && got.siteCode == doc.siteCode
      && got.siteName == (if doc.siteName == "" then doc.siteCode else doc.siteName)
      && got.timezone == (if doc.timezone == "" then "UTC" else doc.timezone)
      && got.pollInterval == (if doc.pollInterval == 0 then 5_000_000_000 else doc.pollInterval)
      && got.logLevel == (if doc.logLevel == "" then "info" else doc.logLevel)
      && |got.lines| == |doc.lines|
      && (forall i | 0 <= i < |got.lines| ::
            && got.lines[i].name == doc.lines[i].name
            && got.lines[i].displayOrder ==
                 (if doc.lines[i].displayOrder == 0 then i + 1 else doc.lines[i].displayOrder)
            && |got.lines[i].machines| == |doc.lines[i].machines|
            && (forall j | 0 <= j < |got.lines[i].machines| ::
                  got.lines[i].machines[j] == LoadedMachine(doc.lines[i].machines[j])))
  {
  }

  /** The same for a machine and its registers. */
  lemma LoadedFields(m: MachineDoc)
    ensures var got := LoadedMachine(m);
      && got.name == m.name && got.model == m.model && got.host == m.host
      && got.port == (if m.port == 0 then 502 else m.port)
      && got.slaveId == (if m.slaveId == 0 then 1 else m.slaveId)
      && got.timeout == (if m.timeout == 0 then 3_000_000_000 else m.timeout)
      && |got.registers| == |m.registers|
      && (forall k | 0 <= k < |m.registers| ::
            var r := m.registers[k].reg;
            got.registers[k] == RegisterConfig(
              Register(r.name, r.address, if r.kind == "" then "holding" else r.kind,
                       if r.dataType == "" then "float32" else r.dataType, r.unit,
                       if r.scale == 0.0 then 1.0 else r.scale, r.offset,
                       if r.byteOrder == "" then "big" else r.byteOrder,
                       match r.fake case None => None case Some(f) => Some(
                         Fake(f.min, if f.min == 0.0 && f.max == 0.0 then 100.0 else f.max,
                              if f.pattern == "" then "random" else f.pattern))),
              m.registers[k].length))
  {
  }

  method FillRegister(given: RegisterConfig) returns (c: RegisterConfig)
    ensures c == LoadedRegister(given)
  {
    c := given;
    if c.reg.kind == "" { c := c.(reg := c.reg.(kind := "holding")); }
    if c.reg.dataType == "" { c := c.(reg := c.reg.(dataType := "float32")); }
    if c.reg.byteOrder == "" { c := c.(reg := c.reg.(byteOrder := "big")); }
    if c.reg.scale == 0.0 { c := c.(reg := c.reg.(scale := 1.0)); }
    if c.reg.fake.Some? {
      var f := c.reg.fake.value;
      if f.max == 0.0 && f.min == 0.0 { f := f.(max := 100.0); }
      if f.pattern == "" { f := f.(pattern := "random"); }
      c := c.(reg := c.reg.(fake := Some(f)));
    }
  }

  method ApplyMachineDefaults(m: MachineDoc) returns (out: MachineDoc)
    ensures out == LoadedMachine(m)
  {
    out := m;
    if out.port == 0 { out := out.(port := 502); }
    if out.slaveId == 0 { out := out.(slaveId := 1); }
    if out.timeout == 0 { out := out.(timeout := 3 * SECOND); }
    for k := 0 to |m.registers|
      invariant out == LoadedMachine(m).(registers := out.registers) && |out.registers| == |m.registers|
      invariant forall x | 0 <= x < k :: out.registers[x] == LoadedRegister(m.registers[x])
      invariant forall x | k <= x < |m.registers| :: out.registers[x] == m.registers[x]
    {
      var c := FillRegister(out.registers[k]);
      out := out.(registers := out.registers[k := c]);
    }
    assert out.registers == LoadedMachine(m).registers;
  }

  predicate LacksLength(c: RegisterConfig) {
    c.reg.dataType == "string" && c.length == 0
  }

  predicate MachineLoads(m: MachineDoc) {
    forall k | 0 <= k < |m.registers| :: !LacksLength(m.registers[k])
  }

  predicate LineLoads(l: LineDoc) {
    forall j | 0 <= j < |l.machines| :: MachineLoads(l.machines[j])
  }

  predicate LinesLoad(lines: seq<LineDoc>) {
    forall i | 0 <= i < |lines| :: LineLoads(lines[i])
  }

  /** Register k of machine j of line i has no length, and every register before it is fine. */
  predicate UnsizedAt(lines: seq<LineDoc>, i: nat, j: nat, k: nat) {
    && i < |lines| && j < |lines[i].machines| && k < |lines[i].machines[j].registers|
    && LacksLength(lines[i].machines[j].registers[k])
    && (forall x | 0 <= x < i :: LineLoads(lines[x]))
    && (forall x | 0 <= x < j :: MachineLoads(lines[i].machines[x]))
    && (forall x | 0 <= x < k :: !LacksLength(lines[i].machines[j].registers[x]))
  }

  ghost predicate FirstUnsized(lines: seq<LineDoc>, name: string) {
    exists i: nat, j: nat, k: nat ::
      UnsizedAt(lines, i, j, k) && lines[i].machines[j].registers[k].reg.name == name
  }

  /** No register of the document is a string without a length. */
  predicate AllSized(lines: seq<LineDoc>) {
    forall i, j, k | 0 <= i < |lines| && 0 <= j < |lines[i].machines| && 0 <= k < |lines[i].machines[j].registers| ::
      var c := lines[i].machines[j].registers[k];
      !(c.reg.dataType == "string" && c.length == 0)
  }

  /** Filling in defaults makes no register a string and gives none a length. */
  lemma SizedExactly(lines: seq<LineDoc>)
    ensures AllSized(lines) <==> LinesLoad(LoadedLines(lines))
  {
    var loaded := LoadedLines(lines);
    if AllSized(lines) {
      forall i, j | 0 <= i < |loaded| && 0 <= j < |loaded[i].machines| ensures MachineLoads(loaded[i].machines[j]) {
        forall k | 0 <= k < |loaded[i].machines[j].registers|
          ensures !LacksLength(loaded[i].machines[j].registers[k])
        {
          assert loaded[i].machines[j].registers[k] == LoadedRegister(lines[i].machines[j].registers[k]);
        }
      }
    }
    if LinesLoad(loaded) {
      forall i, j, k | 0 <= i < |lines| && 0 <= j < |lines[i].machines| && 0 <= k < |lines[i].machines[j].registers|
        ensures !LacksLength(lines[i].machines[j].registers[k])
      {
        assert LineLoads(loaded[i]) && MachineLoads(loaded[i].machines[j]);
        assert loaded[i].machines[j].registers[k] == LoadedRegister(lines[i].machines[j].registers[k]);
      }
    }
  }

  datatype LoadError = SiteCodeRequired | StringWithoutLength(register: string)

  /** Fills in defaults line by line and machine by machine, then rejects string registers without a length. */
  method LoadConfig(doc: Document) returns (r: Result<Document, LoadError>)
    ensures r.Success? <==> doc.siteCode != "" && AllSized(doc.lines)
    ensures r.Success? <==> doc.siteCode != "" && LinesLoad(LoadedLines(doc.lines))
    ensures r.Success? ==> r.value == Loaded(doc)
    ensures r == Failure(SiteCodeRequired) <==> doc.siteCode == ""
    ensures r.Failure? && doc.siteCode != "" ==>
      r.error.StringWithoutLength? && FirstUnsized(LoadedLines(doc.lines), r.error.register)
  {
    var cfg := doc;
    if cfg.siteCode == "" { return Failure(SiteCodeRequired); }
    if cfg.pollInterval == 0 { cfg := cfg.(pollInterval := 5 * SECOND); }
    if cfg.timezone == "" { cfg := cfg.(timezone := "UTC"); }
    if cfg.siteName == "" { cfg := cfg.(siteName := cfg.siteCode); }
    if cfg.logLevel == "" { cfg := cfg.(logLevel := "info"); }
    var lines := FillLines(cfg.lines);
    cfg := cfg.(lines := lines);
    SizedExactly(doc.lines);
    var bad := FindUnsized(lines);
    if bad.Some? { return Failure(StringWithoutLength(bad.value)); }
    return Success(cfg);
  }

  method FillLines(given: seq<LineDoc>) returns (lines: seq<LineDoc>)
    ensures lines == LoadedLines(given)
  {
    lines := given;
    for i := 0 to |given|
      invariant |lines| == |given|
      invariant forall x | 0 <= x < i :: lines[x] == LoadedLine(given[x], x)
      invariant forall x | i <= x < |given| :: lines[x] == given[x]
    {
      if lines[i].displayOrder == 0 { lines := lines[i := lines[i].(displayOrder := i + 1)]; }
      var machines := lines[i].machines;
      for j := 0 to |given[i].machines|
        invariant |machines| == |given[i].machines|
        invariant forall x | 0 <= x < j :: machines[x] == LoadedMachine(given[i].machines[x])
        invariant forall x | j <= x < |machines| :: machines[x] == given[i].machines[x]
      {
        var filled := ApplyMachineDefaults(machines[j]);
        machines := machines[j := filled];
      }
      assert machines == LoadedLine(given[i], i).machines;
      lines := lines[i := lines[i].(machines := machines)];
    }
  }

  method FindUnsized(lines: seq<LineDoc>) returns (bad: Option<string>)
    ensures bad.None? <==> LinesLoad(lines)
    ensures bad.Some? ==> FirstUnsized(lines, bad.value)
  {
    for i := 0 to |lines|
      invariant forall x | 0 <= x < i :: LineLoads(lines[x])
    {
      for j := 0 to |lines[i].machines|
        invariant forall x | 0 <= x < j :: MachineLoads(lines[i].machines[x])
      {
        var registers := lines[i].machines[j].registers;
        for k := 0 to |registers|
          invariant forall x | 0 <= x < k :: !LacksLength(registers[x])
        {
          if registers[k].reg.dataType == "string" && registers[k].length == 0 {
            assert !MachineLoads(lines[i].machines[j]);
            assert !LineLoads(lines[i]);
            assert UnsizedAt(lines, i, j, k);
            return Some(registers[k].reg.name);
          }
        }
      }
    }
    return None;
  }

  // ---- the round trip ----

  /** A fake block the loader leaves alone. */
  predicate FakeKept(fake: Option<Fake>) {
    fake.Some? ==> !(fake.value.min == 0.0 && fake.value.max == 0.0) && fake.value.pattern != ""
  }

  /** An accepted register comes back unchanged exactly when its fake block survives, and is
      refused by the loader exactly when it is a string. */
  lemma RegisterRoundTrip(r: Register)
    requires Accepted(r)
    ensures LoadedRegister(RegisterConfig(Elide(r), 0)) == RegisterConfig(r, 0) <==> FakeKept(r.fake)
    ensures FakeKept(r.fake) <==> (
      r.fake.None? || (!(r.fake.value.min == 0.0 && r.fake.value.max == 0.0) && r.fake.value.pattern != ""))
    ensures LacksLength(LoadedRegister(RegisterConfig(Elide(r), 0))) <==> r.dataType == "string"
  {
  }

  predicate AllAccepted(ms: seq<ConfigMachine>, stored: RegisterStore) {
    forall m, r | m in ms && r in stored(m.id) :: Accepted(r)
  }

  predicate NoStrings(ms: seq<ConfigMachine>, stored: RegisterStore) {
    forall m, r | m in ms && r in stored(m.id) :: r.dataType != "string"
  }

  predicate ConnectionsSet(ms: seq<ConfigMachine>) {
    forall m | m in ms :: m.port != 0 && m.slaveId != 0
  }

  /** A machine as the worker should see it: every field as stored, with the default timeout. */
  function AsStored(m: ConfigMachine, stored: RegisterStore): MachineDoc {
    var rs := stored(m.id);
    MachineDoc(m.name, m.model, m.host, m.port, m.slaveId, 3 * SECOND,
               seq(|rs|, k requires 0 <= k < |rs| => RegisterConfig(rs[k], 0)))
  }

  predicate MachineFakesKept(m: ConfigMachine, stored: RegisterStore) {
    forall r | r in stored(m.id) :: FakeKept(r.fake)
  }

  /** Connection fields and register count come back as stored, with the default timeout of 3 seconds. */
  lemma MachineFields(m: ConfigMachine, stored: RegisterStore)
    requires m.port != 0 && m.slaveId != 0
    ensures var got := LoadedMachine(ToDoc(m, stored));
      && got.name == m.name && got.model == m.model && got.host == m.host
      && got.port == m.port && got.slaveId == m.slaveId && got.timeout == 3_000_000_000
      && |got.registers| == |stored(m.id)|
    ensures var want := AsStored(m, stored);
      want == MachineDoc(m.name, m.model, m.host, m.port, m.slaveId, 3_000_000_000, want.registers)
      && |want.registers| == |stored(m.id)|
      && forall k | 0 <= k < |want.registers| :: want.registers[k] == RegisterConfig(stored(m.id)[k], 0)
  {
  }

  lemma MachineRoundTrip(m: ConfigMachine, stored: RegisterStore)
    requires m.port != 0 && m.slaveId != 0 && forall r | r in stored(m.id) :: Accepted(r)
    ensures LoadedMachine(ToDoc(m, stored)) == AsStored(m, stored) <==> MachineFakesKept(m, stored)
    ensures MachineLoads(LoadedMachine(ToDoc(m, stored))) <==> forall r | r in stored(m.id) :: r.dataType != "string"
  {
    var rs, loaded := stored(m.id), LoadedMachine(ToDoc(m, stored)).registers;
    forall k | 0 <= k < |rs|
      ensures loaded[k] == RegisterConfig(rs[k], 0) <==> FakeKept(rs[k].fake)
      ensures LacksLength(loaded[k]) <==> rs[k].dataType == "string"
    {
      assert rs[k] in rs;
      RegisterRoundTrip(rs[k]);
    }
    var expected := AsStored(m, stored).registers;
    assert loaded == expected <==> forall k | 0 <= k < |rs| :: loaded[k] == expected[k];
  }

  /** Loading a generated configuration gives back, line by line, each machine with every register field,
      port and slave id as stored, exactly when its fake blocks are ones the loader leaves alone. */
  lemma ConfigRoundTrip(ms: seq<ConfigMachine>, stored: RegisterStore)
    requires AllAccepted(ms, stored) && ConnectionsSet(ms)
    ensures var lines, loaded := Grouped(ms, stored), LoadedLines(Grouped(ms, stored));
      && |loaded| == |lines|
      && (forall i, j | 0 <= i < |loaded| && 0 <= j < |loaded[i].machines| ::
            var m := OfLine(ms, lines[i].name)[j];
            loaded[i].machines[j] == AsStored(m, stored) <==> MachineFakesKept(m, stored))
  {
    var lines, loaded := Grouped(ms, stored), LoadedLines(Grouped(ms, stored));
    forall i, j | 0 <= i < |loaded| && 0 <= j < |loaded[i].machines|
      ensures var m := OfLine(ms, lines[i].name)[j];
        loaded[i].machines[j] == AsStored(m, stored) <==> MachineFakesKept(m, stored)
    {
      var m := OfLine(ms, lines[i].name)[j];
      OfLineSubset(ms, lines[i].name, m);
      MachineRoundTrip(m, stored);
    }
  }

  lemma {:induction false} OfLineSubset(ms: seq<ConfigMachine>, name: string, m: ConfigMachine)
    ensures m in OfLine(ms, name) <==> m in ms && m.line == name
  {
    if ms == [] {
    } else {
      OfLineSubset(ms[..|ms| - 1], name, m);
      assert ms == ms[..|ms| - 1] + [ms[|ms| - 1]];
    }
  }

  /** The lines of a generated configuration load exactly when no register is a string. */
  lemma GeneratedLoads(ms: seq<ConfigMachine>, stored: RegisterStore)
    requires AllAccepted(ms, stored) && ConnectionsSet(ms)
    ensures LinesLoad(LoadedLines(Grouped(ms, stored))) <==> NoStrings(ms, stored)
  {
    var names, loaded := LineNames(ms), LoadedLines(Grouped(ms, stored));
    if NoStrings(ms, stored) {
      forall i, j | 0 <= i < |loaded| && 0 <= j < |loaded[i].machines| ensures MachineLoads(loaded[i].machines[j]) {
        var m := OfLine(ms, names[i])[j];
        OfLineSubset(ms, names[i], m);
        MachineRoundTrip(m, stored);
      }
    }
    if LinesLoad(loaded) {
      forall m, r | m in ms && r in stored(m.id) ensures r.dataType != "string" {
        var i :| 0 <= i < |names| && names[i] == m.line;
        OfLineSubset(ms, names[i], m);
        var group := OfLine(ms, names[i]);
        var j :| 0 <= j < |group| && group[j] == m;
        assert LineLoads(loaded[i]);
        assert loaded[i].machines[j] == LoadedMachine(ToDoc(m, stored));
        MachineRoundTrip(m, stored);
      }
    }
  }

  function AllLoaded(ms: seq<MachineDoc>): seq<MachineDoc> {
    seq(|ms|, i requires 0 <= i < |ms| => LoadedMachine(ms[i]))
  }

  lemma {:induction false} FlattenLoaded(lines: seq<LineDoc>)
    ensures Flatten(LoadedLines(lines)) == AllLoaded(Flatten(lines))
  {
    if lines == [] {
    } else {
      var init, l := lines[..|lines| - 1], lines[|lines| - 1];
      FlattenLoaded(init);
      assert LoadedLines(lines)[..|lines| - 1] == LoadedLines(init);
      assert LoadedLine(l, |lines| - 1).machines == AllLoaded(l.machines);
      assert AllLoaded(Flatten(init) + l.machines) == AllLoaded(Flatten(init)) + AllLoaded(l.machines);
    }
  }

  function AllAsStored(ms: seq<ConfigMachine>, stored: RegisterStore): seq<MachineDoc> {
    seq(|ms|, i requires 0 <= i < |ms| => AsStored(ms[i], stored))
  }

  /** The whole pipeline: with machines ordered by line, the worker loads a generated configuration and
      sees exactly the stored machines in the stored order, if and only if no register is a string and
      no fake block is one the loader fills in. */
  lemma PipelineRoundTrip(ms: seq<ConfigMachine>, stored: RegisterStore)
    requires AllAccepted(ms, stored) && ConnectionsSet(ms) && Contiguous(ms)
    ensures var loaded := LoadedLines(Grouped(ms, stored));
      LinesLoad(loaded) && Flatten(loaded) == AllAsStored(ms, stored)
      <==> NoStrings(ms, stored) && forall m | m in ms :: MachineFakesKept(m, stored)
  {
    var loaded, expected := Flatten(LoadedLines(Grouped(ms, stored))), AllAsStored(ms, stored);
    GeneratedLoads(ms, stored);
    DocumentKeepsMachines(ms, stored);
    FlattenLoaded(Grouped(ms, stored));
    forall i | 0 <= i < |ms| ensures loaded[i] == expected[i] <==> MachineFakesKept(ms[i], stored) {
      assert ms[i] in ms;
      MachineRoundTrip(ms[i], stored);
    }
    assert loaded == expected <==> forall i | 0 <= i < |ms| :: loaded[i] == expected[i];
  }

  // ---- finding a machine's configuration ----

  predicate Earlier(i: nat, j: nat, i': nat, j': nat) {
    i < i' || (i == i' && j < j')
  }

  predicate NamedAt(lines: seq<LineDoc>, i: nat, j: nat, name: string) {
    i < |lines| && j < |lines[i].machines| && lines[i].machines[j].name == name
  }

  /** The first machine of that name, whatever its line. */
  method FindMachineConfig(lines: seq<LineDoc>, name: string) returns (found: Option<(nat, nat)>)
    ensures found.Some? ==> NamedAt(lines, found.value.0, found.value.1, name)
    ensures found.Some? ==> forall i: nat, j: nat | Earlier(i, j, found.value.0, found.value.1) ::
      !NamedAt(lines, i, j, name)
    ensures found.None? ==> forall i: nat, j: nat :: !NamedAt(lines, i, j, name)
  {
    for i := 0 to |lines|
      invariant forall x: nat, y: nat | x < i :: !NamedAt(lines, x, y, name)
    {
      for j := 0 to |lines[i].machines|
        invariant forall y: nat | y < j :: !NamedAt(lines, i, y, name)
      {
        if lines[i].machines[j].name == name { return Some((i, j)); }
      }
    }
    return None;
  }
}
