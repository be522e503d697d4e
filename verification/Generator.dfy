/**
 The fake data generator: stateful walks that stay in the range of their
 register over any run. Floats are reals; the random source is any stream of
 values in [0, 1), and the sine any function with values in [-1, 1].
 */
module Generator {
  import opened Wrappers

  datatype Range = Range(min: real, max: real, pattern: string)

  datatype FakeRegister = FakeRegister(name: string, dataType: string, fake: Option<Range>)

  type Draw = u: real | 0.0 <= u < 1.0

  type Wave = w: real | -1.0 <= w <= 1.0

  function Clamp(v: real, min: real, max: real): real {
    if v < min then min else if v > max then max else v
  }

  predicate Within(v: real, r: Range) {
    r.min <= v <= r.max
  }

  // As in the program, rng is the width max - min of the range.

  function SineValue(min: real, rng: real, wave: Wave, u: Draw): real {
    Clamp(min + ((wave + 1.0) / 2.0 + (u - 0.5) * 0.1) * rng, min, min + rng)
  }

  function DriftStart(min: real, rng: real): real {
    min + rng * 0.5
  }

  /** A random step plus a pull of 2 percent towards the middle. */
  function DriftNext(min: real, max: real, rng: real, current: real, u: Draw): real {
    Clamp(current + ((u - 0.5) * rng * 0.05 + (min + rng * 0.5 - current) * 0.02), min, max)
  }

  function MonotonicNext(max: real, rng: real, current: real, u: Draw): real {
    var next := current + u * rng * 0.01;
    if next > max then max else next
  }

  function SpikeValue(min: real, rng: real, u: Draw, v: Draw): real {
    if u < 0.05 then min + rng * (0.85 + v * 0.15) else min + v * rng * 0.7
  }

  function RandomValue(min: real, rng: real, u: Draw): real {
    min + u * rng
  }

  lemma Fraction(k: real, rng: real)
    requires 0.0 <= k <= 1.0 && rng >= 0.0
    ensures 0.0 <= k * rng <= rng && rng * k == k * rng
  {
  }

  /** Offsets made of a part x of the range stay in the range. */
  lemma OffsetsWithin(min: real, max: real, rng: real, x: real)
    requires max == min + rng && 0.0 <= x <= rng
    ensures min <= min + x <= max
    ensures min <= min + x * 0.7 <= max
    ensures min <= min + (rng * 0.85 + x * 0.15) <= max
  {
  }

  lemma HighPart(rng: real, v: real)
    ensures rng * (0.85 + v * 0.15) == rng * 0.85 + (v * rng) * 0.15
  {
  }

  lemma RandomWithin(min: real, max: real, rng: real, u: Draw)
    requires max == min + rng && rng >= 0.0
    ensures min <= RandomValue(min, rng, u) <= max
  {
    Fraction(u, rng);
    OffsetsWithin(min, max, rng, u * rng);
  }

  lemma SpikeWithin(min: real, max: real, rng: real, u: Draw, v: Draw)
    requires max == min + rng && rng >= 0.0
    ensures min <= SpikeValue(min, rng, u, v) <= max
  {
    Fraction(v, rng);
    HighPart(rng, v);
    OffsetsWithin(min, max, rng, v * rng);
  }

  lemma ClampWithin(x: real, min: real, max: real)
    requires min <= max
    ensures min <= Clamp(x, min, max) <= max
  {
  }

  lemma SineWithin(min: real, max: real, rng: real, wave: Wave, u: Draw)
    requires max == min + rng && rng >= 0.0
    ensures min <= SineValue(min, rng, wave, u) <= max
  {
    ClampWithin(min + ((wave + 1.0) / 2.0 + (u - 0.5) * 0.1) * rng, min, min + rng);
  }

  lemma MonotonicGrows(max: real, rng: real, current: real, u: Draw)
    requires rng >= 0.0 && current <= max
    ensures current <= MonotonicNext(max, rng, current, u) <= max
  {
    Fraction(u, rng);
  }

  predicate CloseTo(a: real, b: real, d: real) {
    -d <= a - b <= d
  }

  lemma ClampMovesLess(current: real, move: real, min: real, max: real, d: real)
    requires min <= current <= max && -d <= move <= d
    ensures min <= Clamp(current + move, min, max) <= max
    ensures CloseTo(Clamp(current + move, min, max), current, d)
  {
  }

  lemma CentredStep(k: real, rng: real)
    ensures (k - 0.5) * rng * 0.05 == (k * rng - rng * 0.5) * 0.05
  {
  }

  /** With x = u * rng, a step and its reversion add up to at most 2.5 + 1 percent of the range. */
  lemma StepAndReversion(x: real, rng: real, min: real, current: real)
    requires 0.0 <= x <= rng && min <= current <= min + rng
    ensures CloseTo((x - rng * 0.5) * 0.05 + (min + rng * 0.5 - current) * 0.02, 0.0, rng * 0.035)
  {
  }

  /** One drift step stays in range and moves by at most 3.5 percent of it. */
  lemma DriftBounded(min: real, max: real, rng: real, current: real, u: Draw)
    requires max == min + rng && min <= current <= max
    ensures min <= DriftNext(min, max, rng, current, u) <= max
    ensures CloseTo(DriftNext(min, max, rng, current, u), current, rng * 0.035)
  {
    Fraction(u, rng);
    CentredStep(u, rng);
    var x: real := u * rng;
    StepAndReversion(x, rng, min, current);
    ClampMovesLess(current, (x - rng * 0.5) * 0.05 + (min + rng * 0.5 - current) * 0.02, min, max, rng * 0.035);
  }

  predicate Walks(pattern: string) {
    pattern == "drift" || pattern == "monotonic"
  }

  /** A value for a range, given the previous value remembered for its name, if any. */
  function Value(r: Range, previous: Option<real>, wave: Wave, u: Draw, v: Draw): real {
    var rng := r.max - r.min;
    match r.pattern
    case "sine" => SineValue(r.min, rng, wave, u)
    case "drift" => DriftNext(r.min, r.max, rng, previous.GetOr(DriftStart(r.min, rng)), u)
    case "monotonic" => MonotonicNext(r.max, rng, previous.GetOr(r.min), u)
    case "spike" => SpikeValue(r.min, rng, u, v)
    case _ => RandomValue(r.min, rng, u)
  }

  /** The values of the patterns that remember nothing: a spike is in the top 15 percent of the range for
      draws below one in twenty, and otherwise in the lower 70 percent; any other pattern is random. */
  lemma DrawnValues(r: Range, previous: Option<real>, wave: Wave, u: Draw, v: Draw)
    ensures r.pattern == "spike" && u < 0.05 ==>
      Value(r, previous, wave, u, v) == r.min + (r.max - r.min) * (0.85 + v * 0.15)
    ensures r.pattern == "spike" && u >= 0.05 ==>
      Value(r, previous, wave, u, v) == r.min + v * (r.max - r.min) * 0.7
    ensures r.pattern !in {"sine", "drift", "monotonic", "spike"} ==>
      Value(r, previous, wave, u, v) == r.min + u * (r.max - r.min)
    ensures r.pattern == "sine" ==>
      var x := r.min + ((wave + 1.0) / 2.0 + (u - 0.5) * 0.1) * (r.max - r.min);
      Value(r, previous, wave, u, v) == if x < r.min then r.min else if x > r.max then r.max else x
  {
    assert r.min + (r.max - r.min) == r.max;
  }

  /** The walks go on from the remembered value, or start at the middle or the minimum: a drift by a step of
      at most 2.5 percent and 2 percent of the way to the middle, a monotonic walk by up to one percent. */
  lemma WalkedValues(r: Range, previous: Option<real>, wave: Wave, u: Draw, v: Draw)
    ensures r.pattern == "drift" ==>
      var c := if previous == None then r.min + (r.max - r.min) * 0.5 else previous.value;
      var x := c + ((u - 0.5) * (r.max - r.min) * 0.05 + (r.min + (r.max - r.min) * 0.5 - c) * 0.02);
      Value(r, previous, wave, u, v) == if x < r.min then r.min else if x > r.max then r.max else x
    ensures r.pattern == "monotonic" ==>
      var c := if previous == None then r.min else previous.value;
      var x := c + u * (r.max - r.min) * 0.01;
      Value(r, previous, wave, u, v) == if x > r.max then r.max else x
  {
  }

  function DrawsOf(pattern: string): nat {
    if pattern == "spike" then 2 else 1
  }

  /** What a value of the pattern promises, given the previous value of the same register, if any. */
  predicate Promised(r: Range, previous: Option<real>, v: real) {
    && Within(v, r)
    && (r.pattern == "monotonic" && previous.Some? ==> previous.value <= v)
    && (r.pattern == "drift" && previous.Some? ==> CloseTo(v, previous.value, (r.max - r.min) * 0.035))
  }

  lemma ValuePromised(r: Range, previous: Option<real>, wave: Wave, u: Draw, v: Draw)
    requires r.min <= r.max && (previous.Some? ==> Within(previous.value, r))
    ensures Promised(r, previous, Value(r, previous, wave, u, v))
  {
    var rng := r.max - r.min;
    SineWithin(r.min, r.max, rng, wave, u);
    DriftBounded(r.min, r.max, rng, previous.GetOr(DriftStart(r.min, rng)), u);
    MonotonicGrows(r.max, rng, previous.GetOr(r.min), u);
    SpikeWithin(r.min, r.max, rng, u, v);
    RandomWithin(r.min, r.max, rng, u);
  }

  /** The range is not empty, and a monotonic walk does not start below it. */
  predicate StartsInside(r: Range, previous: Option<real>) {
    r.min <= r.max && (r.pattern == "monotonic" && previous.Some? ==> previous.value >= r.min)
  }

  lemma StaysInside(r: Range, previous: Option<real>, wave: Wave, u: Draw, v: Draw)
    requires StartsInside(r, previous)
    ensures Within(Value(r, previous, wave, u, v), r)
  {
    var rng := r.max - r.min;
    SineWithin(r.min, r.max, rng, wave, u);
    Fraction(u, rng);
    SpikeWithin(r.min, r.max, rng, u, v);
    RandomWithin(r.min, r.max, rng, u);
  }

  lemma ZeroDraw(r: Range, previous: Option<real>, wave: Wave)
    requires Within(Value(r, previous, wave, 0.0, 0.0), r)
    ensures StartsInside(r, previous)
  {
  }

  /** Whatever value is remembered, all draws keep the next one in range if and only if the range is not
      empty and, for the monotonic pattern, the remembered value is not below it. */
  lemma InRangeExactly(r: Range, previous: Option<real>)
    ensures (forall wave: Wave, u: Draw, v: Draw :: Within(Value(r, previous, wave, u, v), r))
      <==> StartsInside(r, previous)
  {
    if StartsInside(r, previous) {
      forall wave: Wave, u: Draw, v: Draw ensures Within(Value(r, previous, wave, u, v), r) {
        StaysInside(r, previous, wave, u, v);
      }
    } else if Within(Value(r, previous, 0.0, 0.0, 0.0), r) {
      ZeroDraw(r, previous, 0.0);
    }
  }

  predicate Generates(reg: FakeRegister) {
    reg.dataType != "string" && reg.fake.Some?
  }

  function Previous(state: map<string, real>, name: string): Option<real> {
    if name in state then Some(state[name]) else None
  }

  // ---- one poll ----

  /** driftState, and how many values have been drawn. */
  datatype Walk = Walk(state: map<string, real>, used: nat)

  type Draws = nat -> Draw

  function ValueFor(reg: FakeRegister, s: Walk, draws: Draws, wave: Wave): real
    requires Generates(reg)
  {
    Value(reg.fake.value, Previous(s.state, reg.name), wave, draws(s.used), draws(s.used + 1))
  }

  function Remembered(state: map<string, real>, name: string, pattern: string, v: real): map<string, real> {
    if Walks(pattern) then state[name := v] else state
  }

  function AfterOne(reg: FakeRegister, s: Walk, draws: Draws, wave: Wave): Walk {
    if !Generates(reg) then s
    else
      Walk(Remembered(s.state, reg.name, reg.fake.value.pattern, ValueFor(reg, s, draws, wave)),
           s.used + DrawsOf(reg.fake.value.pattern))
  }

  /** After the first k registers of a poll. */
  function AfterFirst(regs: seq<FakeRegister>, s: Walk, draws: Draws, wave: Wave, k: nat): Walk
    requires k <= |regs|
  {
    if k == 0 then s else AfterOne(regs[k - 1], AfterFirst(regs, s, draws, wave, k - 1), draws, wave)
  }

  /** The value that a poll generates for register k. */
  function ValueAt(regs: seq<FakeRegister>, s: Walk, draws: Draws, wave: Wave, k: nat): real
    requires k < |regs| && Generates(regs[k])
  {
    ValueFor(regs[k], AfterFirst(regs, s, draws, wave, k), draws, wave)
  }

  /** What the first k registers put into the result. */
  function ValuesOf(regs: seq<FakeRegister>, s: Walk, draws: Draws, wave: Wave, k: nat): map<string, real>
    requires k <= |regs|
  {
    if k == 0 then map[]
    else
      var values := ValuesOf(regs, s, draws, wave, k - 1);
      if Generates(regs[k - 1]) then values[regs[k - 1].name := ValueAt(regs, s, draws, wave, k - 1)] else values
  }

  class FakeDataSource {
    const registers: seq<FakeRegister>
    const draws: Draws
    const sine: nat -> Wave
    var driftState: map<string, real>
    var used: nat
    var tick: nat

    constructor (registers: seq<FakeRegister>, draws: Draws, sine: nat -> Wave)
      ensures this.registers == registers && this.draws == draws && this.sine == sine
      ensures State() == Walk(map[], 0) && tick == 0
    {
      this.registers, this.draws, this.sine := registers, draws, sine;
      driftState, used, tick := map[], 0, 0;
    }

    function State(): Walk
      reads this
    {
      Walk(driftState, used)
    }

    method Random() returns (u: Draw)
      modifies this`used
      ensures u == draws(old(used)) && used == old(used) + 1
    {
      u := draws(used);
      used := used + 1;
    }

    /** A value for one register; only drift and monotonic remember it. */
    method GenerateFor(name: string, r: Range) returns (v: real)
      modifies this`used, this`driftState
      ensures v == Value(r, Previous(old(driftState), name), sine(tick), draws(old(used)), draws(old(used) + 1))
      ensures used == old(used) + DrawsOf(r.pattern)
      ensures driftState == Remembered(old(driftState), name, r.pattern, v)
      ensures r.min <= r.max && (name in old(driftState) ==> Within(old(driftState)[name], r)) ==>
        Promised(r, Previous(old(driftState), name), v)
      ensures StartsInside(r, Previous(old(driftState), name)) ==> Within(v, r)
    {
      var rng := r.max - r.min;
      ghost var previous := Previous(driftState, name);
      ghost var wave, u0, u1 := sine(tick), draws(used), draws(used + 1);
      match r.pattern {
        case "sine" =>
          var u := Random();
          v := SineValue(r.min, rng, sine(tick), u);
        case "drift" =>
          var current := if name in driftState then driftState[name] else DriftStart(r.min, rng);
          var u := Random();
          v := DriftNext(r.min, r.max, rng, current, u);
          driftState := driftState[name := v];
        case "monotonic" =>
          var current := if name in driftState then driftState[name] else r.min;
          var u := Random();
          v := MonotonicNext(r.max, rng, current, u);
          driftState := driftState[name := v];
        case "spike" =>
          var u := Random();
          var w := Random();
          v := SpikeValue(r.min, rng, u, w);
        case _ =>
          var u := Random();
          v := RandomValue(r.min, rng, u);
      }
      if StartsInside(r, previous) { StaysInside(r, previous, wave, u0, u1); }
      if r.min <= r.max && (previous.Some? ==> Within(previous.value, r)) { ValuePromised(r, previous, wave, u0, u1); }
    }

    /** One poll: a value for every register with a fake block that is not a string. */
    method Read() returns (values: map<string, real>)
      modifies this
      ensures State() == AfterFirst(registers, old(State()), draws, sine(old(tick)), |registers|)
      ensures values == ValuesOf(registers, old(State()), draws, sine(old(tick)), |registers|)
      ensures tick == old(tick) + 1
    {
      values := map[];
      for k := 0 to |registers|
        invariant tick == old(tick)
        invariant State() == AfterFirst(registers, old(State()), draws, sine(tick), k)
        invariant values == ValuesOf(registers, old(State()), draws, sine(tick), k)
      {
        var reg := registers[k];
        if reg.dataType != "string" && reg.fake.Some? {
          var v := GenerateFor(reg.name, reg.fake.value);
          values := values[reg.name := v];
        }
      }
      tick := tick + 1;
    }

    /** The first n polls of a data source. */
    method Run(n: nat) returns (outputs: seq<map<string, real>>)
      requires State() == Walk(map[], 0) && tick == 0
      modifies this
      ensures |outputs| == n
      ensures forall t | 0 <= t < n :: outputs[t] == Output(registers, draws, sine, t)
    {
      outputs := [];
      while |outputs| < n
        invariant |outputs| == tick <= n
        invariant State() == AfterPolls(registers, draws, sine, tick)
        invariant forall t | 0 <= t < |outputs| :: outputs[t] == Output(registers, draws, sine, t)
      {
        var values := Read();
        outputs := outputs + [values];
      }
    }
  }

  // ---- registers with distinct names ----

  /** The configurations whose registers do not disturb each other. */
  predicate Usable(registers: seq<FakeRegister>) {
    && (forall i, j | 0 <= i < j < |registers| :: registers[i].name != registers[j].name)
    && (forall i | 0 <= i < |registers| && registers[i].fake.Some? ::
          registers[i].fake.value.min <= registers[i].fake.value.max)
  }

  /** driftState holds, for generating registers, a value in their range. */
  predicate StateOk(state: map<string, real>, registers: seq<FakeRegister>) {
    forall i | 0 <= i < |registers| && Generates(registers[i]) && registers[i].name in state ::
      Within(state[registers[i].name], registers[i].fake.value)
  }

  /** What one poll guarantees for a register: a promised value, remembered if the pattern walks. */
  predicate Kept(reg: FakeRegister, before: map<string, real>, after: map<string, real>, values: map<string, real>)
    requires Generates(reg)
  {
    && reg.name in values
    && Promised(reg.fake.value, Previous(before, reg.name), values[reg.name])
    && Previous(after, reg.name) ==
         if Walks(reg.fake.value.pattern) then Some(values[reg.name]) else Previous(before, reg.name)
  }

  /** The first k registers are served, the others have not been touched. */
  predicate ServedUpTo(regs: seq<FakeRegister>, before: map<string, real>, after: map<string, real>,
                       values: map<string, real>, k: nat)
    requires k <= |regs|
  {
    && (forall i | 0 <= i < k && Generates(regs[i]) :: Kept(regs[i], before, after, values))
    && (forall i | k <= i < |regs| :: Previous(after, regs[i].name) == Previous(before, regs[i].name))
  }

  lemma {:induction false} PollServes(regs: seq<FakeRegister>, s: Walk, draws: Draws, wave: Wave, k: nat)
    requires Usable(regs) && StateOk(s.state, regs) && k <= |regs|
    ensures ServedUpTo(regs, s.state, AfterFirst(regs, s, draws, wave, k).state, ValuesOf(regs, s, draws, wave, k), k)
  {
    if k == 0 {
    } else {
      PollServes(regs, s, draws, wave, k - 1);
      var reg, t := regs[k - 1], AfterFirst(regs, s, draws, wave, k - 1);
      var values := ValuesOf(regs, s, draws, wave, k - 1);
      if Generates(reg) {
        var v := ValueFor(reg, t, draws, wave);
        assert Previous(t.state, reg.name) == Previous(s.state, reg.name);
        ValuePromised(reg.fake.value, Previous(s.state, reg.name), wave, draws(t.used), draws(t.used + 1));
        ServeNext(regs, s.state, t.state, values, k - 1, v);
      }
    }
  }

  lemma ServeNext(regs: seq<FakeRegister>, before: map<string, real>, after: map<string, real>,
                  values: map<string, real>, k: nat, v: real)
    requires Usable(regs) && k < |regs| && Generates(regs[k]) && ServedUpTo(regs, before, after, values, k)
    requires Promised(regs[k].fake.value, Previous(before, regs[k].name), v)
    ensures ServedUpTo(regs, before, Remembered(after, regs[k].name, regs[k].fake.value.pattern, v),
                       values[regs[k].name := v], k + 1)
  {
    var after' := Remembered(after, regs[k].name, regs[k].fake.value.pattern, v);
    var values' := values[regs[k].name := v];
    forall i | 0 <= i < k && Generates(regs[i]) ensures Kept(regs[i], before, after', values') {
      assert Kept(regs[i], before, after, values);
    }
  }

  /** A value is reported for exactly the names of generating registers. */
  lemma {:induction false} ReportedNames(regs: seq<FakeRegister>, s: Walk, draws: Draws, wave: Wave, k: nat, n: string)
    requires k <= |regs|
    ensures n in ValuesOf(regs, s, draws, wave, k) <==>
      exists i | 0 <= i < k :: regs[i].name == n && regs[i].dataType != "string" && regs[i].fake != None
  {
    if k == 0 {
    } else {
      ReportedNames(regs, s, draws, wave, k - 1, n);
    }
  }

  // ---- runs ----

  function AfterPolls(regs: seq<FakeRegister>, draws: Draws, sine: nat -> Wave, t: nat): Walk {
    if t == 0 then Walk(map[], 0)
    else AfterFirst(regs, AfterPolls(regs, draws, sine, t - 1), draws, sine(t - 1), |regs|)
  }

  /** The result of poll t. */
  function Output(regs: seq<FakeRegister>, draws: Draws, sine: nat -> Wave, t: nat): map<string, real> {
    ValuesOf(regs, AfterPolls(regs, draws, sine, t), draws, sine(t), |regs|)
  }

  predicate PollOk(regs: seq<FakeRegister>, values: map<string, real>) {
    forall i | 0 <= i < |regs| && Generates(regs[i]) ::
      regs[i].name in values && Within(values[regs[i].name], regs[i].fake.value)
  }

  predicate PollFollows(regs: seq<FakeRegister>, previous: map<string, real>, values: map<string, real>) {
    forall i | 0 <= i < |regs| && Generates(regs[i]) ::
      regs[i].name in previous && regs[i].name in values &&
      Promised(regs[i].fake.value, Some(previous[regs[i].name]), values[regs[i].name])
  }

  predicate Remembers(regs: seq<FakeRegister>, state: map<string, real>, values: map<string, real>) {
    forall i | 0 <= i < |regs| && Generates(regs[i]) ::
      regs[i].name in values &&
      (Walks(regs[i].fake.value.pattern) ==> Previous(state, regs[i].name) == Some(values[regs[i].name]))
  }

  lemma ServedPoll(regs: seq<FakeRegister>, before: map<string, real>, after: map<string, real>,
                   values: map<string, real>)
    requires Usable(regs) && StateOk(before, regs) && ServedUpTo(regs, before, after, values, |regs|)
    ensures StateOk(after, regs) && PollOk(regs, values) && Remembers(regs, after, values)
  {
    forall i | 0 <= i < |regs| && Generates(regs[i])
      ensures regs[i].name in values && Within(values[regs[i].name], regs[i].fake.value)
      ensures Previous(after, regs[i].name).Some? ==> Within(after[regs[i].name], regs[i].fake.value)
    {
      assert Kept(regs[i], before, after, values);
    }
  }

  lemma FollowsFromState(regs: seq<FakeRegister>, before: map<string, real>, after: map<string, real>,
                         previous: map<string, real>, values: map<string, real>)
    requires Remembers(regs, before, previous) && ServedUpTo(regs, before, after, values, |regs|)
    ensures PollFollows(regs, previous, values)
  {
    forall i | 0 <= i < |regs| && Generates(regs[i])
      ensures regs[i].name in previous && regs[i].name in values
      ensures Promised(regs[i].fake.value, Some(previous[regs[i].name]), values[regs[i].name])
    {
      assert Kept(regs[i], before, after, values);
    }
  }

  lemma {:induction false} StateStaysOk(regs: seq<FakeRegister>, draws: Draws, sine: nat -> Wave, t: nat)
    requires Usable(regs)
    ensures StateOk(AfterPolls(regs, draws, sine, t).state, regs)
    ensures t > 0 ==> Remembers(regs, AfterPolls(regs, draws, sine, t).state, Output(regs, draws, sine, t - 1))
  {
    if t == 0 {
    } else {
      StateStaysOk(regs, draws, sine, t - 1);
      var s := AfterPolls(regs, draws, sine, t - 1);
      PollServes(regs, s, draws, sine(t - 1), |regs|);
      ServedPoll(regs, s.state, AfterPolls(regs, draws, sine, t).state, Output(regs, draws, sine, t - 1));
    }
  }

  /** With distinct names and ranges that are not empty, every poll of every run keeps every promise. */
  lemma RunsKeepPromises(regs: seq<FakeRegister>, draws: Draws, sine: nat -> Wave, t: nat)
    requires Usable(regs)
    ensures PollOk(regs, Output(regs, draws, sine, t))
    ensures t > 0 ==> PollFollows(regs, Output(regs, draws, sine, t - 1), Output(regs, draws, sine, t))
  {
    StateStaysOk(regs, draws, sine, t);
    var s, values := AfterPolls(regs, draws, sine, t), Output(regs, draws, sine, t);
    var after := AfterFirst(regs, s, draws, sine(t), |regs|);
    PollServes(regs, s, draws, sine(t), |regs|);
    ServedPoll(regs, s.state, after.state, values);
    if t > 0 { FollowsFromState(regs, s.state, after.state, Output(regs, draws, sine, t - 1), values); }
  }

  // ---- registers that share a name ----

  /** Every value that a poll generates is in the range of the register it is generated for. */
  predicate PollInside(regs: seq<FakeRegister>, s: Walk, draws: Draws, wave: Wave) {
    forall k | 0 <= k < |regs| && Generates(regs[k]) ::
      Within(ValueAt(regs, s, draws, wave, k), regs[k].fake.value)
  }

  /** The lowest values that can be remembered after the first k registers. */
  function Lowest(regs: seq<FakeRegister>, state: map<string, real>, k: nat): map<string, real>
    requires k <= |regs|
  {
    if k == 0 then state
    else
      LowestNext(regs[k - 1], Lowest(regs, state, k - 1))
  }

  function LowestNext(reg: FakeRegister, low: map<string, real>): map<string, real> {
    if !Generates(reg) then low
    else
      var r := reg.fake.value;
      Remembered(low, reg.name, r.pattern, Value(r, Previous(low, reg.name), 0.0, 0.0, 0.0))
  }

  /** The check a configuration has to pass: no range is empty, and the lowest value that a monotonic
      register can find under its name is not below its own minimum. */
  predicate CarriesInside(regs: seq<FakeRegister>, state: map<string, real>) {
    forall k | 0 <= k < |regs| && Generates(regs[k]) ::
      StartsInside(regs[k].fake.value, Previous(Lowest(regs, state, k), regs[k].name))
  }

  predicate AtLeast(state: map<string, real>, low: map<string, real>) {
    state.Keys == low.Keys && forall n | n in low :: low[n] <= state[n]
  }

  lemma ClampRises(x: real, y: real, min: real, max: real)
    requires x <= y && min <= max
    ensures Clamp(x, min, max) <= Clamp(y, min, max)
  {
  }

  /** A larger remembered value and a larger draw give a larger next value of a walk. */
  lemma WalkRises(r: Range, low: Option<real>, previous: Option<real>, wave: Wave, u: Draw, v: Draw)
    requires r.min <= r.max && Walks(r.pattern)
    requires low.Some? == previous.Some? && (low.Some? ==> low.value <= previous.value)
    ensures Value(r, low, 0.0, 0.0, 0.0) <= Value(r, previous, wave, u, v)
  {
    var rng := r.max - r.min;
    Fraction(u, rng);
    CentredStep(u, rng);
    CentredStep(0.0, rng);
    var x: real := u * rng;
    var a, b := low.GetOr(DriftStart(r.min, rng)), previous.GetOr(DriftStart(r.min, rng));
    ClampRises(a + ((0.0 - rng * 0.5) * 0.05 + (r.min + rng * 0.5 - a) * 0.02),
               b + ((x - rng * 0.5) * 0.05 + (r.min + rng * 0.5 - b) * 0.02), r.min, r.max);
  }

  lemma {:induction false} NeverBelowLowest(regs: seq<FakeRegister>, s: Walk, low: map<string, real>, draws: Draws,
                                            wave: Wave, k: nat)
    requires k <= |regs| && AtLeast(s.state, low)
    requires forall i | 0 <= i < |regs| && Generates(regs[i]) :: regs[i].fake.value.min <= regs[i].fake.value.max
    ensures AtLeast(AfterFirst(regs, s, draws, wave, k).state, Lowest(regs, low, k))
  {
    if k == 0 {
    } else {
      NeverBelowLowest(regs, s, low, draws, wave, k - 1);
      var t, low', reg := AfterFirst(regs, s, draws, wave, k - 1), Lowest(regs, low, k - 1), regs[k - 1];
      if Generates(reg) && Walks(reg.fake.value.pattern) {
        WalkRises(reg.fake.value, Previous(low', reg.name), Previous(t.state, reg.name),
                  wave, draws(t.used), draws(t.used + 1));
      }
    }
  }

  const ZEROS: Draws := _ => 0.0

  lemma {:induction false} ZerosReachLowest(regs: seq<FakeRegister>, s: Walk, wave: Wave, k: nat)
    requires k <= |regs|
    ensures AfterFirst(regs, s, ZEROS, wave, k).state == Lowest(regs, s.state, k)
  {
    if k == 0 {
    } else {
      ZerosReachLowest(regs, s, wave, k - 1);
    }
  }

  lemma CarryingIsEnough(regs: seq<FakeRegister>, s: Walk, low: map<string, real>, draws: Draws, wave: Wave)
    requires CarriesInside(regs, low) && AtLeast(s.state, low)
    ensures PollInside(regs, s, draws, wave)
  {
    forall k | 0 <= k < |regs| && Generates(regs[k])
      ensures Within(ValueAt(regs, s, draws, wave, k), regs[k].fake.value)
    {
      NeverBelowLowest(regs, s, low, draws, wave, k);
      var t := AfterFirst(regs, s, draws, wave, k);
      StaysInside(regs[k].fake.value, Previous(t.state, regs[k].name), wave, draws(t.used), draws(t.used + 1));
    }
  }

  lemma CarryingIsNeeded(regs: seq<FakeRegister>, s: Walk)
    requires PollInside(regs, s, ZEROS, 0.0)
    ensures CarriesInside(regs, s.state)
  {
    forall k | 0 <= k < |regs| && Generates(regs[k])
      ensures StartsInside(regs[k].fake.value, Previous(Lowest(regs, s.state, k), regs[k].name))
    {
      ZerosReachLowest(regs, s, 0.0, k);
      assert Within(ValueAt(regs, s, ZEROS, 0.0, k), regs[k].fake.value);
      ZeroDraw(regs[k].fake.value, Previous(Lowest(regs, s.state, k), regs[k].name), 0.0);
    }
  }

  /** For any registers, shared names included, and any remembered values: all draws keep all values of
      a poll in range if and only if the configuration passes that check. */
  lemma PollInsideExactly(regs: seq<FakeRegister>, state: map<string, real>)
    ensures (forall used: nat, draws: Draws, wave: Wave :: PollInside(regs, Walk(state, used), draws, wave))
      <==> CarriesInside(regs, state)
  {
    if CarriesInside(regs, state) {
      forall used: nat, draws: Draws, wave: Wave ensures PollInside(regs, Walk(state, used), draws, wave) {
        CarryingIsEnough(regs, Walk(state, used), state, draws, wave);
      }
    } else if PollInside(regs, Walk(state, 0), ZEROS, 0.0) {
      CarryingIsNeeded(regs, Walk(state, 0));
    }
  }

  /** The lowest values that can be remembered after t polls. */
  function LowestAfter(regs: seq<FakeRegister>, t: nat): map<string, real> {
    if t == 0 then map[] else Lowest(regs, LowestAfter(regs, t - 1), |regs|)
  }

  predicate RunInside(regs: seq<FakeRegister>, draws: Draws, sine: nat -> Wave, n: nat) {
    forall t | 0 <= t < n :: PollInside(regs, AfterPolls(regs, draws, sine, t), draws, sine(t))
  }

  const FLAT: nat -> Wave := _ => 0.0

  lemma {:induction false} RunNeverBelowLowest(regs: seq<FakeRegister>, draws: Draws, sine: nat -> Wave, t: nat)
    requires forall i | 0 <= i < |regs| && Generates(regs[i]) :: regs[i].fake.value.min <= regs[i].fake.value.max
    ensures AtLeast(AfterPolls(regs, draws, sine, t).state, LowestAfter(regs, t))
  {
    if t == 0 {
    } else {
      RunNeverBelowLowest(regs, draws, sine, t - 1);
      NeverBelowLowest(regs, AfterPolls(regs, draws, sine, t - 1), LowestAfter(regs, t - 1),
                       draws, sine(t - 1), |regs|);
    }
  }

  lemma {:induction false} RunReachesLowest(regs: seq<FakeRegister>, t: nat)
    ensures AfterPolls(regs, ZEROS, FLAT, t).state == LowestAfter(regs, t)
  {
    if t == 0 {
    } else {
      RunReachesLowest(regs, t - 1);
      ZerosReachLowest(regs, AfterPolls(regs, ZEROS, FLAT, t - 1), FLAT(t - 1), |regs|);
    }
  }

  predicate RunCarriesInside(regs: seq<FakeRegister>, n: nat) {
    forall t | 0 <= t < n :: CarriesInside(regs, LowestAfter(regs, t))
  }

  lemma RunCarryingIsEnough(regs: seq<FakeRegister>, draws: Draws, sine: nat -> Wave, n: nat)
    requires RunCarriesInside(regs, n)
    ensures RunInside(regs, draws, sine, n)
  {
    forall t | 0 <= t < n ensures PollInside(regs, AfterPolls(regs, draws, sine, t), draws, sine(t)) {
      assert CarriesInside(regs, LowestAfter(regs, t));
      RunNeverBelowLowest(regs, draws, sine, t);
      CarryingIsEnough(regs, AfterPolls(regs, draws, sine, t), LowestAfter(regs, t), draws, sine(t));
    }
  }

  lemma RunCarryingIsNeeded(regs: seq<FakeRegister>, n: nat)
    requires RunInside(regs, ZEROS, FLAT, n)
    ensures RunCarriesInside(regs, n)
  {
    forall t | 0 <= t < n ensures CarriesInside(regs, LowestAfter(regs, t)) {
      assert PollInside(regs, AfterPolls(regs, ZEROS, FLAT, t), ZEROS, FLAT(t));
      RunReachesLowest(regs, t);
      CarryingIsNeeded(regs, AfterPolls(regs, ZEROS, FLAT, t));
    }
  }

  /** The same over whole runs: all draws and all sines keep n polls in range if and only if each poll
      passes the check on the lowest values that can be left to it. */
  lemma RunInsideExactly(regs: seq<FakeRegister>, n: nat)
    ensures (forall draws: Draws, sine: nat -> Wave :: RunInside(regs, draws, sine, n)) <==> RunCarriesInside(regs, n)
  {
    if RunCarriesInside(regs, n) {
      forall draws: Draws, sine: nat -> Wave ensures RunInside(regs, draws, sine, n) {
        RunCarryingIsEnough(regs, draws, sine, n);
      }
    } else if RunInside(regs, ZEROS, FLAT, n) {
      RunCarryingIsNeeded(regs, n);
    }
  }

  // ---- a check on the configuration alone ----

  predicate Monotonic(reg: FakeRegister) {
    Generates(reg) && reg.fake.value.pattern == "monotonic"
  }

  /** Where walking registers share a name, they are all monotonic. */
  predicate NoSharedDrift(regs: seq<FakeRegister>) {
    forall i, j | 0 <= i < j < |regs| && SameWalk(regs[i], regs[j]) :: Monotonic(regs[i]) && Monotonic(regs[j])
  }

  predicate SameWalk(a: FakeRegister, b: FakeRegister) {
    a.name == b.name && Generates(a) && Generates(b) && Walks(a.fake.value.pattern) && Walks(b.fake.value.pattern)
  }

  /** The first monotonic register of its name. */
  predicate Leads(regs: seq<FakeRegister>, i: nat) {
    i < |regs| && Monotonic(regs[i])
    && forall h | 0 <= h < i && regs[h].name == regs[i].name :: !Monotonic(regs[h])
  }

  /** No range is empty, and the first minimum of a name lies in every monotonic range of that name. */
  predicate Compatible(regs: seq<FakeRegister>) {
    && (forall i | 0 <= i < |regs| && Generates(regs[i]) :: regs[i].fake.value.min <= regs[i].fake.value.max)
    && (forall i, j | 0 <= i < |regs| && 0 <= j < |regs| && Leads(regs, i) && Monotonic(regs[j])
          && regs[i].name == regs[j].name :: Within(regs[i].fake.value.min, regs[j].fake.value))
  }

  lemma {:induction false} LeaderOf(regs: seq<FakeRegister>, k: nat, j: nat) returns (i: nat)
    requires k <= j < |regs| && Monotonic(regs[j])
    requires forall h | 0 <= h < k && regs[h].name == regs[j].name :: !Monotonic(regs[h])
    ensures i <= j && Leads(regs, i) && regs[i].name == regs[j].name
    decreases j - k
  {
    if regs[k].name == regs[j].name && Monotonic(regs[k]) {
      i := k;
    } else {
      i := LeaderOf(regs, k + 1, j);
    }
  }

  /** The lowest remembered values are the first minima. */
  predicate AtFirstMinima(regs: seq<FakeRegister>, low: map<string, real>) {
    forall i | 0 <= i < |regs| && Leads(regs, i) && regs[i].name in low :: low[regs[i].name] == regs[i].fake.value.min
  }

  predicate Seen(regs: seq<FakeRegister>, low: map<string, real>, k: nat)
    requires k <= |regs|
  {
    forall h | 0 <= h < k && Monotonic(regs[h]) :: regs[h].name in low
  }

  lemma CompatibleStep(regs: seq<FakeRegister>, low: map<string, real>, k: nat)
    requires NoSharedDrift(regs) && Compatible(regs) && k < |regs| && Monotonic(regs[k])
    requires AtFirstMinima(regs, low) && Seen(regs, low, k)
    ensures StartsInside(regs[k].fake.value, Previous(low, regs[k].name))
    ensures AtFirstMinima(regs,
                          low[regs[k].name := Value(regs[k].fake.value, Previous(low, regs[k].name), 0.0, 0.0, 0.0)])
  {
    var i := LeaderOf(regs, 0, k);
    assert Within(regs[i].fake.value.min, regs[k].fake.value);
    if regs[k].name !in low {
      assert i == k;
    }
    assert Value(regs[k].fake.value, Previous(low, regs[k].name), 0.0, 0.0, 0.0) == regs[i].fake.value.min;
    forall i' | 0 <= i' < |regs| && Leads(regs, i') && regs[i'].name == regs[k].name ensures i' == i {
    }
  }

  lemma DriftStep(regs: seq<FakeRegister>, low: map<string, real>, k: nat, v: real)
    requires NoSharedDrift(regs) && k < |regs| && Generates(regs[k]) && Walks(regs[k].fake.value.pattern)
    requires !Monotonic(regs[k]) && AtFirstMinima(regs, low)
    ensures AtFirstMinima(regs, low[regs[k].name := v])
  {
    forall i | 0 <= i < |regs| && Leads(regs, i) ensures regs[i].name != regs[k].name {
      assert SameWalk(regs[i], regs[k]) || regs[i].name != regs[k].name;
      assert SameWalk(regs[k], regs[i]) || regs[i].name != regs[k].name;
    }
  }

  lemma CompatibleNext(regs: seq<FakeRegister>, low: map<string, real>, k: nat)
    requires NoSharedDrift(regs) && Compatible(regs) && k < |regs|
    requires AtFirstMinima(regs, low) && Seen(regs, low, k)
    ensures AtFirstMinima(regs, LowestNext(regs[k], low)) && Seen(regs, LowestNext(regs[k], low), k + 1)
    ensures Generates(regs[k]) ==> StartsInside(regs[k].fake.value, Previous(low, regs[k].name))
  {
    var reg := regs[k];
    if Monotonic(reg) {
      CompatibleStep(regs, low, k);
    } else if Generates(reg) && Walks(reg.fake.value.pattern) {
      DriftStep(regs, low, k, Value(reg.fake.value, Previous(low, reg.name), 0.0, 0.0, 0.0));
    }
  }

  lemma {:induction false} CompatiblePoll(regs: seq<FakeRegister>, low: map<string, real>, k: nat)
    requires NoSharedDrift(regs) && Compatible(regs) && AtFirstMinima(regs, low) && k <= |regs|
    ensures AtFirstMinima(regs, Lowest(regs, low, k)) && Seen(regs, Lowest(regs, low, k), k)
  {
    if k == 0 {
    } else {
      CompatiblePoll(regs, low, k - 1);
      CompatibleNext(regs, Lowest(regs, low, k - 1), k - 1);
    }
  }

  lemma {:induction false} CompatibleRun(regs: seq<FakeRegister>, t: nat)
    requires NoSharedDrift(regs) && Compatible(regs)
    ensures AtFirstMinima(regs, LowestAfter(regs, t))
  {
    if t == 0 {
    } else {
      CompatibleRun(regs, t - 1);
      CompatiblePoll(regs, LowestAfter(regs, t - 1), |regs|);
    }
  }

  lemma CompatibleCarries(regs: seq<FakeRegister>, n: nat)
    requires NoSharedDrift(regs) && Compatible(regs)
    ensures RunCarriesInside(regs, n)
  {
    forall t | 0 <= t < n ensures CarriesInside(regs, LowestAfter(regs, t)) {
      CompatibleRun(regs, t);
      forall k | 0 <= k < |regs| && Generates(regs[k])
        ensures StartsInside(regs[k].fake.value, Previous(Lowest(regs, LowestAfter(regs, t), k), regs[k].name))
      {
        CompatiblePoll(regs, LowestAfter(regs, t), k);
        CompatibleNext(regs, Lowest(regs, LowestAfter(regs, t), k), k);
      }
    }
  }

  /** Only monotonic registers walk under this name. */
  predicate MonotonicName(regs: seq<FakeRegister>, name: string) {
    forall h | 0 <= h < |regs| && regs[h].name == name && Generates(regs[h]) && Walks(regs[h].fake.value.pattern) ::
      Monotonic(regs[h])
  }

  /** Under such a name the lowest remembered value never rises. */
  lemma {:induction false} LowestFalls(regs: seq<FakeRegister>, low: map<string, real>, k: nat, k': nat, name: string)
    requires k <= k' <= |regs| && MonotonicName(regs, name) && name in Lowest(regs, low, k)
    ensures name in Lowest(regs, low, k') && Lowest(regs, low, k')[name] <= Lowest(regs, low, k)[name]
    decreases k' - k
  {
    if k == k' {
    } else {
      LowestFalls(regs, low, k, k' - 1, name);
    }
  }

  lemma {:induction false} NotYetSeen(regs: seq<FakeRegister>, k: nat, name: string)
    requires k <= |regs| && MonotonicName(regs, name)
    requires forall h | 0 <= h < k && regs[h].name == name :: !Monotonic(regs[h])
    ensures name !in Lowest(regs, map[], k)
  {
    if k == 0 {
    } else {
      NotYetSeen(regs, k - 1, name);
    }
  }

  /** Two polls in range force the first minimum of a name into every range of that name. */
  lemma TwoPollsNeed(regs: seq<FakeRegister>, i: nat, j: nat)
    requires RunCarriesInside(regs, 2) && j < |regs| && Leads(regs, i) && Monotonic(regs[j])
    requires regs[i].name == regs[j].name && MonotonicName(regs, regs[i].name)
    ensures Within(regs[i].fake.value.min, regs[j].fake.value)
  {
    var name := regs[i].name;
    assert i <= j;
    assert LowestAfter(regs, 0) == map[];
    assert CarriesInside(regs, LowestAfter(regs, 0)) && CarriesInside(regs, LowestAfter(regs, 1));
    NotYetSeen(regs, i, name);
    assert Lowest(regs, map[], i + 1)[name] == regs[i].fake.value.min;
    LowestFalls(regs, map[], i + 1, j + 1, name);
    assert j > i ==> Lowest(regs, map[], j)[name] <= regs[i].fake.value.min by {
      if j > i { LowestFalls(regs, map[], i + 1, j, name); }
    }
    LowestFalls(regs, map[], j + 1, |regs|, name);
    assert LowestAfter(regs, 1) == Lowest(regs, map[], |regs|);
    LowestFalls(regs, LowestAfter(regs, 1), 0, i, name);
  }

  /** Unless drifts share a name: all runs of any length keep all values in range if and only if the
      ranges are not empty and the first minimum of every name lies in all ranges of that name. */
  lemma CompatibleExactly(regs: seq<FakeRegister>)
    requires NoSharedDrift(regs)
    ensures (forall n: nat :: RunCarriesInside(regs, n)) <==> Compatible(regs)
    ensures (forall n: nat, draws: Draws, sine: nat -> Wave :: RunInside(regs, draws, sine, n)) <==> Compatible(regs)
  {
    if Compatible(regs) {
      forall n: nat ensures RunCarriesInside(regs, n) {
        CompatibleCarries(regs, n);
      }
      forall n: nat, draws: Draws, sine: nat -> Wave ensures RunInside(regs, draws, sine, n) {
        RunCarryingIsEnough(regs, draws, sine, n);
      }
    } else {
      if RunCarriesInside(regs, 2) { CarryingIsCompatible(regs); }
      if RunInside(regs, ZEROS, FLAT, 2) { RunCarryingIsNeeded(regs, 2); }
    }
  }

  lemma CarryingIsCompatible(regs: seq<FakeRegister>)
    requires NoSharedDrift(regs) && RunCarriesInside(regs, 2)
    ensures Compatible(regs)
  {
    assert CarriesInside(regs, LowestAfter(regs, 0));
    forall i, j | 0 <= i < |regs| && 0 <= j < |regs| && Leads(regs, i) && Monotonic(regs[j])
        && regs[i].name == regs[j].name
      ensures Within(regs[i].fake.value.min, regs[j].fake.value)
    {
      forall h | 0 <= h < |regs| && SameWalk(regs[h], regs[i]) ensures Monotonic(regs[h]) {
        assert SameWalk(regs[i], regs[h]);
      }
      TwoPollsNeed(regs, i, j);
    }
  }

  const LOW: Range := Range(0.0, 10.0, "monotonic")
  const HIGH: Range := Range(100.0, 200.0, "monotonic")
  const SHARING: seq<FakeRegister> :=
    [FakeRegister("flow", "float32", Some(LOW)), FakeRegister("flow", "float32", Some(HIGH))]

  /** A configuration that fails the check: the second register goes on from the walk of the first, so
      whatever is drawn its value is below its range from the first poll on. */
  method SharedNameEscapes(draws: Draws, sine: nat -> Wave) returns (values: map<string, real>)
    ensures "flow" in values && !Within(values["flow"], HIGH)
    ensures !CarriesInside(SHARING, map[])
  {
    var source := new FakeDataSource(SHARING, draws, sine);
    ghost var s, wave := source.State(), sine(0);
    values := source.Read();
    ghost var first := ValueAt(SHARING, s, draws, wave, 0);
    Fraction(draws(0), 10.0);
    Fraction(draws(1), 100.0);
    assert AfterFirst(SHARING, s, draws, wave, 1) == Walk(map["flow" := first], 1);
    assert 0.0 <= first <= 1.0;
    assert values["flow"] == ValueAt(SHARING, s, draws, wave, 1);
    assert Lowest(SHARING, map[], 1) == map["flow" := 0.0];
    assert !StartsInside(HIGH, Previous(Lowest(SHARING, map[], 1), "flow"));
    assert SHARING[1].fake.value == HIGH;
  }
}
