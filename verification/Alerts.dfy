/**
 The alert evaluator: a check-then-insert or resolve step per rule and poll,
 and the run-length encoding that the event table of a rule should be.
 Thresholds and readings are reals.
 */
module Alerts {
  import opened Wrappers

  datatype Rule = Rule(id: nat, metric: string, condition: string, threshold: real)

  /** A row of alert_events as the evaluator sees it. */
  datatype Firing = Firing(alert: nat, at: int, value: real, resolved: Option<int>)

  /** Triggered exactly by the five conditions the table admits; any other condition never triggers. */
  predicate Triggered(rule: Rule, value: real) {
    match rule.condition
    case ">" => value > rule.threshold
    case ">=" => value >= rule.threshold
    case "<" => value < rule.threshold
    case "<=" => value <= rule.threshold
    case "==" => value == rule.threshold
    case _ => false
  }

  predicate Open(f: Firing) {
    f.resolved.None?
  }

  predicate HasOpen(table: seq<Firing>, alert: nat) {
    exists i | 0 <= i < |table| :: table[i].alert == alert && Open(table[i])
  }

  function Resolve(table: seq<Firing>, alert: nat, now: int): (r: seq<Firing>)
    ensures |r| == |table|
    ensures forall i | 0 <= i < |r| ::
      r[i] == (if table[i].alert == alert && Open(table[i]) then table[i].(resolved := Some(now)) else table[i])
  {
    if table == [] then []
    else
      var f := table[0];
      [if f.alert == alert && Open(f) then f.(resolved := Some(now)) else f] + Resolve(table[1..], alert, now)
  }

  /** The statements for one rule and one reading. sawOpen is what the EXISTS query left in its variable
      (false when the query failed), and writes says whether the following statement takes effect. */
  function EvalRule(table: seq<Firing>, rule: Rule, value: real, now: int, sawOpen: bool, writes: bool): seq<Firing> {
    if !writes then table
    else if !Triggered(rule, value) then Resolve(table, rule.id, now)
    else if sawOpen then table
    else table + [Firing(rule.id, now, value, None)]
  }

  // ---- the run-length encoding ----

  datatype Reading = Reading(at: int, value: real)

  function LeadingRun(rule: Rule, rs: seq<Reading>): (k: nat)
    ensures k <= |rs|
    ensures forall i | 0 <= i < k :: Triggered(rule, rs[i].value)
    ensures k < |rs| ==> !Triggered(rule, rs[k].value)
  {
    if rs == [] || !Triggered(rule, rs[0].value) then 0 else 1 + LeadingRun(rule, rs[1..])
  }

  function RunStart(rule: Rule, rs: seq<Reading>): Firing
    requires rs != []
  {
    var k := LeadingRun(rule, rs);
    Firing(rule.id, rs[0].at, rs[0].value, if k < |rs| then Some(rs[k].at) else None)
  }

  /** One event per maximal run of triggered readings: its first reading, resolved by the reading after it. */
  function Runs(rule: Rule, rs: seq<Reading>): seq<Firing>
    decreases |rs|
  {
    if rs == [] then []
    else if !Triggered(rule, rs[0].value) then Runs(rule, rs[1..])
    else [RunStart(rule, rs)] + Runs(rule, rs[LeadingRun(rule, rs)..])
  }

  /** What the evaluator does for one rule when every query succeeds and nobody else writes its events. */
  function Follow(table: seq<Firing>, rule: Rule, rs: seq<Reading>): seq<Firing>
    decreases |rs|
  {
    if rs == [] then table
    else Follow(EvalRule(table, rule, rs[0].value, rs[0].at, HasOpen(table, rule.id), true), rule, rs[1..])
  }

  predicate OnlyOf(table: seq<Firing>, alert: nat) {
    forall i | 0 <= i < |table| :: table[i].alert == alert
  }

  lemma {:induction false} FollowClosed(table: seq<Firing>, rule: Rule, rs: seq<Reading>)
    requires OnlyOf(table, rule.id) && !HasOpen(table, rule.id)
    ensures Follow(table, rule, rs) == table + Runs(rule, rs)
    decreases |rs|
  {
    if rs == [] {
    } else if !Triggered(rule, rs[0].value) {
      assert Resolve(table, rule.id, rs[0].at) == table;
      FollowClosed(table, rule, rs[1..]);
    } else {
      var live := Firing(rule.id, rs[0].at, rs[0].value, None);
      FollowOpen(table, live, rule, rs[1..]);
      var k := LeadingRun(rule, rs);
      assert rs[1..][k - 1..] == rs[k..];
      assert Follow(table, rule, rs) == Follow(table + [live], rule, rs[1..]);
    }
  }

  lemma {:induction false} FollowOpen(table: seq<Firing>, live: Firing, rule: Rule, rs: seq<Reading>)
    requires OnlyOf(table, rule.id) && !HasOpen(table, rule.id)
    requires live.alert == rule.id && Open(live)
    ensures var k := LeadingRun(rule, rs);
      Follow(table + [live], rule, rs)
        == table + [live.(resolved := if k < |rs| then Some(rs[k].at) else None)] + Runs(rule, rs[k..])
    decreases |rs|
  {
    var now := table + [live];
    assert HasOpen(now, rule.id) by { assert now[|table|] == live; }
    if rs == [] {
      assert live.(resolved := None) == live;
    } else if Triggered(rule, rs[0].value) {
      FollowOpen(table, live, rule, rs[1..]);
      var k := LeadingRun(rule, rs);
      assert rs[1..][k - 1..] == rs[k..];
    } else {
      var closed := table + [live.(resolved := Some(rs[0].at))];
      assert Resolve(now, rule.id, rs[0].at) == closed;
      FollowClosed(closed, rule, rs[1..]);
      assert rs[0..] == rs;
    }
  }

  /** At most one open event, and exactly one after a triggered reading, none after any other. */
  predicate AtMostOneOpen(table: seq<Firing>, alert: nat) {
    forall i, j | 0 <= i < j < |table| && table[i].alert == alert && table[j].alert == alert ::
      !(Open(table[i]) && Open(table[j]))
  }

  lemma {:induction false} RunsCloseInOrder(rule: Rule, rs: seq<Reading>)
    ensures OnlyOf(Runs(rule, rs), rule.id)
    ensures forall i | 0 <= i < |Runs(rule, rs)| - 1 :: !Open(Runs(rule, rs)[i])
    ensures HasOpen(Runs(rule, rs), rule.id) <==> rs != [] && Triggered(rule, rs[|rs| - 1].value)
    decreases |rs|
  {
    if rs == [] {
    } else if !Triggered(rule, rs[0].value) {
      RunsCloseInOrder(rule, rs[1..]);
    } else {
      var k := LeadingRun(rule, rs);
      RunsCloseInOrder(rule, rs[k..]);
      var tail := Runs(rule, rs[k..]);
      assert Runs(rule, rs) == [RunStart(rule, rs)] + tail;
      if k == |rs| {
        assert Open(Runs(rule, rs)[0]);
      } else {
        assert rs[k..][|rs| - k - 1] == rs[|rs| - 1];
        if i :| 0 <= i < |tail| && Open(tail[i]) { assert Runs(rule, rs)[i + 1] == tail[i]; }
      }
    }
  }

  /** Whether a rule fires, by the two numbers it compares. */
  ghost predicate Compares(condition: string, x: real, threshold: real, fires: bool) {
    && (condition == ">" ==> (fires <==> x > threshold))
    && (condition == ">=" ==> (fires <==> x >= threshold))
    && (condition == "<" ==> (fires <==> x < threshold))
    && (condition == "<=" ==> (fires <==> x <= threshold))
    && (condition == "==" ==> (fires <==> x == threshold))
    && (condition !in {">", ">=", "<", "<=", "=="} ==> !fires)
  }

  /** Position i begins a run: it triggers, and the reading before it does not. */
  predicate Begins(rule: Rule, rs: seq<Reading>, i: nat) {
    i < |rs| && Triggered(rule, rs[i].value) && (i > 0 ==> !Triggered(rule, rs[i - 1].value))
  }

  /** Event f is the run that begins at i: it has the time and value of that reading, and is resolved at
      the time of the first later reading that does not trigger, if there is one. */
  predicate IsRun(rule: Rule, rs: seq<Reading>, i: nat, f: Firing)
    requires i < |rs|
  {
    && f.alert == rule.id && f.at == rs[i].at && f.value == rs[i].value
    && (f.resolved.None? ==> forall j | i <= j < |rs| :: Triggered(rule, rs[j].value))
    && (f.resolved.Some? ==>
          exists j | i < j < |rs| :: rs[j].at == f.resolved.value && !Triggered(rule, rs[j].value)
            && forall h | i <= h < j :: Triggered(rule, rs[h].value))
  }

  predicate AreRuns(rule: Rule, rs: seq<Reading>, starts: seq<nat>, fs: seq<Firing>) {
    |starts| == |fs| && forall k | 0 <= k < |starts| :: starts[k] < |rs| && IsRun(rule, rs, starts[k], fs[k])
  }

  /** The encoding lists exactly the runs, one event each, in order of their beginnings. */
  lemma {:induction false} RunsExactly(rule: Rule, rs: seq<Reading>) returns (starts: seq<nat>)
    ensures forall k, l | 0 <= k < l < |starts| :: starts[k] < starts[l]
    ensures forall i: nat :: i in starts <==> Begins(rule, rs, i)
    ensures AreRuns(rule, rs, starts, Runs(rule, rs))
    decreases |rs|
  {
    if rs == [] {
      starts := [];
    } else if !Triggered(rule, rs[0].value) {
      var rest := RunsExactly(rule, rs[1..]);
      starts := Shifted(rest, 1);
      ShiftedRuns(rule, rs, 1, rest, Runs(rule, rs[1..]));
      ShiftedBegins(rule, rs, 1, rest, starts);
    } else {
      var n := LeadingRun(rule, rs);
      var rest := RunsExactly(rule, rs[n..]);
      starts := [0] + Shifted(rest, n);
      FirstBegins(rule, rs, rest);
      ShiftedRuns(rule, rs, n, rest, Runs(rule, rs[n..]));
      HeadIsRun(rule, rs);
      ConsRuns(rule, rs, Shifted(rest, n), Runs(rule, rs[n..]), RunStart(rule, rs));
    }
  }

  /** The first run begins at 0, and the others where those of what follows it do. */
  lemma FirstBegins(rule: Rule, rs: seq<Reading>, rest: seq<nat>)
    requires rs != [] && Triggered(rule, rs[0].value)
    requires forall i: nat :: i in rest <==> Begins(rule, rs[LeadingRun(rule, rs)..], i)
    ensures forall i: nat :: i in [0] + Shifted(rest, LeadingRun(rule, rs)) <==> Begins(rule, rs, i)
  {
    var n := LeadingRun(rule, rs);
    var later := Shifted(rest, n);
    ShiftedBegins(rule, rs, n, rest, later);
    forall i: nat ensures i in [0] + later <==> Begins(rule, rs, i) {
      assert i in [0] + later <==> i == 0 || i in later;
      if i < n && i > 0 { assert Triggered(rule, rs[i - 1].value); }
    }
  }

  lemma HeadIsRun(rule: Rule, rs: seq<Reading>)
    requires rs != [] && Triggered(rule, rs[0].value)
    ensures IsRun(rule, rs, 0, RunStart(rule, rs))
  {
  }

  lemma ConsRuns(rule: Rule, rs: seq<Reading>, starts: seq<nat>, fs: seq<Firing>, f: Firing)
    requires rs != [] && AreRuns(rule, rs, starts, fs) && IsRun(rule, rs, 0, f)
    ensures AreRuns(rule, rs, [0] + starts, [f] + fs)
  {
  }

  function Shifted(starts: seq<nat>, n: nat): (r: seq<nat>)
    ensures |r| == |starts| && forall k | 0 <= k < |r| :: r[k] == starts[k] + n
    ensures forall i: nat :: i in r <==> i >= n && i - n in starts
  {
    var r := seq(|starts|, k requires 0 <= k < |starts| => starts[k] + n);
    assert forall i: nat | i >= n && i - n in starts :: i in r by {
      forall i: nat | i >= n && i - n in starts ensures i in r {
        var k :| 0 <= k < |starts| && starts[k] == i - n;
        assert r[k] == i;
      }
    }
    r
  }

  lemma ShiftedRuns(rule: Rule, rs: seq<Reading>, n: nat, starts: seq<nat>, fs: seq<Firing>)
    requires n <= |rs| && AreRuns(rule, rs[n..], starts, fs)
    ensures AreRuns(rule, rs, Shifted(starts, n), fs)
  {
    forall k | 0 <= k < |starts| ensures starts[k] + n < |rs| && IsRun(rule, rs, starts[k] + n, fs[k]) {
      ShiftedRun(rule, rs, n, starts[k], fs[k]);
    }
  }

  lemma ShiftedRun(rule: Rule, rs: seq<Reading>, n: nat, i: nat, f: Firing)
    requires n <= |rs| && i < |rs[n..]| && IsRun(rule, rs[n..], i, f)
    ensures IsRun(rule, rs, n + i, f)
  {
    var tail := rs[n..];
    assert forall h | 0 <= h < |tail| :: tail[h] == rs[n + h];
    if f.resolved.None? {
      forall j | n + i <= j < |rs| ensures Triggered(rule, rs[j].value) { assert tail[j - n] == rs[j]; }
    } else {
      var j :| i < j < |tail| && tail[j].at == f.resolved.value && !Triggered(rule, tail[j].value)
        && forall h | i <= h < j :: Triggered(rule, tail[h].value);
      assert rs[n + j] == tail[j];
      forall h | n + i <= h < n + j ensures Triggered(rule, rs[h].value) { assert tail[h - n] == rs[h]; }
    }
  }

  lemma ShiftedBegins(rule: Rule, rs: seq<Reading>, n: nat, rest: seq<nat>, later: seq<nat>)
    requires 0 < n <= |rs| && later == Shifted(rest, n)
    requires forall i: nat :: i in rest <==> Begins(rule, rs[n..], i)
    requires n < |rs| ==> !Triggered(rule, rs[n - 1].value) || !Triggered(rule, rs[n].value)
    ensures forall i: nat :: i in later <==> i >= n && Begins(rule, rs, i)
  {
    forall i: nat ensures i in later <==> i >= n && Begins(rule, rs, i) {
      if n <= i {
        assert i - n in rest <==> Begins(rule, rs[n..], i - n);
        if i < |rs| {
          assert rs[n..][i - n] == rs[i];
          if i > n { assert rs[n..][i - n - 1] == rs[i - 1]; }
        }
      }
    }
  }

  // ---- many rules, many polls ----

  /** The events of one rule, in table order. */
  function Of(table: seq<Firing>, alert: nat): (r: seq<Firing>)
    ensures OnlyOf(r, alert)
  {
    if table == [] then []
    else (if table[0].alert == alert then [table[0]] else []) + Of(table[1..], alert)
  }

  lemma {:induction false} OfSnoc(table: seq<Firing>, f: Firing, alert: nat)
    ensures Of(table + [f], alert) == Of(table, alert) + if f.alert == alert then [f] else []
  {
    if table == [] {
      assert table + [f] == [f] && [f][1..] == [];
    } else {
      assert (table + [f])[1..] == table[1..] + [f];
      OfSnoc(table[1..], f, alert);
    }
  }

  lemma {:induction false} OfResolve(table: seq<Firing>, id: nat, now: int, alert: nat)
    ensures Of(Resolve(table, id, now), alert) ==
        if id == alert then Resolve(Of(table, alert), alert, now) else Of(table, alert)
  {
    if table == [] {
    } else {
      OfResolve(table[1..], id, now, alert);
      var r := Resolve(table, id, now);
      assert r[1..] == Resolve(table[1..], id, now);
    }
  }

  lemma {:induction false} OfHasOpen(table: seq<Firing>, alert: nat)
    ensures HasOpen(Of(table, alert), alert) <==> HasOpen(table, alert)
  {
    if table == [] {
    } else {
      OfHasOpen(table[1..], alert);
      var rest := Of(table[1..], alert);
      if i :| 0 <= i < |rest| && Open(rest[i]) {
        var whole := Of(table, alert);
        assert whole[i + (|whole| - |rest|)] == rest[i];
      }
      if i :| 0 <= i < |table| && table[i].alert == alert && Open(table[i]) {
        if i > 0 { assert table[1..][i - 1] == table[i]; }
        else { assert Of(table, alert)[0] == table[0]; }
      }
    }
  }

  /** One call of Evaluate: the active rules its query returned, the metric values,
      and the time of each rule's statements. */
  datatype Poll = Poll(rules: seq<Rule>, values: map<string, real>, at: nat -> int)

  /** Which EXISTS queries and which INSERTs or UPDATEs fail, by rule position. */
  datatype Faults = Faults(look: nat -> bool, write: nat -> bool)

  const NO_FAULTS: Faults := Faults(_ => false, _ => false)

  /** The statements of a poll for its rule k; a rule whose metric the poll does not report is skipped. */
  function EvalAt(t: seq<Firing>, p: Poll, f: Faults, k: nat): seq<Firing>
    requires k < |p.rules|
  {
    var rule := p.rules[k];
    if rule.metric in p.values
    then EvalRule(t, rule, p.values[rule.metric], p.at(k), !f.look(k) && HasOpen(t, rule.id), !f.write(k))
    else t
  }

  /** The table after the first k rules of a poll. */
  function EvalFirst(table: seq<Firing>, p: Poll, f: Faults, k: nat): seq<Firing>
    requires k <= |p.rules|
  {
    if k == 0 then table else EvalAt(EvalFirst(table, p, f, k - 1), p, f, k - 1)
  }

  class AlertEvaluator {
    var table: seq<Firing>

    constructor ()
      ensures table == []
    {
      table := [];
    }

    /** Evaluates every active rule of a machine against the values just read. */
    method Evaluate(p: Poll, queryFails: bool, f: Faults)
      modifies this
      ensures table == if queryFails then old(table) else EvalFirst(old(table), p, f, |p.rules|)
    {
      if queryFails { return; }
      var k := 0;
      while k < |p.rules|
        invariant 0 <= k <= |p.rules|
        invariant table == EvalFirst(old(table), p, f, k)
      {
        var rule := p.rules[k];
        if rule.metric in p.values {
          var value := p.values[rule.metric];
          if Triggered(rule, value) {
            var sawOpen := false;
            if !f.look(k) { sawOpen := HasOpen(table, rule.id); }
            if !sawOpen {
              if !f.write(k) { table := table + [Firing(rule.id, p.at(k), value, None)]; }
            }
          } else if !f.write(k) {
            table := Resolve(table, rule.id, p.at(k));
          }
        }
        k := k + 1;
      }
    }
  }

  /** Alert ids are primary keys, so a query returns each rule once. */
  predicate DistinctRules(rules: seq<Rule>) {
    forall i, j | 0 <= i < j < |rules| :: rules[i].id != rules[j].id
  }

  function IndexOf(rules: seq<Rule>, rule: Rule): (k: nat)
    requires rule in rules
    ensures k < |rules| && rules[k] == rule
  {
    if rules[0] == rule then 0 else 1 + IndexOf(rules[1..], rule)
  }

  /** Rules come once, and the given one with the settings given, if it is active at all. */
  predicate Settled(p: Poll, rule: Rule) {
    DistinctRules(p.rules) && forall r | r in p.rules && r.id == rule.id :: r == rule
  }

  /** The reading that poll p holds for a rule, if the rule is active and the metric reported. */
  function ReadingOf(p: Poll, rule: Rule): seq<Reading> {
    if rule in p.rules && rule.metric in p.values then [Reading(p.at(IndexOf(p.rules, rule)), p.values[rule.metric])]
    else []
  }

  /** One rule's statements act on the events of that rule alone. */
  lemma EvalRuleProjects(table: seq<Firing>, rule: Rule, value: real, now: int, alert: nat)
    ensures Of(EvalRule(table, rule, value, now, HasOpen(table, rule.id), true), alert) ==
      if rule.id == alert then EvalRule(Of(table, alert), rule, value, now, HasOpen(Of(table, alert), alert), true)
      else Of(table, alert)
  {
    OfSnoc(table, Firing(rule.id, now, value, None), alert);
    OfResolve(table, rule.id, now, alert);
    OfHasOpen(table, alert);
  }

  lemma OwnTurn(t: seq<Firing>, p: Poll, rule: Rule)
    requires rule in p.rules
    ensures Of(EvalAt(t, p, NO_FAULTS, IndexOf(p.rules, rule)), rule.id)
      == Follow(Of(t, rule.id), rule, ReadingOf(p, rule))
  {
    if rule.metric in p.values {
      var r := ReadingOf(p, rule)[0];
      EvalRuleProjects(t, rule, r.value, r.at, rule.id);
      FollowOne(Of(t, rule.id), rule, r);
    }
  }

  lemma OtherTurn(t: seq<Firing>, p: Poll, k: nat, alert: nat)
    requires k < |p.rules| && p.rules[k].id != alert
    ensures Of(EvalAt(t, p, NO_FAULTS, k), alert) == Of(t, alert)
  {
    var other := p.rules[k];
    if other.metric in p.values { EvalRuleProjects(t, other, p.values[other.metric], p.at(k), alert); }
  }

  /** Evaluating rules a to b - 1 leaves the events of any other rule alone. */
  lemma {:induction false} OthersTurns(table: seq<Firing>, p: Poll, alert: nat, a: nat, b: nat)
    requires a <= b <= |p.rules| && forall k | a <= k < b :: p.rules[k].id != alert
    ensures Of(EvalFirst(table, p, NO_FAULTS, b), alert) == Of(EvalFirst(table, p, NO_FAULTS, a), alert)
    decreases b - a
  {
    if a == b {
    } else {
      OthersTurns(table, p, alert, a, b - 1);
      OtherTurn(EvalFirst(table, p, NO_FAULTS, b - 1), p, b - 1, alert);
    }
  }

  /** Whatever other rules a poll evaluates, the events of one rule move as if it were evaluated alone, on
      its reading if it is active and its metric reported, and otherwise not at all. */
  lemma PollProjects(table: seq<Firing>, p: Poll, rule: Rule)
    requires Settled(p, rule)
    ensures Of(EvalFirst(table, p, NO_FAULTS, |p.rules|), rule.id)
      == Follow(Of(table, rule.id), rule, ReadingOf(p, rule))
  {
    if rule in p.rules {
      var i := IndexOf(p.rules, rule);
      OthersTurns(table, p, rule.id, 0, i);
      OwnTurn(EvalFirst(table, p, NO_FAULTS, i), p, rule);
      OthersTurns(table, p, rule.id, i + 1, |p.rules|);
    } else {
      forall k | 0 <= k < |p.rules| ensures p.rules[k].id != rule.id { assert p.rules[k] in p.rules; }
      OthersTurns(table, p, rule.id, 0, |p.rules|);
    }
  }

  lemma FollowOne(table: seq<Firing>, rule: Rule, r: Reading)
    ensures Follow(table, rule, [r]) == EvalRule(table, rule, r.value, r.at, HasOpen(table, rule.id), true)
  {
    assert [r][1..] == [];
  }

  function RunPolls(table: seq<Firing>, ps: seq<Poll>): seq<Firing> {
    if ps == [] then table
    else
      var p := ps[|ps| - 1];
      EvalFirst(RunPolls(table, ps[..|ps| - 1]), p, NO_FAULTS, |p.rules|)
  }

  /** The settings of the rule do not change; it may be active in some polls and inactive in others. */
  predicate AlwaysSettled(ps: seq<Poll>, rule: Rule) {
    forall i | 0 <= i < |ps| :: Settled(ps[i], rule)
  }

  /** The readings that the rule is evaluated on. */
  function Readings(ps: seq<Poll>, rule: Rule): seq<Reading> {
    if ps == [] then [] else Readings(ps[..|ps| - 1], rule) + ReadingOf(ps[|ps| - 1], rule)
  }

  lemma {:induction false} FollowConcat(table: seq<Firing>, rule: Rule, a: seq<Reading>, b: seq<Reading>)
    ensures Follow(table, rule, a + b) == Follow(Follow(table, rule, a), rule, b)
    decreases |a|
  {
    if a == [] {
      assert a + b == b;
    } else {
      assert (a + b)[1..] == a[1..] + b;
      FollowConcat(EvalRule(table, rule, a[0].value, a[0].at, HasOpen(table, rule.id), true), rule, a[1..], b);
    }
  }

  lemma {:induction false} PollsFollow(ps: seq<Poll>, rule: Rule)
    requires AlwaysSettled(ps, rule)
    ensures Of(RunPolls([], ps), rule.id) == Follow([], rule, Readings(ps, rule))
  {
    if ps == [] {
    } else {
      var init, p := ps[..|ps| - 1], ps[|ps| - 1];
      PollsFollow(init, rule);
      PollProjects(RunPolls([], init), p, rule);
      FollowConcat([], rule, Readings(init, rule), ReadingOf(p, rule));
    }
  }

  /** The event table is a run-length encoding: for any sequence of polls, among whatever other rules,
      the events of a rule are the maximal runs of triggered readings among those it is evaluated on. */
  lemma HistoryIsRunLength(ps: seq<Poll>, rule: Rule)
    requires AlwaysSettled(ps, rule)
    ensures Of(RunPolls([], ps), rule.id) == Runs(rule, Readings(ps, rule))
  {
    PollsFollow(ps, rule);
    FollowClosed([], rule, Readings(ps, rule));
    assert [] + Runs(rule, Readings(ps, rule)) == Runs(rule, Readings(ps, rule));
  }

  /** Hence at most one event of the rule is open, and one is open exactly after a triggered reading. */
  lemma OpenAfterTriggered(ps: seq<Poll>, rule: Rule)
    requires AlwaysSettled(ps, rule)
    ensures AtMostOneOpen(RunPolls([], ps), rule.id)
    ensures var rs := Readings(ps, rule);
      HasOpen(RunPolls([], ps), rule.id) <==> rs != [] && Triggered(rule, rs[|rs| - 1].value)
  {
    var table, rs := RunPolls([], ps), Readings(ps, rule);
    HistoryIsRunLength(ps, rule);
    RunsCloseInOrder(rule, rs);
    OfHasOpen(table, rule.id);
    OfAtMostOne(table, rule.id);
  }

  lemma {:induction false} OfAtMostOne(table: seq<Firing>, alert: nat)
    requires AtMostOneOpen(Of(table, alert), alert)
    ensures AtMostOneOpen(table, alert)
  {
    if table == [] {
    } else {
      var whole, rest := Of(table, alert), Of(table[1..], alert);
      assert forall i | 0 <= i < |rest| :: rest[i] == whole[i + (|whole| - |rest|)];
      OfAtMostOne(table[1..], alert);
      if table[0].alert == alert && Open(table[0]) {
        assert whole[0] == table[0];
        assert !HasOpen(rest, alert);
        OfHasOpen(table[1..], alert);
      }
      HeadThenTail(table, alert);
    }
  }

  lemma HeadThenTail(table: seq<Firing>, alert: nat)
    requires table != [] && AtMostOneOpen(table[1..], alert)
    requires table[0].alert == alert && Open(table[0]) ==> !HasOpen(table[1..], alert)
    ensures AtMostOneOpen(table, alert)
  {
    var rest := table[1..];
    assert forall j | 0 < j < |table| :: table[j] == rest[j - 1];
  }

  /** One evaluation of an active rule on value x, whatever the other rules do: with fires saying how x compares
      to the threshold, a rule that fires opens one event with that value unless one is open, and a rule that
      does not fire resolves its open events. */
  lemma EvaluatedByNumbers(table: seq<Firing>, p: Poll, k: nat, fires: bool)
    requires k < |p.rules| && DistinctRules(p.rules) && p.rules[k].metric in p.values
    requires Compares(p.rules[k].condition, p.values[p.rules[k].metric], p.rules[k].threshold, fires)
    ensures var id, x := p.rules[k].id, p.values[p.rules[k].metric];
      var was, now := Of(table, id), Of(EvalFirst(table, p, NO_FAULTS, |p.rules|), id);
      var open := exists i :: 0 <= i < |was| && was[i].resolved == None;
      && (fires && open ==> now == was)
      && (fires && !open ==> now == was + [Firing(id, p.at(k), x, None)])
      && (!fires ==> |now| == |was| && forall i | 0 <= i < |was| ::
            now[i] == if was[i].resolved == None then was[i].(resolved := Some(p.at(k))) else was[i])
  {
    var rule := p.rules[k];
    var was := Of(table, rule.id);
    TriggeredByNumbers(rule, p.values[rule.metric], fires);
    assert Settled(p, rule) by {
      forall r | r in p.rules && r.id == rule.id ensures r == rule {
        var j :| 0 <= j < |p.rules| && p.rules[j] == r;
      }
    }
    assert IndexOf(p.rules, rule) == k;
    PollProjects(table, p, rule);
    FollowOne(was, rule, Reading(p.at(k), p.values[rule.metric]));
    assert HasOpen(was, rule.id) <==> exists i :: 0 <= i < |was| && was[i].resolved == None;
  }

  /** Faults for one rule: a lost write changes nothing, and a failed EXISTS query counts as no open event. */
  lemma FaultsByNumbers(t: seq<Firing>, p: Poll, f: Faults, k: nat, fires: bool)
    requires k < |p.rules| && p.rules[k].metric in p.values
    requires Compares(p.rules[k].condition, p.values[p.rules[k].metric], p.rules[k].threshold, fires)
    ensures f.write(k) ==> EvalAt(t, p, f, k) == t
    ensures !f.write(k) && fires && f.look(k) ==>
      EvalAt(t, p, f, k) == t + [Firing(p.rules[k].id, p.at(k), p.values[p.rules[k].metric], None)]
    ensures !f.write(k) && !(fires && f.look(k)) ==> EvalAt(t, p, f, k) == EvalAt(t, p, NO_FAULTS, k)
  {
    TriggeredByNumbers(p.rules[k], p.values[p.rules[k].metric], fires);
  }

  lemma TriggeredByNumbers(rule: Rule, x: real, fires: bool)
    requires Compares(rule.condition, x, rule.threshold, fires)
    ensures Triggered(rule, x) <==> fires
  {
  }

  /** After any polls, an event of the rule is open exactly when its last reading compares to its threshold
      as the condition says. A later poll without a reading for the rule changes nothing. */
  lemma OpenByNumbers(ps: seq<Poll>, rule: Rule)
    requires AlwaysSettled(ps, rule) && ps != []
    ensures var p, before, after := ps[|ps| - 1], RunPolls([], ps[..|ps| - 1]), RunPolls([], ps);
      var open := exists i :: 0 <= i < |after| && after[i].alert == rule.id && after[i].resolved == None;
      if rule in p.rules && rule.metric in p.values then
        var x, t := p.values[rule.metric], rule.threshold;
        && (rule.condition == ">" ==> (open <==> x > t))
        && (rule.condition == ">=" ==> (open <==> x >= t))
        && (rule.condition == "<" ==> (open <==> x < t))
        && (rule.condition == "<=" ==> (open <==> x <= t))
        && (rule.condition == "==" ==> (open <==> x == t))
        && (rule.condition !in {">", ">=", "<", "<=", "=="} ==> !open)
      else Of(after, rule.id) == Of(before, rule.id)
  {
    var p, after := ps[|ps| - 1], RunPolls([], ps);
    OpenAfterTriggered(ps, rule);
    assert HasOpen(after, rule.id) <==>
      exists i :: 0 <= i < |after| && after[i].alert == rule.id && after[i].resolved == None;
    if rule in p.rules && rule.metric in p.values {
      var rs := Readings(ps, rule);
      assert rs[|rs| - 1] == ReadingOf(p, rule)[0];
    } else {
      PollProjects(RunPolls([], ps[..|ps| - 1]), p, rule);
    }
  }

  /** When it breaks: one evaluation keeps at most one open event exactly unless it inserts although one
      is open, which takes an EXISTS query that failed or that ran before another evaluator inserted. */
  lemma OneOpenExactly(table: seq<Firing>, rule: Rule, value: real, now: int, sawOpen: bool, writes: bool)
    requires AtMostOneOpen(table, rule.id)
    ensures AtMostOneOpen(EvalRule(table, rule, value, now, sawOpen, writes), rule.id)
      <==> !(Triggered(rule, value) && writes && !sawOpen && HasOpen(table, rule.id))
  {
    var f := Firing(rule.id, now, value, None);
    if Triggered(rule, value) && writes && !sawOpen {
      var t := table + [f];
      assert t[|table|] == f;
      if i :| 0 <= i < |table| && table[i].alert == rule.id && Open(table[i]) {
        assert t[i] == table[i];
        assert !AtMostOneOpen(t, rule.id);
      }
    }
  }

  /** Two evaluators of one machine that both look before either inserts leave two open events. */
  lemma TwoEvaluatorsOpenTwo(rule: Rule, value: real, now: int)
    requires Triggered(rule, value)
    ensures var seen := HasOpen([], rule.id);
      var table := EvalRule(EvalRule([], rule, value, now, seen, true), rule, value, now, seen, true);
      !AtMostOneOpen(table, rule.id)
  {
    var f := Firing(rule.id, now, value, None);
    var table := [f, f];
    assert table[0].alert == table[1].alert == rule.id && Open(table[0]) && Open(table[1]);
    assert [] + [f] + [f] == table;
  }
}
