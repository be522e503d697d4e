/**
 The dynamic query builders behind the alert-event and audit-log listings, and
 the counts drawn from alert events. A built query is a list of clauses with
 numbered placeholders plus the positional arguments; evaluating it follows
 SQL, where a comparison with NULL is never true.
 */
module EventQueries {
  import opened Wrappers

  datatype Value = Null | Text(s: string) | Instant(t: int) | Number(n: int)

  /** A conjunct of the WHERE clause; arg is the number n of a placeholder $n. */
  datatype Clause =
    | Equals(column: string, arg: nat)
    | AtLeast(column: string, arg: nat)
    | IsNull(column: string)
    | NotNull(column: string)

  /** Binding of $n: arguments are numbered from 1. */
  function Bound(args: seq<Value>, n: nat): Value {
    if 1 <= n <= |args| then args[n - 1] else Null
  }

  predicate ClauseHolds(c: Clause, args: seq<Value>, row: string -> Value) {
    match c
    case Equals(col, n) => row(col) != Null && row(col) == Bound(args, n)
    case AtLeast(col, n) => row(col).Instant? && Bound(args, n).Instant? && row(col).t >= Bound(args, n).t
    case IsNull(col) => row(col) == Null
    case NotNull(col) => row(col) != Null
  }

  predicate WhereHolds(where: seq<Clause>, args: seq<Value>, row: string -> Value) {
    forall i | 0 <= i < |where| :: ClauseHolds(where[i], args, row)
  }

  /** Every placeholder has an argument; Postgres rejects a query whose placeholders it cannot bind. */
  predicate WellBound(where: seq<Clause>, args: seq<Value>) {
    forall i | 0 <= i < |where| && (where[i].Equals? || where[i].AtLeast?) :: 1 <= where[i].arg <= |args|
  }

  /** Adding a clause, and arguments at the end, leaves the meaning of earlier placeholders alone. */
  lemma AddClause(where: seq<Clause>, args: seq<Value>, c: Clause, more: seq<Value>, row: string -> Value)
    requires WellBound(where, args)
    ensures WhereHolds(where + [c], args + more, row)
      <==> WhereHolds(where, args, row) && ClauseHolds(c, args + more, row)
  {
    var longer := where + [c];
    forall i | 0 <= i < |where| ensures longer[i] == where[i]
      ensures ClauseHolds(longer[i], args + more, row) == ClauseHolds(where[i], args, row)
    {
    }
    assert longer[|where|] == c;
  }

  /** A query under construction: the clauses, the arguments, and the number of the next placeholder. */
  datatype Draft = Draft(where: seq<Clause>, args: seq<Value>, argIdx: nat)

  predicate Sound(d: Draft) {
    WellBound(d.where, d.args) && d.argIdx == |d.args| + 1
  }

  predicate Accepts(d: Draft, row: string -> Value) {
    WhereHolds(d.where, d.args, row)
  }

  function With(d: Draft, c: Clause): Draft {
    d.(where := d.where + [c])
  }

  lemma WithMeans(d: Draft, c: Clause, row: string -> Value)
    requires WellBound(d.where, d.args)
    ensures Accepts(With(d, c), row) <==> Accepts(d, row) && ClauseHolds(c, d.args, row)
  {
    AddClause(d.where, d.args, c, [], row);
    assert d.args + [] == d.args;
  }

  /** One optional filter: an empty value adds nothing, any other one clause and one argument. */
  method AddText(d: Draft, column: string, value: string) returns (d': Draft)
    requires Sound(d)
    ensures Sound(d')
    ensures forall row :: Accepts(d', row) <==> Accepts(d, row) && (value != "" ==> row(column) == Text(value))
  {
    d' := d;
    if value != "" {
      var c := Equals(column, d.argIdx);
      d' := Draft(d.where + [c], d.args + [Text(value)], d.argIdx + 1);
      forall row ensures Accepts(d', row) <==> Accepts(d, row) && row(column) == Text(value) {
        AddClause(d.where, d.args, c, [Text(value)], row);
      }
    }
  }

  predicate NotBefore(v: Value, since: int) {
    v.Instant? && v.t >= since
  }

  method AddSince(d: Draft, column: string, since: Option<int>) returns (d': Draft)
    requires Sound(d)
    ensures Sound(d')
    ensures forall row :: Accepts(d', row) <==> Accepts(d, row) && (since.Some? ==> NotBefore(row(column), since.value))
  {
    d' := d;
    if since.Some? {
      var c := AtLeast(column, d.argIdx);
      d' := Draft(d.where + [c], d.args + [Instant(since.value)], d.argIdx + 1);
      forall row ensures Accepts(d', row) <==> Accepts(d, row) && NotBefore(row(column), since.value) {
        AddClause(d.where, d.args, c, [Instant(since.value)], row);
      }
    }
  }

  // ---- alert events ----

  /** An alert event joined with its alert, machine and line. */
  datatype EventRow = EventRow(id: string, site: string, line: string, lineName: string, machine: string,
                               machineName: string, alertName: string, severity: string, triggeredAt: int,
                               resolvedAt: Option<int>, acknowledgedBy: Option<string>)

  function EventColumn(e: EventRow): string -> Value {
    (col: string) =>
      if col == "pl.site_id" then Text(e.site)
      else if col == "pl.id" then Text(e.line)
      else if col == "m.id" then Text(e.machine)
      else if col == "pl.name" then Text(e.lineName)
      else if col == "m.name" then Text(e.machineName)
      else if col == "a.name" then Text(e.alertName)
      else if col == "a.severity" then Text(e.severity)
      else if col == "ae.triggered_at" then Instant(e.triggeredAt)
      else if col == "ae.resolved_at" then (if e.resolvedAt.Some? then Instant(e.resolvedAt.value) else Null)
      else if col == "ae.acknowledged_by" then (if e.acknowledgedBy.Some? then Text(e.acknowledgedBy.value) else Null)
      else Null
  }

  /** since is None for the zero time. */
  datatype EventParams = EventParams(site: string, severity: string, status: string, line: string, machine: string,
                                     since: Option<int>, limit: int, offset: int)

  predicate IsOpen(e: EventRow) { e.resolvedAt.None? && e.acknowledgedBy.None? }
  predicate IsAcknowledged(e: EventRow) { e.resolvedAt.None? && e.acknowledgedBy.Some? }
  predicate IsResolved(e: EventRow) { e.resolvedAt.Some? }

  predicate StatusMatches(status: string, e: EventRow) {
    match status
    case "open" => IsOpen(e)
    case "acknowledged" => IsAcknowledged(e)
    case "resolved" => IsResolved(e)
    case _ => true
  }

  /** The filters as the caller means them. */
  predicate EventMatches(p: EventParams, e: EventRow) {
    && e.site == p.site
    && (p.severity != "" ==> e.severity == p.severity)
    && (p.line != "" ==> e.line == p.line)
    && (p.machine != "" ==> e.machine == p.machine)
    && StatusMatches(p.status, e)
    && (p.since.Some? ==> e.triggeredAt >= p.since.value)
  }

  /** What the parameters ask for, condition by condition; an empty or zero one asks for nothing. */
  lemma EventMatchesMeans(p: EventParams, e: EventRow)
    ensures EventMatches(p, e) <==>
      && e.site == p.site
      && (p.severity == "" || e.severity == p.severity)
      && (p.line == "" || e.line == p.line)
      && (p.machine == "" || e.machine == p.machine)
      && (p.status == "open" ==> e.resolvedAt == None && e.acknowledgedBy == None)
      && (p.status == "acknowledged" ==> e.resolvedAt == None && e.acknowledgedBy != None)
      && (p.status == "resolved" ==> e.resolvedAt != None)
      && (p.since == None || e.triggeredAt >= p.since.value)
  {
  }

  method BuildEventQuery(p: EventParams) returns (d: Draft)
    ensures Sound(d)
    ensures forall e :: Accepts(d, EventColumn(e)) <==> EventMatches(p, e)
  {
    d := Draft([Equals("pl.site_id", 1)], [Text(p.site)], 2);
    assert forall e :: Accepts(d, EventColumn(e)) <==> e.site == p.site by {
      forall e ensures Accepts(d, EventColumn(e)) <==> e.site == p.site {
        AddClause([], [], Equals("pl.site_id", 1), [Text(p.site)], EventColumn(e));
        assert [] + d.where == d.where && [] + d.args == d.args;
      }
    }
    d := AddText(d, "a.severity", p.severity);
    d := AddText(d, "pl.id", p.line);
    d := AddText(d, "m.id", p.machine);
    d := AddStatus(d, p.status);
    d := AddSince(d, "ae.triggered_at", p.since);
  }

  method AddStatus(d: Draft, status: string) returns (d': Draft)
    requires Sound(d)
    ensures Sound(d')
    ensures forall e :: Accepts(d', EventColumn(e)) <==> Accepts(d, EventColumn(e)) && StatusMatches(status, e)
  {
    match status {
      case "open" => d' := With(With(d, IsNull("ae.resolved_at")), IsNull("ae.acknowledged_by"));
      case "acknowledged" => d' := With(With(d, NotNull("ae.acknowledged_by")), IsNull("ae.resolved_at"));
      case "resolved" => d' := With(d, NotNull("ae.resolved_at"));
      case _ => d' := d;
    }
    forall e ensures Accepts(d', EventColumn(e)) <==> Accepts(d, EventColumn(e)) && StatusMatches(status, e) {
      var row := EventColumn(e);
      WithMeans(d, IsNull("ae.resolved_at"), row);
      WithMeans(With(d, IsNull("ae.resolved_at")), IsNull("ae.acknowledged_by"), row);
      WithMeans(d, NotNull("ae.acknowledged_by"), row);
      WithMeans(With(d, NotNull("ae.acknowledged_by")), IsNull("ae.resolved_at"), row);
      WithMeans(d, NotNull("ae.resolved_at"), row);
    }
  }

  // ---- running a built query ----

  function Filter<T>(rows: seq<T>, keep: T -> bool): (r: seq<T>)
    ensures |r| <= |rows|
    ensures forall x | x in r :: x in rows && keep(x)
  {
    if rows == [] then []
    else (if keep(rows[0]) then [rows[0]] else []) + Filter(rows[1..], keep)
  }

  lemma {:induction false} FilterAgrees<T>(rows: seq<T>, p: T -> bool, q: T -> bool)
    requires forall x | x in rows :: p(x) == q(x)
    ensures Filter(rows, p) == Filter(rows, q)
  {
    if rows == [] {
    } else {
      FilterAgrees(rows[1..], p, q);
    }
  }

  lemma {:induction false} FilterCounts<T(!new)>(rows: seq<T>, keep: T -> bool, x: T)
    ensures multiset(Filter(rows, keep))[x] == if keep(x) then multiset(rows)[x] else 0
  {
    if rows == [] {
    } else {
      assert rows == [rows[0]] + rows[1..];
      FilterCounts(rows[1..], keep, x);
    }
  }

  /** Which rows match, and how many, does not depend on the order in which the rows come. */
  lemma FilterPermuted<T(!new)>(a: seq<T>, b: seq<T>, keep: T -> bool)
    requires multiset(a) == multiset(b)
    ensures multiset(Filter(a, keep)) == multiset(Filter(b, keep))
    ensures |Filter(a, keep)| == |Filter(b, keep)|
  {
    forall x ensures multiset(Filter(a, keep))[x] == multiset(Filter(b, keep))[x] {
      FilterCounts(a, keep, x);
      FilterCounts(b, keep, x);
    }
    assert multiset(Filter(a, keep)) == multiset(Filter(b, keep));
    assert |multiset(Filter(a, keep))| == |multiset(Filter(b, keep))|;
  }

  lemma {:induction false} FilterConcat<T>(a: seq<T>, b: seq<T>, keep: T -> bool)
    ensures Filter(a + b, keep) == Filter(a, keep) + Filter(b, keep)
  {
    if a == [] {
      assert a + b == b;
    } else {
      assert (a + b)[1..] == a[1..] + b;
      FilterConcat(a[1..], b, keep);
    }
  }

  lemma {:induction false} FilterAll<T>(rows: seq<T>, keep: T -> bool)
    requires forall x | x in rows :: keep(x)
    ensures Filter(rows, keep) == rows
  {
    if rows == [] {
    } else {
      FilterAll(rows[1..], keep);
    }
  }

  lemma {:induction false} FilterNone<T>(rows: seq<T>, keep: T -> bool)
    requires forall x | x in rows :: !keep(x)
    ensures Filter(rows, keep) == []
  {
    if rows == [] {
    } else {
      FilterNone(rows[1..], keep);
    }
  }

  /** The rows at positions offset to offset + limit - 1, as far as there are any. */
  function Page<T>(rows: seq<T>, offset: nat, limit: nat): (page: seq<T>)
    ensures |page| == if offset >= |rows| then 0 else if limit < |rows| - offset then limit else |rows| - offset
    ensures forall i | 0 <= i < |page| :: page[i] == rows[offset + i]
  {
    if offset >= |rows| then []
    else if offset + limit >= |rows| then rows[offset..]
    else rows[offset..offset + limit]
  }

  function Pages<T>(rows: seq<T>, limit: nat, n: nat): seq<T> {
    if n == 0 then [] else Pages(rows, limit, n - 1) + Page(rows, (n - 1) * limit, limit)
  }

  lemma PageExtends<T>(rows: seq<T>, start: nat, limit: nat)
    ensures (if start >= |rows| then rows else rows[..start]) + Page(rows, start, limit)
         == if start + limit >= |rows| then rows else rows[..start + limit]
  {
  }

  /** Under one fixed order, successive pages concatenate to the full result. */
  lemma {:induction false} PagesConcatenate<T>(rows: seq<T>, limit: nat, n: nat)
    ensures Pages(rows, limit, n) == if n * limit >= |rows| then rows else rows[..n * limit]
  {
    if n == 0 {
    } else {
      PagesConcatenate(rows, limit, n - 1);
      var start: nat := (n - 1) * limit;
      assert n * limit == start + limit;
      PageExtends(rows, start, limit);
    }
  }

  // ---- orders, and pages of different orders ----

  predicate Ordered<T>(rows: seq<T>, key: T -> real) {
    forall i, j | 0 <= i < j < |rows| :: key(rows[i]) <= key(rows[j])
  }

  /** What ORDER BY may return for the given rows: rows with equal keys come in any order. */
  ghost predicate Arranges<T>(a: seq<T>, rows: seq<T>, key: T -> real) {
    multiset(a) == multiset(rows) && Ordered(a, key)
  }

  ghost predicate DistinctRows<T>(rows: seq<T>) {
    forall i, j | 0 <= i < j < |rows| :: rows[i] != rows[j]
  }

  function UpTo<T>(key: T -> real, top: real): T -> bool {
    x => key(x) <= top
  }

  lemma {:induction false} UpToIsPrefix<T>(rows: seq<T>, key: T -> real, top: real)
    requires Ordered(rows, key)
    ensures var low := Filter(rows, UpTo(key, top)); low == rows[..|low|]
  {
    if rows == [] {
    } else if key(rows[0]) <= top {
      UpToIsPrefix(rows[1..], key, top);
      assert rows == [rows[0]] + rows[1..];
    } else {
      FilterNone(rows, UpTo(key, top));
    }
  }

  /** If no tie crosses the cut, every arrangement has the same rows before it. */
  lemma CutIsFixed<T(!new)>(o: seq<T>, a: seq<T>, key: T -> real, k: nat)
    requires Ordered(o, key) && Arranges(a, o, key)
    requires 0 < k < |o| && key(o[k - 1]) < key(o[k])
    ensures k <= |a| && multiset(a[..k]) == multiset(o[..k])
  {
    var low := UpTo(key, key(o[k - 1]));
    assert o == o[..k] + o[k..];
    FilterConcat(o[..k], o[k..], low);
    FilterAll(o[..k], low);
    FilterNone(o[k..], low);
    assert Filter(o, low) == o[..k];
    FilterPermuted(a, o, low);
    UpToIsPrefix(a, key, key(o[k - 1]));
  }

  lemma SplitCounts<T>(a: seq<T>, k: nat)
    requires k <= |a|
    ensures multiset(a) == multiset(a[..k]) + multiset(a[k..])
  {
    assert a == a[..k] + a[k..];
  }

  lemma {:induction false} DistinctOnce<T>(rows: seq<T>, x: T)
    requires DistinctRows(rows)
    ensures multiset(rows)[x] <= 1
  {
    if rows == [] {
    } else {
      assert rows == [rows[0]] + rows[1..];
      DistinctOnce(rows[1..], x);
      if rows[0] == x { assert x !in rows[1..]; }
    }
  }

  /** The order with the rows on both sides of the cut exchanged. */
  function Exchanged<T>(o: seq<T>, k: nat): seq<T>
    requires 0 < k < |o|
  {
    o[..k - 1] + [o[k], o[k - 1]] + o[k + 1..]
  }

  lemma ExchangedArranges<T>(o: seq<T>, key: T -> real, k: nat)
    requires 0 < k < |o| && Ordered(o, key) && key(o[k - 1]) == key(o[k])
    ensures Arranges(Exchanged(o, k), o, key)
  {
    assert o == o[..k - 1] + [o[k - 1], o[k]] + o[k + 1..];
    var a := Exchanged(o, k);
    assert forall i | 0 <= i < |o| :: key(a[i]) == key(o[i]);
  }

  lemma ExchangedRepeats<T>(o: seq<T>, k: nat)
    requires 0 < k < |o| && DistinctRows(o)
    ensures multiset(Page(o, 0, k) + Page(Exchanged(o, k), k, |o|)) != multiset(o)
  {
    var first, second, x := Page(o, 0, k), Page(Exchanged(o, k), k, |o|), o[k - 1];
    assert first[k - 1] == x && second[0] == x;
    assert x in first && x in second;
    assert multiset(first + second)[x] >= 2;
    DistinctOnce(o, x);
  }

  lemma FixedCutCovers<T(!new)>(o: seq<T>, a: seq<T>, b: seq<T>, key: T -> real, k: nat)
    requires Ordered(o, key) && Arranges(a, o, key) && Arranges(b, o, key)
    requires 0 < k < |o| && key(o[k - 1]) < key(o[k])
    ensures multiset(Page(a, 0, k) + Page(b, k, |o|)) == multiset(o)
  {
    CutIsFixed(o, a, key, k);
    CutIsFixed(o, b, key, k);
    SplitCounts(b, k);
    assert |a| == |multiset(a)| == |o| && |b| == |multiset(b)| == |o|;
    assert Page(a, 0, k) == a[..k] && Page(b, k, |o|) == b[k..];
  }

  /** When paging shows every row once: if every request may order ties anew, the first k rows and the
      rest make up the result, whatever the orders, if and only if no tie crosses the cut. */
  lemma PagesCoverExactly<T(!new)>(o: seq<T>, key: T -> real, k: nat)
    requires Ordered(o, key) && DistinctRows(o) && 0 < k < |o|
    ensures (forall a, b | Arranges(a, o, key) && Arranges(b, o, key) ::
               multiset(Page(a, 0, k) + Page(b, k, |o|)) == multiset(o))
      <==> key(o[k - 1]) != key(o[k])
  {
    if key(o[k - 1]) != key(o[k]) {
      forall a, b | Arranges(a, o, key) && Arranges(b, o, key)
        ensures multiset(Page(a, 0, k) + Page(b, k, |o|)) == multiset(o)
      {
        FixedCutCovers(o, a, b, key, k);
      }
    } else {
      ExchangedArranges(o, key, k);
      ExchangedRepeats(o, k);
      assert Arranges(o, o, key);
    }
  }

  // ---- listings ----

  datatype ListError = NegativeLimit | NegativeOffset

  datatype Listing<T> = Listing(rows: seq<T>, total: nat)

  /** LIMIT and OFFSET as bound by the last two placeholders; a limit of zero means the default. */
  function Window<T>(matches: seq<T>, total: nat, args: seq<Value>, limitArg: nat, offsetArg: nat)
    : Result<Listing<T>, ListError>
    requires Bound(args, limitArg).Number? && Bound(args, offsetArg).Number?
  {
    var limit, offset := Bound(args, limitArg).n, Bound(args, offsetArg).n;
    if limit < 0 then Failure(NegativeLimit)
    else if offset < 0 then Failure(NegativeOffset)
    else Success(Listing(Page(matches, offset, limit), total))
  }

  /** What a listing should return for matching rows in some order. */
  function Expected<T>(matches: seq<T>, limit: int, offset: int): Result<Listing<T>, ListError> {
    if limit < 0 then Failure(NegativeLimit)
    else if offset < 0 then Failure(NegativeOffset)
    else Success(Listing(Page(matches, offset, limit), |matches|))
  }

  /** r is a page of exactly the rows to keep, in ascending order of key. */
  ghost predicate Lists<T(!new)>(r: Result<Listing<T>, ListError>, table: seq<T>, keep: T -> bool, key: T -> real,
                                 limit: int, offset: int)
  {
    exists matches | Arranges(matches, Filter(table, keep), key) :: r == Expected(matches, limit, offset)
  }

  /** Two answers that together show every row once. */
  ghost predicate Cover<T(!new)>(first: Result<Listing<T>, ListError>, second: Result<Listing<T>, ListError>,
                          o: seq<T>) {
    first.Success? && second.Success? && multiset(first.value.rows + second.value.rows) == multiset(o)
  }

  /** The same for answers to requests: a page of k rows and the page after it show every matching row
      once, whatever they may answer, if and only if no tie crosses the cut. */
  lemma ListingsCoverExactly<T(!new)>(table: seq<T>, keep: T -> bool, key: T -> real, o: seq<T>, k: nat)
    requires Arranges(o, Filter(table, keep), key) && DistinctRows(o) && 0 < k < |o|
    ensures (forall first, second | Lists(first, table, keep, key, k, 0) && Lists(second, table, keep, key, |o|, k) ::
               Cover(first, second, o))
      <==> key(o[k - 1]) != key(o[k])
  {
    if key(o[k - 1]) != key(o[k]) {
      forall first, second | Lists(first, table, keep, key, k, 0) && Lists(second, table, keep, key, |o|, k)
        ensures Cover(first, second, o)
      {
        var a :| Arranges(a, Filter(table, keep), key) && first == Expected(a, k, 0);
        var b :| Arranges(b, Filter(table, keep), key) && second == Expected(b, |o|, k);
        FixedCutCovers(o, a, b, key, k);
      }
    } else {
      ExchangedArranges(o, key, k);
      ExchangedRepeats(o, k);
      assert Lists(Expected(o, k, 0), table, keep, key, k, 0);
      assert Lists(Expected(Exchanged(o, k), |o|, k), table, keep, key, |o|, k);
      assert !Cover(Expected(o, k, 0), Expected(Exchanged(o, k), |o|, k), o);
    }
  }

  lemma MoreArgs(where: seq<Clause>, args: seq<Value>, more: seq<Value>, row: string -> Value)
    requires WellBound(where, args)
    ensures WhereHolds(where, args + more, row) <==> WhereHolds(where, args, row)
  {
    assert forall i | 0 <= i < |where| :: ClauseHolds(where[i], args + more, row) == ClauseHolds(where[i], args, row);
  }

  // ---- the listing of alert events ----

  /** Where a collation puts a string; strings that it does not tell apart get the same place. */
  type Collation = string -> real

  datatype Sort = Sort(column: string, descending: bool)

  /** The ORDER BY that a request turns into. */
  function SortOf(sortBy: string, sortOrder: string): Sort {
    Sort(SortColumn(sortBy), sortOrder != "asc")
  }

  function SortColumn(sortBy: string): string {
    match sortBy
    case "severity" => "a.severity"
    case "alert_name" => "a.name"
    case "machine_name" => "m.name"
    case "line_name" => "pl.name"
    case _ => "ae.triggered_at"
  }

  function PlaceOf(collate: Collation, v: Value): real {
    match v
    case Text(s) => collate(s)
    case Instant(t) => t as real
    case Number(n) => n as real
    case Null => 0.0
  }

  function SqlKey(collate: Collation, sort: Sort): EventRow -> real {
    (e: EventRow) =>
      var place := PlaceOf(collate, EventColumn(e)(sort.column));
      if sort.descending then -place else place
  }

  /** The order that the caller asks for: by the named field, by trigger time for any other word, and
      the largest first unless ascending order is asked for. */
  function ChosenKey(collate: Collation, sortBy: string, sortOrder: string): EventRow -> real {
    (e: EventRow) =>
      var place :=
        if sortBy == "severity" then collate(e.severity)
        else if sortBy == "alert_name" then collate(e.alertName)
        else if sortBy == "machine_name" then collate(e.machineName)
        else if sortBy == "line_name" then collate(e.lineName)
        else e.triggeredAt as real;
      if sortOrder == "asc" then place else -place
  }

  lemma ColumnMeans(sortBy: string, e: EventRow)
    ensures EventColumn(e)(SortColumn(sortBy)) ==
      match sortBy
      case "severity" => Text(e.severity)
      case "alert_name" => Text(e.alertName)
      case "machine_name" => Text(e.machineName)
      case "line_name" => Text(e.lineName)
      case _ => Instant(e.triggeredAt)
  {
  }

  /** The generated ORDER BY sorts by the field the caller names, by trigger time for any other word, and
      downwards unless ascending order is asked for. */
  lemma SortMeans(collate: Collation, sortBy: string, sortOrder: string, e: EventRow)
    ensures SqlKey(collate, SortOf(sortBy, sortOrder))(e) ==
      var place :=
        if sortBy == "severity" then collate(e.severity)
        else if sortBy == "alert_name" then collate(e.alertName)
        else if sortBy == "machine_name" then collate(e.machineName)
        else if sortBy == "line_name" then collate(e.lineName)
        else e.triggeredAt as real;
      if sortOrder == "asc" then place else -place
    ensures SqlKey(collate, SortOf(sortBy, sortOrder))(e) == ChosenKey(collate, sortBy, sortOrder)(e)
  {
    ColumnMeans(sortBy, e);
  }

  function Meeting(p: EventParams): EventRow -> bool { e => EventMatches(p, e) }

  /** table holds the joined rows, and orderBy sorts the selected ones; collate is the collation it sorts by. */
  method ListAlertEvents(table: seq<EventRow>, orderBy: (seq<EventRow>, Sort) -> seq<EventRow>,
                         ghost collate: Collation,
                         p: EventParams, sortBy: string, sortOrder: string)
    returns (r: Result<Listing<EventRow>, ListError>)
    requires var matches, sort := Filter(table, Meeting(p)), SortOf(sortBy, sortOrder);
      Arranges(orderBy(matches, sort), matches, SqlKey(collate, sort))
    ensures var limit := if p.limit == 0 then 20 else p.limit;
      var matches := orderBy(Filter(table, Meeting(p)), SortOf(sortBy, sortOrder));
      && (r.Success? <==> limit >= 0 && p.offset >= 0)
      && (r.Success? ==> r.value.rows == Page(matches, p.offset, limit) && r.value.total == |Filter(table, Meeting(p))|)
      && r == Expected(matches, limit, p.offset)
      && Lists(r, table, Meeting(p), ChosenKey(collate, sortBy, sortOrder), limit, p.offset)
  {
    var limit := p.limit;
    if limit == 0 { limit := 20; }
    var d := BuildEventQuery(p);
    var keep := (e: EventRow) => Accepts(d, EventColumn(e));
    var total := |Filter(table, keep)|;
    var all := d.args + [Number(limit), Number(p.offset)];
    var keepAll := (e: EventRow) => WhereHolds(d.where, all, EventColumn(e));
    forall e ensures keepAll(e) == EventMatches(p, e) {
      MoreArgs(d.where, d.args, [Number(limit), Number(p.offset)], EventColumn(e));
    }
    FilterAgrees(table, keep, Meeting(p));
    FilterAgrees(table, keepAll, Meeting(p));
    var rows := orderBy(Filter(table, keepAll), SortOf(sortBy, sortOrder));
    ArrangedAsChosen(rows, Filter(table, Meeting(p)), collate, sortBy, sortOrder);
    r := Window(rows, total, all, d.argIdx, d.argIdx + 1);
    assert r == Expected(rows, limit, p.offset);
  }

  lemma ArrangedAsChosen(a: seq<EventRow>, rows: seq<EventRow>, collate: Collation, sortBy: string, sortOrder: string)
    requires Arranges(a, rows, SqlKey(collate, SortOf(sortBy, sortOrder)))
    ensures Arranges(a, rows, ChosenKey(collate, sortBy, sortOrder)) && |a| == |rows|
  {
    forall e ensures SqlKey(collate, SortOf(sortBy, sortOrder))(e) == ChosenKey(collate, sortBy, sortOrder)(e) {
      SortMeans(collate, sortBy, sortOrder, e);
    }
    assert |a| == |multiset(a)| == |multiset(rows)|;
  }

  const TIED: seq<EventRow> :=
    [EventRow("1", "s", "l", "line", "m", "machine", "hot", "info", 7, None, None),
     EventRow("2", "s", "l", "line", "m", "machine", "cold", "info", 7, None, None)]

  function Asking(limit: int, offset: int): EventParams {
    EventParams("s", "", "", "", "", None, limit, offset)
  }

  const KEEP: (seq<EventRow>, Sort) -> seq<EventRow> := (rows, _) => rows
  const TURN: (seq<EventRow>, Sort) -> seq<EventRow> :=
    (rows, _) => if |rows| == 2 then [rows[1], rows[0]] else rows

  lemma TiedArranges(collate: Collation, sort: Sort)
    requires sort == SortOf("", "")
    ensures Arranges(KEEP(TIED, sort), TIED, SqlKey(collate, sort))
    ensures Arranges(TURN(TIED, sort), TIED, SqlKey(collate, sort))
    ensures Page(KEEP(TIED, sort), 0, 1) == Page(TURN(TIED, sort), 1, 1) == [TIED[0]]
  {
    var turned := TURN(TIED, sort);
    assert turned == [TIED[1], TIED[0]] && TIED == [TIED[0], TIED[1]];
    assert multiset(turned) == multiset(TIED);
    forall e ensures SqlKey(collate, sort)(e) == -(e.triggeredAt as real) { ColumnMeans("", e); }
  }

  /** Lists one row of a table in which every event matches. */
  method ListOne(table: seq<EventRow>, orderBy: (seq<EventRow>, Sort) -> seq<EventRow>, ghost collate: Collation,
                 offset: int)
    returns (r: Result<Listing<EventRow>, ListError>)
    requires forall e | e in table :: EventMatches(Asking(1, offset), e)
    requires Arranges(orderBy(table, SortOf("", "")), table, SqlKey(collate, SortOf("", "")))
    ensures Lists(r, table, Meeting(Asking(1, offset)), ChosenKey(collate, "", ""), 1, offset)
    ensures r == Expected(orderBy(table, SortOf("", "")), 1, offset)
  {
    FilterAll(table, Meeting(Asking(1, offset)));
    r := ListAlertEvents(table, orderBy, collate, Asking(1, offset), "", "");
  }

  /** Two events triggered at the same time, listed by trigger time. Both requests order them correctly,
      but the second page repeats the first event, and no page shows the other. */
  method TiesMissEvents(ghost collate: Collation)
    returns (first: Result<Listing<EventRow>, ListError>, second: Result<Listing<EventRow>, ListError>)
    ensures Lists(first, TIED, Meeting(Asking(1, 0)), ChosenKey(collate, "", ""), 1, 0)
    ensures Lists(second, TIED, Meeting(Asking(1, 1)), ChosenKey(collate, "", ""), 1, 1)
    ensures first == second == Success(Listing([TIED[0]], 2))
  {
    TiedArranges(collate, SortOf("", ""));
    first := ListOne(TIED, KEEP, collate, 0);
    second := ListOne(TIED, TURN, collate, 1);
  }

  // ---- audit logs ----

  datatype AuditRow = AuditRow(user: Option<string>, action: string, resourceType: string, at: int)

  function AuditColumn(a: AuditRow): string -> Value {
    (col: string) =>
      if col == "al.user_id" then (if a.user.Some? then Text(a.user.value) else Null)
      else if col == "al.action" then Text(a.action)
      else if col == "al.resource_type" then Text(a.resourceType)
      else if col == "al.timestamp" then Instant(a.at)
      else Null
  }

  /** audit_logs has no site column; the site parameter exists but no clause uses it. */
  datatype AuditParams = AuditParams(site: string, user: string, action: string, resourceType: string,
                                     since: Option<int>, limit: int, offset: int)

  predicate AuditMatches(p: AuditParams, a: AuditRow) {
    && (p.user != "" ==> a.user == Some(p.user))
    && (p.action != "" ==> a.action == p.action)
    && (p.resourceType != "" ==> a.resourceType == p.resourceType)
    && (p.since.Some? ==> a.at >= p.since.value)
  }

  lemma AuditMatchesMeans(p: AuditParams, a: AuditRow)
    ensures AuditMatches(p, a) <==>
      && (p.user == "" || a.user == Some(p.user))
      && (p.action == "" || a.action == p.action)
      && (p.resourceType == "" || a.resourceType == p.resourceType)
      && (p.since == None || a.at >= p.since.value)
  {
  }

  method BuildAuditQuery(p: AuditParams) returns (d: Draft)
    ensures Sound(d)
    ensures forall a :: Accepts(d, AuditColumn(a)) <==> AuditMatches(p, a)
  {
    d := Draft([], [], 1);
    d := AddText(d, "al.user_id", p.user);
    d := AddText(d, "al.action", p.action);
    d := AddText(d, "al.resource_type", p.resourceType);
    d := AddSince(d, "al.timestamp", p.since);
  }

  function AuditMeeting(p: AuditParams): AuditRow -> bool { a => AuditMatches(p, a) }

  function NewestFirst(): AuditRow -> real { (a: AuditRow) => -(a.at as real) }

  /** orderBy sorts the selected rows by descending timestamp. */
  method ListAudit(table: seq<AuditRow>, orderBy: seq<AuditRow> -> seq<AuditRow>, p: AuditParams)
    returns (r: Result<Listing<AuditRow>, ListError>)
    requires var matches := Filter(table, AuditMeeting(p)); Arranges(orderBy(matches), matches, NewestFirst())
    ensures var limit := if p.limit == 0 then 50 else p.limit;
      var matches := orderBy(Filter(table, AuditMeeting(p)));
      && (r.Success? <==> limit >= 0 && p.offset >= 0)
      && (r.Success? ==> r.value.rows == Page(matches, p.offset, limit)
                         && r.value.total == |Filter(table, AuditMeeting(p))|)
      && Lists(r, table, AuditMeeting(p), NewestFirst(), limit, p.offset)
    ensures r.Success? ==> forall i, j | 0 <= i < j < |r.value.rows| :: r.value.rows[i].at >= r.value.rows[j].at
  {
    var limit := p.limit;
    if limit == 0 { limit := 50; }
    var d := BuildAuditQuery(p);
    var keep := (a: AuditRow) => Accepts(d, AuditColumn(a));
    var total := |Filter(table, keep)|;
    var all := d.args + [Number(limit), Number(p.offset)];
    var keepAll := (a: AuditRow) => WhereHolds(d.where, all, AuditColumn(a));
    forall a ensures keepAll(a) == AuditMatches(p, a) {
      MoreArgs(d.where, d.args, [Number(limit), Number(p.offset)], AuditColumn(a));
    }
    FilterAgrees(table, keep, AuditMeeting(p));
    FilterAgrees(table, keepAll, AuditMeeting(p));
    var rows := orderBy(Filter(table, keepAll));
    assert |rows| == |multiset(rows)| == |Filter(table, keepAll)|;
    r := Window(rows, total, all, d.argIdx, d.argIdx + 1);
    assert r == Expected(rows, limit, p.offset);
  }

  // ---- counts ----

  function ActiveAt(site: string): EventRow -> bool { (e: EventRow) => e.site == site && e.resolvedAt.None? }
  function OpenInfoAt(site: string): EventRow -> bool { e => OpenInfo(e, site) }

  /** active_alerts of the site summary. */
  function ActiveAlerts(table: seq<EventRow>, site: string): nat {
    |Filter(table, ActiveAt(site))|
  }

  function Total(table: seq<EventRow>, p: EventParams): nat {
    |Filter(table, Meeting(p))|
  }

  /** Whatever the other filters, the totals by status add up to the total without a status. */
  lemma TotalsAddUp(table: seq<EventRow>, p: EventParams)
    requires p.status !in ["open", "acknowledged", "resolved"]
    ensures Total(table, p) == Total(table, p.(status := "open")) + Total(table, p.(status := "acknowledged"))
                             + Total(table, p.(status := "resolved"))
  {
    var open, rest := Meeting(p.(status := "open")), Unopened(p);
    forall e ensures Meeting(p)(e) <==> open(e) || rest(e) { StatusDivides(p, e); }
    FilterSplit(table, Meeting(p), open, rest);
    var acked, resolved := Meeting(p.(status := "acknowledged")), Meeting(p.(status := "resolved"));
    forall e ensures rest(e) <==> acked(e) || resolved(e) { StatusDivides(p, e); }
    FilterSplit(table, rest, acked, resolved);
  }

  function Unopened(p: EventParams): EventRow -> bool { e => EventMatches(p, e) && !IsOpen(e) }

  lemma StatusDivides(p: EventParams, e: EventRow)
    requires p.status !in ["open", "acknowledged", "resolved"]
    ensures EventMatches(p.(status := "open"), e) <==> EventMatches(p, e) && IsOpen(e)
    ensures EventMatches(p.(status := "acknowledged"), e) <==> EventMatches(p, e) && IsAcknowledged(e)
    ensures EventMatches(p.(status := "resolved"), e) <==> EventMatches(p, e) && IsResolved(e)
  {
  }

  function AllOf(site: string, status: string): EventParams {
    EventParams(site, "", status, "", "", None, 0, 0)
  }

  lemma {:induction false} ActiveIsOpenPlusAcknowledged(table: seq<EventRow>, site: string)
    ensures ActiveAlerts(table, site) == Total(table, AllOf(site, "open")) + Total(table, AllOf(site, "acknowledged"))
  {
    if table == [] {
    } else {
      ActiveIsOpenPlusAcknowledged(table[1..], site);
    }
  }

  predicate OpenInfo(e: EventRow, site: string) {
    e.site == site && e.severity == "info" && IsOpen(e)
  }

  function Acknowledged(e: EventRow, site: string, user: string): EventRow {
    if OpenInfo(e, site) then e.(acknowledgedBy := Some(user)) else e
  }

  /** The events before position k acknowledged, the rest as they were. */
  function AcknowledgedUpTo(table: seq<EventRow>, site: string, user: string, k: nat): seq<EventRow>
    requires k <= |table|
  {
    seq(|table|, i requires 0 <= i < |table| => if i < k then Acknowledged(table[i], site, user) else table[i])
  }

  function OpenInfoCount(table: seq<EventRow>, site: string): nat {
    |Filter(table, OpenInfoAt(site))|
  }

  lemma {:induction false} FilterImage<T>(table: seq<T>, after: seq<T>, p: T -> bool, q: T -> bool)
    requires |after| == |table|
    requires forall i | 0 <= i < |table| :: p(after[i]) == q(table[i])
    ensures |Filter(after, p)| == |Filter(table, q)|
  {
    if table == [] {
    } else {
      FilterImage(table[1..], after[1..], p, q);
    }
  }

  lemma {:induction false} FilterSplit<T>(table: seq<T>, p: T -> bool, q: T -> bool, r: T -> bool)
    requires forall x | x in table :: (p(x) <==> q(x) || r(x)) && !(q(x) && r(x))
    ensures |Filter(table, p)| == |Filter(table, q)| + |Filter(table, r)|
  {
    if table == [] {
    } else {
      FilterSplit(table[1..], p, q, r);
    }
  }

  function Either(p: EventRow -> bool, q: EventRow -> bool): EventRow -> bool { e => p(e) || q(e) }
  function Except(p: EventRow -> bool, q: EventRow -> bool): EventRow -> bool { e => p(e) && !q(e) }

  /** Open info events are what the listing for severity info and status open counts. */
  lemma InfoIsListed(table: seq<EventRow>, site: string)
    ensures OpenInfoCount(table, site) == Total(table, EventParams(site, "info", "open", "", "", None, 0, 0))
  {
    FilterAgrees(table, OpenInfoAt(site), Meeting(EventParams(site, "info", "open", "", "", None, 0, 0)));
  }

  /** Acknowledging moves exactly the open info events of the site from open to acknowledged. */
  lemma AcknowledgingMoves(table: seq<EventRow>, site: string, user: string)
    ensures var after := AcknowledgedUpTo(table, site, user, |table|);
      && Total(table, AllOf(site, "open")) == Total(after, AllOf(site, "open")) + OpenInfoCount(table, site)
      && Total(after, AllOf(site, "acknowledged"))
         == Total(table, AllOf(site, "acknowledged")) + OpenInfoCount(table, site)
  {
    var after := AcknowledgedUpTo(table, site, user, |table|);
    var open, acked, info := Meeting(AllOf(site, "open")), Meeting(AllOf(site, "acknowledged")), OpenInfoAt(site);
    FilterImage(table, after, open, Except(open, info));
    FilterSplit(table, open, Except(open, info), info);
    FilterImage(table, after, acked, Either(acked, info));
    FilterSplit(table, Either(acked, info), acked, info);
  }

  lemma AcknowledgingKeeps(table: seq<EventRow>, site: string, user: string)
    ensures var after := AcknowledgedUpTo(table, site, user, |table|);
      && ActiveAlerts(after, site) == ActiveAlerts(table, site)
      && Total(after, AllOf(site, "resolved")) == Total(table, AllOf(site, "resolved"))
      && OpenInfoCount(after, site) == 0
  {
    var after := AcknowledgedUpTo(table, site, user, |table|);
    var resolved, info := Meeting(AllOf(site, "resolved")), OpenInfoAt(site);
    FilterImage(table, after, ActiveAt(site), ActiveAt(site));
    FilterImage(table, after, resolved, resolved);
    FilterImage(table, after, info, Except(info, info));
    FilterSplit(table, info, Except(info, info), info);
  }

  lemma AcknowledgeNext(table: seq<EventRow>, site: string, user: string, k: nat)
    requires k < |table|
    ensures AcknowledgedUpTo(table, site, user, k + 1)
         == AcknowledgedUpTo(table, site, user, k)[k := Acknowledged(table[k], site, user)]
    ensures OpenInfoCount(table[..k + 1], site)
      == OpenInfoCount(table[..k], site) + if OpenInfo(table[k], site) then 1 else 0
  {
    assert table[..k + 1] == table[..k] + [table[k]];
    FilterConcat(table[..k], [table[k]], OpenInfoAt(site));
  }

  class AlertStore {
    var table: seq<EventRow>

    constructor (rows: seq<EventRow>)
      ensures table == rows
    {
      table := rows;
    }

    /** Acknowledges every open info event of a site, the ones a listing for that severity and status
        counts, and returns how many rows that changed. */
    method AcknowledgeInfoEvents(site: string, user: string) returns (affected: nat)
      modifies this
      ensures |table| == |old(table)|
      ensures forall i | 0 <= i < |table| ::
        var was := old(table)[i];
        table[i] == if was.site == site && was.severity == "info"
                       && was.resolvedAt == None && was.acknowledgedBy == None
                    then was.(acknowledgedBy := Some(user)) else was
      ensures affected == Total(old(table), EventParams(site, "info", "open", "", "", None, 0, 0))
      ensures ActiveAlerts(table, site) == ActiveAlerts(old(table), site)
      ensures Total(table, AllOf(site, "acknowledged")) == Total(old(table), AllOf(site, "acknowledged")) + affected
      ensures OpenInfoCount(table, site) == 0
    {
      affected := 0;
      ghost var before := table;
      var k := 0;
      while k < |table|
        invariant 0 <= k <= |table| == |before|
        invariant table == AcknowledgedUpTo(before, site, user, k)
        invariant affected == OpenInfoCount(before[..k], site)
      {
        AcknowledgeNext(before, site, user, k);
        if OpenInfo(table[k], site) {
          table := table[k := table[k].(acknowledgedBy := Some(user))];
          affected := affected + 1;
        }
        k := k + 1;
      }
      assert before[..k] == before;
      AcknowledgingMoves(before, site, user);
      AcknowledgingKeeps(before, site, user);
      InfoIsListed(before, site);
    }

    /** Records who acknowledged one event; it stays resolved if it was. */
    method AcknowledgeAlertEvent(id: string, user: string)
      modifies this
      ensures |table| == |old(table)|
      ensures forall i | 0 <= i < |table| ::
        table[i] == (if old(table)[i].id == id then old(table)[i].(acknowledgedBy := Some(user)) else old(table)[i])
      ensures forall i | 0 <= i < |table| :: IsResolved(table[i]) <==> IsResolved(old(table)[i])
    {
      var k := 0;
      while k < |table|
        invariant 0 <= k <= |table| == |old(table)|
        invariant forall i | 0 <= i < |table| ::
          table[i] == (if i < k && old(table)[i].id == id then old(table)[i].(acknowledgedBy := Some(user))
            else old(table)[i])
      {
        if table[k].id == id { table := table[k := table[k].(acknowledgedBy := Some(user))]; }
        k := k + 1;
      }
    }
  }
}
