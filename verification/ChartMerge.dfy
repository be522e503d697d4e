/**
 The line chart's merge of many time series into one table keyed by time
 string and sorted by instant. Values are reals; instant gives the
 milliseconds a time cell denotes.
 */
module ChartMerge {
  import opened Wrappers

  datatype Point = Point(time: string, value: real)

  datatype Series = Series(id: string, points: seq<Point>)

  datatype Cell = Time(text: string) | Number(x: real)

  type Row = map<string, Cell>

  /** The Map of rows: keys in insertion order, with the row of each key. */
  datatype Table = Table(keys: seq<string>, rows: map<string, Row>)

  datatype Entry = Entry(id: string, time: string, value: real)

  function EntriesOf(s: Series): seq<Entry> {
    seq(|s.points|, i requires 0 <= i < |s.points| => Entry(s.id, s.points[i].time, s.points[i].value))
  }

  /** All points of all series in the order in which the loops visit them. */
  function Entries(all: seq<Series>): seq<Entry> {
    if all == [] then [] else Entries(all[..|all| - 1]) + EntriesOf(all[|all| - 1])
  }

  function Put(t: Table, e: Entry): Table {
    var row := if e.time in t.rows then t.rows[e.time] else map["time" := Time(e.time)];
    Table(if e.time in t.rows then t.keys else t.keys + [e.time],
          t.rows[e.time := row[e.id := Number(e.value)]])
  }

  function PutAll(es: seq<Entry>): Table {
    if es == [] then Table([], map[]) else Put(PutAll(es[..|es| - 1]), es[|es| - 1])
  }

  // ---- what a row should hold ----

  /** The last point of a source at a time, over all series with that id. */
  function LastAt(es: seq<Entry>, time: string, id: string): Option<real> {
    if es == [] then None
    else
      var e := es[|es| - 1];
      if e.time == time && e.id == id then Some(e.value) else LastAt(es[..|es| - 1], time, id)
  }

  predicate HasTime(es: seq<Entry>, time: string) {
    exists i | 0 <= i < |es| :: es[i].time == time
  }

  /** Time is the key column unless a source is itself called time and has a point there. */
  function ExpectedCell(es: seq<Entry>, time: string, column: string): Option<Cell> {
    match LastAt(es, time, column)
    case Some(x) => Some(Number(x))
    case None => if column == "time" then Some(Time(time)) else None
  }

  function CellOf(row: Row, column: string): Option<Cell> {
    if column in row then Some(row[column]) else None
  }

  predicate DistinctStrings(keys: seq<string>) {
    forall i, j | 0 <= i < j < |keys| :: keys[i] != keys[j]
  }

  ghost predicate RowHolds(es: seq<Entry>, time: string, row: Row) {
    forall column: string :: CellOf(row, column) == ExpectedCell(es, time, column)
  }

  lemma {:induction false} KeysAgree(es: seq<Entry>)
    ensures DistinctStrings(PutAll(es).keys)
    ensures forall k: string :: k in PutAll(es).keys <==> k in PutAll(es).rows
    ensures forall k: string :: k in PutAll(es).rows <==> HasTime(es, k)
  {
    if es == [] {
    } else {
      var init, e := es[..|es| - 1], es[|es| - 1];
      KeysAgree(init);
      forall k: string ensures HasTime(es, k) <==> HasTime(init, k) || k == e.time {
        if i :| 0 <= i < |init| && init[i].time == k { assert es[i].time == k; }
        if k == e.time { assert es[|es| - 1].time == k; }
        if i :| 0 <= i < |es| && es[i].time == k && k != e.time { assert init[i].time == k; }
      }
    }
  }

  lemma {:induction false} RowsAgree(es: seq<Entry>, time: string)
    ensures time in PutAll(es).rows ==> RowHolds(es, time, PutAll(es).rows[time])
    ensures time !in PutAll(es).rows ==> forall column: string :: LastAt(es, time, column) == None
  {
    if es == [] {
    } else {
      var init, e := es[..|es| - 1], es[|es| - 1];
      RowsAgree(init, time);
      if e.time == time {
        var row := PutAll(es).rows[time];
        var before := if time in PutAll(init).rows then PutAll(init).rows[time] else map["time" := Time(time)];
        assert row == before[e.id := Number(e.value)];
        forall column: string ensures CellOf(row, column) == ExpectedCell(es, time, column) {
          assert CellOf(before, column) == ExpectedCell(init, time, column);
          assert LastAt(es, time, column) == if e.id == column then Some(e.value) else LastAt(init, time, column);
        }
      } else {
        assert forall column: string :: LastAt(es, time, column) == LastAt(init, time, column);
      }
    }
  }

  // ---- sorting ----

  type Clock = Cell -> int

  function KeyOf(row: Row, clock: Clock): int {
    if "time" in row then clock(row["time"]) else 0
  }

  function Insert(rows: seq<Row>, r: Row, clock: Clock): seq<Row> {
    if rows != [] && KeyOf(rows[|rows| - 1], clock) > KeyOf(r, clock)
    then Insert(rows[..|rows| - 1], r, clock) + [rows[|rows| - 1]]
    else rows + [r]
  }

  /** A stable sort by instant. */
  function Sorted(rows: seq<Row>, clock: Clock): seq<Row> {
    if rows == [] then [] else Insert(Sorted(rows[..|rows| - 1], clock), rows[|rows| - 1], clock)
  }

  predicate Ascending(rows: seq<Row>, clock: Clock) {
    forall i, j | 0 <= i < j < |rows| :: KeyOf(rows[i], clock) <= KeyOf(rows[j], clock)
  }

  predicate StrictlyAscending(rows: seq<Row>, clock: Clock) {
    forall i, j | 0 <= i < j < |rows| :: KeyOf(rows[i], clock) < KeyOf(rows[j], clock)
  }

  predicate AllUpTo(rows: seq<Row>, key: int, clock: Clock) {
    forall i | 0 <= i < |rows| :: KeyOf(rows[i], clock) <= key
  }

  lemma SnocAscends(rows: seq<Row>, r: Row, clock: Clock)
    requires Ascending(rows, clock) && AllUpTo(rows, KeyOf(r, clock), clock)
    ensures Ascending(rows + [r], clock) && AllUpTo(rows + [r], KeyOf(r, clock), clock)
  {
  }

  lemma {:induction false} InsertSorts(rows: seq<Row>, r: Row, clock: Clock, top: int)
    requires Ascending(rows, clock) && AllUpTo(rows, top, clock) && KeyOf(r, clock) <= top
    ensures multiset(Insert(rows, r, clock)) == multiset(rows) + multiset{r}
    ensures Ascending(Insert(rows, r, clock), clock) && AllUpTo(Insert(rows, r, clock), top, clock)
  {
    if rows != [] && KeyOf(rows[|rows| - 1], clock) > KeyOf(r, clock) {
      var init, last := rows[..|rows| - 1], rows[|rows| - 1];
      assert rows == init + [last];
      InsertSorts(init, r, clock, KeyOf(last, clock));
      SnocAscends(Insert(init, r, clock), last, clock);
    } else {
      assert rows != [] ==> AllUpTo(rows, KeyOf(rows[|rows| - 1], clock), clock);
      SnocAscends(rows, r, clock);
    }
  }

  lemma {:induction false} HasTop(rows: seq<Row>, r: Row, clock: Clock) returns (top: int)
    ensures AllUpTo(rows, top, clock) && KeyOf(r, clock) <= top
  {
    if rows == [] {
      top := KeyOf(r, clock);
    } else {
      top := HasTop(rows[..|rows| - 1], r, clock);
      var k := KeyOf(rows[|rows| - 1], clock);
      top := if k > top then k else top;
    }
  }

  function KeysOf(rows: seq<Row>, clock: Clock): seq<int> {
    seq(|rows|, i requires 0 <= i < |rows| => KeyOf(rows[i], clock))
  }

  lemma KeysSnoc(rows: seq<Row>, r: Row, clock: Clock)
    ensures KeysOf(rows + [r], clock) == KeysOf(rows, clock) + [KeyOf(r, clock)]
  {
  }

  lemma {:induction false} InsertKeys(rows: seq<Row>, r: Row, clock: Clock)
    ensures multiset(KeysOf(Insert(rows, r, clock), clock)) == multiset(KeysOf(rows, clock)) + multiset{KeyOf(r, clock)}
  {
    if rows != [] && KeyOf(rows[|rows| - 1], clock) > KeyOf(r, clock) {
      var init, last := rows[..|rows| - 1], rows[|rows| - 1];
      InsertKeys(init, r, clock);
      KeysSnoc(Insert(init, r, clock), last, clock);
      KeysSnoc(init, last, clock);
      assert rows == init + [last];
    } else {
      KeysSnoc(rows, r, clock);
    }
  }

  lemma {:induction false} SortKeys(rows: seq<Row>, clock: Clock)
    ensures multiset(KeysOf(Sorted(rows, clock), clock)) == multiset(KeysOf(rows, clock))
  {
    if rows == [] {
    } else {
      var init, last := rows[..|rows| - 1], rows[|rows| - 1];
      SortKeys(init, clock);
      InsertKeys(Sorted(init, clock), last, clock);
      KeysSnoc(init, last, clock);
      assert rows == init + [last];
    }
  }

  predicate NoRepeats(keys: seq<int>) {
    forall i, j | 0 <= i < j < |keys| :: keys[i] != keys[j]
  }

  lemma {:induction false} NoRepeatsByCount(keys: seq<int>)
    ensures NoRepeats(keys) <==> forall k :: multiset(keys)[k] <= 1
  {
    if keys == [] {
    } else {
      var init, last := keys[..|keys| - 1], keys[|keys| - 1];
      assert keys == init + [last];
      NoRepeatsByCount(init);
      if NoRepeats(keys) {
        assert last !in init;
      } else if NoRepeats(init) {
        var i :| 0 <= i < |init| && init[i] == last;
        assert last in init && multiset(keys)[last] == multiset(init)[last] + 1;
      } else {
        var k :| multiset(init)[k] > 1;
        assert multiset(keys)[k] > 1;
      }
    }
  }

  lemma {:induction false} SortSorts(rows: seq<Row>, clock: Clock)
    ensures multiset(Sorted(rows, clock)) == multiset(rows)
    ensures Ascending(Sorted(rows, clock), clock)
  {
    if rows == [] {
    } else {
      var init := rows[..|rows| - 1];
      assert rows == init + [rows[|rows| - 1]];
      SortSorts(init, clock);
      var top := HasTop(Sorted(init, clock), rows[|rows| - 1], clock);
      InsertSorts(Sorted(init, clock), rows[|rows| - 1], clock, top);
    }
  }

  // ---- the chart data ----

  function RowsInOrder(t: Table): seq<Row>
    requires forall k | k in t.keys :: k in t.rows
  {
    seq(|t.keys|, i requires 0 <= i < |t.keys| => t.rows[t.keys[i]])
  }

  lemma PutAllSnoc(es: seq<Entry>, e: Entry)
    ensures PutAll(es + [e]) == Put(PutAll(es), e)
  {
    assert (es + [e])[..|es|] == es;
  }

  /** Adds one point of a source, with a new row if its time is new. */
  method AddPoint(given: Table, id: string, point: Point) returns (t: Table)
    ensures t == Put(given, Entry(id, point.time, point.value))
  {
    t := given;
    var key := point.time;
    if key !in t.rows { t := Table(t.keys + [key], t.rows[key := map["time" := Time(key)]]); }
    t := t.(rows := t.rows[key := t.rows[key][id := Number(point.value)]]);
  }

  /** The inner loop: adds the points of one series to the table. */
  method MergeSeries(given: Table, s: Series, ghost done: seq<Entry>) returns (t: Table)
    requires given == PutAll(done)
    ensures t == PutAll(done + EntriesOf(s))
  {
    t := given;
    ghost var es := EntriesOf(s);
    assert done + es[..0] == done;
    for k := 0 to |s.points|
      invariant t == PutAll(done + es[..k])
    {
      assert done + es[..k + 1] == (done + es[..k]) + [es[k]];
      PutAllSnoc(done + es[..k], es[k]);
      t := AddPoint(t, s.id, s.points[k]);
    }
    assert es[..|s.points|] == es;
  }

  // ---- the entries, point by point ----

  /** Point k of series s belongs to this source and time. */
  predicate PointOf(all: seq<Series>, s: nat, k: nat, time: string, id: string) {
    s < |all| && k < |all[s].points| && all[s].id == id && all[s].points[k].time == time
  }

  predicate SomePointAt(all: seq<Series>, time: string) {
    exists s, k | 0 <= s < |all| && 0 <= k < |all[s].points| :: all[s].points[k].time == time
  }

  /** x is the value of the last point of this source at this time, over all series in order. */
  ghost predicate LastPoint(all: seq<Series>, time: string, id: string, x: real) {
    exists s: nat, k: nat | PointOf(all, s, k, time, id) ::
      all[s].points[k].value == x && IsLast(all, s, k, time, id)
  }

  ghost predicate IsLast(all: seq<Series>, s: nat, k: nat, time: string, id: string) {
    forall s': nat, k': nat | PointOf(all, s', k', time, id) :: s' < s || (s' == s && k' <= k)
  }

  lemma {:induction false} LastAtConcat(a: seq<Entry>, b: seq<Entry>, time: string, id: string)
    ensures LastAt(a + b, time, id) == if LastAt(b, time, id) == None then LastAt(a, time, id) else LastAt(b, time, id)
  {
    if b == [] {
      assert a + b == a;
    } else {
      assert (a + b)[..|a + b| - 1] == a + b[..|b| - 1];
      LastAtConcat(a, b[..|b| - 1], time, id);
    }
  }

  /** The position of the entry that LastAt picks. */
  lemma {:induction false} LastAtPicks(es: seq<Entry>, time: string, id: string) returns (k: nat)
    ensures LastAt(es, time, id).Some? ==>
      && k < |es| && es[k].time == time && es[k].id == id && es[k].value == LastAt(es, time, id).value
      && forall k' | k < k' < |es| :: !(es[k'].time == time && es[k'].id == id)
    ensures LastAt(es, time, id).None? ==> forall k' | 0 <= k' < |es| :: !(es[k'].time == time && es[k'].id == id)
  {
    k := 0;
    if es == [] {
    } else if es[|es| - 1].time == time && es[|es| - 1].id == id {
      k := |es| - 1;
    } else {
      k := LastAtPicks(es[..|es| - 1], time, id);
    }
  }

  lemma {:induction false} EntriesPick(all: seq<Series>, time: string, id: string) returns (s: nat, k: nat)
    ensures LastAt(Entries(all), time, id).Some? ==>
      && PointOf(all, s, k, time, id) && all[s].points[k].value == LastAt(Entries(all), time, id).value
      && IsLast(all, s, k, time, id)
    ensures LastAt(Entries(all), time, id).None? ==> forall s': nat, k': nat :: !PointOf(all, s', k', time, id)
  {
    s, k := 0, 0;
    if all == [] {
    } else {
      var n := |all| - 1;
      var init, es := all[..n], EntriesOf(all[n]);
      LastAtConcat(Entries(init), es, time, id);
      var j := LastAtPicks(es, time, id);
      var s0, k0 := EntriesPick(init, time, id);
      forall s': nat, k': nat ensures PointOf(all, s', k', time, id) <==>
        PointOf(init, s', k', time, id) || (s' == n && k' < |es| && es[k'].time == time && es[k'].id == id)
      {
      }
      if LastAt(es, time, id).Some? {
        s, k := n, j;
      } else {
        s, k := s0, k0;
      }
    }
  }

  /** What the table records for a source at a time is the value of its last point there. */
  lemma LastAtMeans(all: seq<Series>, time: string, id: string, x: real)
    ensures LastAt(Entries(all), time, id) == Some(x) <==> LastPoint(all, time, id, x)
  {
    var s, k := EntriesPick(all, time, id);
    if LastPoint(all, time, id, x) {
      var s1: nat, k1: nat :| PointOf(all, s1, k1, time, id) && all[s1].points[k1].value == x
        && IsLast(all, s1, k1, time, id);
      assert s == s1 && k == k1;
    }
  }

  lemma {:induction false} TimesMean(all: seq<Series>, time: string)
    ensures HasTime(Entries(all), time) <==> SomePointAt(all, time)
  {
    if all == [] {
    } else {
      var n := |all| - 1;
      var init, es, whole := Entries(all[..n]), EntriesOf(all[n]), Entries(all);
      TimesMean(all[..n], time);
      assert whole == init + es;
      if i :| 0 <= i < |whole| && whole[i].time == time {
        if i >= |init| { assert all[n].points[i - |init|].time == time; }
        else { assert HasTime(init, time); }
      }
      if s, k :| 0 <= s < |all| && 0 <= k < |all[s].points| && all[s].points[k].time == time {
        if s == n { assert whole[|init| + k].time == time; }
        else {
          assert all[..n][s].points[k].time == time;
          var i :| 0 <= i < |init| && init[i].time == time;
          assert whole[i].time == time;
        }
      }
    }
  }

  /** A row of the chart for this time: it holds x under an id exactly when x is the value of the last
      point of that source at that time, and besides only the time itself under "time". */
  ghost predicate RowShows(all: seq<Series>, time: string, row: Row) {
    && "time" in row
    && (forall id: string, x: real :: (id in row && row[id] == Number(x)) <==> LastPoint(all, time, id, x))
    && (forall id | id in row && row[id].Time? :: id == "time" && row[id] == Time(time))
  }

  lemma RowHoldsShows(all: seq<Series>, time: string, row: Row)
    requires RowHolds(Entries(all), time, row)
    ensures RowShows(all, time, row)
  {
    var es := Entries(all);
    assert CellOf(row, "time") == ExpectedCell(es, time, "time");
    forall id: string, x: real ensures (id in row && row[id] == Number(x)) <==> LastPoint(all, time, id, x) {
      assert CellOf(row, id) == ExpectedCell(es, time, id);
      LastAtMeans(all, time, id, x);
    }
    forall id | id in row && row[id].Time? ensures id == "time" && row[id] == Time(time) {
      assert CellOf(row, id) == ExpectedCell(es, time, id);
    }
  }

  /** The time strings that occur in any series. */
  function TimesOf(all: seq<Series>): set<string> {
    set s, k | 0 <= s < |all| && 0 <= k < |all[s].points| :: all[s].points[k].time
  }

  lemma {:induction false} DistinctSize(keys: seq<string>, all: set<string>)
    requires DistinctStrings(keys) && forall k: string :: k in keys <==> k in all
    ensures |keys| == |all|
  {
    if keys == [] {
      assert all == {};
    } else {
      var last := keys[|keys| - 1];
      assert forall k: string :: k in keys[..|keys| - 1] <==> k in all - {last};
      DistinctSize(keys[..|keys| - 1], all - {last});
    }
  }

  /** One row for each time string that occurs, and no other. */
  ghost predicate OneRowPerTime(chart: seq<Row>, all: seq<Series>) {
    && |chart| == |TimesOf(all)|
    && (forall time | time in TimesOf(all) :: HasRow(chart, all, time))
    && (forall row | row in chart :: HasTimeOf(all, row))
  }

  ghost predicate HasRow(chart: seq<Row>, all: seq<Series>, time: string) {
    exists row | row in chart :: RowShows(all, time, row)
  }

  ghost predicate HasTimeOf(all: seq<Series>, row: Row) {
    exists time | time in TimesOf(all) :: RowShows(all, time, row)
  }

  predicate InTimeOrder(chart: seq<Row>, clock: Clock) {
    && (forall i | 0 <= i < |chart| :: "time" in chart[i])
    && (forall i, j | 0 <= i < j < |chart| :: clock(chart[i]["time"]) <= clock(chart[j]["time"]))
  }

  lemma TimesAreKeys(all: seq<Series>)
    ensures KeysCover(Entries(all))
    ensures forall k: string :: k in PutAll(Entries(all)).keys <==> k in TimesOf(all)
    ensures |PutAll(Entries(all)).keys| == |TimesOf(all)|
  {
    var keys := PutAll(Entries(all)).keys;
    TimesCovered(Entries(all));
    KeysAgree(Entries(all));
    forall k: string ensures k in keys <==> k in TimesOf(all) { TimesMean(all, k); }
    DistinctSize(keys, TimesOf(all));
  }

  lemma RowsShow(all: seq<Series>, k: string)
    requires k in PutAll(Entries(all)).rows
    ensures RowShows(all, k, PutAll(Entries(all)).rows[k])
  {
    RowsAgree(Entries(all), k);
    RowHoldsShows(all, k, PutAll(Entries(all)).rows[k]);
  }

  /** The sorted rows of the table are the chart of the series, described by their points alone. */
  lemma SeriesChart(all: seq<Series>, clock: Clock)
    ensures KeysCover(Entries(all))
    ensures var chart := Sorted(RowsInOrder(PutAll(Entries(all))), clock);
      OneRowPerTime(chart, all) && InTimeOrder(chart, clock)
  {
    TimesAreKeys(all);
    ChartAgreesWithSeries(Entries(all), clock);
    var t := PutAll(Entries(all));
    var chart := Sorted(RowsInOrder(t), clock);
    forall time | time in TimesOf(all) ensures HasRow(chart, all, time) {
      RowsShow(all, time);
      assert t.rows[time] in chart;
    }
    forall row | row in chart ensures HasTimeOf(all, row) {
      var k :| k in t.keys && t.rows[k] == row;
      RowsShow(all, k);
    }
    SortedInTime(chart, all, clock);
  }

  lemma SortedInTime(chart: seq<Row>, all: seq<Series>, clock: Clock)
    requires Ascending(chart, clock) && forall row | row in chart :: HasTimeOf(all, row)
    ensures InTimeOrder(chart, clock)
  {
    forall i | 0 <= i < |chart| ensures "time" in chart[i] { assert HasTimeOf(all, chart[i]); }
    forall i, j | 0 <= i < j < |chart| ensures clock(chart[i]["time"]) <= clock(chart[j]["time"]) {
      assert KeyOf(chart[i], clock) <= KeyOf(chart[j], clock);
    }
  }

  /** Merges the points of all series into one row per time string, and sorts the rows. */
  method Merge(all: seq<Series>, clock: Clock) returns (chartData: seq<Row>)
    ensures KeysCover(Entries(all))
    ensures chartData == Sorted(RowsInOrder(PutAll(Entries(all))), clock)
    ensures OneRowPerTime(chartData, all) && InTimeOrder(chartData, clock)
  {
    var t := Table([], map[]);
    for s := 0 to |all|
      invariant t == PutAll(Entries(all[..s]))
    {
      assert all[..s + 1][..s] == all[..s];
      t := MergeSeries(t, all[s], Entries(all[..s]));
    }
    assert all[..|all|] == all;
    KeysAgree(Entries(all));
    SeriesChart(all, clock);
    chartData := Sorted(RowsInOrder(t), clock);
  }

  lemma TimesCovered(es: seq<Entry>)
    ensures KeysCover(es)
  {
    KeysAgree(es);
    forall i | 0 <= i < |es| ensures es[i].time in PutAll(es).keys {
      assert HasTime(es, es[i].time);
    }
  }

  /** The table has exactly one row for each time that occurs. */
  predicate KeysCover(es: seq<Entry>) {
    var t := PutAll(es);
    && DistinctStrings(t.keys)
    && (forall k | k in t.keys :: k in t.rows && HasTime(es, k))
    && (forall i | 0 <= i < |es| :: es[i].time in t.keys)
  }

  /** The instant of the row of a time. */
  function InstantAt(es: seq<Entry>, time: string, clock: Clock): int {
    match ExpectedCell(es, time, "time")
    case Some(cell) => clock(cell)
    case None => 0
  }

  /** The chart shows exactly one row per distinct time, each holding for every source its last point
      at that time and nothing else, in ascending order of instants. */
  lemma ChartAgreesWithSeries(es: seq<Entry>, clock: Clock)
    ensures KeysCover(es)
    ensures var t := PutAll(es); var chart := Sorted(RowsInOrder(t), clock);
      && |chart| == |t.keys| && Ascending(chart, clock)
      && (forall k | k in t.keys :: t.rows[k] in chart && RowHolds(es, k, t.rows[k]))
      && (forall row | row in chart :: exists k :: k in t.keys && t.rows[k] == row)
  {
    TimesCovered(es);
    var t := PutAll(es);
    SortSorts(RowsInOrder(t), clock);
    SortedSame(RowsInOrder(t), clock);
    forall k | k in t.keys ensures t.rows[k] in Sorted(RowsInOrder(t), clock) && RowHolds(es, k, t.rows[k]) {
      RowsAgree(es, k);
      RowOfKey(t, k);
    }
    forall row | row in Sorted(RowsInOrder(t), clock) ensures exists k :: k in t.keys && t.rows[k] == row {
      KeyOfRow(t, row);
    }
  }

  lemma SortedSame(rows: seq<Row>, clock: Clock)
    ensures |Sorted(rows, clock)| == |rows|
    ensures forall row :: row in Sorted(rows, clock) <==> row in rows
  {
    SortSorts(rows, clock);
    var chart := Sorted(rows, clock);
    assert |chart| == |multiset(chart)| == |multiset(rows)| == |rows|;
    assert forall row :: row in chart <==> row in multiset(chart);
    assert forall row :: row in rows <==> row in multiset(rows);
  }

  lemma RowOfKey(t: Table, k: string)
    requires forall key | key in t.keys :: key in t.rows
    requires k in t.keys
    ensures t.rows[k] in RowsInOrder(t)
  {
    var i :| 0 <= i < |t.keys| && t.keys[i] == k;
    assert RowsInOrder(t)[i] == t.rows[k];
  }

  lemma KeyOfRow(t: Table, row: Row)
    requires forall key | key in t.keys :: key in t.rows
    requires row in RowsInOrder(t)
    ensures exists k :: k in t.keys && t.rows[k] == row
  {
    var i :| 0 <= i < |RowsInOrder(t)| && RowsInOrder(t)[i] == row;
    assert t.keys[i] in t.keys;
  }

  predicate InstantsDiffer(es: seq<Entry>, clock: Clock) {
    forall i, j | 0 <= i < |es| && 0 <= j < |es| && es[i].time != es[j].time ::
      InstantAt(es, es[i].time, clock) != InstantAt(es, es[j].time, clock)
  }

  /** Time strings are compared as strings but sorted as instants: the rows are strictly increasing in
      time exactly when no two different time strings denote the same instant. */
  lemma StrictExactly(es: seq<Entry>, clock: Clock)
    ensures KeysCover(es)
    ensures StrictlyAscending(Sorted(RowsInOrder(PutAll(es)), clock), clock) <==> InstantsDiffer(es, clock)
  {
    TimesCovered(es);
    SortedStrict(RowsInOrder(PutAll(es)), clock);
    forall k | k in PutAll(es).keys ensures KeyOf(PutAll(es).rows[k], clock) == InstantAt(es, k, clock) {
      RowInstant(es, k, clock);
    }
    InstantsApart(es, clock);
  }

  lemma RowInstant(es: seq<Entry>, k: string, clock: Clock)
    requires k in PutAll(es).rows
    ensures KeyOf(PutAll(es).rows[k], clock) == InstantAt(es, k, clock)
  {
    RowsAgree(es, k);
    assert CellOf(PutAll(es).rows[k], "time") == ExpectedCell(es, k, "time");
  }

  lemma SortedStrict(rows: seq<Row>, clock: Clock)
    ensures StrictlyAscending(Sorted(rows, clock), clock) <==> NoRepeats(KeysOf(rows, clock))
  {
    SortSorts(rows, clock);
    SortKeys(rows, clock);
    NoRepeatsByCount(KeysOf(rows, clock));
    NoRepeatsByCount(KeysOf(Sorted(rows, clock), clock));
    StrictIsNoRepeats(Sorted(rows, clock), clock);
  }

  lemma StrictIsNoRepeats(chart: seq<Row>, clock: Clock)
    requires Ascending(chart, clock)
    ensures StrictlyAscending(chart, clock) <==> NoRepeats(KeysOf(chart, clock))
  {
    var keys := KeysOf(chart, clock);
    assert forall i | 0 <= i < |chart| :: keys[i] == KeyOf(chart[i], clock);
    if NoRepeats(keys) {
      forall i, j | 0 <= i < j < |chart| ensures KeyOf(chart[i], clock) < KeyOf(chart[j], clock) {
        assert keys[i] != keys[j];
      }
    }
  }

  lemma InstantsApart(es: seq<Entry>, clock: Clock)
    requires KeysCover(es)
    requires forall k | k in PutAll(es).keys :: KeyOf(PutAll(es).rows[k], clock) == InstantAt(es, k, clock)
    ensures NoRepeats(KeysOf(RowsInOrder(PutAll(es)), clock)) <==> InstantsDiffer(es, clock)
  {
    var t := PutAll(es);
    var instants := KeysOf(RowsInOrder(t), clock);
    assert forall a | 0 <= a < |t.keys| :: instants[a] == InstantAt(es, t.keys[a], clock);
    if NoRepeats(instants) {
      forall i, j | 0 <= i < |es| && 0 <= j < |es| && es[i].time != es[j].time
        ensures InstantAt(es, es[i].time, clock) != InstantAt(es, es[j].time, clock)
      {
        var a :| 0 <= a < |t.keys| && t.keys[a] == es[i].time;
        var b :| 0 <= b < |t.keys| && t.keys[b] == es[j].time;
        assert instants[a] != instants[b];
      }
    } else {
      var a, b :| 0 <= a < b < |instants| && instants[a] == instants[b];
      assert t.keys[a] in t.keys && t.keys[b] in t.keys && t.keys[a] != t.keys[b];
      var i :| 0 <= i < |es| && es[i].time == t.keys[a];
      var j :| 0 <= j < |es| && es[j].time == t.keys[b];
    }
  }
}
