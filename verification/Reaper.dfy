/**
 The stale-worker reaper that runs before every worker listing, and the
 machine counts the listing reports.
 */
module Reaper {
  import opened FleetTables

  /** machine_workers.worker_ref_id references workers(id). */
  predicate RefsValid(s: State) {
    forall m | m in s.leases :: s.leases[m].row in s.workers
  }

  lemma {:induction false} RefsStayValid(s: State, es: seq<Event>)
    requires RefsValid(s)
    ensures RefsValid(Exec(s, es))
    decreases |es|
  {
    if es == [] {
    } else {
      RefsStayValid(Next(s, es[0]), es[1..]);
    }
  }

  /** Rows that the step from s to t turned offline. */
  predicate NewlyOffline(s: State, t: State, r: RowId) {
    r in s.workers && s.workers[r].status == Online && r in t.workers && t.workers[r].status == Offline
  }

  predicate LostLease(s: State, t: State, m: string) {
    m in s.leases && m !in t.leases
  }

  /** The reaper, described by comparing the tables before and after. */
  lemma ReapCorrect(s: State)
    requires RefsValid(s)
    ensures var t := Next(s, Reap);
      && t.workers.Keys == s.workers.Keys && t.machines.Keys == s.machines.Keys
      && t.now == s.now && t.queue == s.queue
      && (forall r | r in t.workers && t.workers[r].status == Online :: t.now - t.workers[r].heartbeat <= 90_000_000)
      && (forall r | r in s.workers ::
            if NewlyOffline(s, t, r)
            then s.now - s.workers[r].heartbeat > 90_000_000 && t.workers[r] == s.workers[r].(status := Offline)
            else t.workers[r] == s.workers[r])
      && (forall m | m in t.leases :: m in s.leases && t.leases[m] == s.leases[m])
      && (forall m | m in s.leases :: LostLease(s, t, m) <==> NewlyOffline(s, t, s.leases[m].row))
      && (forall m | m in s.machines :: t.machines[m] == if LostLease(s, t, m) then "offline" else s.machines[m])
  {
  }

  /** Every step, seen from the status of one machine: it is written by name, or set to offline by the reap
      that takes its lease. */
  lemma MachineMoves(s: State, e: Event, m: string)
    requires m in s.machines
    ensures m in Next(s, e).machines
    ensures Next(s, e).machines[m] == (
      if e.WriteStatus? && e.machine == m then e.status
      else if e.Reap? && m in s.leases && s.leases[m].row in s.workers
              && s.workers[s.leases[m].row].status == Online
              && s.now - s.workers[s.leases[m].row].heartbeat > 90_000_000 then "offline"
      else s.machines[m])
  {
  }

  lemma NoneStaleAfterReap(s: State)
    requires RefsValid(s)
    ensures var t := Next(s, Reap);
      RefsValid(t) && t.workers.Keys == s.workers.Keys &&
      forall r | r in t.workers && t.workers[r].status == Online :: !Stale(t.now, t.workers[r].heartbeat)
  {
    ReapCorrect(s);
  }

  /** Every online worker has sent a heartbeat at or after the cutoff. */
  predicate OnlineSince(s: State, cutoff: int) {
    s.now >= cutoff && forall r | r in s.workers && s.workers[r].status == Online :: s.workers[r].heartbeat >= cutoff
  }

  /** A reap starts such a guarantee, and nothing the fleet does afterwards ends it. */
  lemma {:induction false} OnlineStaysFresh(s: State, es: seq<Event>, cutoff: int)
    requires OnlineSince(s, cutoff)
    ensures OnlineSince(Exec(s, es), cutoff)
    decreases |es|
  {
    if es == [] {
    } else {
      OnlineStaysFresh(Next(s, es[0]), es[1..], cutoff);
    }
  }

  lemma ReapTwice(s: State)
    ensures Next(Next(s, Reap), Reap) == Next(s, Reap)
  {
    var t := Next(s, Reap);
    assert Expired(t) == {};
    var u := Next(t, Reap);
    assert u.workers == t.workers && u.leases == t.leases && u.machines == t.machines;
  }

  function LeasesOf(s: State, rows: set<RowId>): set<string> {
    set m | m in s.leases && s.leases[m].row in rows
  }

  /** COUNT(mw.machine_id) of the LEFT JOIN grouped by worker. */
  function MachineCount(s: State, r: RowId): nat {
    |LeasesOf(s, {r})|
  }

  function TotalCount(s: State, order: seq<RowId>): nat {
    if order == [] then 0 else TotalCount(s, order[..|order| - 1]) + MachineCount(s, order[|order| - 1])
  }

  predicate Distinct(order: seq<RowId>) {
    forall i, j | 0 <= i < j < |order| :: order[i] != order[j]
  }

  function Elements(order: seq<RowId>): set<RowId> {
    set r | r in order
  }

  lemma {:induction false} CountsCover(s: State, order: seq<RowId>)
    requires Distinct(order)
    ensures TotalCount(s, order) == |LeasesOf(s, Elements(order))|
  {
    if order == [] {
      assert LeasesOf(s, Elements(order)) == {};
    } else {
      var init, r := order[..|order| - 1], order[|order| - 1];
      CountsCover(s, init);
      assert order == init + [r];
      assert LeasesOf(s, Elements(order)) == LeasesOf(s, Elements(init)) + LeasesOf(s, {r});
      assert LeasesOf(s, Elements(init)) !! LeasesOf(s, {r});
    }
  }

  /** Over a listing of every worker once, the reported machine counts sum to the number of claims. */
  lemma CountsConserved(s: State, order: seq<RowId>)
    requires RefsValid(s) && Distinct(order) && Elements(order) == s.workers.Keys
    ensures TotalCount(s, order) == |s.leases|
  {
    CountsCover(s, order);
    assert LeasesOf(s, Elements(order)) == s.leases.Keys;
  }
}
