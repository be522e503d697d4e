/** The main program of a worker, and the API server's side of the shared tables. */
module Processes {
  import opened Wrappers
  import opened FleetTables
  import opened Leases
  import opened Registration
  import opened Coordinators
  import Reaper

  /** The end of main: after the context is cancelled and the runners are done, release and go offline. */
  method Shutdown(c: Coordinator, ids: seq<string>, others: Schedule, fails: Faults, last: seq<Event>, lastFails: bool)
    requires c.workerDBID.Some? && c.workerDBID.value in c.db.st.workers && UniqueNames(c.db.st)
    modifies c.db
    ensures !lastFails ==> RowOffline(c.db.st, c.workerDBID.value)
    ensures UniqueNames(c.db.st) && c.workerDBID.value in c.db.st.workers
    ensures c.db.st.workers[c.workerDBID.value].name == old(c.db.st.workers)[c.workerDBID.value].name
    ensures NeverClaimed(others, c.workerID) && NoClaims(last, c.workerID) ==>
      forall m | Holds(c.db.st, c.workerID, m) ::
        Holds(old(c.db.st), c.workerID, m) && forall i | 0 <= i < |ids| && ids[i] == m :: fails(i)
  {
    var row := c.workerDBID.value;
    ghost var s := c.db.st;
    c.ReleaseMachines(ids, others, fails);
    ghost var released := c.db.st;
    Stays(s, Weave(ReleaseStmts(c.workerID, ids), others, fails), row);
    c.SetOffline(last, lastFails);
    ghost var tail := last + if lastFails then [] else [GoOffline(row)];
    Stays(released, tail, row);
    ExecConcat(released, last, if lastFails then [] else [GoOffline(row)]);
    if !lastFails {
      Stays(released, last, row);
      ExecSnoc(released, last, GoOffline(row));
    }
    if NeverClaimed(others, c.workerID) && NoClaims(last, c.workerID) {
      forall m | Holds(c.db.st, c.workerID, m) ensures Holds(released, c.workerID, m) {
        if !Holds(released, c.workerID, m) { NoClaimNoLease(released, tail, c.workerID, m); }
      }
    }
  }

  lemma Stays(s: State, es: seq<Event>, row: RowId)
    requires UniqueNames(s) && row in s.workers
    ensures UniqueNames(Exec(s, es))
    ensures row in Exec(s, es).workers && Exec(s, es).workers[row].name == s.workers[row].name
  {
    RowIsPermanent(s, es, row);
    assert row in RowsNamed(Exec(s, es), s.workers[row].name);
  }

  /** Every row of the name is offline or more than 90 seconds silent, or there is none and the id is new. */
  predicate Admits(s: State, name: string, freshRow: RowId) {
    if exists r :: r in s.workers && s.workers[r].name == name
    then forall r | r in s.workers && s.workers[r].name == name ::
      s.workers[r].status == Offline || s.now - s.workers[r].heartbeat > 90_000_000
    else freshRow !in s.workers
  }

  /** What the rest of the fleet does around the phases of one worker process. */
  datatype Surroundings = Surroundings(before: seq<Event>, claiming: Schedule, serving: seq<Event>,
                                       releasing: Schedule, last: seq<Event>)

  ghost predicate LeavesTo(env: Surroundings, w: string) {
    && NoClaims(env.before, w) && NeverClaimed(env.claiming, w) && NoClaims(env.serving, w)
    && NeverClaimed(env.releasing, w) && NoClaims(env.last, w)
  }

  predicate Reclaims(e: Event, w: string, name: string) {
    Claims(e, w) || (e.Register? && e.name == name)
  }

  /** A worker process from registration to clean stop. Its hostname-pid is its own and held no lease
      before. Whatever the others do meanwhile, its heartbeats in flight included, it leaves no lease
      and an offline row behind, and that stays so until the name registers or the worker claims again. */
  method Serve(c: Coordinator, ids: seq<string>, freshRow: RowId, env: Surroundings) returns (ok: bool)
    requires UniqueNames(c.db.st) && HoldsNothing(c.db.st, c.workerID) && LeavesTo(env, c.workerID)
    modifies c, c.db
    ensures ok <==>
      Admits(Exec(old(c.db.st), env.before), c.workerName, freshRow)
      && forall id | id in ids :: id in old(c.db.st).machines
    ensures ok ==> c.workerDBID.Some? && HoldsNothing(c.db.st, c.workerID) && RowOffline(c.db.st, c.workerDBID.value)
    ensures ok ==> forall es | (forall e | e in es :: !Reclaims(e, c.workerID, c.workerName)) ::
      HoldsNothing(Exec(c.db.st, es), c.workerID) && RowOffline(Exec(c.db.st, es), c.workerDBID.value)
    ensures ok ==> forall es, id: RowId | (forall e | e in es :: !Reclaims(e, c.workerID, c.workerName)) ::
      var t := Exec(c.db.st, es);
      Next(t, FleetTables.Register(c.workerName, id))
        == t.(workers := t.workers[c.workerDBID.value := WorkerRow(c.workerName, Online, t.now, t.now)])
  {
    var w := c.workerID;
    ok := StartUp(c, ids, freshRow, env);
    if !ok { return; }
    var row := c.workerDBID.value;
    ghost var claimed := c.db.st;
    Stays(claimed, env.serving, row);
    c.db.Others(env.serving);
    forall m | Holds(c.db.st, w, m) ensures m in ids {
      if !Holds(claimed, w, m) { NoClaimNoLease(claimed, env.serving, w, m); }
    }
    Shutdown(c, ids, env.releasing, NO_FAULTS, env.last, false);
    forall m | m in c.db.st.leases ensures c.db.st.leases[m].worker != w {
      if Holds(c.db.st, w, m) { assert false; }
    }
    CleanStop(c.db.st, w, c.workerName, row);
  }

  /** The beginning of main: register, then claim every machine. */
  method StartUp(c: Coordinator, ids: seq<string>, freshRow: RowId, env: Surroundings) returns (ok: bool)
    requires UniqueNames(c.db.st) && HoldsNothing(c.db.st, c.workerID) && LeavesTo(env, c.workerID)
    modifies c, c.db
    ensures UniqueNames(c.db.st)
    ensures ok <==>
      Admits(Exec(old(c.db.st), env.before), c.workerName, freshRow)
      && forall id | id in ids :: id in old(c.db.st).machines
    ensures ok ==>
      && c.workerDBID.Some? && c.workerDBID.value in c.db.st.workers
      && c.db.st.workers[c.workerDBID.value].name == c.workerName
      && forall m | Holds(c.db.st, c.workerID, m) :: m in ids
  {
    var w := c.workerID;
    ghost var s := c.db.st;
    ok := c.Register(freshRow, env.before, Committed);
    if !ok { return; }
    ghost var registered := c.db.st;
    var row := c.workerDBID.value;
    assert row in RowsNamed(registered, c.workerName);
    RegisteredClean(s, env.before + [FleetTables.Register(c.workerName, freshRow)], w);
    var done := c.ClaimMachines(ids, env.claiming, NO_FAULTS);
    AfterClaims(registered, w, row, ids, done, env.claiming);
    if done < |ids| {
      assert ids[done] !in c.db.st.machines.Keys;
      return false;
    }
  }

  lemma AfterClaims(s: State, w: string, row: RowId, ids: seq<string>, done: nat, others: Schedule)
    requires UniqueNames(s) && row in s.workers && NeverClaimed(others, w) && done <= |ids|
    requires forall m :: !Holds(s, w, m)
    ensures var end := Exec(s, Weave(ClaimStmts(w, row, ids[..done]), others, NO_FAULTS)
                               + if done < |ids| then others(done) else []);
      && UniqueNames(end) && row in end.workers && end.workers[row].name == s.workers[row].name
      && end.machines.Keys == s.machines.Keys
      && (done == |ids| ==> forall m | Holds(end, w, m) :: m in ids)
  {
    var run := Weave(ClaimStmts(w, row, ids[..done]), others, NO_FAULTS);
    var tried := run + if done < |ids| then others(done) else [];
    Stays(s, tried, row);
    MachinesStay(s, tried);
    if done == |ids| {
      assert ids[..done] == ids && run + [] == run;
      forall m | Holds(Exec(s, tried), w, m) ensures m in ids {
        ClaimedOnly(s, w, row, ids, others, m);
      }
    }
  }

  lemma RegisteredClean(s: State, es: seq<Event>, w: string)
    requires HoldsNothing(s, w) && NoClaims(es, w)
    ensures forall m :: !Holds(Exec(s, es), w, m)
    ensures Exec(s, es).machines.Keys == s.machines.Keys
  {
    forall m ensures !Holds(Exec(s, es), w, m) {
      NoClaimNoLease(s, es, w, m);
    }
    MachinesStay(s, es);
  }

  /** After a clean stop, until the name registers or the worker claims again: nothing is held, the row
      stays offline, and the next registration of the name takes it over at once. */
  lemma CleanStop(s: State, w: string, name: string, row: RowId)
    requires UniqueNames(s) && HoldsNothing(s, w) && RowOffline(s, row) && s.workers[row].name == name
    ensures forall es | (forall e | e in es :: !Reclaims(e, w, name)) ::
      HoldsNothing(Exec(s, es), w) && RowOffline(Exec(s, es), row)
    ensures forall es, id: RowId | (forall e | e in es :: !Reclaims(e, w, name)) ::
      var t := Exec(s, es);
      Next(t, FleetTables.Register(name, id)) == t.(workers := t.workers[row := WorkerRow(name, Online, t.now, t.now)])
  {
    forall es | (forall e | e in es :: !Reclaims(e, w, name))
      ensures HoldsNothing(Exec(s, es), w) && RowOffline(Exec(s, es), row)
    {
      StopIsFinal(s, es, w, row);
    }
    forall es, id: RowId | (forall e | e in es :: !Reclaims(e, w, name))
      ensures var t := Exec(s, es);
        Next(t, FleetTables.Register(name, id))
          == t.(workers := t.workers[row := WorkerRow(name, Online, t.now, t.now)])
    {
      NamesStayUnique(s, es);
      Stays(s, es, row);
      OfflineReopens(Exec(s, es), row, id);
    }
  }

  datatype SendError = WorkerNotFound | WorkerOffline | InsertFailed

  datatype WorkerView = WorkerView(id: RowId, worker: WorkerRow, machineCount: nat)

  class WorkerStore {
    const db: Database

    constructor (db: Database)
      ensures this.db == db
    {
      this.db := db;
    }

    /** Reaps, then lists every worker with its machine count. Under READ COMMITTED the others may act
        between the two statements; order is the order in which the second one returns the rows. */
    method ListWorkers(between: seq<Event>, order: seq<RowId>) returns (views: seq<WorkerView>)
      requires Reaper.RefsValid(db.st)
      requires Reaper.Distinct(order)
      requires Reaper.Elements(order) == Exec(Next(db.st, Reap), between).workers.Keys
      modifies db
      ensures db.st == Exec(Next(old(db.st), Reap), between)
      ensures |views| == |order|
      ensures forall i | 0 <= i < |order| ::
        && order[i] in db.st.workers
        && views[i] == WorkerView(order[i], db.st.workers[order[i]],
                                  |set m | m in db.st.leases && db.st.leases[m].row == order[i]|)
        && (views[i].worker.status == Online ==> old(db.st.now) - views[i].worker.heartbeat <= 90_000_000)
      ensures CountSum(views) == |db.st.leases|
    {
      Reaper.NoneStaleAfterReap(db.st);
      ghost var cutoff := db.st.now - STALE;
      var _ := db.Execute(Reap, false);
      Reaper.OnlineStaysFresh(db.st, between, cutoff);
      Reaper.RefsStayValid(db.st, between);
      db.Others(between);
      views := ListRows(order);
    }

    method ListRows(order: seq<RowId>) returns (views: seq<WorkerView>)
      requires Reaper.RefsValid(db.st)
      requires Reaper.Distinct(order) && Reaper.Elements(order) == db.st.workers.Keys
      ensures |views| == |order|
      ensures forall i | 0 <= i < |order| ::
        && order[i] in db.st.workers
        && views[i] == WorkerView(order[i], db.st.workers[order[i]],
                                  |set m | m in db.st.leases && db.st.leases[m].row == order[i]|)
      ensures CountSum(views) == |db.st.leases|
    {
      views := [];
      var i := 0;
      while i < |order|
        invariant 0 <= i <= |order| && |views| == i
        invariant forall j | 0 <= j < i ::
          && order[j] in db.st.workers
          && views[j] == WorkerView(order[j], db.st.workers[order[j]], Reaper.MachineCount(db.st, order[j]))
      {
        assert order[i] in Reaper.Elements(order);
        views := views + [WorkerView(order[i], db.st.workers[order[i]], Reaper.MachineCount(db.st, order[i]))];
        i := i + 1;
      }
      ViewsAddUp(views, db.st, order);
      forall r: RowId ensures (set m | m in db.st.leases && db.st.leases[m].row == r) == Reaper.LeasesOf(db.st, {r}) {}
      Reaper.CountsConserved(db.st, order);
    }

    /** Checks that the worker is online, and only then inserts; the worker may go offline in between. */
    method SendCommand(row: RowId, command: string, freshCmd: CmdId, between: seq<Event>)
      returns (r: Result<CmdId, SendError>)
      requires UniqueNames(db.st)
      modifies db
      ensures r == Failure(WorkerNotFound) <==> row !in old(db.st).workers
      ensures r == Failure(WorkerOffline) <==> RowOffline(old(db.st), row)
      ensures r in {Failure(WorkerNotFound), Failure(WorkerOffline)} ==> db.st == old(db.st)
      ensures r.Success? || r == Failure(InsertFailed) ==>
        var seen := Exec(old(db.st), between);
        db.st == Next(seen, Enqueue(row, command, freshCmd)) && (r.Success? <==> freshCmd !in seen.queue.commands)
      ensures r.Success? ==>
        && r.value == freshCmd && freshCmd in db.st.queue.commands
        && db.st.queue.commands[freshCmd] == Command(row, command, Pending, db.st.now, None, None)
    {
      if row !in db.st.workers { return Failure(WorkerNotFound); }
      if db.st.workers[row].status != Online { return Failure(WorkerOffline); }
      Stays(db.st, between, row);
      db.Others(between);
      var inserted := freshCmd !in db.st.queue.commands;
      var _ := db.Execute(Enqueue(row, command, freshCmd), false);
      r := if inserted then Success(freshCmd) else Failure(InsertFailed);
    }
  }

  lemma {:induction false} ViewsAddUp(views: seq<WorkerView>, s: State, order: seq<RowId>)
    requires |views| == |order|
    requires forall i | 0 <= i < |order| :: views[i].machineCount == Reaper.MachineCount(s, order[i])
    ensures CountSum(views) == Reaper.TotalCount(s, order)
  {
    if views == [] {
    } else {
      ViewsAddUp(views[..|views| - 1], s, order[..|order| - 1]);
    }
  }

  function CountSum(views: seq<WorkerView>): nat {
    if views == [] then 0 else CountSum(views[..|views| - 1]) + views[|views| - 1].machineCount
  }
}
