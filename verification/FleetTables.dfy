/**
 The three tables through which worker processes and the API server meet
 (workers, machine_workers, worker_commands), the status column of machines,
 and the local state of every command poller.

 One Event is one SQL statement, one transaction, or one local step of a poller.
 Next is total: a statement whose WHERE clause matches nothing, or that a
 constraint rejects, changes nothing. Every event sequence is therefore a run,
 whoever issued its events and in whatever order.
 */
module FleetTables {
  import opened Wrappers

  /** 90 seconds, in the microseconds Postgres timestamps are made of. */
  const STALE: int := 90_000_000

  type RowId = nat
  type CmdId = nat

  datatype Availability = Online | Offline

  datatype WorkerRow = WorkerRow(name: string, status: Availability, heartbeat: int, started: int)

  /** A row of machine_workers: worker is the hostname-pid string, row the id in workers. */
  datatype Lease = Lease(worker: string, row: RowId, claimed: int, heartbeat: int)

  datatype Progress = Pending | InProgress | Completed | Failed

  datatype Command = Command(row: RowId, command: string, status: Progress,
                             created: int, started: Option<int>, completed: Option<int>)

  /** Where a poller stands inside processNextCommand. began is NOW() of its transaction, fixed when
      the transaction begins; Fetching holds the row lock. */
  datatype Poll =
    | Idle
    | Begun(began: int)
    | Fetching(cmd: CmdId, began: int)
    | Fetched(cmd: CmdId)
    | Marked(cmd: CmdId)
    | Running(cmd: CmdId)
    | Returned(cmd: CmdId, ok: bool)

  /** The command table and its pollers. starts, ran and returnedOk record history: commands in the
      order they were committed as in_progress, handler calls in order, and commands whose handler
      returned without error. */
  datatype Queue = Queue(
    commands: map<CmdId, Command>,
    polls: map<string, Poll>,
    starts: seq<CmdId>,
    ran: seq<CmdId>,
    returnedOk: set<CmdId>)

  datatype State = State(
    now: int,
    workers: map<RowId, WorkerRow>,
    leases: map<string, Lease>,
    machines: map<string, string>,
    queue: Queue)

  datatype Event =
    | Tick(d: nat)
    | Register(name: string, freshRow: RowId)
    | Claim(worker: string, row: RowId, machine: string)
    | BeatRow(row: RowId)
    | BeatLease(worker: string, machine: string)
    | Release(worker: string, machine: string)
    | GoOffline(row: RowId)
    | Reap
    | WriteStatus(machine: string, status: string)
    | Enqueue(row: RowId, command: string, freshCmd: CmdId)
    | Begin(poller: string)
    | Fetch(poller: string, row: RowId, cmd: CmdId)
    | Abort(poller: string)
    | Commit(poller: string)
    | CommitUnseen(poller: string)
    | PreMark(poller: string, written: bool)
    | Call(poller: string)
    | Return(poller: string, ok: bool)
    | Finish(poller: string, written: bool)
    | Die(poller: string)

  const NOTHING: State := State(0, map[], map[], map[], Queue(map[], map[], [], [], {}))

  // ---- worker registry and leases ----

  predicate Stale(now: int, heartbeat: int) {
    now - heartbeat > STALE
  }

  /** The rows the registration SELECT returns. */
  function RowsNamed(s: State, name: string): set<RowId> {
    set r | r in s.workers && s.workers[r].name == name
  }

  predicate OpenToTakeover(now: int, w: WorkerRow) {
    w.status == Offline || Stale(now, w.heartbeat)
  }

  function RegisterTx(s: State, name: string, freshRow: RowId): State {
    var rows := RowsNamed(s, name);
    if rows == {} then
      if freshRow in s.workers then s
      else s.(workers := s.workers[freshRow := WorkerRow(name, Online, s.now, s.now)])
    else
      s.(workers := map r | r in s.workers ::
        if r in rows && OpenToTakeover(s.now, s.workers[r])
        then s.workers[r].(status := Online, heartbeat := s.now, started := s.now)
        else s.workers[r])
  }

  /** The ON CONFLICT ... WHERE condition of a claim. */
  predicate MayTake(s: State, worker: string, machine: string) {
    machine !in s.leases || Stale(s.now, s.leases[machine].heartbeat) || s.leases[machine].worker == worker
  }

  function ClaimStmt(s: State, worker: string, row: RowId, machine: string): State {
    if row in s.workers && machine in s.machines && MayTake(s, worker, machine)
    then s.(leases := s.leases[machine := Lease(worker, row, s.now, s.now)])
    else s
  }

  predicate Holds(s: State, worker: string, machine: string) {
    machine in s.leases && s.leases[machine].worker == worker
  }

  /** The rows a reap marks offline. */
  function Expired(s: State): set<RowId> {
    set r | r in s.workers && s.workers[r].status != Offline && Stale(s.now, s.workers[r].heartbeat)
  }

  /** One statement with three common table expressions, all reading the same snapshot. */
  function ReapStmt(s: State): State {
    var stale := Expired(s);
    var released := set m | m in s.leases && s.leases[m].row in stale;
    s.(workers := map r | r in s.workers ::
         if r in stale then s.workers[r].(status := Offline) else s.workers[r],
       leases := s.leases - released,
       machines := map m | m in s.machines :: if m in released then "offline" else s.machines[m])
  }

  // ---- commands ----

  predicate Terminating(command: string) {
    command == "stop" || command == "restart"
  }

  function PollOf(q: Queue, p: string): Poll {
    if p in q.polls then q.polls[p] else Idle
  }

  predicate Locked(q: Queue, c: CmdId) {
    exists p :: p in q.polls && q.polls[p].Fetching? && q.polls[p].cmd == c
  }

  predicate Eligible(q: Queue, row: RowId, c: CmdId) {
    c in q.commands && q.commands[c].row == row && q.commands[c].status == Pending && !Locked(q, c)
  }

  /** What ORDER BY created_at LIMIT 1 FOR UPDATE SKIP LOCKED may return. */
  predicate Oldest(q: Queue, row: RowId, c: CmdId) {
    Eligible(q, row, c) &&
    forall d | d in q.commands && Eligible(q, row, d) :: q.commands[c].created <= q.commands[d].created
  }

  function WithPoll(q: Queue, p: string, poll: Poll): Queue {
    q.(polls := q.polls[p := poll])
  }

  function Start(q: Queue, c: CmdId, began: int): Queue
    requires c in q.commands
  {
    q.(commands := q.commands[c := q.commands[c].(status := InProgress, started := Some(began))],
       starts := q.starts + [c])
  }

  function Conclude(q: Queue, now: int, c: CmdId, status: Progress): Queue
    requires c in q.commands
  {
    q.(commands := q.commands[c := q.commands[c].(status := status, completed := Some(now))])
  }

  /** The steps of processNextCommand, guarded by where its poller stands. */
  function PollStep(q: Queue, now: int, e: Event): Queue {
    match e
    case Begin(p) =>
      if PollOf(q, p).Idle? then WithPoll(q, p, Begun(now)) else q
    case Fetch(p, row, c) =>
      var poll := PollOf(q, p);
      if poll.Begun? && Oldest(q, row, c) then WithPoll(q, p, Fetching(c, poll.began)) else q
    case Abort(p) =>
      if PollOf(q, p).Begun? || PollOf(q, p).Fetching? then WithPoll(q, p, Idle) else q
    case Commit(p) =>
      var poll := PollOf(q, p);
      if poll.Fetching? && poll.cmd in q.commands
      then WithPoll(Start(q, poll.cmd, poll.began), p, Fetched(poll.cmd)) else q
    case CommitUnseen(p) =>
      var poll := PollOf(q, p);
      if poll.Fetching? && poll.cmd in q.commands
      then WithPoll(Start(q, poll.cmd, poll.began), p, Idle) else q
    case PreMark(p, written) =>
      var poll := PollOf(q, p);
      if poll.Fetched? && poll.cmd in q.commands && Terminating(q.commands[poll.cmd].command)
      then WithPoll(if written then Conclude(q, now, poll.cmd, Completed) else q, p, Marked(poll.cmd)) else q
    case Call(p) =>
      var poll := PollOf(q, p);
      if poll.Marked? || (poll.Fetched? && poll.cmd in q.commands && !Terminating(q.commands[poll.cmd].command))
      then WithPoll(q.(ran := q.ran + [poll.cmd]), p, Running(poll.cmd)) else q
    case Return(p, ok) =>
      var poll := PollOf(q, p);
      if poll.Running?
      then WithPoll(if ok then q.(returnedOk := q.returnedOk + {poll.cmd}) else q, p, Returned(poll.cmd, ok)) else q
    case Finish(p, written) =>
      var poll := PollOf(q, p);
      if poll.Returned? && poll.cmd in q.commands then
        var done :=
          if !written || (poll.ok && Terminating(q.commands[poll.cmd].command)) then q
          else Conclude(q, now, poll.cmd, if poll.ok then Completed else Failed);
        WithPoll(done, p, Idle)
      else q
    case Die(p) => WithPoll(q, p, Idle)
    case _ => q
  }

  // ---- runs ----

  function Next(s: State, e: Event): State {
    match e
    case Tick(d) => s.(now := s.now + d)
    case Register(name, freshRow) => RegisterTx(s, name, freshRow)
    case Claim(worker, row, machine) => ClaimStmt(s, worker, row, machine)
    case BeatRow(row) =>
      if row in s.workers then s.(workers := s.workers[row := s.workers[row].(heartbeat := s.now)]) else s
    case BeatLease(worker, machine) =>
      if Holds(s, worker, machine)
      then s.(leases := s.leases[machine := s.leases[machine].(heartbeat := s.now)]) else s
    case Release(worker, machine) =>
      if Holds(s, worker, machine) then s.(leases := s.leases - {machine}) else s
    case GoOffline(row) =>
      if row in s.workers then s.(workers := s.workers[row := s.workers[row].(status := Offline)]) else s
    case Reap => ReapStmt(s)
    case WriteStatus(machine, status) =>
      if machine in s.machines then s.(machines := s.machines[machine := status]) else s
    case Enqueue(row, command, c) =>
      if row in s.workers && c !in s.queue.commands
      then s.(queue := s.queue.(commands :=
        s.queue.commands[c := Command(row, command, Pending, s.now, None, None)]))
      else s
    case _ => s.(queue := PollStep(s.queue, s.now, e))
  }

  function Exec(s: State, es: seq<Event>): State
    decreases |es|
  {
    if es == [] then s else Exec(Next(s, es[0]), es[1..])
  }

  lemma {:induction false} ExecConcat(s: State, a: seq<Event>, b: seq<Event>)
    ensures Exec(s, a + b) == Exec(Exec(s, a), b)
    decreases |a|
  {
    if a == [] {
      assert a + b == b;
    } else {
      assert (a + b)[0] == a[0] && (a + b)[1..] == a[1..] + b;
      ExecConcat(Next(s, a[0]), a[1..], b);
    }
  }

  lemma ExecSnoc(s: State, es: seq<Event>, e: Event)
    ensures Exec(s, es + [e]) == Next(Exec(s, es), e)
  {
    ExecConcat(s, es, [e]);
    assert [e][1..] == [];
    assert Exec(Exec(s, es), [e]) == Exec(Next(Exec(s, es), e), []);
  }
}
