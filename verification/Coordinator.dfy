/**
 The worker's coordinator and its main program, running against a database
 that other processes use at the same time. Each method receives, for every
 statement it sends, the events that take effect just before it (others) and
 whether the statement fails on the way (fails). The contracts hold for all
 such interleavings.
 */
module Coordinators {
  import opened Wrappers
  import opened FleetTables
  import opened Leases
  import opened Registration
  import opened Commands

  type Schedule = nat -> seq<Event>
  type Faults = nat -> bool

  const NO_FAULTS: Faults := _ => false

  class Database {
    var st: State

    constructor ()
      ensures st == NOTHING
    {
      st := NOTHING;
    }

    /** Other processes act. */
    method Others(es: seq<Event>)
      modifies this
      ensures st == Exec(old(st), es)
    {
      var i := 0;
      while i < |es|
        invariant 0 <= i <= |es|
        invariant st == Exec(old(st), es[..i])
      {
        assert es[..i + 1] == es[..i] + [es[i]];
        ExecSnoc(old(st), es[..i], es[i]);
        st := Next(st, es[i]);
        i := i + 1;
      }
      assert es[..i] == es;
    }

    /** One statement; a statement that fails has no effect. */
    method Execute(e: Event, fails: bool) returns (ok: bool)
      modifies this
      ensures st == if fails then old(st) else Next(old(st), e)
      ensures ok <==> !fails && !Rejected(old(st), e)
    {
      ok := !fails && !Rejected(st, e);
      if !fails { st := Next(st, e); }
    }
  }

  /** Foreign keys reject a claim of an unknown machine or for an unknown worker row. */
  predicate Rejected(s: State, e: Event) {
    e.Claim? && (e.row !in s.workers || e.machine !in s.machines)
  }

  /** The run in which statement i comes after others(i) and is lost if fails(i). */
  function Weave(stmts: seq<Event>, others: Schedule, fails: Faults): seq<Event> {
    if stmts == [] then []
    else
      var n := |stmts| - 1;
      Weave(stmts[..n], others, fails) + others(n) + if fails(n) then [] else [stmts[n]]
  }

  lemma WeaveSnoc(stmts: seq<Event>, n: nat, others: Schedule, fails: Faults, s: State)
    requires n < |stmts|
    ensures var before := Exec(Exec(s, Weave(stmts[..n], others, fails)), others(n));
      Exec(s, Weave(stmts[..n + 1], others, fails)) == if fails(n) then before else Next(before, stmts[n])
  {
    assert stmts[..n + 1][..n] == stmts[..n];
    var w := Weave(stmts[..n], others, fails);
    ExecConcat(s, w, others(n));
    if fails(n) {
      assert w + others(n) + [] == w + others(n);
    } else {
      ExecSnoc(s, w + others(n), stmts[n]);
    }
  }

  function ClaimStmts(w: string, row: RowId, ids: seq<string>): seq<Event> {
    seq(|ids|, i requires 0 <= i < |ids| => Claim(w, row, ids[i]))
  }

  function BeatStmts(w: string, row: Option<RowId>, ids: seq<string>): seq<Event> {
    (if row.Some? then [BeatRow(row.value)] else []) +
    seq(|ids|, i requires 0 <= i < |ids| => BeatLease(w, ids[i]))
  }

  function ReleaseStmts(w: string, ids: seq<string>): seq<Event> {
    seq(|ids|, i requires 0 <= i < |ids| => Release(w, ids[i]))
  }

  predicate NoClaims(es: seq<Event>, w: string) {
    forall e | e in es :: !Claims(e, w)
  }

  ghost predicate NeverClaimed(others: Schedule, w: string) {
    forall i: nat :: NoClaims(others(i), w)
  }

  lemma ReleasedOne(before: State, w: string, others: seq<Event>, fails: bool, id: string, m: string)
    requires NoClaims(others, w)
    requires var mid := Exec(before, others); Holds(if fails then mid else Next(mid, Release(w, id)), w, m)
    ensures Holds(before, w, m) && (id == m ==> fails)
  {
    if !Holds(before, w, m) { NoClaimNoLease(before, others, w, m); }
  }

  /** While nobody else claims in its name, releasing leaves a worker only leases it had before
      on other machines, or on machines whose release statement was lost. */
  lemma {:induction false} ReleasedAll(s: State, w: string, ids: seq<string>,
                                       others: Schedule, fails: Faults, m: string)
    requires NeverClaimed(others, w)
    requires Holds(Exec(s, Weave(ReleaseStmts(w, ids), others, fails)), w, m)
    ensures Holds(s, w, m) && forall i | 0 <= i < |ids| && ids[i] == m :: fails(i)
    decreases |ids|
  {
    if ids == [] {
    } else {
      var n := |ids| - 1;
      var stmts := ReleaseStmts(w, ids);
      assert stmts[..n + 1] == stmts && stmts[..n] == ReleaseStmts(w, ids[..n]);
      WeaveSnoc(stmts, n, others, fails, s);
      var before := Exec(s, Weave(stmts[..n], others, fails));
      ReleasedOne(before, w, others(n), fails(n), ids[n], m);
      ReleasedAll(s, w, ids[..n], others, fails, m);
      forall i | 0 <= i < |ids| && ids[i] == m ensures fails(i) {
        if i < n { assert ids[..n][i] == m; }
      }
    }
  }

  /** A worker ends up only with leases it had before or asked for. */
  lemma {:induction false} ClaimedOnly(s: State, w: string, row: RowId, ids: seq<string>, others: Schedule, m: string)
    requires NeverClaimed(others, w)
    requires Holds(Exec(s, Weave(ClaimStmts(w, row, ids), others, NO_FAULTS)), w, m)
    ensures Holds(s, w, m) || m in ids
    decreases |ids|
  {
    if ids == [] {
    } else {
      var n := |ids| - 1;
      var stmts := ClaimStmts(w, row, ids);
      assert stmts[..n + 1] == stmts && stmts[..n] == ClaimStmts(w, row, ids[..n]);
      WeaveSnoc(stmts, n, others, NO_FAULTS, s);
      var before := Exec(s, Weave(stmts[..n], others, NO_FAULTS));
      assert NoClaims(others(n), w);
      if m != ids[n] {
        if !Holds(before, w, m) { NoClaimNoLease(before, others(n), w, m); }
        ClaimedOnly(s, w, row, ids[..n], others, m);
      }
    }
  }

  /** No statement of the protocol adds or removes machines. */
  lemma {:induction false} MachinesStay(s: State, es: seq<Event>)
    ensures Exec(s, es).machines.Keys == s.machines.Keys
    decreases |es|
  {
    if es == [] {
    } else {
      MachinesStay(Next(s, es[0]), es[1..]);
    }
  }

  // ---- claims that are granted, beats that arrive ----

  /** The tables when claim i is sent. */
  function AtClaim(s: State, w: string, row: RowId, ids: seq<string>, others: Schedule, i: nat): State
    requires i <= |ids|
  {
    Exec(Exec(s, Weave(ClaimStmts(w, row, ids[..i]), others, NO_FAULTS)), others(i))
  }

  /** Before statement n is sent, no other process takes the lease of m from w after statement i. */
  predicate LeftAlone(others: Schedule, i: nat, n: nat, w: string, m: string) {
    forall j, e | i < j < n && e in others(j) :: !Takes(e, w, m)
  }

  /** A claim on a machine that is free, silent for more than 90 seconds or the claimant's own when its
      statement arrives is still held after the last claim, unless someone takes it in between. */
  lemma {:induction false} ClaimedAll(s: State, w: string, row: RowId, ids: seq<string>, others: Schedule, i: nat)
    requires i < |ids| && row in s.workers && ids[i] in s.machines
    requires var t := AtClaim(s, w, row, ids, others, i);
      ids[i] !in t.leases || t.now - t.leases[ids[i]].heartbeat > 90_000_000 || t.leases[ids[i]].worker == w
    requires LeftAlone(others, i, |ids|, w, ids[i])
    ensures Holds(Exec(s, Weave(ClaimStmts(w, row, ids), others, NO_FAULTS)), w, ids[i])
    decreases |ids|
  {
    var n := |ids| - 1;
    var stmts := ClaimStmts(w, row, ids);
    assert stmts[..n + 1] == stmts && stmts[..n] == ClaimStmts(w, row, ids[..n]);
    WeaveSnoc(stmts, n, others, NO_FAULTS, s);
    var before := Exec(s, Weave(stmts[..n], others, NO_FAULTS));
    var t := Exec(before, others(n));
    if i == n {
      KnownAt(s, Weave(stmts[..n], others, NO_FAULTS), others(n), row, ids[i]);
      ClaimOutcome(t, w, row, ids[i]);
    } else {
      assert ids[..n][..i] == ids[..i] && ids[..n][i] == ids[i];
      ClaimedAll(s, w, row, ids[..n], others, i);
      UntakenStays(before, others(n), w, ids[i]);
    }
  }

  /** Free, silent for more than 90 seconds, or the claimant's own. */
  predicate Grantable(t: State, w: string, m: string) {
    m !in t.leases || t.now - t.leases[m].heartbeat > 90_000_000 || t.leases[m].worker == w
  }

  /** Every machine that could be claimed when its statement arrived, and that nobody took since, is held. */
  predicate GrantedAreHeld(s: State, end: State, w: string, row: RowId, ids: seq<string>, others: Schedule) {
    forall i | 0 <= i < |ids| && LeftAlone(others, i, |ids|, w, ids[i])
      && Grantable(AtClaim(s, w, row, ids, others, i), w, ids[i]) ::
      ids[i] in end.leases && end.leases[ids[i]].worker == w
  }

  lemma ClaimsHeld(s: State, w: string, row: RowId, ids: seq<string>, others: Schedule)
    requires row in s.workers && forall i | 0 <= i < |ids| :: ids[i] in s.machines.Keys
    ensures GrantedAreHeld(s, Exec(s, Weave(ClaimStmts(w, row, ids), others, NO_FAULTS)), w, row, ids, others)
  {
    forall i | 0 <= i < |ids| && LeftAlone(others, i, |ids|, w, ids[i])
        && Grantable(AtClaim(s, w, row, ids, others, i), w, ids[i])
      ensures Holds(Exec(s, Weave(ClaimStmts(w, row, ids), others, NO_FAULTS)), w, ids[i])
    {
      ClaimedAll(s, w, row, ids, others, i);
    }
  }

  lemma KnownAt(s: State, a: seq<Event>, b: seq<Event>, row: RowId, m: string)
    requires row in s.workers && m in s.machines
    ensures row in Exec(Exec(s, a), b).workers && m in Exec(Exec(s, a), b).machines
  {
    RowsStay(s, a, row);
    RowsStay(Exec(s, a), b, row);
    MachinesStay(s, a);
    MachinesStay(Exec(s, a), b);
    assert m in Exec(Exec(s, a), b).machines.Keys;
  }

  /** No process beats the row, or holds the lease of m, with a heartbeat from before the given time. */
  predicate RowBeat(s: State, r: RowId, since: int) {
    s.now >= since && r in s.workers && s.workers[r].heartbeat >= since
  }

  predicate LeaseBeat(s: State, w: string, m: string, since: int) {
    s.now >= since && (m in s.leases && s.leases[m].worker == w ==> s.leases[m].heartbeat >= since)
  }

  lemma BeatStep(s: State, e: Event, since: int, r: RowId, w: string, m: string)
    requires s.now >= since
    ensures Next(s, e).now >= since
    ensures RowBeat(s, r, since) ==> RowBeat(Next(s, e), r, since)
    ensures LeaseBeat(s, w, m, since) ==> LeaseBeat(Next(s, e), w, m, since)
    ensures e == BeatRow(r) && r in s.workers ==> RowBeat(Next(s, e), r, since)
    ensures e == BeatLease(w, m) ==> LeaseBeat(Next(s, e), w, m, since)
  {
    LeaseMoves(s, e, m);
    if r in s.workers { RowMoves(s, e, r); }
  }

  lemma {:induction false} BeatsLast(s: State, es: seq<Event>, since: int, r: RowId, w: string, m: string)
    requires s.now >= since
    ensures Exec(s, es).now >= since
    ensures RowBeat(s, r, since) ==> RowBeat(Exec(s, es), r, since)
    ensures LeaseBeat(s, w, m, since) ==> LeaseBeat(Exec(s, es), w, m, since)
    decreases |es|
  {
    if es == [] {
    } else {
      BeatStep(s, es[0], since, r, w, m);
      BeatsLast(Next(s, es[0]), es[1..], since, r, w, m);
    }
  }

  /** What statement j of any list achieves, it leaves behind for good. */
  lemma {:induction false} StatementBeats(s: State, stmts: seq<Event>, others: Schedule, fails: Faults, j: nat,
                                          r: RowId, w: string, m: string)
    requires j < |stmts| && !fails(j)
    ensures stmts[j] == BeatRow(r) && r in s.workers ==> RowBeat(Exec(s, Weave(stmts, others, fails)), r, s.now)
    ensures stmts[j] == BeatLease(w, m) ==> LeaseBeat(Exec(s, Weave(stmts, others, fails)), w, m, s.now)
    decreases |stmts|
  {
    var n := |stmts| - 1;
    assert stmts[..n + 1] == stmts;
    WeaveSnoc(stmts, n, others, fails, s);
    var run := Weave(stmts[..n], others, fails);
    BeatsLast(s, run, s.now, r, w, m);
    BeatsLast(Exec(s, run), others(n), s.now, r, w, m);
    BeatStep(Exec(Exec(s, run), others(n)), stmts[n], s.now, r, w, m);
    if j < n {
      StatementBeats(s, stmts[..n], others, fails, j, r, w, m);
    } else if r in s.workers {
      RowsStay(s, run, r);
      RowsStay(Exec(s, run), others(n), r);
    }
  }

  lemma LeasesBeaten(s: State, w: string, row: Option<RowId>, ids: seq<string>, others: Schedule, fails: Faults, i: nat)
    requires i < |ids| && !fails((if row.Some? then 1 else 0) + i)
    ensures LeaseBeat(Exec(s, Weave(BeatStmts(w, row, ids), others, fails)), w, ids[i], s.now)
  {
    var k, stmts := if row.Some? then 1 else 0, BeatStmts(w, row, ids);
    assert stmts[k + i] == BeatLease(w, ids[i]);
    StatementBeats(s, stmts, others, fails, k + i, 0, w, ids[i]);
  }

  /** A tick leaves the heartbeats it reaches no older than its own beginning. */
  lemma TickBeats(s: State, w: string, row: Option<RowId>, ids: seq<string>, others: Schedule, fails: Faults)
    ensures var end := Exec(s, Weave(BeatStmts(w, row, ids), others, fails));
      && (row.Some? && row.value in s.workers && !fails(0) ==> RowBeat(end, row.value, s.now))
      && var k := if row.Some? then 1 else 0;
         forall i | 0 <= i < |ids| && !fails(k + i) :: LeaseBeat(end, w, ids[i], s.now)
  {
    if row.Some? && row.value in s.workers && !fails(0) {
      StatementBeats(s, BeatStmts(w, row, ids), others, fails, 0, row.value, w, "");
    }
    var k := if row.Some? then 1 else 0;
    forall i | 0 <= i < |ids| && !fails(k + i)
      ensures LeaseBeat(Exec(s, Weave(BeatStmts(w, row, ids), others, fails)), w, ids[i], s.now)
    {
      LeasesBeaten(s, w, row, ids, others, fails, i);
    }
  }

  /** AckLost: the commit takes effect, but its caller sees an error. */
  datatype CommitOutcome = Committed | RolledBack | AckLost

  function Effect(e: Event, commit: CommitOutcome): seq<Event> {
    if commit == RolledBack then [] else [e]
  }

  datatype HandlerOutcome = Succeeded | Errored | NeverReturned

  datatype PollFaults = PollFaults(beginFails: bool, selectFails: bool, markFails: bool, commit: CommitOutcome,
                                   preMarkFails: bool, finishFails: bool)

  ghost predicate NotPolledBy(others: Schedule, p: string) {
    forall i: nat :: NoStepOf(others(i), p)
  }

  /** The status a command is left with once its handler was called. */
  function Verdict(command: string, f: PollFaults, outcome: HandlerOutcome): Progress {
    if outcome.Errored? && !f.finishFails then Failed
    else if outcome.Succeeded? && !f.finishFails && command != "stop" && command != "restart" then Completed
    else if (command == "stop" || command == "restart") && !f.preMarkFails then Completed
    else InProgress
  }

  predicate Dispatches(f: PollFaults) {
    !f.beginFails && !f.selectFails && !f.markFails && f.commit == Committed
  }

  /** A pending command of the row that no poller has locked. */
  predicate Waiting(q: Queue, row: RowId, c: CmdId) {
    && c in q.commands && q.commands[c].row == row && q.commands[c].status == Pending
    && forall p | p in q.polls && q.polls[p].Fetching? :: q.polls[p].cmd != c
  }

  predicate Waits(q: Queue, row: RowId) {
    exists c | c in q.commands :: Waiting(q, row, c)
  }

  /** What the SELECT of a poll reads: others act before the transaction begins and before the SELECT. */
  function AtSelect(s: State, p: string, others: Schedule): State {
    Exec(Next(Exec(s, others(0)), Begin(p)), others(1))
  }

  lemma {:induction false} OldestExists(q: Queue, some: set<CmdId>)
    requires some != {} && some <= q.commands.Keys
    ensures exists c | c in some :: forall d | d in some :: q.commands[c].created <= q.commands[d].created
  {
    var x :| x in some;
    if some == {x} {
    } else {
      OldestExists(q, some - {x});
      var c :| c in some - {x} && forall d | d in some - {x} :: q.commands[c].created <= q.commands[d].created;
      var best := if q.commands[x].created < q.commands[c].created then x else c;
      assert best in some && forall d | d in some :: q.commands[best].created <= q.commands[d].created by {
        forall d | d in some ensures q.commands[best].created <= q.commands[d].created {
          assert d == x || d in some - {x};
        }
      }
    }
  }

  /** The commands that the SELECT of a poll may return. */
  function Candidates(q: Queue, row: RowId): set<CmdId> {
    set c | c in q.commands && Oldest(q, row, c)
  }

  /** The SELECT may return exactly the pending commands of the row that nobody has locked and that are
      no newer than any other such, and returns nothing exactly when there are none. */
  lemma WaitsExactly(q: Queue, row: RowId)
    ensures Waits(q, row) <==> Candidates(q, row) != {}
    ensures forall c :: c in Candidates(q, row) <==>
      Waiting(q, row, c) && forall d | d in q.commands && Waiting(q, row, d) ::
        q.commands[c].created <= q.commands[d].created
  {
    forall c ensures Waiting(q, row, c) <==> Eligible(q, row, c) {
      if p :| p in q.polls && q.polls[p].Fetching? && q.polls[p].cmd == c { assert Locked(q, c); }
    }
    var waiting := set c | c in q.commands && Waiting(q, row, c);
    if x :| x in q.commands && Waiting(q, row, x) {
      assert x in waiting;
      OldestExists(q, waiting);
      var c :| c in waiting && forall d | d in waiting :: q.commands[c].created <= q.commands[d].created;
      assert c in Candidates(q, row);
    }
    if c :| c in Candidates(q, row) { assert Waiting(q, row, c); }
  }

  predicate SameOrder(c: Command, c': Command) {
    c'.row == c.row && c'.command == c.command && c'.created == c.created
  }

  /** Where a step takes a poller that works on a command. */
  function Onward(command: string, poll: Poll, e: Event): Poll {
    match e
    case Abort(_) => if poll.Fetching? then Idle else poll
    case Commit(_) => if poll.Fetching? then Fetched(poll.cmd) else poll
    case CommitUnseen(_) => if poll.Fetching? then Idle else poll
    case PreMark(_, _) => if poll.Fetched? && Terminating(command) then Marked(poll.cmd) else poll
    case Call(_) => if poll.Marked? || (poll.Fetched? && !Terminating(command)) then Running(poll.cmd) else poll
    case Return(_, ok) => if poll.Running? then Returned(poll.cmd, ok) else poll
    case Finish(_, _) => if poll.Returned? then Idle else poll
    case Die(_) => Idle
    case _ => poll
  }

  function StatusAfter(command: string, status: Progress, poll: Poll, e: Event): Progress {
    if poll.Fetching? && (e.Commit? || e.CommitUnseen?) then InProgress
    else if poll.Fetched? && e.PreMark? && e.written && Terminating(command) then Completed
    else if poll.Returned? && e.Finish? && e.written && !poll.ok then Failed
    else if poll.Returned? && e.Finish? && e.written && !Terminating(command) then Completed
    else status
  }

  predicate Followed(q: Queue, q': Queue, p: string, e: Event)
    requires Active(PollOf(q, p))
  {
    var poll := PollOf(q, p);
    && poll.cmd in q.commands && poll.cmd in q'.commands
    && SameOrder(q.commands[poll.cmd], q'.commands[poll.cmd])
    && PollOf(q', p) == Onward(q.commands[poll.cmd].command, poll, e)
    && q'.commands[poll.cmd].status == StatusAfter(q.commands[poll.cmd].command, q.commands[poll.cmd].status, poll, e)
    && (forall c | c in q.ran :: c in q'.ran)
    && (PollOf(q', p).Running? ==> poll.cmd in q'.ran)
  }

  lemma PollStepFollows(q: Queue, now: int, e: Event, p: string)
    requires Safe(q, now) && StepOf(e, p) && Active(PollOf(q, p))
    ensures Followed(q, PollStep(q, now, e), p, e)
  {
  }

  lemma StepFollows(s: State, e: Event, p: string)
    requires Safe(s.queue, s.now) && StepOf(e, p) && Active(PollOf(s.queue, p))
    ensures Followed(s.queue, Next(s, e).queue, p, e)
  {
    PollStepFollows(s.queue, s.now, e, p);
  }

  /** Claims on these machines can succeed: all are known, and no statement is lost. */
  predicate Unfailing(s: State, ids: seq<string>, fails: Faults) {
    forall i | 0 <= i < |ids| :: !fails(i) && ids[i] in s.machines.Keys
  }

  lemma SucceedsAfter(s: State, others: seq<Event>, name: string, freshRow: RowId)
    requires UniqueNames(s)
    ensures var seen := Exec(s, others); Succeeds(seen, name, freshRow) <==>
      if exists r :: r in seen.workers && seen.workers[r].name == name
      then forall r | r in seen.workers && seen.workers[r].name == name ::
        seen.workers[r].status == Offline || seen.now - seen.workers[r].heartbeat > 90_000_000
      else freshRow !in seen.workers
  {
    NamesStayUnique(s, others);
    SucceedsExactly(Exec(s, others), name, freshRow);
  }

  class Coordinator {
    const db: Database
    const workerID: string
    const workerName: string
    var workerDBID: Option<RowId>

    constructor (db: Database, hostPid: string, name: string)
      ensures this.db == db && workerID == hostPid && workerDBID == None
      ensures workerName == if name == "" then hostPid else name
    {
      this.db := db;
      workerID := hostPid;
      workerName := if name == "" then hostPid else name;
      workerDBID := None;
    }

    /** Registers the name: inserts its row, takes over an offline or silent one, or is refused. */
    method Register(freshRow: RowId, others: seq<Event>, commit: CommitOutcome) returns (ok: bool)
      requires UniqueNames(db.st)
      modifies db, this`workerDBID
      ensures UniqueNames(db.st)
      ensures db.st == Exec(old(db.st), others + Effect(FleetTables.Register(workerName, freshRow), commit))
      ensures var seen := Exec(old(db.st), others);
        var accepted :=
          if exists r :: r in seen.workers && seen.workers[r].name == workerName
          then forall r | r in seen.workers && seen.workers[r].name == workerName ::
            seen.workers[r].status == Offline || seen.now - seen.workers[r].heartbeat > 90_000_000
          else freshRow !in seen.workers;
        && (ok <==> accepted && commit == Committed)
        && (!accepted ==> workerDBID == old(workerDBID) && db.st == seen)
        && (accepted ==> workerDBID.Some?)
        && (accepted && commit != RolledBack ==>
              && RowsNamed(db.st, workerName) == {workerDBID.value}
              && db.st == seen.(workers :=
                   seen.workers[workerDBID.value := WorkerRow(workerName, Online, seen.now, seen.now)]))
    {
      SucceedsAfter(old(db.st), others, workerName, freshRow);
      db.Others(others);
      NamesStayUnique(old(db.st), others);
      assert others + [] == others;
      ExecSnoc(old(db.st), others, FleetTables.Register(workerName, freshRow));
      StepKeepsRows(db.st, FleetTables.Register(workerName, freshRow));
      var rows := RowsNamed(db.st, workerName);
      if rows == {} {
        ok := InsertRow(freshRow, commit);
      } else {
        var r :| r in rows;
        UniqueRow(db.st, workerName, r);
        ok := TakeOver(r, freshRow, commit);
      }
    }

    /** The branch for a name without a row. */
    method InsertRow(freshRow: RowId, commit: CommitOutcome) returns (ok: bool)
      requires RowsNamed(db.st, workerName) == {}
      modifies db, this`workerDBID
      ensures db.st == if commit == RolledBack then old(db.st) else RegisterTx(old(db.st), workerName, freshRow)
      ensures ok <==> freshRow !in old(db.st).workers && commit == Committed
      ensures workerDBID == if freshRow in old(db.st).workers then old(workerDBID) else Some(freshRow)
      ensures freshRow !in old(db.st).workers && commit != RolledBack ==>
        RowsNamed(db.st, workerName) == {freshRow} && db.st == old(db.st).(workers :=
          old(db.st).workers[freshRow := WorkerRow(workerName, Online, db.st.now, db.st.now)])
    {
      if freshRow in db.st.workers { return false; }
      assert forall q | q in db.st.workers ::
        q in RowsNamed(db.st, workerName) <==> db.st.workers[q].name == workerName;
      workerDBID := Some(freshRow);
      if commit != RolledBack {
        db.st := db.st.(workers := db.st.workers[freshRow := WorkerRow(workerName, Online, db.st.now, db.st.now)]);
      }
      return commit == Committed;
    }

    /** The branches for a name with row r: take it over, or refuse. */
    method TakeOver(r: RowId, ghost freshRow: RowId, commit: CommitOutcome) returns (ok: bool)
      requires RowsNamed(db.st, workerName) == {r} && r in RowsNamed(db.st, workerName)
      modifies db, this`workerDBID
      ensures db.st == if commit == RolledBack then old(db.st) else RegisterTx(old(db.st), workerName, freshRow)
      ensures ok <==> OpenToTakeover(old(db.st).now, old(db.st).workers[r]) && commit == Committed
      ensures workerDBID == if OpenToTakeover(old(db.st).now, old(db.st).workers[r]) then Some(r) else old(workerDBID)
      ensures OpenToTakeover(old(db.st).now, old(db.st).workers[r]) && commit != RolledBack ==>
        RowsNamed(db.st, workerName) == {r} && db.st == old(db.st).(workers :=
          old(db.st).workers[r := WorkerRow(workerName, Online, db.st.now, db.st.now)])
    {
      ghost var seen := db.st;
      var w := db.st.workers[r];
      if w.status == Offline || db.st.now - w.heartbeat > STALE {
        workerDBID := Some(r);
        if commit != RolledBack {
          var taken := w.(status := Online, heartbeat := db.st.now, started := db.st.now);
          db.st := db.st.(workers := db.st.workers[r := taken]);
          assert db.st.workers == RegisterTx(seen, workerName, freshRow).workers;
        }
        return commit == Committed;
      }
      assert RegisterTx(seen, workerName, freshRow).workers == seen.workers;
      return false;
    }

    method ClaimOne(id: string, ghost stmts: seq<Event>, n: nat, ghost start: State, others: Schedule, fails: bool)
      returns (ok: bool)
      requires workerDBID.Some? && n < |stmts| && stmts[n] == Claim(workerID, workerDBID.value, id)
      requires db.st == Exec(start, Weave(stmts[..n], others, NO_FAULTS))
      modifies db
      ensures ok <==> !fails && workerDBID.value in db.st.workers && id in db.st.machines
      ensures ok ==> db.st == Exec(start, Weave(stmts[..n + 1], others, NO_FAULTS))
      ensures !ok ==> db.st == Exec(start, Weave(stmts[..n], others, NO_FAULTS) + others(n))
      ensures db.st.machines.Keys == old(db.st).machines.Keys
    {
      ExecConcat(start, Weave(stmts[..n], others, NO_FAULTS), others(n));
      MachinesStay(db.st, others(n));
      db.Others(others(n));
      ok := db.Execute(Claim(workerID, workerDBID.value, id), fails);
      if ok { WeaveSnoc(stmts, n, others, NO_FAULTS, start); }
    }

    /** Claims machine by machine and gives up at the first statement that fails. Without a row id the
        first statement fails, because it sends no valid reference. */
    method ClaimMachines(ids: seq<string>, others: Schedule, fails: Faults) returns (done: nat)
      modifies db
      ensures done <= |ids|
      ensures workerDBID.None? ==> done == 0 && db.st == if ids == [] then old(db.st) else Exec(old(db.st), others(0))
      ensures workerDBID.Some? ==>
        db.st == Exec(old(db.st), Weave(ClaimStmts(workerID, workerDBID.value, ids[..done]), others, NO_FAULTS)
                                  + if done < |ids| then others(done) else [])
      ensures forall i | 0 <= i < done :: !fails(i) && ids[i] in db.st.machines
      ensures done < |ids| ==>
        || fails(done) || workerDBID.None?
        || workerDBID.value !in db.st.workers || ids[done] !in db.st.machines
      ensures workerDBID.Some? && done == |ids| && workerDBID.value in old(db.st).workers ==>
        GrantedAreHeld(old(db.st), db.st, workerID, workerDBID.value, ids, others)
    {
      ghost var s := db.st;
      if workerDBID.None? {
        if ids != [] { db.Others(others(0)); }
        return 0;
      }
      done := ClaimEach(ids, others, fails);
      assert ClaimStmts(workerID, workerDBID.value, ids)[..done] == ClaimStmts(workerID, workerDBID.value, ids[..done]);
      if done == |ids| && workerDBID.value in s.workers {
        assert ids[..done] == ids;
        ClaimsHeld(s, workerID, workerDBID.value, ids, others);
        ghost var w := Weave(ClaimStmts(workerID, workerDBID.value, ids), others, NO_FAULTS);
        assert w + [] == w;
      }
    }

    method ClaimEach(ids: seq<string>, others: Schedule, fails: Faults) returns (done: nat)
      requires workerDBID.Some?
      modifies db
      ensures done <= |ids|
      ensures db.st.machines.Keys == old(db.st).machines.Keys
      ensures db.st == Exec(old(db.st), Weave(ClaimStmts(workerID, workerDBID.value, ids)[..done], others, NO_FAULTS)
                                        + if done < |ids| then others(done) else [])
      ensures Unfailing(db.st, ids[..done], fails)
      ensures done < |ids| ==> fails(done) || workerDBID.value !in db.st.workers || ids[done] !in db.st.machines
    {
      done := 0;
      ghost var stmts := ClaimStmts(workerID, workerDBID.value, ids);
      ghost var s := db.st;
      while done < |ids|
        invariant 0 <= done <= |ids|
        invariant db.st == Exec(s, Weave(stmts[..done], others, NO_FAULTS))
        invariant db.st.machines.Keys == s.machines.Keys
        invariant Unfailing(s, ids[..done], fails)
      {
        var ok := ClaimOne(ids[done], stmts, done, s, others, fails(done));
        if !ok { return; }
        assert ids[..done + 1] == ids[..done] + [ids[done]];
        done := done + 1;
      }
      ghost var w := Weave(stmts[..done], others, NO_FAULTS);
      assert w + [] == w;
    }

    /** One tick of the heartbeat loop; failing statements are only logged. */
    method HeartbeatTick(ids: seq<string>, others: Schedule, fails: Faults)
      modifies db
      ensures db.st == Exec(old(db.st), Weave(BeatStmts(workerID, workerDBID, ids), others, fails))
      ensures workerDBID.Some? && workerDBID.value in old(db.st).workers && !fails(0) ==>
        workerDBID.value in db.st.workers && db.st.workers[workerDBID.value].heartbeat >= old(db.st).now
      ensures var k := if workerDBID.Some? then 1 else 0;
        forall i | 0 <= i < |ids| && !fails(k + i) ::
          ids[i] in db.st.leases && db.st.leases[ids[i]].worker == workerID ==>
            db.st.leases[ids[i]].heartbeat >= old(db.st).now
    {
      ghost var s := db.st;
      SendBeats(ids, others, fails);
      TickBeats(s, workerID, workerDBID, ids, others, fails);
    }

    method SendBeats(ids: seq<string>, others: Schedule, fails: Faults)
      modifies db
      ensures db.st == Exec(old(db.st), Weave(BeatStmts(workerID, workerDBID, ids), others, fails))
    {
      ghost var stmts := BeatStmts(workerID, workerDBID, ids);
      ghost var s := db.st;
      var k := if workerDBID.Some? then 1 else 0;
      if workerDBID.Some? { BeatOne(BeatRow(workerDBID.value), stmts, 0, s, others, fails); }
      assert stmts[..0] == [];
      var i := 0;
      while i < |ids|
        invariant 0 <= i <= |ids| && |stmts| == k + |ids|
        invariant db.st == Exec(s, Weave(stmts[..k + i], others, fails))
      {
        BeatOne(BeatLease(workerID, ids[i]), stmts, k + i, s, others, fails);
        i := i + 1;
      }
      assert stmts[..k + i] == stmts;
    }

    /** Statement n of a tick, after the statements before it. */
    method BeatOne(e: Event, ghost stmts: seq<Event>, n: nat, ghost start: State, others: Schedule, fails: Faults)
      requires n < |stmts| && stmts[n] == e
      requires db.st == Exec(start, Weave(stmts[..n], others, fails))
      modifies db
      ensures db.st == Exec(start, Weave(stmts[..n + 1], others, fails))
    {
      db.Others(others(n));
      var _ := db.Execute(e, fails(n));
      WeaveSnoc(stmts, n, others, fails, start);
    }

    method ReleaseMachines(ids: seq<string>, others: Schedule, fails: Faults)
      modifies db
      ensures db.st == Exec(old(db.st), Weave(ReleaseStmts(workerID, ids), others, fails))
      ensures NeverClaimed(others, workerID) ==>
        forall m | Holds(db.st, workerID, m) ::
          Holds(old(db.st), workerID, m) && forall i | 0 <= i < |ids| && ids[i] == m :: fails(i)
    {
      ghost var stmts := ReleaseStmts(workerID, ids);
      ghost var s := db.st;
      var i := 0;
      while i < |ids|
        invariant 0 <= i <= |ids|
        invariant db.st == Exec(s, Weave(stmts[..i], others, fails))
      {
        db.Others(others(i));
        var _ := db.Execute(Release(workerID, ids[i]), fails(i));
        WeaveSnoc(stmts, i, others, fails, s);
        i := i + 1;
      }
      assert stmts[..i] == stmts;
      if NeverClaimed(others, workerID) {
        forall m | Holds(db.st, workerID, m)
          ensures Holds(s, workerID, m) && forall j | 0 <= j < |ids| && ids[j] == m :: fails(j)
        {
          ReleasedAll(s, workerID, ids, others, fails, m);
        }
      }
    }

    method SetOffline(others: seq<Event>, fails: bool)
      modifies db
      ensures db.st == if workerDBID.None? then old(db.st)
                       else Exec(old(db.st), others + if fails then [] else [GoOffline(workerDBID.value)])
    {
      if workerDBID.None? { return; }
      assert others + [] == others;
      ExecSnoc(old(db.st), others, GoOffline(workerDBID.value));
      db.Others(others);
      var _ := db.Execute(GoOffline(workerDBID.value), fails);
    }

    /** Lets the others act, then takes one step as a poller that works on a command. */
    method PollAct(e: Event, others: seq<Event>)
      requires Safe(db.st.queue, db.st.now) && NoStepOf(others, workerID) && StepOf(e, workerID)
      requires Active(PollOf(db.st.queue, workerID))
      modifies db
      ensures Safe(db.st.queue, db.st.now)
      ensures Followed(old(db.st.queue), db.st.queue, workerID, e)
    {
      var q := db.st.queue;
      OthersLeaveCommand(db.st, others, workerID);
      forall c | c in q.ran ensures c in Exec(db.st, others).queue.ran {
        HandlerCallsStay(db.st, others, c);
      }
      db.Others(others);
      StepKeepsSafe(db.st, e);
      StepFollows(db.st, e, workerID);
      var _ := db.Execute(e, false);
    }

    /** Marks stop and restart completed in advance, then enters the handler. */
    method EnterHandler(c: CmdId, others: Schedule, preMarkFails: bool)
      requires Safe(db.st.queue, db.st.now) && PollOf(db.st.queue, workerID) == Fetched(c)
      requires NotPolledBy(others, workerID)
      modifies db
      ensures Safe(db.st.queue, db.st.now) && PollOf(db.st.queue, workerID) == Running(c)
      ensures c in old(db.st.queue.commands) && c in db.st.queue.commands && c in db.st.queue.ran
      ensures SameOrder(old(db.st.queue.commands)[c], db.st.queue.commands[c])
      ensures var command := old(db.st.queue.commands)[c].command;
        db.st.queue.commands[c].status ==
          if (command == "stop" || command == "restart") && !preMarkFails then Completed else InProgress
    {
      var command := db.st.queue.commands[c].command;
      if Terminating(command) { PollAct(PreMark(workerID, !preMarkFails), others(3)); }
      PollAct(Call(workerID), others(4));
    }

    /** Takes the result of the handler and writes the final mark. */
    method LeaveHandler(c: CmdId, others: Schedule, ok: bool, finishFails: bool)
      requires Safe(db.st.queue, db.st.now) && PollOf(db.st.queue, workerID) == Running(c)
      requires c in db.st.queue.ran && NotPolledBy(others, workerID)
      modifies db
      ensures Safe(db.st.queue, db.st.now) && PollOf(db.st.queue, workerID) == Idle
      ensures c in old(db.st.queue.commands) && c in db.st.queue.commands && c in db.st.queue.ran
      ensures SameOrder(old(db.st.queue.commands)[c], db.st.queue.commands[c])
      ensures var cmd := old(db.st.queue.commands)[c];
        db.st.queue.commands[c].status ==
          if finishFails || (ok && (cmd.command == "stop" || cmd.command == "restart")) then cmd.status
          else if ok then Completed else Failed
    {
      PollAct(Return(workerID, ok), others(5));
      PollAct(Finish(workerID, !finishFails), others(6));
    }

    /** Begins a transaction, then fetches and locks the oldest pending command of the row that
        nobody else has locked, if there is one. */
    method FetchNext(row: RowId, others: Schedule, selectFails: bool) returns (found: Option<CmdId>)
      requires Safe(db.st.queue, db.st.now) && PollOf(db.st.queue, workerID) == Idle && NotPolledBy(others, workerID)
      modifies db
      ensures Safe(db.st.queue, db.st.now)
      ensures found.Some? <==> !selectFails && Waits(AtSelect(old(db.st), workerID, others).queue, row)
      ensures found.Some? ==>
        && found.value in Candidates(AtSelect(old(db.st), workerID, others).queue, row)
        && db.st == Next(AtSelect(old(db.st), workerID, others), Fetch(workerID, row, found.value))
        && found.value !in old(db.st.queue.ran)
        && PollOf(db.st.queue, workerID).Fetching? && PollOf(db.st.queue, workerID).cmd == found.value
        && found.value in db.st.queue.commands && db.st.queue.commands[found.value].row == row
      ensures found.None? ==>
        db.st == Next(AtSelect(old(db.st), workerID, others), Abort(workerID)) && PollOf(db.st.queue, workerID) == Idle
    {
      BeginTx(others(0));
      WaitTurn(others(1));
      var candidates := Candidates(db.st.queue, row);
      WaitsExactly(db.st.queue, row);
      if selectFails || candidates == {} {
        StepKeepsSafe(db.st, Abort(workerID));
        var _ := db.Execute(Abort(workerID), false);
        return None;
      }
      var c :| c in candidates;
      FetchLocked(row, c);
      return Some(c);
    }

    method BeginTx(others: seq<Event>)
      requires Safe(db.st.queue, db.st.now) && PollOf(db.st.queue, workerID) == Idle && NoStepOf(others, workerID)
      modifies db
      ensures Safe(db.st.queue, db.st.now) && PollOf(db.st.queue, workerID).Begun?
      ensures db.st == Next(Exec(old(db.st), others), Begin(workerID))
      ensures forall c | c in old(db.st.queue.ran) :: c in db.st.queue.ran
    {
      WaitTurn(others);
      StepKeepsSafe(db.st, Begin(workerID));
      var _ := db.Execute(Begin(workerID), false);
    }

    method FetchLocked(row: RowId, c: CmdId)
      requires Safe(db.st.queue, db.st.now) && PollOf(db.st.queue, workerID).Begun? && Oldest(db.st.queue, row, c)
      modifies db
      ensures db.st == Next(old(db.st), Fetch(workerID, row, c))
      ensures Safe(db.st.queue, db.st.now) && c !in db.st.queue.ran && db.st.queue.ran == old(db.st.queue.ran)
      ensures PollOf(db.st.queue, workerID).Fetching? && PollOf(db.st.queue, workerID).cmd == c
      ensures c in db.st.queue.commands && db.st.queue.commands[c].row == row
    {
      StepKeepsSafe(db.st, Fetch(workerID, row, c));
      var _ := db.Execute(Fetch(workerID, row, c), false);
    }

    /** Lets the others act while this poller works on no command. */
    method WaitTurn(others: seq<Event>)
      requires Safe(db.st.queue, db.st.now) && NoStepOf(others, workerID)
      modifies db
      ensures Safe(db.st.queue, db.st.now) && PollOf(db.st.queue, workerID) == PollOf(old(db.st.queue), workerID)
      ensures db.st == Exec(old(db.st), others)
      ensures forall c | c in old(db.st.queue.ran) :: c in db.st.queue.ran
    {
      OthersLeaveCommand(db.st, others, workerID);
      forall c | c in db.st.queue.ran ensures c in Exec(db.st, others).queue.ran {
        HandlerCallsStay(db.st, others, c);
      }
      db.Others(others);
    }

    /** Marks the fetched command in_progress and commits; the poller goes on only if it sees the commit. */
    method MarkInProgress(c: CmdId, others: seq<Event>, f: PollFaults) returns (committed: bool)
      requires Safe(db.st.queue, db.st.now) && NoStepOf(others, workerID)
      requires PollOf(db.st.queue, workerID).Fetching? && PollOf(db.st.queue, workerID).cmd == c
      modifies db
      ensures Safe(db.st.queue, db.st.now)
      ensures committed <==> !f.markFails && f.commit == Committed
      ensures PollOf(db.st.queue, workerID) == if committed then Fetched(c) else Idle
      ensures c in old(db.st.queue.commands) && c in db.st.queue.commands
      ensures SameOrder(old(db.st.queue.commands)[c], db.st.queue.commands[c])
      ensures db.st.queue.commands[c].status == if f.markFails || f.commit == RolledBack then Pending else InProgress
    {
      if f.markFails || f.commit == RolledBack {
        PollAct(Abort(workerID), others);
      } else if f.commit == AckLost {
        PollAct(CommitUnseen(workerID), others);
      } else {
        PollAct(Commit(workerID), others);
      }
      committed := !f.markFails && f.commit == Committed;
    }

    /** Carries out a command that is committed as in_progress. */
    method Dispatch(c: CmdId, others: Schedule, f: PollFaults, outcome: HandlerOutcome)
      requires Safe(db.st.queue, db.st.now) && PollOf(db.st.queue, workerID) == Fetched(c)
      requires NotPolledBy(others, workerID)
      modifies db
      ensures Safe(db.st.queue, db.st.now) && c in old(db.st.queue.commands) && c in db.st.queue.commands
      ensures c in db.st.queue.ran
      ensures SameOrder(old(db.st.queue.commands)[c], db.st.queue.commands[c])
      ensures db.st.queue.commands[c].status == Verdict(db.st.queue.commands[c].command, f, outcome)
      ensures PollOf(db.st.queue, workerID) == if outcome.NeverReturned? then Running(c) else Idle
    {
      EnterHandler(c, others, f.preMarkFails);
      if outcome.NeverReturned? { return; }
      LeaveHandler(c, others, outcome.Succeeded?, f.finishFails);
    }

    /** Polls once. A handler is called exactly when nothing fails up to the acknowledged commit and a
        command waits; it gets the oldest one, which was never handed out before. */
    method ProcessNextCommand(others: Schedule, f: PollFaults, handler: CmdId -> HandlerOutcome)
      returns (called: Option<CmdId>)
      requires Safe(db.st.queue, db.st.now) && PollOf(db.st.queue, workerID) == Idle
      requires NotPolledBy(others, workerID)
      modifies db
      ensures Safe(db.st.queue, db.st.now)
      ensures called.None? ==> PollOf(db.st.queue, workerID) == Idle
      ensures called.Some? <==>
        workerDBID.Some? && Dispatches(f) && Waits(AtSelect(old(db.st), workerID, others).queue, workerDBID.value)
      ensures called.Some? ==>
        && called.value in Candidates(AtSelect(old(db.st), workerID, others).queue, workerDBID.value)
        && called.value !in old(db.st.queue.ran) && called.value in db.st.queue.ran
        && called.value in db.st.queue.commands
        && db.st.queue.commands[called.value].row == workerDBID.value
        && db.st.queue.commands[called.value].status
             == Verdict(db.st.queue.commands[called.value].command, f, handler(called.value))
        && PollOf(db.st.queue, workerID) == if handler(called.value).NeverReturned? then Running(called.value) else Idle
    {
      if workerDBID.None? || f.beginFails { return None; }
      called := FetchNext(workerDBID.value, others, f.selectFails);
      if called.None? { return; }
      var committed := MarkInProgress(called.value, others(2), f);
      if !committed { return None; }
      Dispatch(called.value, others, f, handler(called.value));
    }
  }
}
