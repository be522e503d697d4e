/**
 The command queue over whole runs with any number of pollers: at-most-once
 delivery, the life of a command, and the order in which commands start.
 */
module Commands {
  import opened Wrappers
  import opened FleetTables

  /** The poller works on a command. */
  predicate Active(poll: Poll) {
    !poll.Idle? && !poll.Begun?
  }

  predicate NoDuplicates(ids: seq<CmdId>) {
    forall i, j | 0 <= i < j < |ids| :: ids[i] != ids[j]
  }

  predicate Done(c: Command) {
    c.status == Completed || c.status == Failed
  }

  /** Timestamps and status of one command agree. */
  predicate LifeOk(c: Command, now: int) {
    && c.created <= now
    && (c.status == Pending <==> c.started == None)
    && (c.started.Some? ==> c.started.value <= now)
    && (Done(c) <==> c.completed.Some?)
    && (Done(c) ==> c.started.Some? && c.started.value <= c.completed.value <= now)
  }

  predicate PollOk(q: Queue, now: int, poll: Poll) {
    && (poll.Begun? ==> poll.began <= now)
    && (Active(poll) ==>
      && poll.cmd in q.commands
      && (poll.Fetching? <==> q.commands[poll.cmd].status == Pending)
      && (poll.Fetching? ==> poll.began <= now)
      && (poll.Fetched? ==> q.commands[poll.cmd].status == InProgress)
      && (poll.Marked? ==> Terminating(q.commands[poll.cmd].command))
      && q.commands[poll.cmd].status != Failed
      && (q.commands[poll.cmd].status == Completed ==> Terminating(q.commands[poll.cmd].command))
      && (poll.cmd in q.ran <==> poll.Running? || poll.Returned?)
      && (poll.Returned? && poll.ok ==> poll.cmd in q.returnedOk))
  }

  predicate LivesOk(q: Queue, now: int) {
    forall c | c in q.commands :: LifeOk(q.commands[c], now)
  }

  predicate PollsOk(q: Queue, now: int) {
    forall p | p in q.polls :: PollOk(q, now, q.polls[p])
  }

  /** No two pollers work on the same command. */
  predicate Exclusive(q: Queue) {
    forall p, p' | p in q.polls && p' in q.polls && p != p' && Active(q.polls[p]) && Active(q.polls[p']) ::
      q.polls[p].cmd != q.polls[p'].cmd
  }

  predicate HistoryOk(q: Queue) {
    && (forall c | c in q.ran :: c in q.commands && q.commands[c].status != Pending)
    && (forall c | c in q.commands && !Terminating(q.commands[c].command) && q.commands[c].status == Completed ::
          c in q.returnedOk)
    && NoDuplicates(q.ran)
  }

  predicate Safe(q: Queue, now: int) {
    LivesOk(q, now) && PollsOk(q, now) && Exclusive(q) && HistoryOk(q)
  }

  lemma KeepsLives(q: Queue, now: int, e: Event)
    requires Safe(q, now)
    ensures LivesOk(PollStep(q, now, e), now)
  {
  }

  lemma KeepsOwnPoll(q: Queue, now: int, e: Event, p: string)
    requires Safe(q, now) && StepOf(e, p)
    ensures PollOk(PollStep(q, now, e), now, PollOf(PollStep(q, now, e), p))
  {
  }

  lemma KeepsOtherPoll(q: Queue, now: int, e: Event, p: string)
    requires Safe(q, now) && !StepOf(e, p)
    ensures PollOk(PollStep(q, now, e), now, PollOf(PollStep(q, now, e), p))
  {
    var q', poll := PollStep(q, now, e), PollOf(q, p);
    assert PollOf(q', p) == poll;
    if Active(poll) {
      assert PollOk(q, now, poll);
      assert q'.commands[poll.cmd] == q.commands[poll.cmd];
      assert poll.cmd in q'.ran <==> poll.cmd in q.ran;
    }
  }

  lemma KeepsPolls(q: Queue, now: int, e: Event)
    requires Safe(q, now)
    ensures PollsOk(PollStep(q, now, e), now)
  {
    forall p | p in PollStep(q, now, e).polls ensures PollOk(PollStep(q, now, e), now, PollStep(q, now, e).polls[p]) {
      if StepOf(e, p) { KeepsOwnPoll(q, now, e, p); } else { KeepsOtherPoll(q, now, e, p); }
    }
  }

  lemma KeepsExclusive(q: Queue, now: int, e: Event)
    requires Safe(q, now)
    ensures Exclusive(PollStep(q, now, e))
  {
  }

  lemma KeepsHistory(q: Queue, now: int, e: Event)
    requires Safe(q, now)
    ensures HistoryOk(PollStep(q, now, e))
  {
  }

  lemma StepKeepsSafe(s: State, e: Event)
    requires Safe(s.queue, s.now)
    ensures Safe(Next(s, e).queue, Next(s, e).now)
  {
    KeepsLives(s.queue, s.now, e);
    KeepsPolls(s.queue, s.now, e);
    KeepsExclusive(s.queue, s.now, e);
    KeepsHistory(s.queue, s.now, e);
  }

  lemma {:induction false} RunKeepsSafe(s: State, es: seq<Event>)
    requires Safe(s.queue, s.now)
    ensures Safe(Exec(s, es).queue, Exec(s, es).now)
    decreases |es|
  {
    if es == [] {
    } else {
      StepKeepsSafe(s, es[0]);
      RunKeepsSafe(Next(s, es[0]), es[1..]);
    }
  }

  /** e is a step of poller p. */
  predicate StepOf(e: Event, p: string) {
    match e
    case Begin(p') => p' == p
    case Fetch(p', _, _) => p' == p
    case Abort(p') => p' == p
    case Commit(p') => p' == p
    case CommitUnseen(p') => p' == p
    case PreMark(p', _) => p' == p
    case Call(p') => p' == p
    case Return(p', _) => p' == p
    case Finish(p', _) => p' == p
    case Die(p') => p' == p
    case _ => false
  }

  predicate NoStepOf(es: seq<Event>, p: string) {
    forall e | e in es :: !StepOf(e, p)
  }

  /** While poller p works on a command, nobody else changes that command or the standing of p. */
  lemma {:induction false} OthersLeaveCommand(s: State, es: seq<Event>, p: string)
    requires Safe(s.queue, s.now) && NoStepOf(es, p)
    ensures var t := Exec(s, es); var poll := PollOf(s.queue, p);
      && Safe(t.queue, t.now) && PollOf(t.queue, p) == poll
      && (Active(poll) ==> poll.cmd in t.queue.commands && t.queue.commands[poll.cmd] == s.queue.commands[poll.cmd])
    decreases |es|
  {
    if es == [] {
    } else {
      assert es[0] in es;
      StepKeepsSafe(s, es[0]);
      OtherLeavesCommand(s, es[0], p);
      OthersLeaveCommand(Next(s, es[0]), es[1..], p);
    }
  }

  lemma OtherPollLeavesCommand(q: Queue, now: int, e: Event, p: string)
    requires Safe(q, now) && !StepOf(e, p)
    ensures PollOf(PollStep(q, now, e), p) == PollOf(q, p)
    ensures var poll := PollOf(q, p);
      Active(poll) ==>
        poll.cmd in q.commands && poll.cmd in PollStep(q, now, e).commands
        && PollStep(q, now, e).commands[poll.cmd] == q.commands[poll.cmd]
  {
    if Active(PollOf(q, p)) { assert PollOk(q, now, q.polls[p]); }
  }

  lemma OtherLeavesCommand(s: State, e: Event, p: string)
    requires Safe(s.queue, s.now) && !StepOf(e, p)
    ensures var t := Next(s, e); var poll := PollOf(s.queue, p);
      && PollOf(t.queue, p) == poll
      && (Active(poll) ==> poll.cmd in t.queue.commands && t.queue.commands[poll.cmd] == s.queue.commands[poll.cmd])
  {
    OtherPollLeavesCommand(s.queue, s.now, e, p);
  }

  lemma {:induction false} HandlerCallsStay(s: State, es: seq<Event>, c: CmdId)
    requires c in s.queue.ran
    ensures c in Exec(s, es).queue.ran
    decreases |es|
  {
    if es == [] {
    } else {
      HandlerCallsStay(Next(s, es[0]), es[1..], c);
    }
  }

  /** From empty tables, with any number of pollers, crashes, aborted transactions and lost
      acknowledgements, no command is handed to a handler twice. */
  lemma AtMostOnce(es: seq<Event>)
    ensures NoDuplicates(Exec(NOTHING, es).queue.ran)
  {
    RunKeepsSafe(NOTHING, es);
  }

  /** The life of a command: its timestamps are ordered, and a command other than stop or restart is
      completed only after its handler returned without error. */
  lemma CommandLifecycle(es: seq<Event>, c: CmdId)
    requires c in Exec(NOTHING, es).queue.commands
    ensures var s := Exec(NOTHING, es); var cmd := s.queue.commands[c];
      && (Done(cmd) ==> cmd.started.Some? && cmd.completed.Some? &&
                        cmd.started.value <= cmd.completed.value <= s.now)
      && cmd.created <= s.now
      && (cmd.status == Completed && cmd.command != "stop" && cmd.command != "restart" ==> c in s.queue.returnedOk)
      && (c in s.queue.ran ==> cmd.started.Some?)
  {
    RunKeepsSafe(NOTHING, es);
  }

  /** Every change of status, with the event that makes it. Nothing returns to pending, and a
      completed command fails only if it is stop or restart and its handler came back with an error. */
  lemma StatusMoves(s: State, e: Event, c: CmdId)
    requires Safe(s.queue, s.now) && c in s.queue.commands
    ensures c in Next(s, e).queue.commands
    ensures var cmd, status := s.queue.commands[c], Next(s, e).queue.commands[c].status;
      || status == cmd.status
      || (cmd.status == Pending && status == InProgress && (e.Commit? || e.CommitUnseen?))
      || (cmd.status == InProgress && status == Completed && e.PreMark? && Terminating(cmd.command))
      || (cmd.status == InProgress && status == Completed && e.Finish? && !Terminating(cmd.command)
         && c in s.queue.returnedOk)
      || (cmd.status == InProgress && status == Failed && e.Finish?
          && PollOf(s.queue, e.poller) == Returned(c, false))
      || (cmd.status == Completed && status == Failed && e.Finish? && Terminating(cmd.command)
          && PollOf(s.queue, e.poller) == Returned(c, false))
  {
  }

  /** Every step, seen from one command: nothing rewrites what was asked for, and only the commit that
      starts it sets its start, to the time its poller's transaction began. */
  lemma StartMoves(s: State, e: Event, c: CmdId)
    requires Safe(s.queue, s.now) && c in s.queue.commands
    ensures c in Next(s, e).queue.commands
    ensures var was, now := s.queue.commands[c], Next(s, e).queue.commands[c];
      && now.row == was.row && now.command == was.command && now.created == was.created
      && (if was.status == Pending && now.status == InProgress
          then (e.Commit? || e.CommitUnseen?) && PollOf(s.queue, e.poller).Fetching?
               && now.started == Some(PollOf(s.queue, e.poller).began)
          else now.started == was.started)
  {
  }

  /** And only a mark sets its finish, to the time of the mark; no command finishes without one. */
  lemma FinishMoves(s: State, e: Event, c: CmdId)
    requires c in s.queue.commands
    ensures c in Next(s, e).queue.commands
    ensures var was, now := s.queue.commands[c], Next(s, e).queue.commands[c];
      && (now.completed == was.completed || ((e.PreMark? || e.Finish?) && now.completed == Some(s.now)))
      && (now.status != was.status && Done(now) ==> now.completed == Some(s.now))
  {
  }

  /** Commands only come from being sent to an existing worker, pending as of now. */
  lemma CommandAppears(s: State, e: Event, c: CmdId)
    requires Safe(s.queue, s.now) && c !in s.queue.commands
    ensures c in Next(s, e).queue.commands <==> e.Enqueue? && e.freshCmd == c && e.row in s.workers
    ensures c in Next(s, e).queue.commands ==>
      Next(s, e).queue.commands[c] == Command(e.row, e.command, Pending, s.now, None, None)
  {
  }

  /** Every step, seen from the records: only entering a handler lengthens the record of calls, only a
      handler that returns without error enters that of successes, and only a commit that of starts. */
  lemma RecordsMove(s: State, e: Event)
    ensures var q, q' := s.queue, Next(s, e).queue;
      && q'.ran == (if e.Call? && !PollOf(q, e.poller).Running? && PollOf(q', e.poller).Running?
                    then q.ran + [PollOf(q', e.poller).cmd] else q.ran)
      && q'.returnedOk == (if e.Return? && e.ok && PollOf(q, e.poller).Running?
                           then q.returnedOk + {PollOf(q, e.poller).cmd} else q.returnedOk)
      && q'.starts == (if (e.Commit? || e.CommitUnseen?) && PollOf(q, e.poller).Fetching?
                          && PollOf(q, e.poller).cmd in q.commands
                       then q.starts + [PollOf(q, e.poller).cmd] else q.starts)
  {
  }

  /** The command handler of the worker: stop ends the process, restart replaces it or fails, and
      every other command is rejected, so it never returns without an error. */
  predicate RejectsOrDies(es: seq<Event>) {
    forall e | e in es && e.Return? :: !e.ok
  }

  lemma {:induction false} NothingReturnsOk(s: State, es: seq<Event>)
    requires s.queue.returnedOk == {} && RejectsOrDies(es)
    ensures Exec(s, es).queue.returnedOk == {}
    decreases |es|
  {
    if es == [] {
    } else {
      assert es[0] in es;
      NothingReturnsOk(Next(s, es[0]), es[1..]);
    }
  }

  /** With that handler only stop and restart ever complete; reload_config can only fail. */
  lemma OnlyStopAndRestartComplete(es: seq<Event>, c: CmdId)
    requires RejectsOrDies(es) && c in Exec(NOTHING, es).queue.commands
    requires Exec(NOTHING, es).queue.commands[c].status == Completed
    ensures Exec(NOTHING, es).queue.commands[c].command == "stop"
         || Exec(NOTHING, es).queue.commands[c].command == "restart"
  {
    RunKeepsSafe(NOTHING, es);
    NothingReturnsOk(NOTHING, es);
  }

  // ---- the order in which commands start ----

  predicate InCreationOrder(q: Queue, row: RowId) {
    forall i, j | 0 <= i < j < |q.starts| && q.starts[i] in q.commands && q.starts[j] in q.commands
      && q.commands[q.starts[i]].row == row && q.commands[q.starts[j]].row == row ::
      q.commands[q.starts[i]].created <= q.commands[q.starts[j]].created
  }

  predicate IsPending(q: Queue, row: RowId, c: CmdId) {
    c in q.commands && q.commands[c].row == row && q.commands[c].status == Pending
  }

  predicate NoNewerThanPending(q: Queue, row: RowId, c: CmdId) {
    c in q.commands && q.commands[c].row == row ==>
      forall d | d in q.commands && IsPending(q, row, d) :: q.commands[c].created <= q.commands[d].created
  }

  /** Only poller p fetches for this row, and whatever has started or is being fetched is no newer than what waits. */
  predicate OnePoller(q: Queue, row: RowId, p: string) {
    && InCreationOrder(q, row)
    && (forall i | 0 <= i < |q.starts| :: q.starts[i] in q.commands && NoNewerThanPending(q, row, q.starts[i]))
    && (forall p' | p' in q.polls && q.polls[p'].Fetching? && IsPending(q, row, q.polls[p'].cmd) ::
          p' == p && NoNewerThanPending(q, row, q.polls[p'].cmd))
  }

  predicate OnlyPolledBy(e: Event, row: RowId, p: string) {
    e.Fetch? && e.row == row ==> e.poller == p
  }

  lemma EnqueueKeepsOnePoller(s: State, e: Event, row: RowId, p: string)
    requires Safe(s.queue, s.now) && OnePoller(s.queue, row, p) && e.Enqueue?
    ensures OnePoller(Next(s, e).queue, row, p)
  {
  }

  lemma FetchKeepsOnePoller(q: Queue, now: int, e: Event, row: RowId, p: string)
    requires Safe(q, now) && OnePoller(q, row, p) && OnlyPolledBy(e, row, p) && e.Fetch?
    ensures OnePoller(PollStep(q, now, e), row, p)
  {
    var q' := PollStep(q, now, e);
    if q' != q && e.row == row {
      forall d | d in q.commands && IsPending(q, row, d) ensures Eligible(q, row, d) {}
      assert NoNewerThanPending(q, row, e.cmd);
    }
  }

  /** Starting a command leaves creation times alone and takes only that command off the pending ones. */
  lemma StartKeepsWaiting(q: Queue, c: CmdId, began: int, row: RowId, d: CmdId)
    requires c in q.commands && NoNewerThanPending(q, row, d)
    ensures NoNewerThanPending(Start(q, c, began), row, d)
  {
    assert forall x | x in q.commands && IsPending(Start(q, c, began), row, x) :: IsPending(q, row, x);
  }

  lemma StartKeepsOrder(q: Queue, c: CmdId, began: int, row: RowId)
    requires c in q.commands && q.commands[c].status == Pending && InCreationOrder(q, row)
    requires forall i | 0 <= i < |q.starts| :: q.starts[i] in q.commands && NoNewerThanPending(q, row, q.starts[i])
    ensures InCreationOrder(Start(q, c, began), row)
  {
    forall i | 0 <= i < |q.starts| && q.commands[q.starts[i]].row == row && q.commands[c].row == row
      ensures q.commands[q.starts[i]].created <= q.commands[c].created
    {
      assert NoNewerThanPending(q, row, q.starts[i]);
    }
  }

  lemma StartKeepsOnePoller(q: Queue, now: int, e: Event, row: RowId, p: string)
    requires Safe(q, now) && OnePoller(q, row, p) && (e.Commit? || e.CommitUnseen?)
    ensures OnePoller(PollStep(q, now, e), row, p)
  {
    if PollStep(q, now, e) != q {
      var poll := PollOf(q, e.poller);
      var t := Start(q, poll.cmd, poll.began);
      StartKeepsOrder(q, poll.cmd, poll.began, row);
      forall d | NoNewerThanPending(q, row, d) ensures NoNewerThanPending(t, row, d) {
        StartKeepsWaiting(q, poll.cmd, poll.began, row, d);
      }
      assert NoNewerThanPending(q, row, poll.cmd);
      var t' := PollStep(q, now, e);
      assert forall d | NoNewerThanPending(t, row, d) :: NoNewerThanPending(t', row, d);
      assert InCreationOrder(t', row);
    }
  }

  lemma OtherStepsKeepOnePoller(q: Queue, now: int, e: Event, row: RowId, p: string)
    requires Safe(q, now) && OnePoller(q, row, p)
    requires !e.Fetch? && !e.Commit? && !e.CommitUnseen?
    ensures OnePoller(PollStep(q, now, e), row, p)
  {
    var q' := PollStep(q, now, e);
    assert q'.starts == q.starts && q'.commands.Keys == q.commands.Keys;
    forall c | c in q.commands
      ensures q'.commands[c].created == q.commands[c].created && q'.commands[c].row == q.commands[c].row
      ensures IsPending(q', row, c) == IsPending(q, row, c)
    {
    }
    assert forall c :: NoNewerThanPending(q, row, c) ==> NoNewerThanPending(q', row, c);
    assert forall x | x in q'.polls && q'.polls[x].Fetching? :: x in q.polls && q.polls[x] == q'.polls[x];
  }

  lemma PollStepKeepsOnePoller(q: Queue, now: int, e: Event, row: RowId, p: string)
    requires Safe(q, now) && OnePoller(q, row, p) && OnlyPolledBy(e, row, p)
    ensures OnePoller(PollStep(q, now, e), row, p)
  {
    match e
    case Fetch(_, _, _) => FetchKeepsOnePoller(q, now, e, row, p);
    case Commit(_) => StartKeepsOnePoller(q, now, e, row, p);
    case CommitUnseen(_) => StartKeepsOnePoller(q, now, e, row, p);
    case _ => OtherStepsKeepOnePoller(q, now, e, row, p);
  }

  lemma KeepsOnePoller(s: State, e: Event, row: RowId, p: string)
    requires Safe(s.queue, s.now) && OnePoller(s.queue, row, p) && OnlyPolledBy(e, row, p)
    ensures OnePoller(Next(s, e).queue, row, p)
  {
    if e.Enqueue? {
      EnqueueKeepsOnePoller(s, e, row, p);
    } else {
      PollStepKeepsOnePoller(s.queue, s.now, e, row, p);
      assert Next(s, e).queue == PollStep(s.queue, s.now, e);
    }
  }

  /** With a single poller on a worker row, its commands start in creation order. */
  lemma {:induction false} StartsInCreationOrder(s: State, es: seq<Event>, row: RowId, p: string)
    requires Safe(s.queue, s.now) && OnePoller(s.queue, row, p)
    requires forall e | e in es :: OnlyPolledBy(e, row, p)
    ensures InCreationOrder(Exec(s, es).queue, row)
    decreases |es|
  {
    if es == [] {
    } else {
      assert es[0] in es;
      StepKeepsSafe(s, es[0]);
      KeepsOnePoller(s, es[0], row, p);
      StartsInCreationOrder(Next(s, es[0]), es[1..], row, p);
    }
  }

  /** A worker is sent two commands, then two pollers that share its row after a takeover begin. */
  function Arrivals(row: RowId, a: string, b: string): seq<Event> {
    [Register("w", row), Enqueue(row, "stop", 0), Tick(1)] + [Enqueue(row, "restart", 1)] + [Begin(a)] + [Begin(b)]
  }

  function Waiting(row: RowId, a: Poll, b: Poll, first: string, second: string): Queue {
    Queue(map[0 := Command(row, "stop", Pending, 0, None, None), 1 := Command(row, "restart", Pending, 1, None, None)],
          map[first := a, second := b], [], [], {})
  }

  lemma ArrivalsWait(row: RowId, a: string, b: string)
    requires a != b
    ensures Exec(NOTHING, Arrivals(row, a, b)).now == 1
    ensures Exec(NOTHING, Arrivals(row, a, b)).queue == Waiting(row, Begun(1), Begun(1), a, b)
  {
    var es := [Register("w", row), Enqueue(row, "stop", 0), Tick(1)];
    ExecSnoc(NOTHING, es, Enqueue(row, "restart", 1));
    ExecSnoc(NOTHING, es + [Enqueue(row, "restart", 1)], Begin(a));
    ExecSnoc(NOTHING, es + [Enqueue(row, "restart", 1)] + [Begin(a)], Begin(b));
    assert es[1..][1..] == [es[2]] && es[2..][1..] == [];
    assert RowsNamed(NOTHING, "w") == {};
    var s1 := Next(NOTHING, es[0]);
    assert row in s1.workers && s1.queue == NOTHING.queue;
    var s2 := Next(s1, es[1]);
    assert Exec(s2, [es[2]]) == Exec(Next(s2, es[2]), []);
    assert Exec(NOTHING, es) == Exec(s1, es[1..]) == Exec(s2, es[1..][1..]);
  }

  /** SKIP LOCKED gives the older command to the first poller, hence the newer one to the second. */
  lemma FetchesApart(row: RowId, a: string, b: string)
    requires a != b
    ensures PollStep(Waiting(row, Begun(1), Begun(1), a, b), 1, Fetch(a, row, 0))
         == Waiting(row, Fetching(0, 1), Begun(1), a, b)
    ensures PollStep(Waiting(row, Fetching(0, 1), Begun(1), a, b), 1, Fetch(b, row, 1))
         == Waiting(row, Fetching(0, 1), Fetching(1, 1), a, b)
  {
    var q := Waiting(row, Begun(1), Begun(1), a, b);
    assert Oldest(q, row, 0);
    SecondFetch(row, a, b);
  }

  lemma SecondFetch(row: RowId, a: string, b: string)
    requires a != b
    ensures PollStep(Waiting(row, Fetching(0, 1), Begun(1), a, b), 1, Fetch(b, row, 1))
         == Waiting(row, Fetching(0, 1), Fetching(1, 1), a, b)
  {
    var q := Waiting(row, Fetching(0, 1), Begun(1), a, b);
    assert Locked(q, 0) by { assert q.polls[a] == Fetching(0, 1); }
    assert Oldest(q, row, 1);
  }

  lemma CommitsReversed(row: RowId, a: string, b: string)
    requires a != b
    ensures var q := Waiting(row, Fetching(0, 1), Fetching(1, 1), a, b);
      !InCreationOrder(PollStep(PollStep(q, 1, Commit(b)), 1, Commit(a)), row)
  {
    var q := Waiting(row, Fetching(0, 1), Fetching(1, 1), a, b);
    var t := PollStep(PollStep(q, 1, Commit(b)), 1, Commit(a));
    assert t.starts == [1, 0];
    assert t.commands[1].created == 1 && t.commands[0].created == 0 && t.commands[0].row == t.commands[1].row == row;
    assert t.starts[0] == 1 && t.starts[1] == 0;
  }

  function Reordering(row: RowId, a: string, b: string): seq<Event> {
    Arrivals(row, a, b) + [Fetch(a, row, 0)] + [Fetch(b, row, 1)] + [Commit(b)] + [Commit(a)]
  }

  /** Two pollers sharing a row can start its commands out of order: SKIP LOCKED hands the newer one
      to the second poller, whose transaction may commit first. */
  lemma TwoPollersReorder(row: RowId, a: string, b: string)
    requires a != b
    ensures !InCreationOrder(Exec(NOTHING, Reordering(row, a, b)).queue, row)
  {
    var es := Arrivals(row, a, b);
    ArrivalsWait(row, a, b);
    FetchesApart(row, a, b);
    CommitsReversed(row, a, b);
    ExecSnoc(NOTHING, es, Fetch(a, row, 0));
    ExecSnoc(NOTHING, es + [Fetch(a, row, 0)], Fetch(b, row, 1));
    ExecSnoc(NOTHING, es + [Fetch(a, row, 0)] + [Fetch(b, row, 1)], Commit(b));
    ExecSnoc(NOTHING, es + [Fetch(a, row, 0)] + [Fetch(b, row, 1)] + [Commit(b)], Commit(a));
  }

  /** Every fetch for this row comes from one of the given pollers. */
  predicate FetchedOnlyBy(es: seq<Event>, row: RowId, pollers: set<string>) {
    forall e | e in es && e.Fetch? && e.row == row :: e.poller in pollers
  }

  lemma OnePollerKeepsOrder(es: seq<Event>, row: RowId, pollers: set<string>)
    requires |pollers| <= 1 && FetchedOnlyBy(es, row, pollers)
    ensures InCreationOrder(Exec(NOTHING, es).queue, row)
  {
    var p := if pollers == {} then "" else var x :| x in pollers; x;
    assert pollers <= {p} by {
      if x :| x in pollers && x != p { assert |{x, p}| <= |pollers| by { SubsetSize({x, p}, pollers); } }
    }
    StartsInCreationOrder(NOTHING, es, row, p);
  }

  lemma {:induction false} SubsetSize<T>(a: set<T>, b: set<T>)
    requires a <= b
    ensures |a| <= |b|
  {
    if a == {} {
    } else {
      var x :| x in a;
      SubsetSize(a - {x}, b - {x});
    }
  }

  /** When commands start in creation order: the pollers that may fetch for a row keep its commands in
      order in every run from empty tables if and only if there is at most one of them. */
  lemma OrderedExactly(row: RowId, pollers: set<string>)
    ensures (forall es | FetchedOnlyBy(es, row, pollers) :: InCreationOrder(Exec(NOTHING, es).queue, row))
      <==> |pollers| <= 1
  {
    if |pollers| <= 1 {
      forall es | FetchedOnlyBy(es, row, pollers) ensures InCreationOrder(Exec(NOTHING, es).queue, row) {
        OnePollerKeepsOrder(es, row, pollers);
      }
    } else {
      var a :| a in pollers;
      assert |pollers - {a}| >= 1;
      var b :| b in pollers - {a};
      assert FetchedOnlyBy(Reordering(row, a, b), row, pollers);
      TwoPollersReorder(row, a, b);
    }
  }

  // ---- start times against creation times ----

  /** Creation times never change, and a command created later carries a later time. */
  lemma {:induction false} CreationTimes(s: State, es: seq<Event>, c: CmdId)
    ensures s.now <= Exec(s, es).now
    ensures c in s.queue.commands ==>
      c in Exec(s, es).queue.commands && Exec(s, es).queue.commands[c].created == s.queue.commands[c].created
    ensures c !in s.queue.commands && c in Exec(s, es).queue.commands ==> s.now <= Exec(s, es).queue.commands[c].created
    decreases |es|
  {
    if es == [] {
    } else {
      CreationStep(s, es[0], c);
      CreationTimes(Next(s, es[0]), es[1..], c);
    }
  }

  lemma CreationStep(s: State, e: Event, c: CmdId)
    ensures s.now <= Next(s, e).now
    ensures c in s.queue.commands ==>
      c in Next(s, e).queue.commands && Next(s, e).queue.commands[c].created == s.queue.commands[c].created
    ensures c !in s.queue.commands && c in Next(s, e).queue.commands ==> s.now <= Next(s, e).queue.commands[c].created
  {
  }

  /** A poller takes one command: it begins in s, finds c after es, and commits after fs. */
  function Taken(s: State, p: string, es: seq<Event>, row: RowId, c: CmdId, fs: seq<Event>): State {
    var t := Exec(Next(s, Begin(p)), es);
    Next(Exec(Next(t, Fetch(p, row, c)), fs), Commit(p))
  }

  /** Fetching and committing c, with steps of the others in between, gives it the start time of the transaction. */
  lemma FetchedTimes(t: State, p: string, began: int, row: RowId, c: CmdId, fs: seq<Event>)
    requires Safe(t.queue, t.now) && PollOf(t.queue, p) == Begun(began)
    requires NoStepOf(fs, p) && Oldest(t.queue, row, c)
    ensures var u := Next(Exec(Next(t, Fetch(p, row, c)), fs), Commit(p));
      c in t.queue.commands && c in u.queue.commands
      && u.queue.commands[c].started == Some(began) && u.queue.commands[c].created == t.queue.commands[c].created
  {
    var locked := Next(t, Fetch(p, row, c));
    StepKeepsSafe(t, Fetch(p, row, c));
    assert PollOf(locked.queue, p) == Fetching(c, began);
    OthersLeaveCommand(locked, fs, p);
  }

  lemma TakenTimes(s: State, p: string, es: seq<Event>, row: RowId, c: CmdId, fs: seq<Event>)
    requires Safe(s.queue, s.now) && PollOf(s.queue, p) == Idle
    requires NoStepOf(es, p) && NoStepOf(fs, p)
    requires Oldest(Exec(Next(s, Begin(p)), es).queue, row, c)
    ensures var t, u := Exec(Next(s, Begin(p)), es), Taken(s, p, es, row, c, fs);
      c in t.queue.commands && c in u.queue.commands
      && u.queue.commands[c].started == Some(s.now) && u.queue.commands[c].created == t.queue.commands[c].created
  {
    var b := Next(s, Begin(p));
    StepKeepsSafe(s, Begin(p));
    OthersLeaveCommand(b, es, p);
    var t := Exec(b, es);
    FetchedTimes(t, p, s.now, row, c, fs);
  }

  /** started_at carries the time the polling transaction began, while its SELECT may find a command
      inserted after that. So started_at is not before created_at exactly when the command already
      existed when the transaction began, or was inserted at that very time. */
  lemma StartedAfterCreationExactly(s: State, p: string, es: seq<Event>, row: RowId, c: CmdId, fs: seq<Event>)
    requires Safe(s.queue, s.now) && PollOf(s.queue, p) == Idle
    requires NoStepOf(es, p) && NoStepOf(fs, p)
    requires Oldest(Exec(Next(s, Begin(p)), es).queue, row, c)
    ensures var t, u := Exec(Next(s, Begin(p)), es), Taken(s, p, es, row, c, fs);
      && c in t.queue.commands && c in u.queue.commands && u.queue.commands[c].started.Some?
      && (u.queue.commands[c].created <= u.queue.commands[c].started.value
          <==> c in s.queue.commands || t.queue.commands[c].created == s.now)
  {
    TakenTimes(s, p, es, row, c, fs);
    CreationTimes(Next(s, Begin(p)), es, c);
    if c in s.queue.commands { assert LifeOk(s.queue.commands[c], s.now); }
  }

  /** The smallest run in which a command starts before it was created. */
  lemma StartMayPrecedeCreation()
    ensures var s := Next(Next(Next(NOTHING, Register("w", 0)), Begin("a")), Tick(1));
      var t := Next(Next(Next(s, Enqueue(0, "stop", 0)), Fetch("a", 0, 0)), Commit("a"));
      0 in t.queue.commands && t.queue.commands[0].created == 1 && t.queue.commands[0].started == Some(0)
  {
    BegunEarly();
    var s := Next(Next(Next(NOTHING, Register("w", 0)), Begin("a")), Tick(1));
    LateFetch(Next(s, Enqueue(0, "stop", 0)).queue);
  }

  lemma BegunEarly()
    ensures var s := Next(Next(Next(NOTHING, Register("w", 0)), Begin("a")), Tick(1));
      0 in s.workers && s.now == 1 && s.queue == NOTHING.queue.(polls := map["a" := Begun(0)])
  {
    var s := Next(NOTHING, Register("w", 0));
    assert RowsNamed(NOTHING, "w") == {};
    assert 0 in s.workers && s.queue == NOTHING.queue && s.now == 0;
  }

  lemma LateFetch(q: Queue)
    requires q == Queue(map[0 := Command(0, "stop", Pending, 1, None, None)], map["a" := Begun(0)], [], [], {})
    ensures var t := PollStep(PollStep(q, 1, Fetch("a", 0, 0)), 1, Commit("a"));
      0 in t.commands && t.commands[0].created == 1 && t.commands[0].started == Some(0)
  {
    assert Oldest(q, 0, 0);
    assert PollStep(q, 1, Fetch("a", 0, 0)) == q.(polls := map["a" := Fetching(0, 0)]);
  }
}
