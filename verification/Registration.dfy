/**
 Registration of worker names over whole runs: one permanent row per name, and
 an exact account of what the successful registrations of a name consume.
 */
module Registration {
  import opened FleetTables

  /** workers.name carries a UNIQUE constraint. */
  predicate UniqueNames(s: State) {
    forall q, r | q in s.workers && r in s.workers && s.workers[q].name == s.workers[r].name :: q == r
  }

  predicate KeepsRows(s: State, t: State) {
    forall r | r in s.workers :: r in t.workers && t.workers[r].name == s.workers[r].name
  }

  lemma RegisterKeepsRows(s: State, name: string, freshRow: RowId)
    requires UniqueNames(s)
    ensures var t := RegisterTx(s, name, freshRow);
      UniqueNames(t) && KeepsRows(s, t) &&
      forall r | r in t.workers && r !in s.workers :: r == freshRow && t.workers[r].name == name
  {
    if RowsNamed(s, name) == {} {
      assert forall r | r in s.workers :: r in RowsNamed(s, name) <==> s.workers[r].name == name;
    }
  }

  /** Every step, seen from a row that exists: exactly what it changes. */
  lemma RowMoves(s: State, e: Event, r: RowId)
    requires r in s.workers
    ensures r in Next(s, e).workers
    ensures var w := s.workers[r];
      Next(s, e).workers[r] ==
        (if e == BeatRow(r) then WorkerRow(w.name, w.status, s.now, w.started)
         else if e == GoOffline(r) then WorkerRow(w.name, Offline, w.heartbeat, w.started)
         else if e == Reap && w.status == Online && s.now - w.heartbeat > 90_000_000
         then WorkerRow(w.name, Offline, w.heartbeat, w.started)
         else if e.Register? && e.name == w.name && (w.status == Offline || s.now - w.heartbeat > 90_000_000)
         then WorkerRow(w.name, Online, s.now, s.now)
         else w)
  {
    assert e.Register? && e.name == s.workers[r].name ==> r in RowsNamed(s, e.name);
  }

  /** And from an id without a row: only registering a name that has no row makes one. */
  lemma RowAppears(s: State, e: Event, r: RowId)
    requires r !in s.workers
    ensures r in Next(s, e).workers <==>
      e.Register? && e.freshRow == r && forall q | q in s.workers :: s.workers[q].name != e.name
    ensures r in Next(s, e).workers ==> Next(s, e).workers[r] == WorkerRow(e.name, Online, s.now, s.now)
  {
    if e.Register? {
      assert forall q | q in s.workers :: q in RowsNamed(s, e.name) <==> s.workers[q].name == e.name;
    }
  }

  lemma StepKeepsRows(s: State, e: Event)
    requires UniqueNames(s)
    ensures UniqueNames(Next(s, e)) && KeepsRows(s, Next(s, e))
    ensures forall r | r in Next(s, e).workers && r !in s.workers ::
      e.Register? && r == e.freshRow && Next(s, e).workers[r].name == e.name
  {
    if e.Register? {
      RegisterKeepsRows(s, e.name, e.freshRow);
    } else {
      forall r | r in s.workers || r in Next(s, e).workers
        ensures r in s.workers && r in Next(s, e).workers && Next(s, e).workers[r].name == s.workers[r].name
      {
        if r in s.workers { RowMoves(s, e, r); } else { RowAppears(s, e, r); }
      }
    }
  }

  lemma {:induction false} NamesStayUnique(s: State, es: seq<Event>)
    requires UniqueNames(s)
    ensures UniqueNames(Exec(s, es))
    decreases |es|
  {
    if es == [] {
    } else {
      StepKeepsRows(s, es[0]);
      NamesStayUnique(Next(s, es[0]), es[1..]);
    }
  }

  lemma {:induction false} RowsStay(s: State, es: seq<Event>, r: RowId)
    requires r in s.workers
    ensures r in Exec(s, es).workers
    decreases |es|
  {
    if es == [] {
    } else {
      RowsStay(Next(s, es[0]), es[1..], r);
    }
  }

  /** Every name keeps one row with one id for the whole run. */
  lemma {:induction false} RowIsPermanent(s: State, es: seq<Event>, r: RowId)
    requires UniqueNames(s) && r in s.workers
    ensures UniqueNames(Exec(s, es))
    ensures RowsNamed(Exec(s, es), s.workers[r].name) == {r}
    decreases |es|
  {
    if es == [] {
      assert r in RowsNamed(s, s.workers[r].name);
    } else {
      StepKeepsRows(s, es[0]);
      RowIsPermanent(Next(s, es[0]), es[1..], r);
    }
  }

  /** Whether a registration commits instead of being refused or failing. */
  predicate Succeeds(s: State, name: string, freshRow: RowId) {
    if RowsNamed(s, name) == {} then freshRow !in s.workers
    else exists r | r in RowsNamed(s, name) :: OpenToTakeover(s.now, s.workers[r])
  }

  /** A registration succeeds exactly when every row of the name is offline or more than 90 seconds
      silent, or, if there is no such row, the new id is unused. */
  lemma SucceedsExactly(s: State, name: string, freshRow: RowId)
    requires UniqueNames(s)
    ensures Succeeds(s, name, freshRow) <==>
      if exists r :: r in s.workers && s.workers[r].name == name
      then forall r | r in s.workers && s.workers[r].name == name ::
        s.workers[r].status == Offline || s.now - s.workers[r].heartbeat > 90_000_000
      else freshRow !in s.workers
  {
    if r :| r in s.workers && s.workers[r].name == name {
      assert r in RowsNamed(s, name);
      UniqueRow(s, name, r);
    } else {
      assert RowsNamed(s, name) == {};
    }
  }

  predicate Up(s: State, name: string) {
    exists r | r in RowsNamed(s, name) :: s.workers[r].status == Online
  }

  function One(b: bool): nat { if b then 1 else 0 }

  predicate Registered(s: State, e: Event, name: string) {
    e.Register? && e.name == name && Succeeds(s, name, e.freshRow)
  }

  predicate MarkedOffline(s: State, e: Event, name: string) {
    Up(s, name) && !Up(Next(s, e), name)
  }

  predicate StaleTakeover(s: State, e: Event, name: string) {
    Registered(s, e, name) && Up(s, name)
  }

  /** A write to heartbeat_at of the row of this name that comes more than 90 seconds after the previous one. */
  predicate EndsSilence(s: State, e: Event, name: string) {
    exists r | r in RowsNamed(s, name) && Stale(s.now, s.workers[r].heartbeat) ::
      r in Next(s, e).workers && Next(s, e).workers[r].heartbeat != s.workers[r].heartbeat
  }

  function Count(s: State, es: seq<Event>, name: string, what: (State, Event, string) -> bool): nat
    decreases |es|
  {
    if es == [] then 0 else One(what(s, es[0], name)) + Count(Next(s, es[0]), es[1..], name, what)
  }

  function Registrations(s: State, es: seq<Event>, name: string): nat { Count(s, es, name, Registered) }
  function OfflineMarks(s: State, es: seq<Event>, name: string): nat { Count(s, es, name, MarkedOffline) }
  function StaleTakeovers(s: State, es: seq<Event>, name: string): nat { Count(s, es, name, StaleTakeover) }
  function SilentGaps(s: State, es: seq<Event>, name: string): nat { Count(s, es, name, EndsSilence) }

  lemma UniqueRow(s: State, name: string, r: RowId)
    requires UniqueNames(s) && r in RowsNamed(s, name)
    ensures RowsNamed(s, name) == {r}
    ensures Up(s, name) <==> s.workers[r].status == Online
  {
  }

  predicate Accounted(s: State, e: Event, name: string) {
    && One(Registered(s, e, name)) + One(!Up(Next(s, e), name))
       == One(!Up(s, name)) + One(MarkedOffline(s, e, name)) + One(StaleTakeover(s, e, name))
    && (StaleTakeover(s, e, name) ==> EndsSilence(s, e, name))
  }

  /** The account of a step when the name already has row r. */
  lemma AccountRow(s: State, e: Event, name: string, r: RowId)
    requires UniqueNames(s) && RowsNamed(s, name) == {r} && RowsNamed(Next(s, e), name) == {r}
    ensures Accounted(s, e, name)
  {
    assert r in RowsNamed(s, name) && r in RowsNamed(Next(s, e), name);
    if Registered(s, e, name) { assert Next(s, e).workers[r].status == Online; }
  }

  lemma AccountStep(s: State, e: Event, name: string)
    requires UniqueNames(s)
    ensures Accounted(s, e, name)
  {
    var t := Next(s, e);
    StepKeepsRows(s, e);
    if r :| r in RowsNamed(s, name) {
      UniqueRow(s, name, r);
      assert r in RowsNamed(t, name);
      UniqueRow(t, name, r);
      AccountRow(s, e, name, r);
    } else if e.Register? && e.name == name && e.freshRow !in s.workers {
      assert e.freshRow in RowsNamed(t, name);
    } else {
      forall r | r in t.workers ensures t.workers[r].name != name {
        if r in s.workers { assert r !in RowsNamed(s, name); }
      }
    }
  }

  /** Successful registrations of a name are paid for exactly: by the name having been free or offline
      at the start, by marks offline, and by takeovers of an online row that had fallen silent. */
  lemma {:induction false} RegistrationsBalance(s: State, es: seq<Event>, name: string)
    requires UniqueNames(s)
    ensures Registrations(s, es, name) + One(!Up(Exec(s, es), name))
         == One(!Up(s, name)) + OfflineMarks(s, es, name) + StaleTakeovers(s, es, name)
    ensures StaleTakeovers(s, es, name) <= SilentGaps(s, es, name)
    ensures StaleTakeovers(s, es, name) <= Registrations(s, es, name)
    decreases |es|
  {
    if es == [] {
    } else {
      AccountStep(s, es[0], name);
      StepKeepsRows(s, es[0]);
      RegistrationsBalance(Next(s, es[0]), es[1..], name);
    }
  }

  lemma RegistrationEpochs(s: State, es: seq<Event>, name: string)
    requires UniqueNames(s)
    ensures Registrations(s, es, name) <= 1 + OfflineMarks(s, es, name) + SilentGaps(s, es, name)
  {
    RegistrationsBalance(s, es, name);
  }

  /** heartbeat_at never runs ahead of the clock and never goes back. */
  lemma {:induction false} HeartbeatsAdvance(s: State, es: seq<Event>, r: RowId)
    requires r in s.workers && s.workers[r].heartbeat <= s.now
    ensures r in Exec(s, es).workers
    ensures s.workers[r].heartbeat <= Exec(s, es).workers[r].heartbeat <= Exec(s, es).now
    decreases |es|
  {
    if es == [] {
    } else {
      HeartbeatsAdvance(Next(s, es[0]), es[1..], r);
    }
  }

  lemma StaysUp(s: State, es: seq<Event>, name: string)
    requires UniqueNames(s) && Up(s, name) && OfflineMarks(s, es, name) == 0
    ensures Up(Exec(s, es), name)
  {
    RegistrationsBalance(s, es, name);
  }

  lemma RefusedUnlessStale(t: State, name: string, r: RowId, freshRow: RowId)
    requires r in t.workers && RowsNamed(t, name) == {r} && Up(t, name)
    ensures Succeeds(t, name, freshRow) <==> t.now - t.workers[r].heartbeat > 90_000_000
    ensures !(t.now - t.workers[r].heartbeat > 90_000_000) ==> RegisterTx(t, name, freshRow) == t
  {
    if !Stale(t.now, t.workers[r].heartbeat) {
      assert RegisterTx(t, name, freshRow).workers == t.workers;
    }
  }

  /** A restart releases machines but never marks the row offline. Its registration is then accepted
      exactly when the last heartbeat is more than 90 seconds old, so one that comes within
      90 seconds of the stop is refused, whatever the other processes do in between. */
  lemma RestartRefused(s: State, es: seq<Event>, r: RowId, name: string, freshRow: RowId)
    requires UniqueNames(s) && r in s.workers && s.workers[r].name == name
    requires s.workers[r].status == Online && s.workers[r].heartbeat <= s.now
    requires OfflineMarks(s, es, name) == 0
    ensures r in Exec(s, es).workers
    ensures Succeeds(Exec(s, es), name, freshRow) <==> Exec(s, es).now - Exec(s, es).workers[r].heartbeat > 90_000_000
    ensures Exec(s, es).now - s.workers[r].heartbeat <= 90_000_000 ==>
      Exec(s, es + [Register(name, freshRow)]) == Exec(s, es)
  {
    RowIsPermanent(s, es, r);
    HeartbeatsAdvance(s, es, r);
    assert Up(s, name) by { assert r in RowsNamed(s, name); }
    StaysUp(s, es, name);
    ExecSnoc(s, es, Register(name, freshRow));
    RefusedUnlessStale(Exec(s, es), name, r, freshRow);
  }

  /** A row that is offline is taken over by the next registration of its name, however recent its heartbeat. */
  lemma OfflineReopens(t: State, r: RowId, freshRow: RowId)
    requires UniqueNames(t) && r in t.workers && t.workers[r].status == Offline
    ensures Succeeds(t, t.workers[r].name, freshRow)
    ensures Next(t, Register(t.workers[r].name, freshRow))
         == t.(workers := t.workers[r := WorkerRow(t.workers[r].name, Online, t.now, t.now)])
  {
    var name := t.workers[r].name;
    assert r in RowsNamed(t, name);
    UniqueRow(t, name, r);
    assert RegisterTx(t, name, freshRow).workers == t.workers[r := WorkerRow(name, Online, t.now, t.now)];
  }
}
