/**
 Machine leases over whole runs: who can lose one, why, and what a worker
 must do to keep one. The events quantified over are arbitrary, so processes
 that were reaped, or that share a workers row after a takeover, are included.
 */
module Leases {
  import opened FleetTables

  /** The three ways in which worker w can lose the lease of machine m at event e. */
  predicate Forfeits(s: State, e: Event, w: string, m: string)
    requires Holds(s, w, m)
  {
    match e
    case Release(worker, machine) => worker == w && machine == m
    case Claim(worker, row, machine) =>
      machine == m && worker != w && row in s.workers && m in s.machines
      && s.now - s.leases[m].heartbeat > 90_000_000
    case Reap =>
      var r := s.leases[m].row;
      r in s.workers && s.workers[r].status == Online && s.now - s.workers[r].heartbeat > 90_000_000
    case _ => false
  }

  lemma ForfeitExactly(s: State, e: Event, w: string, m: string)
    requires Holds(s, w, m)
    ensures !Holds(Next(s, e), w, m) <==> Forfeits(s, e, w, m)
  {
  }

  /** Every step, seen from the lease of one machine: when there is one afterwards, and what it says. */
  lemma LeaseMoves(s: State, e: Event, m: string)
    ensures m in Next(s, e).leases <==>
      if e.Claim? && e.machine == m && e.row in s.workers && m in s.machines then true
      else
        && m in s.leases
        && !(e.Release? && e.machine == m && e.worker == s.leases[m].worker)
        && !(e.Reap? && s.leases[m].row in s.workers && s.workers[s.leases[m].row].status == Online
             && s.now - s.workers[s.leases[m].row].heartbeat > 90_000_000)
    ensures m in Next(s, e).leases ==> (
      Next(s, e).leases[m] ==
        if e.Claim? && e.machine == m && e.row in s.workers && m in s.machines
           && (m !in s.leases || s.now - s.leases[m].heartbeat > 90_000_000 || s.leases[m].worker == e.worker)
        then Lease(e.worker, e.row, s.now, s.now)
        else if e.BeatLease? && e.machine == m && e.worker == s.leases[m].worker
        then Lease(s.leases[m].worker, s.leases[m].row, s.leases[m].claimed, s.now)
        else s.leases[m])
  {
  }

  /** A claim is granted exactly when the machine is free, its lease is more than 90 seconds old, or it
      is the claimant's own, and then starts a new lease. Otherwise it changes nothing and reports no error. */
  lemma ClaimOutcome(s: State, w: string, r: RowId, m: string)
    requires r in s.workers && m in s.machines
    ensures var t := Next(s, Claim(w, r, m));
      var granted := m !in s.leases || s.now - s.leases[m].heartbeat > 90_000_000 || s.leases[m].worker == w;
      && (m in t.leases && t.leases[m].worker == w <==> granted)
      && t == if granted then s.(leases := s.leases[m := Lease(w, r, s.now, s.now)]) else s
  {
  }

  /** An event that can take the lease of m from worker w. */
  predicate Takes(e: Event, w: string, m: string) {
    e.Reap? || (e.Release? && e.worker == w && e.machine == m) || (e.Claim? && e.worker != w && e.machine == m)
  }

  lemma {:induction false} UntakenStays(s: State, es: seq<Event>, w: string, m: string)
    requires Holds(s, w, m) && forall e | e in es :: !Takes(e, w, m)
    ensures Holds(Exec(s, es), w, m)
    decreases |es|
  {
    if es == [] {
    } else {
      assert es[0] in es;
      UntakenStays(Next(s, es[0]), es[1..], w, m);
    }
  }

  /** Only a claim moves a lease to another worker, and only one whose heartbeat is more than 90 seconds old. */
  lemma {:induction false} LossHasCause(s: State, es: seq<Event>, w: string, m: string) returns (k: nat)
    requires Holds(s, w, m)
    requires !Holds(Exec(s, es), w, m)
    ensures k < |es|
    ensures forall i | 0 <= i <= k :: Holds(Exec(s, es[..i]), w, m)
    ensures Forfeits(Exec(s, es[..k]), es[k], w, m)
    decreases |es|
  {
    var t := Next(s, es[0]);
    if Holds(t, w, m) {
      var j := LossHasCause(t, es[1..], w, m);
      k := j + 1;
      forall i | 0 <= i <= k ensures Holds(Exec(s, es[..i]), w, m) {
        if i > 0 { assert es[..i][0] == es[0] && es[..i][1..] == es[1..][..i - 1]; }
      }
      assert es[..k][0] == es[0] && es[..k][1..] == es[1..][..j];
    } else {
      ForfeitExactly(s, es[0], w, m);
      k := 0;
    }
  }

  /** Beats of worker w for machine m under row r, read off the events alone: row and lease are the
      times of the last two kinds of heartbeat, and no tick lets either grow older than 90 seconds. */
  predicate Steady(now: int, es: seq<Event>, w: string, r: RowId, m: string, row: int, lease: int)
    decreases |es|
  {
    es == [] ||
    var rest := es[1..];
    match es[0]
    case Tick(d) => !Stale(now + d, row) && !Stale(now + d, lease) && Steady(now + d, rest, w, r, m, row, lease)
    case BeatRow(row') => Steady(now, rest, w, r, m, if row' == r then now else row, lease)
    case BeatLease(w', m') => Steady(now, rest, w, r, m, row, if w' == w && m' == m then now else lease)
    case Release(w', m') => (w' != w || m' != m) && Steady(now, rest, w, r, m, row, lease)
    case Claim(w', r', m') => (w' != w || m' != m || r' == r) && Steady(now, rest, w, r, m, row, lease)
    case _ => Steady(now, rest, w, r, m, row, lease)
  }

  predicate LeasedSince(s: State, w: string, r: RowId, m: string, row: int, lease: int) {
    Holds(s, w, m) && s.leases[m].row == r && r in s.workers &&
    row <= s.workers[r].heartbeat && lease <= s.leases[m].heartbeat && !Stale(s.now, row) && !Stale(s.now, lease)
  }

  /** Lease safety: whatever else happens, a worker whose heartbeats are never more than 90 seconds
      apart keeps its lease until it releases it itself. */
  lemma {:induction false} SteadyKeepsLease(s: State, es: seq<Event>, w: string, r: RowId, m: string,
                                            row: int, lease: int)
    requires LeasedSince(s, w, r, m, row, lease)
    requires row <= s.now && lease <= s.now
    requires Steady(s.now, es, w, r, m, row, lease)
    ensures forall i | 0 <= i <= |es| :: Holds(Exec(s, es[..i]), w, m)
    decreases |es|
  {
    if es == [] {
    } else {
      var e, t := es[0], Next(s, es[0]);
      var row' := if e == BeatRow(r) then s.now else row;
      var lease' := if e == BeatLease(w, m) then s.now else lease;
      SteadyStep(s, e, w, r, m, row, lease);
      SteadyKeepsLease(t, es[1..], w, r, m, row', lease');
      forall i | 0 < i <= |es| ensures Holds(Exec(s, es[..i]), w, m) {
        assert es[..i][0] == e && es[..i][1..] == es[1..][..i - 1];
      }
    }
  }

  lemma SteadyStep(s: State, e: Event, w: string, r: RowId, m: string, row: int, lease: int)
    requires LeasedSince(s, w, r, m, row, lease) && row <= s.now && lease <= s.now
    requires Steady(s.now, [e], w, r, m, row, lease)
    ensures LeasedSince(Next(s, e), w, r, m,
                        if e == BeatRow(r) then s.now else row, if e == BeatLease(w, m) then s.now else lease)
  {
  }

  predicate Claims(e: Event, w: string) {
    e.Claim? && e.worker == w
  }

  lemma {:induction false} NoClaimNoLease(s: State, es: seq<Event>, w: string, m: string)
    requires !Holds(s, w, m)
    requires forall e | e in es :: !Claims(e, w)
    ensures !Holds(Exec(s, es), w, m)
    decreases |es|
  {
    if es == [] {
    } else {
      assert es[0] in es;
      NoClaimNoLease(Next(s, es[0]), es[1..], w, m);
    }
  }

  predicate HoldsNothing(s: State, w: string) {
    forall m | m in s.leases :: s.leases[m].worker != w
  }

  predicate RowOffline(s: State, r: RowId) {
    r in s.workers && s.workers[r].status == Offline
  }

  lemma OnlyClaimsLease(s: State, e: Event, w: string)
    requires HoldsNothing(s, w) && !Claims(e, w)
    ensures HoldsNothing(Next(s, e), w)
  {
  }

  lemma OnlyRegistrationRevives(s: State, e: Event, r: RowId)
    requires RowOffline(s, r) && !(e.Register? && e.name == s.workers[r].name)
    ensures RowOffline(Next(s, e), r) && Next(s, e).workers[r].name == s.workers[r].name
  {
  }

  /** A clean stop is final: with no lease left and its row offline, nothing but a later registration
      of the name or claim of the worker changes that; in particular no heartbeat does. */
  lemma {:induction false} StopIsFinal(s: State, es: seq<Event>, w: string, r: RowId)
    requires HoldsNothing(s, w) && RowOffline(s, r)
    requires forall e | e in es :: !Claims(e, w) && !(e.Register? && e.name == s.workers[r].name)
    ensures HoldsNothing(Exec(s, es), w) && RowOffline(Exec(s, es), r)
    decreases |es|
  {
    if es == [] {
    } else {
      assert es[0] in es;
      OnlyClaimsLease(s, es[0], w);
      OnlyRegistrationRevives(s, es[0], r);
      StopIsFinal(Next(s, es[0]), es[1..], w, r);
    }
  }
}
