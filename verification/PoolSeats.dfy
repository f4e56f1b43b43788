/** The users of an open pool: seats are checked out and released, stale leases are reclaimed, fork
    children come and go, and a generation that went wrong is quarantined. */
module PoolSeats {
  import opened Options
  import opened PoolDirectory

  /** Free seats of an open pool can be leased; a lease always comes with a busy seat. */
  predicate Leased(row: Row) { row.status == Busy && row.leased }

  /** The seat is as before but for status and lease. */
  predicate SameSeat(was: Row, row: Row) {
    row == was.(status := row.status, leased := row.leased)
  }

  predicate SameSeats(before: seq<Row>, rows: seq<Row>) {
    |rows| == |before| && forall i | 0 <= i < |rows| :: SameSeat(before[i], rows[i])
  }

  /** Busy seats whose recorded owner process is gone have become idle, and nothing else changed. */
  predicate Reclaimed(before: seq<Row>, gone: set<nat>, rows: seq<Row>) {
    && |rows| == |before|
    && forall i | 0 <= i < |rows| ::
         if i in gone && before[i].status == Busy && before[i].leased then rows[i] == before[i].(status := Idle, leased := false)
         else rows[i] == before[i]
  }

  /** `reclaim_stale_leases`; `gone` are the rows whose owner's pid does not exist. */
  method ReclaimStaleLeases(original: seq<Row>, gone: set<nat>) returns (rows: seq<Row>)
    ensures Reclaimed(original, gone, rows)
  {
    rows := original;
    for i := 0 to |rows|
      invariant |rows| == |original| && Reclaimed(original[..i], gone, rows[..i])
      invariant forall k | i <= k < |rows| :: rows[k] == original[k]
    {
      if rows[i].status == Busy && rows[i].leased && i in gone {
        rows := rows[i := rows[i].(status := Idle, leased := false)];
      }
    }
    assert original[..|rows|] == original && rows[..|rows|] == rows;
  }

  /** What is found about a seat: its physical control is in use, preloads are missing, its session
      is gone, or it can be handed out. */
  datatype Answer = Occupied | Missing | Gone | Usable

  /** One scan: the first usable seat with the wanted status is handed out, and those before it that
      cannot be used are marked. */
  ghost predicate Scanned(before: seq<Row>, wanted: Status, answers: seq<Answer>, rows: seq<Row>, seat: Option<nat>) {
    && |rows| == |before| == |answers|
    && (seat.Some? ==>
        && seat.value < |rows| && before[seat.value].status == wanted && answers[seat.value] == Usable
        && rows[seat.value] == before[seat.value].(status := Busy, leased := true))
    && (forall i | 0 <= i < |rows| && (seat.Some? ==> i < seat.value) :: SeatMarked(before[i], wanted, answers[i], rows[i]))
    && forall i | 0 <= i < |rows| && seat.Some? && i > seat.value :: rows[i] == before[i]
  }

  predicate SeatMarked(before: Row, wanted: Status, answer: Answer, row: Row) {
    if before.status != wanted then row == before
    else match answer
      case Occupied => row == before
      case Missing => row == before.(status := BasisMissing, leased := false)
      case Gone => row == before.(status := DeadSession, leased := false)
      case Usable => false
  }

  /** One pass of `checkout_warm_pool_seat` over the seats. */
  method ScanSeats(before: seq<Row>, wanted: Status, answers: seq<Answer>) returns (rows: seq<Row>, seat: Option<nat>)
    requires |answers| == |before|
    ensures Scanned(before, wanted, answers, rows, seat)
  {
    rows := before;
    for i := 0 to |rows|
      invariant |rows| == |before| && forall k | i <= k < |rows| :: rows[k] == before[k]
      invariant forall k | 0 <= k < i :: SeatMarked(before[k], wanted, answers[k], rows[k])
    {
      if rows[i].status != wanted {
        continue;
      }
      if answers[i] == Occupied {
        continue;
      }
      if answers[i] == Missing {
        rows := rows[i := rows[i].(status := BasisMissing, leased := false)];
        continue;
      }
      if answers[i] == Gone {
        rows := rows[i := rows[i].(status := DeadSession, leased := false)];
        continue;
      }
      rows := rows[i := rows[i].(status := Busy, leased := true)];
      return rows, Some(i);
    }
    seat := None;
  }

  /** The seats in use. */
  function Active(rows: seq<Row>): nat {
    if rows == [] then 0 else (if rows[0].status == Busy || rows[0].leased then 1 else 0) + Active(rows[1..])
  }

  /** What a caller asks with: whether dirty seats will do, and the answers it gets from outside. */
  datatype Request = Request(allowDirty: bool, gone: set<nat>, answers: seq<Answer>, limit: Option<nat>)

  /** A whole checkout: stale leases first; nothing at the attempt limit; idle seats before dirty ones. */
  ghost predicate CheckedOut(before: seq<Row>, q: Request, rows: seq<Row>, seat: Option<nat>) {
    exists reclaimed, idle, first :: CheckedOutVia(before, q, reclaimed, idle, first, rows, seat)
  }

  ghost predicate CheckedOutVia(before: seq<Row>, q: Request, reclaimed: seq<Row>, idle: seq<Row>, first: Option<nat>,
                                rows: seq<Row>, seat: Option<nat>) {
    && Reclaimed(before, q.gone, reclaimed)
    && if q.limit.Some? && Active(reclaimed) >= q.limit.value then rows == reclaimed && seat == None
       else
         && Scanned(reclaimed, Idle, q.answers, idle, first)
         && if first.None? && q.allowDirty then Scanned(idle, Dirty, q.answers, rows, seat)
            else rows == idle && seat == first
  }

  method FindSeat(before: seq<Row>, q: Request) returns (rows: seq<Row>, seat: Option<nat>)
    requires |q.answers| == |before|
    ensures CheckedOut(before, q, rows, seat)
  {
    var reclaimed := ReclaimStaleLeases(before, q.gone);
    if q.limit.Some? && Active(reclaimed) >= q.limit.value {
      assert CheckedOutVia(before, q, reclaimed, reclaimed, None, reclaimed, None);
      return reclaimed, None;
    }
    var idle, first := ScanSeats(reclaimed, Idle, q.answers);
    rows, seat := idle, first;
    if seat.None? && q.allowDirty {
      rows, seat := ScanSeats(idle, Dirty, q.answers);
    }
    assert CheckedOutVia(before, q, reclaimed, idle, first, rows, seat);
  }

  /** The indices of the seats in use, from `n` on. */
  function InUseFrom(rows: seq<Row>, n: nat): set<nat> {
    set i: nat | n <= i < |rows| && (rows[i].status == Busy || rows[i].leased)
  }

  function InUse(rows: seq<Row>): set<nat> { InUseFrom(rows, 0) }

  lemma {:induction false} ActiveIs(rows: seq<Row>, n: nat)
    requires n <= |rows|
    ensures Active(rows[n..]) == |InUseFrom(rows, n)|
    decreases |rows| - n
  {
    if n == |rows| {
      assert InUseFrom(rows, n) == {};
    } else {
      ActiveIs(rows, n + 1);
      assert rows[n..][1..] == rows[n + 1..] && rows[n..][0] == rows[n];
      if rows[n].status == Busy || rows[n].leased {
        assert InUseFrom(rows, n) == InUseFrom(rows, n + 1) + {n};
      } else {
        assert InUseFrom(rows, n) == InUseFrom(rows, n + 1);
      }
    }
  }

  lemma {:induction false} Subset(a: set<nat>, b: set<nat>)
    requires a <= b
    ensures |a| <= |b|
    decreases a
  {
    if a == {} {
    } else {
      var x :| x in a;
      Subset(a - {x}, b - {x});
    }
  }

  lemma OneMore(a: set<nat>, b: set<nat>, seat: nat)
    requires a <= b + {seat}
    ensures |a| <= |b| + 1
  {
    Subset(a - {seat}, b);
    Subset(a, (a - {seat}) + {seat});
  }

  lemma ScanUses(before: seq<Row>, wanted: Status, answers: seq<Answer>, rows: seq<Row>, seat: Option<nat>)
    requires Scanned(before, wanted, answers, rows, seat)
    ensures InUse(rows) <= InUse(before) + if seat.Some? then {seat.value} else {}
  {
    forall i | i in InUse(rows) && Some(i) != seat ensures i in InUse(before) {
    }
  }

  /** A seat is handed out only while fewer than the limit are in use, so that no more are then. */
  lemma LimitIsKept(before: seq<Row>, q: Request, rows: seq<Row>, seat: Option<nat>)
    requires CheckedOut(before, q, rows, seat) && q.limit.Some? && seat.Some?
    ensures |InUse(rows)| <= q.limit.value
  {
    hide Reclaimed, Scanned, InUseFrom, Active;
    var reclaimed, idle, first :| CheckedOutVia(before, q, reclaimed, idle, first, rows, seat);
    ActiveIs(reclaimed, 0);
    assert reclaimed[0..] == reclaimed;
    ScanUses(reclaimed, Idle, q.answers, idle, first);
    if first.None? {
      ScanUses(idle, Dirty, q.answers, rows, seat);
    }
    OneMore(InUse(rows), InUse(reclaimed), seat.value);
  }

  /** At most one seat is newly leased, it is handed out, and it was idle, dirty when that was allowed,
      or taken back from an owner that is gone; no seat changes but in status and lease. */
  lemma CheckoutIsFair(before: seq<Row>, q: Request, rows: seq<Row>, seat: Option<nat>)
    requires CheckedOut(before, q, rows, seat)
    ensures SameSeats(before, rows)
    ensures seat.Some? ==> seat.value < |rows| && Leased(rows[seat.value])
    ensures forall i | 0 <= i < |rows| && Leased(rows[i]) && Some(i) != seat :: rows[i] == before[i]
    ensures seat.Some? ==> var was := before[seat.value];
      was.status == Idle || (q.allowDirty && was.status == Dirty) || (seat.value in q.gone && Leased(was))
    ensures forall i | 0 <= i < |rows| && Leased(before[i]) && i !in q.gone :: rows[i] == before[i]
  {
    hide Scanned, Reclaimed;
    var reclaimed, idle, first :| CheckedOutVia(before, q, reclaimed, idle, first, rows, seat);
    ReclaimIsFair(before, q.gone, reclaimed);
    if q.limit.Some? && Active(reclaimed) >= q.limit.value {
    } else {
      ScanIsFair(reclaimed, Idle, q.answers, idle, first);
      if first.None? && q.allowDirty {
        ScanIsFair(idle, Dirty, q.answers, rows, seat);
      }
    }
  }

  lemma ReclaimIsFair(before: seq<Row>, gone: set<nat>, rows: seq<Row>)
    requires Reclaimed(before, gone, rows)
    ensures SameSeats(before, rows)
    ensures forall i | 0 <= i < |rows| && Leased(rows[i]) :: rows[i] == before[i]
    ensures forall i | 0 <= i < |rows| && rows[i] != before[i] :: i in gone && Leased(before[i]) && rows[i].status == Idle
  {
  }

  lemma ScanIsFair(before: seq<Row>, wanted: Status, answers: seq<Answer>, rows: seq<Row>, seat: Option<nat>)
    requires Scanned(before, wanted, answers, rows, seat)
    ensures SameSeats(before, rows)
    ensures seat.Some? ==> seat.value < |rows| && Leased(rows[seat.value]) && before[seat.value].status == wanted
    ensures forall i | 0 <= i < |rows| && Leased(rows[i]) && Some(i) != seat :: rows[i] == before[i]
    ensures forall i | 0 <= i < |rows| && before[i].status != wanted :: rows[i] == before[i]
    ensures forall i | 0 <= i < |rows| && Some(i) != seat && rows[i] != before[i] ::
      rows[i].status == BasisMissing || rows[i].status == DeadSession
  {
  }

  /** A checkout is refused unless the pool is ready; it hands out at most one seat, an idle one (or
      one whose owner is gone), and never takes a lease from a live owner. */
  method CheckoutPoolSeat(d: PoolDirectory, q: Request) returns (seat: Option<nat>)
    requires d.Valid() && |q.answers| == |d.now.pool.rows|
    modifies d`now, d`history, d`failures
    ensures d.Valid() && old(d.history) <= d.history && d.failures >= old(d.failures)
    ensures !IsOpen(old(d.now)) ==> seat.None? && d.now == old(d.now)
    ensures d.now == old(d.now).(pool := old(d.now).pool.(rows := d.now.pool.rows))
    ensures SameSeats(old(d.now).pool.rows, d.now.pool.rows)
    ensures seat.Some? ==> seat.value < |d.now.pool.rows| && Leased(d.now.pool.rows[seat.value])
    ensures IsOpen(old(d.now)) && d.failures == old(d.failures) ==>
      CheckedOut(old(d.now).pool.rows, q, d.now.pool.rows, seat)
  {
    hide Orderly, OpenedProperly, StepOk, CheckedOut, SameSeats;
    if d.now.pool.status != Ready {
      Unchanged(d.now.pool.rows);
      return None;
    }
    ghost var before := d.now.pool.rows;
    var rows;
    rows, seat := FindSeat(d.now.pool.rows, q);
    CheckoutIsFair(before, q, rows, seat);
    Unchanged(before);
    var next := d.now.(pool := d.now.pool.(rows := rows));
    SeatStepAllowed(d, next);
    var ok := d.Write(next);
    if !ok {
      seat := None;
    }
  }

  lemma Unchanged(rows: seq<Row>)
    ensures SameSeats(rows, rows)
  {
  }

  lemma SeatStepAllowed(d: PoolDirectory, next: Dir)
    requires d.Valid() && IsOpen(d.now)
    requires next == d.now.(children := next.children, pool := d.now.pool.(rows := next.pool.rows))
    requires SameSeats(d.now.pool.rows, next.pool.rows)
    ensures d.Allowed(next)
  {
    hide Staged, Admissible, DemotionOk;
    forall i | 0 <= i < |d.now.pool.rows|
      ensures next.pool.rows[i] == d.now.pool.rows[i].(status := next.pool.rows[i].status, leased := next.pool.rows[i].leased)
    {
      assert SameSeat(d.now.pool.rows[i], next.pool.rows[i]);
    }
  }

  /** The first row of the session. */
  function RowOf(rows: seq<Row>, session: Name): (i: Option<nat>)
    ensures i.Some? ==> i.value < |rows| && rows[i.value].session == Some(session)
    ensures i.Some? ==> forall j | 0 <= j < i.value :: rows[j].session != Some(session)
    ensures i.None? <==> !Listed(rows, session)
  {
    if rows == [] then None
    else if rows[0].session == Some(session) then
      assert rows[0] in rows;
      Some(0)
    else match RowOf(rows[1..], session)
      case Some(i) => Some(i + 1)
      case None =>
        assert forall row | row in rows :: row == rows[0] || row in rows[1..];
        None
  }

  /** A pool that is neither ready nor a poisoned fork basis owns the state of its seats. */
  predicate KeepsSeats(p: Pool) { p.status != Ready && !(p.status == Poisoned && p.forkBasis) }

  /** A ready pool takes the status asked for, but the basis of a fork child that exits stays clean; a
      poisoned fork basis poisons the seat. */
  function ReleasedTo(p: Pool, wanted: Status, was: Status): Status {
    if p.status == Ready && wanted == Dirty && p.forkBasis then Idle
    else if p.status == Ready then wanted
    else if p.status == Poisoned && p.forkBasis then Poisoned
    else was
  }

  /** `release_warm_pool_seat`: the seat of the session, with the status it is released to; a pool that
      is not open keeps its seats, but for a poisoned fork basis. */
  method ReleasePoolSeat(d: PoolDirectory, session: Name, status: Status) returns (ok: bool)
    requires d.Valid()
    modifies d`now, d`history, d`failures
    ensures d.Valid() && old(d.history) <= d.history && d.failures >= old(d.failures)
    ensures d.now == old(d.now).(pool := old(d.now).pool.(rows := d.now.pool.rows))
    ensures SameSeats(old(d.now).pool.rows, d.now.pool.rows)
    ensures var seat := RowOf(old(d.now).pool.rows, session);
      && (forall i | 0 <= i < |d.now.pool.rows| && Some(i) != seat :: d.now.pool.rows[i] == old(d.now).pool.rows[i])
      && (ok ==> seat.Some? && d.now.pool.rows[seat.value] == old(d.now.pool.rows[seat.value].(
            status := ReleasedTo(d.now.pool, status, d.now.pool.rows[seat.value].status),
            leased := d.now.pool.rows[seat.value].leased && KeepsSeats(d.now.pool))))
      && (d.failures == old(d.failures) ==> (ok <==> seat.Some?))
  {
    hide Orderly, OpenedProperly, StepOk, RowOf, Listed;
    var seat := RowOf(d.now.pool.rows, session);
    if seat.None? {
      return false;
    }
    var row := d.now.pool.rows[seat.value];
    if d.now.pool.status == Ready {
      row := row.(status := if d.now.pool.forkBasis && status == Dirty then Idle else status, leased := false);
    } else if d.now.pool.forkBasis && d.now.pool.status == Poisoned {
      row := row.(status := Poisoned, leased := false);
    }
    var next := d.now.(pool := d.now.pool.(rows := d.now.pool.rows[seat.value := row]));
    if IsOpen(d.now) {
      SeatStepAllowed(d, next);
    } else {
      SameStatusAllowed(d, next);
    }
    ok := d.Write(next);
  }

  /** A closed pool stays as closed as it is. */
  lemma SameStatusAllowed(d: PoolDirectory, next: Dir)
    requires d.Valid() && !IsOpen(d.now) && next.pool.status == d.now.pool.status
    requires next.released == d.now.released && next.exited == d.now.exited
    ensures d.Allowed(next)
  {
    hide Staged, Admissible, SeatsOnly, DemotionOk;
  }

  /** What a quarantine makes of a seat: siblings that are in use keep it. */
  function Quarantined(session: Name, row: Row): Row {
    if row.status == Busy && row.leased && row.session != Some(session) then row
    else row.(status := Poisoned, leased := false)
  }

  /** `quarantine_fork_basis_pool`: the whole generation is closed, leases in use are kept. */
  method QuarantineForkBasis(d: PoolDirectory, session: Name) returns (ok: bool)
    requires d.Valid()
    modifies d`now, d`history, d`failures
    ensures d.Valid() && old(d.history) <= d.history && d.failures >= old(d.failures)
    ensures d.now == old(d.now) || d.now == old(d.now).(pool := old(d.now).pool.(status := Poisoned, rows := d.now.pool.rows))
    ensures d.now == old(d.now) || (|d.now.pool.rows| == |old(d.now).pool.rows| && forall i | 0 <= i < |d.now.pool.rows| ::
      var was, row := old(d.now).pool.rows[i], d.now.pool.rows[i];
      if was.status == Busy && was.leased && was.session != Some(session) then row == was
      else row == was.(status := Poisoned, leased := false))
    ensures ok ==> d.now.pool.status == Poisoned
    ensures d.failures == old(d.failures) ==> (ok <==> d.now.pool.forkBasis && Listed(old(d.now).pool.rows, session))
  {
    hide Orderly, OpenedProperly, StepOk;
    if !d.now.pool.forkBasis || RowOf(d.now.pool.rows, session).None? {
      return false;
    }
    var rows := UpdateRows(d.now.pool.rows, row => Quarantined(session, row));
    var next := d.now.(pool := d.now.pool.(status := Poisoned, rows := rows));
    ClosedStepAllowed(d, next);
    ok := d.Write(next);
  }

  /** The fork manager registers or unregisters a child. */
  method RegisterChildren(d: PoolDirectory, children: Option<nat>)
    requires d.Valid()
    modifies d`now, d`history, d`failures
    ensures d.Valid() && old(d.history) <= d.history && d.failures >= old(d.failures)
    ensures d.now == old(d.now) || d.now == old(d.now).(children := children)
  {
    hide Orderly, OpenedProperly, StepOk;
    var next := d.now.(children := children);
    if IsOpen(d.now) {
      SeatStepAllowed(d, next);
    } else {
      SameStatusAllowed(d, next);
    }
    var ok := d.Write(next);
  }
}
