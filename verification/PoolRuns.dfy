/** Any operations on one pool directory, in any order, each possibly cut short between two writes,
    with processes coming and going all the time; and what their histories show. */
module PoolRuns {
  import opened Options
  import opened Births
  import opened Kernels
  import opened PoolDirectory
  import PoolRestore
  import PoolDemotion
  import PoolSeats
  import PoolTransaction

  datatype Operation =
    | Restore(demote: bool, stamp: string, pidfile: Name, log: Name)
    | Reset(stamp: string, pidfile: Name, log: Name)
    | Checkout(request: PoolSeats.Request)
    | Release(session: Name, status: Status)
    | Quarantine(session: Name)
    | Children(children: Option<nat>)

  method Perform(d: PoolDirectory, op: Operation)
    requires d.Valid()
    modifies d, d.system
    ensures d.Valid() && old(d.history) <= d.history && old(d.system.history) <= d.system.history
    ensures d.careless == old(d.careless)
  {
    hide *;
    match op {
      case Restore(demote, stamp, pidfile, log) =>
        ghost var course;
        var answer, demotion;
        answer, demotion, course := PoolTransaction.RestorePool(d, demote, stamp, pidfile, log);
      case Reset(stamp, pidfile, log) =>
        var ok := PoolRestore.ResetRootCollisionRestore(d, stamp, pidfile, log);
      case Checkout(request) =>
        if |request.answers| == |d.now.pool.rows| {
          var seat := PoolSeats.CheckoutPoolSeat(d, request);
        }
      case Release(session, status) =>
        var ok := PoolSeats.ReleasePoolSeat(d, session, status);
      case Quarantine(session) =>
        var ok := PoolSeats.QuarantineForkBasis(d, session);
      case Children(children) =>
        PoolSeats.RegisterChildren(d, children);
    }
  }

  /** The histories of all runs: every write keeps to its step, only admissible pools are opened, and
      the kernel's own history goes on. */
  method AnyRun(initial: Dir, system: System, ops: seq<Operation>) returns (h: seq<Moment>, kernels: seq<Kernel>)
    requires system.Valid()
    modifies system
    ensures |h| > 0 && h[0].dir == initial && Orderly(h, kernels) && OpenedProperly(h) && Evolving(kernels)
  {
    hide Orderly, OpenedProperly, Evolving;
    var d := new PoolDirectory(initial, system);
    for i := 0 to |ops|
      invariant d.Valid() && d.system == system && fresh(d) && d.careless == 0 && d.history[0].dir == initial
    {
      ghost var before := d.history;
      Tick(d);
      Perform(d, ops[i]);
      assert d.history[0] == before[0];
      var survives: bool := *;
      var k: int := *;
      if !survives && 0 <= k < |d.history| {
        d.CrashAfter(k);
      }
    }
    h, kernels := d.history, system.history;
  }

  method Tick(d: PoolDirectory)
    requires d.Valid()
    modifies d.system
    ensures d.Valid() && d.system.history == old(d.system.history) + [d.system.now]
  {
    hide Orderly, OpenedProperly, Evolving;
    ghost var before := d.system.history;
    d.system.Elapse();
    OrderlyLater(d.history, before, d.system.history);
  }

  // ---------------------------------------------------------------- what the histories show

  /** Since moment `i` the pool has been open and only its users have changed it. */
  ghost predicate OpenSince(h: seq<Moment>, i: nat, j: nat)
    requires i <= j < |h|
  {
    && (forall k | i <= k <= j :: IsOpen(h[k].dir))
    && forall k | i < k <= j :: SeatsOnly(h[k - 1].dir, h[k].dir)
  }

  /** An open pool was open from the start, or was opened at some moment as an admissible one, and has
      since been changed by its users only. */
  lemma {:induction false} OpenPoolsWereOpened(h: seq<Moment>, ks: seq<Kernel>, j: nat) returns (i: nat)
    requires Orderly(h, ks) && OpenedProperly(h) && j < |h| && IsOpen(h[j].dir)
    ensures i <= j && OpenSince(h, i, j)
    ensures i == 0 || (!IsOpen(h[i - 1].dir) && Admissible(h[i].dir))
  {
    hide Admissible, SeatsOnly, Staged, DemotionOk, ReleaseOk;
    if j == 0 || !IsOpen(h[j - 1].dir) {
      i := j;
    } else {
      assert StepOk(h[j - 1], h[j], ks);
      i := OpenPoolsWereOpened(h, ks, j - 1);
    }
  }

  /** So a pool that was opened names one worker and one basis everywhere, after any number of
      checkouts, releases and dead seats, and its transaction is a published one. */
  lemma OpenedPoolsStayStaged(h: seq<Moment>, ks: seq<Kernel>, j: nat)
    requires Orderly(h, ks) && OpenedProperly(h) && j < |h| && IsOpen(h[j].dir) && !IsOpen(h[0].dir)
    ensures Staged(h[j].dir)
    ensures var t := h[j].dir.pool.transaction; t.Some? ==> t.value.state == Published
  {
    var i := OpenPoolsWereOpened(h, ks, j);
    SeatsKeepStaged(h, i, j);
  }

  lemma {:induction false} SeatsKeepStaged(h: seq<Moment>, i: nat, j: nat)
    requires i <= j < |h| && OpenSince(h, i, j) && Staged(h[i].dir)
    ensures Staged(h[j].dir) && h[j].dir.pool.transaction == h[i].dir.pool.transaction
    decreases j
  {
    if i < j {
      hide Staged, SeatsOnly;
      assert OpenSince(h, i, j - 1);
      SeatsKeepStaged(h, i, j - 1);
      SeatStepKeepsStaged(h[j - 1].dir, h[j].dir);
    }
  }

  lemma SeatStepKeepsStaged(d: Dir, e: Dir)
    requires SeatsOnly(d, e) && Staged(d)
    ensures Staged(e) && e.pool.transaction == d.pool.transaction
  {
    forall row | row in e.pool.rows ensures exists was | was in d.pool.rows :: row == was.(status := row.status, leased := row.leased) {
      var i :| 0 <= i < |e.pool.rows| && e.pool.rows[i] == row;
      assert d.pool.rows[i] in d.pool.rows;
    }
    forall n: Name | Listed(e.pool.rows, n) ensures Listed(d.pool.rows, n) {
      var row :| row in e.pool.rows && row.session == Some(n);
    }
  }

  /** An open pool that became a stopped one was demoted: no seat of it was leased, no child registered,
      and every process that had ever had the recorded pid of its worker or basis was dead from then on. */
  lemma DemotedIsDead(h: seq<Moment>, ks: seq<Kernel>, i: nat, k: nat, p: Process, b: Birth)
    requires Orderly(h, ks) && Evolving(ks) && 0 < i < |h| && IsOpen(h[i - 1].dir) && h[i].dir.pool.status == Stopped
    requires p == h[i - 1].dir.pool.processes.worker || p == h[i - 1].dir.pool.processes.basis
    requires h[i].at <= k < |ks| && b in ks[h[i - 1].at].table.born && b.pid == p.pid
    ensures Dead(ks[k].table, b)
    ensures NoChildren(h[i - 1].dir) && forall row | row in h[i - 1].dir.pool.rows :: !row.leased && row.status != Busy
  {
    assert StepOk(h[i - 1], h[i], ks);
    hide Evolving;
    var from := h[i - 1].at;
    var v: nat, g: nat :| from <= v && g <= h[i].at && GoneAt(ks, v, g, p);
    MovesAlong(ks, from, v);
    MovesAlong(ks, v, k);
  }

  /** And a recorded group led by the recorded process stays empty until its number has been given to
      a new process. */
  lemma DemotedGroupIsGone(h: seq<Moment>, ks: seq<Kernel>, i: nat, k: nat, p: Process) returns (b: Birth)
    requires Orderly(h, ks) && Evolving(ks) && 0 < i < |h| && IsOpen(h[i - 1].dir) && h[i].dir.pool.status == Stopped
    requires p == h[i - 1].dir.pool.processes.worker || p == h[i - 1].dir.pool.processes.basis
    requires h[i].at <= k < |ks| && Group(p) == p.pid && GroupLive(ks[k], Group(p))
    ensures b in ks[k].table.born && b.pid == p.pid && b !in ks[h[i - 1].at].table.born
  {
    assert StepOk(h[i - 1], h[i], ks);
    hide Evolving, GroupLive, GroupReturns;
    var from := h[i - 1].at;
    var v: nat, g: nat :| from <= v && g <= h[i].at && GoneAt(ks, v, g, p);
    MovesAlong(ks, g, k);
    NewGroup(ks[g], ks[k], Group(p));
    b := Returner(ks[g], ks[k], Group(p));
    MovesAlong(ks, from, v);
    MovesAlong(ks, v, g);
  }

  lemma Returner(k: Kernel, l: Kernel, g: int) returns (b: Birth)
    requires GroupReturns(k, l, g)
    ensures b in l.table.born && b.pid == g && (b !in k.table.born || Alive(k.table, b))
  {
    b :| b in l.table.born && b.pid == g && (b !in k.table.born || Alive(k.table, b));
  }

  /** CRIU of a launcher could exec only because, at some write before, pool.json durably owned
      exactly that launcher. */
  lemma {:induction false} ExecsOnlyWhenOwned(h: seq<Moment>, ks: seq<Kernel>, j: nat, l: Launcher) returns (i: nat)
    requires Orderly(h, ks) && j < |h| && l in h[j].dir.released && l !in h[0].dir.released
    ensures i < j && l !in h[i].dir.released && l in h[i + 1].dir.released
    ensures var pool := h[i].dir.pool;
      && pool.transaction.Some? && pool.transaction.value.launcher == Some(l)
      && pool.transaction.value.state == LauncherOwned && pool.status == Restoring
    decreases j
  {
    hide Admissible, SeatsOnly, Staged, DemotionOk;
    assert StepOk(h[j - 1], h[j], ks);
    if l in h[j - 1].dir.released {
      i := ExecsOnlyWhenOwned(h, ks, j - 1, l);
    } else {
      i := j - 1;
    }
  }
}
