/** Pool and session metadata of one CRIU shelf: what is on disk, what each single file write may
    change, and the writes that several operations share. */
module PoolDirectory {
  import opened Options
  import opened Births
  import opened Kernels

  type Name = nat

  datatype Status = Stopped | Restoring | Ready | Idle | Busy | Dirty | DeadSession | BasisMissing | Poisoned | RestoreFailed | Unknown

  /** The identity fields of one role. */
  datatype Process = Process(pid: int, pgid: int, startTicks: Option<int>, identity: Option<string>)

  datatype Processes = Processes(worker: Process, basis: Process)

  /** A session row of pool.json. */
  datatype Row = Row(status: Status, leased: bool, session: Option<Name>, stopVerified: bool, processes: Processes)

  /** sessions/NAME/session.json */
  datatype SessionFile = SessionFile(status: Status, leased: bool, stopVerified: bool, processes: Processes)

  datatype TransactionState = Prelaunch | LauncherOwned | Validated | Published

  datatype Launcher = Launcher(pid: int, startTicks: int, identity: string)

  datatype Transaction = Transaction(
    state: TransactionState, stamp: string, pidfile: Name, log: Name, launcher: Option<Launcher>)

  datatype Pool = Pool(
    status: Status, forkBasis: bool, transaction: Option<Transaction>, processes: Processes, rows: seq<Row>)

  /** The durable state of one pool directory, and the gates of its CRIU launchers. */
  datatype Dir = Dir(
    pool: Pool,
    files: map<Name, SessionFile>,
    children: Option<nat>,     // registered fork children; None without a registry file
    released: set<Launcher>,   // gate byte written: CRIU may exec
    exited: set<Launcher>)     // waited for

  // ---------------------------------------------------------------- the gate

  predicate Listed(rows: seq<Row>, n: Name) {
    exists row | row in rows :: row.session == Some(n)
  }

  /** The two processes recorded here are the ones recorded there. */
  predicate SameBirths(a: Processes, b: Processes) {
    && a.worker.startTicks == b.worker.startTicks && a.worker.identity == b.worker.identity
    && a.basis.startTicks == b.basis.startTicks && a.basis.identity == b.basis.identity
  }

  predicate RowsStaged(p: Pool) {
    forall row | row in p.rows :: SameBirths(row.processes, p.processes)
  }

  predicate FilesStaged(d: Dir) {
    forall n | n in d.files :: Listed(d.pool.rows, n) ==> SameBirths(d.files[n].processes, d.pool.processes)
  }

  /** Pool, rows and session files name the same worker and basis. */
  predicate Staged(d: Dir) {
    RowsStaged(d.pool) && FilesStaged(d)
  }

  /** Everything the first checkout of a pool just opened relies on. */
  predicate Admissible(d: Dir) {
    && Staged(d)
    && (forall row | row in d.pool.rows :: row.status == Idle && !row.leased)
    && (forall n | n in d.files :: Listed(d.pool.rows, n) ==> d.files[n].status == Ready && !d.files[n].leased)
    && (d.pool.transaction.Some? ==> d.pool.transaction.value.state == Published)
  }

  predicate IsOpen(d: Dir) {
    d.pool.status == Ready
  }

  // ---------------------------------------------------------------- quiescence

  /** `data.get("worker_pgid") or pid` */
  function Group(p: Process): int {
    if p.pgid == 0 then p.pid else p.pgid
  }

  predicate WellRecorded(p: Process) {
    p.pid > 0 && Group(p) > 0 && p.identity.Some? && p.identity.value != ""
  }

  predicate SameProcess(p: Process, q: Process) {
    q.pid > 0 && Group(q) > 0 && p.pid == q.pid && Group(p) == Group(q) && p.identity == q.identity
  }

  predicate QuiescentRow(p: Pool, row: Row) {
    && (row.status == Idle || row.status == Ready || row.status == DeadSession)
    && !row.leased && row.stopVerified
    && SameProcess(p.processes.worker, row.processes.worker)
    && SameProcess(p.processes.basis, row.processes.basis)
  }

  /** The registry of fork children is there if it has to be, and empty. */
  predicate NoChildren(d: Dir) {
    match d.children
    case Some(n) => n == 0
    case None => !d.pool.forkBasis
  }

  /** The metadata of a generation that nothing uses. */
  predicate Quiescent(d: Dir) {
    && (d.pool.transaction.Some? ==> d.pool.transaction.value.state == Published)
    && WellRecorded(d.pool.processes.worker) && WellRecorded(d.pool.processes.basis)
    && d.pool.rows != []
    && (forall row | row in d.pool.rows :: QuiescentRow(d.pool, row))
    && NoChildren(d)
  }

  /** The pid was free in one kernel and the group empty in a later one. */
  ghost predicate GoneAt(ks: seq<Kernel>, v: nat, g: nat, p: Process) {
    v <= g < |ks| && !Occupied(ks[v], p.pid) && !GroupLive(ks[g], Group(p))
  }

  /** Between these two kernels the pid was seen free and then the group empty. */
  ghost predicate SeenGone(ks: seq<Kernel>, from: nat, to: nat, p: Process) {
    exists v: nat, g: nat :: from <= v && g <= to && GoneAt(ks, v, g, p)
  }

  // ---------------------------------------------------------------- steps

  /** The directory after one write, and the kernel at that time. */
  datatype Moment = Moment(dir: Dir, at: nat)

  /** A launcher's gate opens only while pool.json durably owns that launcher. */
  predicate ReleaseOk(d: Dir, e: Dir) {
    && d.released <= e.released && d.exited <= e.exited
    && forall l | l in e.released && l !in d.released ::
        && d.pool.status == Restoring && d.pool.transaction.Some?
        && d.pool.transaction.value.state == LauncherOwned
        && d.pool.transaction.value.launcher == Some(l)
  }

  /** What the users of an open pool may change: the status and the lease of seats, and the registry
      of fork children. */
  predicate SeatsOnly(d: Dir, e: Dir) {
    && e == d.(children := e.children, pool := d.pool.(rows := e.pool.rows))
    && |e.pool.rows| == |d.pool.rows|
    && forall i | 0 <= i < |d.pool.rows| ::
        e.pool.rows[i] == d.pool.rows[i].(status := e.pool.rows[i].status, leased := e.pool.rows[i].leased)
  }

  /** An open pool is reopened for a restore only when nothing of its generation is left. */
  ghost predicate DemotionOk(m: Moment, n: Moment, ks: seq<Kernel>) {
    && Quiescent(m.dir)
    && SeenGone(ks, m.at, n.at, m.dir.pool.processes.worker)
    && SeenGone(ks, m.at, n.at, m.dir.pool.processes.basis)
  }

  /** Every write keeps to this. */
  ghost predicate StepOk(m: Moment, n: Moment, ks: seq<Kernel>) {
    && m.at <= n.at && ReleaseOk(m.dir, n.dir)
    && (!IsOpen(m.dir) && IsOpen(n.dir) && Staged(m.dir) ==> Admissible(n.dir))
    && (IsOpen(m.dir) && IsOpen(n.dir) ==> SeatsOnly(m.dir, n.dir))
    && (IsOpen(m.dir) && n.dir.pool.status == Stopped ==> DemotionOk(m, n, ks))
  }

  ghost predicate Orderly(h: seq<Moment>, ks: seq<Kernel>) {
    && (forall i | 0 <= i < |h| :: h[i].at < |ks|)
    && (forall i | 0 < i < |h| :: StepOk(h[i - 1], h[i], ks))
  }

  /** Only pools with staged identities were opened, so whatever was opened was admissible. */
  ghost predicate OpenedProperly(h: seq<Moment>) {
    forall i | 0 < i < |h| :: !IsOpen(h[i - 1].dir) && IsOpen(h[i].dir) ==> Admissible(h[i].dir)
  }

  lemma SeenGoneLater(ks: seq<Kernel>, ls: seq<Kernel>, from: nat, to: nat, p: Process)
    requires SeenGone(ks, from, to, p) && ks <= ls
    ensures SeenGone(ls, from, to, p)
  {
    var v: nat, g: nat :| from <= v && g <= to && GoneAt(ks, v, g, p);
    assert ls[v] == ks[v] && ls[g] == ks[g];
    assert GoneAt(ls, v, g, p);
  }

  /** Later kernels change nothing about what has been written. */
  lemma OrderlyLater(h: seq<Moment>, ks: seq<Kernel>, ls: seq<Kernel>)
    requires Orderly(h, ks) && ks <= ls
    ensures Orderly(h, ls)
  {
    hide SeenGone, Quiescent, ReleaseOk, Staged, Admissible, SeatsOnly;
    forall i | 0 < i < |h| ensures StepOk(h[i - 1], h[i], ls) {
      var m, n := h[i - 1], h[i];
      assert StepOk(m, n, ks);
      if IsOpen(m.dir) && n.dir.pool.status == Stopped {
        SeenGoneLater(ks, ls, m.at, n.at, m.dir.pool.processes.worker);
        SeenGoneLater(ks, ls, m.at, n.at, m.dir.pool.processes.basis);
      }
    }
  }

  lemma StagedOpening(m: Moment, n: Moment, ks: seq<Kernel>)
    requires StepOk(m, n, ks)
    ensures Staged(m.dir) && !IsOpen(m.dir) && IsOpen(n.dir) ==> Admissible(n.dir)
  {
    hide Admissible, Staged;
  }

  lemma OneMore(h: seq<Moment>, m: Moment, ks: seq<Kernel>)
    requires |h| > 0 && Orderly(h, ks) && m.at < |ks| && StepOk(h[|h| - 1], m, ks)
    ensures Orderly(h + [m], ks)
    ensures var was := h[|h| - 1].dir;
      OpenedProperly(h) && (!IsOpen(was) && IsOpen(m.dir) ==> Admissible(m.dir)) ==> OpenedProperly(h + [m])
  {
    hide StepOk, Admissible;
  }

  /** One pool directory; `history` has a moment for every single file write, `failures` counts the
      writes that raised and the outside calls that failed. */
  class PoolDirectory {
    const system: System
    var now: Dir
    var history: seq<Moment>
    var failures: nat
    ghost var careless: nat    // unstaged pools that were opened

    ghost predicate Valid()
      reads this, system
    {
      && system.Valid() && |history| > 0 && history[|history| - 1].dir == now
      && Orderly(history, system.history) && (careless == 0 ==> OpenedProperly(history))
    }

    constructor (initial: Dir, system: System)
      requires system.Valid()
      ensures Valid() && now == initial && history == [Moment(initial, |system.history| - 1)]
      ensures failures == 0 && careless == 0 && this.system == system
    {
      this.system := system;
      now := initial;
      history := [Moment(initial, |system.history| - 1)];
      failures := 0;
      careless := 0;
    }

    /** The moment a write of this would be. */
    ghost function Next(next: Dir): Moment
      reads system
      requires |system.history| > 0
    {
      Moment(next, |system.history| - 1)
    }

    ghost predicate Allowed(next: Dir)
      reads this, system
    {
      && |history| > 0 && |system.history| > 0
      && StepOk(history[|history| - 1], Next(next), system.history)
    }

    /** One write; when it raises it may or may not have taken effect. */
    method Write(next: Dir) returns (ok: bool)
      requires Valid() && Allowed(next) && (!IsOpen(now) && IsOpen(next) ==> Admissible(next))
      modifies `now, `history, `failures
      ensures Valid() && old(history) <= history
      ensures now == next || (!ok && now == old(now))
      ensures failures == old(failures) + if ok then 0 else 1
    {
      hide Orderly, OpenedProperly, StepOk, Admissible;
      OneMore(history, Next(next), system.history);
      ok := *;
      var took: bool := *;
      if ok || took {
        now := next;
        history := history + [Moment(next, |system.history| - 1)];
      }
      if !ok {
        failures := failures + 1;
      }
    }

    /** A write that may open the pool without the caller knowing that its identities are staged. */
    method OpeningWrite(next: Dir) returns (ok: bool)
      requires Valid() && Allowed(next)
      modifies this
      ensures Valid() && old(history) <= history
      ensures now == next || (!ok && now == old(now))
      ensures failures == old(failures) + if ok then 0 else 1
      ensures Staged(old(now)) ==> careless == old(careless)
    {
      hide Orderly, OpenedProperly, StepOk, Admissible, Staged;
      StagedOpening(history[|history| - 1], Next(next), system.history);
      OneMore(history, Next(next), system.history);
      if !IsOpen(now) && IsOpen(next) && !Admissible(next) {
        careless := careless + 1;
      }
      ok := *;
      var took: bool := *;
      if ok || took {
        now := next;
        history := history + [Moment(next, |system.history| - 1)];
      }
      if !ok {
        failures := failures + 1;
      }
    }

    /** Whether the outside world answers: a read succeeds, a call does not raise. */
    method Answers() returns (ok: bool)
      requires Valid()
      modifies `failures
      ensures Valid() && failures == old(failures) + if ok then 0 else 1
    {
      ok := *;
      if !ok {
        Fail();
      }
    }

    method Fail()
      requires Valid()
      modifies `failures
      ensures Valid() && failures == old(failures) + 1
    {
      failures := failures + 1;
    }

    /** A step that is not a file write. */
    method Step(next: Dir)
      requires Valid() && Allowed(next) && (!IsOpen(now) && IsOpen(next) ==> Admissible(next))
      modifies `now, `history
      ensures Valid() && now == next && old(history) <= history
    {
      hide Orderly, OpenedProperly, StepOk, Admissible;
      OneMore(history, Next(next), system.history);
      now := next;
      history := history + [Moment(next, |system.history| - 1)];
    }

    /** The controller dies after write `k`: the directory is left as that write left it. What the
        kernel went through in the meantime it has gone through. */
    method CrashAfter(k: nat)
      requires Valid() && k < |history|
      modifies `now, `history
      ensures Valid() && now == old(history)[k].dir && history == old(history)[..k + 1]
    {
      hide StepOk, Admissible;
      now := history[k].dir;
      history := history[..k + 1];
    }
  }

  /** A step to a pool that is neither open nor newly stopped, with no gate opened. */
  lemma ClosedStepAllowed(d: PoolDirectory, next: Dir)
    requires d.Valid() && d.now.released <= next.released <= d.now.released && d.now.exited <= next.exited
    requires !IsOpen(next) && (next.pool.status == Stopped ==> !IsOpen(d.now))
    ensures d.Allowed(next)
  {
    hide Staged, Admissible, SeatsOnly, DemotionOk;
  }

  // ---------------------------------------------------------------- what an operation made of the pool

  /** Every seat got this status and lost its lease; nothing else about it changed. */
  ghost predicate SeatsBecame(before: seq<Row>, after: seq<Row>, status: Status) {
    && |after| == |before|
    && forall i | 0 <= i < |before| ::
        && after[i].status == status && !after[i].leased
        && after[i].session == before[i].session && after[i].stopVerified == before[i].stopVerified
        && after[i].processes == before[i].processes
  }

  /** So did every session file a seat points at; the others stayed as they were. */
  ghost predicate FilesBecame(rows: seq<Row>, before: map<Name, SessionFile>, after: map<Name, SessionFile>, status: Status) {
    && after.Keys == before.Keys
    && forall n | n in before ::
        if Listed(rows, n) then
          && after[n].status == status && !after[n].leased
          && after[n].stopVerified == before[n].stopVerified && after[n].processes == before[n].processes
        else after[n] == before[n]
  }

  /** Beyond status, seats and transaction the pool is as before, and so are registry and launchers. */
  predicate RestKept(d: Dir, e: Dir) {
    && e.pool.forkBasis == d.pool.forkBasis && e.pool.processes == d.pool.processes
    && e.children == d.children && e.released == d.released && e.exited == d.exited
  }

  /** `restore_preflight_failure` on a stopped pool: every seat stopped with a verified receipt. */
  predicate Restorable(p: Pool) {
    p.status == Stopped && p.rows != [] && forall row | row in p.rows :: row.status == Stopped && row.stopVerified
  }

  // ---------------------------------------------------------------- session files

  /** Every listed session file after the change `f`. */
  function Refreshed(rows: seq<Row>, files: map<Name, SessionFile>, f: SessionFile -> SessionFile)
    : map<Name, SessionFile>
  {
    map n | n in files :: if Listed(rows, n) then f(files[n]) else files[n]
  }

  /** Each file is as before or changed by `f`; only listed ones may have changed. */
  ghost predicate PartlyRefreshed(rows: seq<Row>, before: map<Name, SessionFile>, f: SessionFile -> SessionFile,
                                  after: map<Name, SessionFile>) {
    && after.Keys == before.Keys
    && forall n | n in after :: after[n] == before[n] || (Listed(rows, n) && after[n] == f(before[n]))
  }

  ghost predicate UpdatesFor(rows: seq<Row>, files: map<Name, SessionFile>, f: SessionFile -> SessionFile,
                             updates: seq<(Name, SessionFile)>) {
    && (forall u | u in updates :: u.0 in files && Listed(rows, u.0) && u.1 == f(files[u.0]))
    && (forall n | n in files && Listed(rows, n) :: (n, f(files[n])) in updates)
  }

  /** Read every session file a row points at and prepare its next contents. */
  method CollectUpdates(rows: seq<Row>, files: map<Name, SessionFile>, f: SessionFile -> SessionFile)
    returns (updates: seq<(Name, SessionFile)>)
    ensures UpdatesFor(rows, files, f, updates)
  {
    updates := [];
    for i := 0 to |rows|
      invariant UpdatesFor(rows[..i], files, f, updates)
    {
      assert rows[..i + 1] == rows[..i] + [rows[i]];
      ListOneMore(rows[..i], rows[i]);
      if rows[i].session.Some? && rows[i].session.value in files {
        var n := rows[i].session.value;
        updates := updates + [(n, f(files[n]))];
      }
    }
    assert rows[..|rows|] == rows;
  }

  lemma ListOneMore(rows: seq<Row>, row: Row)
    ensures forall n: Name :: Listed(rows + [row], n) <==> Listed(rows, n) || row.session == Some(n)
  {
    forall n: Name ensures Listed(rows + [row], n) <==> Listed(rows, n) || row.session == Some(n) {
      assert row in rows + [row];
    }
  }

  lemma SessionStepAllowed(d: PoolDirectory, files: map<Name, SessionFile>)
    requires d.Valid() && !IsOpen(d.now)
    ensures d.Allowed(d.now.(files := files))
  {
    ClosedStepAllowed(d, d.now.(files := files));
  }

  lemma OneRefreshed(rows: seq<Row>, before: map<Name, SessionFile>, f: SessionFile -> SessionFile,
                     files: map<Name, SessionFile>, n: Name)
    requires PartlyRefreshed(rows, before, f, files) && n in before && Listed(rows, n)
    ensures PartlyRefreshed(rows, before, f, files[n := f(before[n])])
  {
  }

  /** Write the prepared session files one after the other. The pool is not ready meanwhile. */
  method WriteSessions(d: PoolDirectory, updates: seq<(Name, SessionFile)>, ghost f: SessionFile -> SessionFile)
    returns (ok: bool)
    requires d.Valid() && !IsOpen(d.now)
    requires UpdatesFor(d.now.pool.rows, d.now.files, f, updates)
    modifies d`now, d`history, d`failures
    ensures d.Valid() && old(d.history) <= d.history
    ensures d.now == old(d.now).(files := d.now.files)
    ensures PartlyRefreshed(d.now.pool.rows, old(d.now.files), f, d.now.files)
    ensures ok ==> d.now.files == Refreshed(d.now.pool.rows, old(d.now.files), f)
    ensures d.failures >= old(d.failures) && (ok <==> d.failures == old(d.failures))
  {
    hide Orderly, OpenedProperly, StepOk, PartlyRefreshed, Listed;
    ghost var before := d.now.files;
    ghost var rows := d.now.pool.rows;
    NoneRefreshed(rows, before, f);
    for i := 0 to |updates|
      invariant d.Valid() && old(d.history) <= d.history && d.failures == old(d.failures)
      invariant d.now == old(d.now).(files := d.now.files)
      invariant PartlyRefreshed(rows, before, f, d.now.files)
      invariant forall u | u in updates[..i] :: u.0 in d.now.files && d.now.files[u.0] == u.1
    {
      assert updates[i] in updates;
      assert updates[..i + 1] == updates[..i] + [updates[i]];
      OneRefreshed(rows, before, f, d.now.files, updates[i].0);
      SessionStepAllowed(d, d.now.files[updates[i].0 := updates[i].1]);
      ok := d.Write(d.now.(files := d.now.files[updates[i].0 := updates[i].1]));
      if !ok {
        return;
      }
    }
    assert updates[..|updates|] == updates;
    AllRefreshed(rows, before, f, d.now.files, updates);
    ok := true;
  }

  lemma NoneRefreshed(rows: seq<Row>, files: map<Name, SessionFile>, f: SessionFile -> SessionFile)
    ensures PartlyRefreshed(rows, files, f, files)
  {
  }

  lemma AllRefreshed(rows: seq<Row>, before: map<Name, SessionFile>, f: SessionFile -> SessionFile,
                     files: map<Name, SessionFile>, updates: seq<(Name, SessionFile)>)
    requires UpdatesFor(rows, before, f, updates) && PartlyRefreshed(rows, before, f, files)
    requires forall u | u in updates :: u.0 in files && files[u.0] == u.1
    ensures files == Refreshed(rows, before, f)
  {
    forall n | n in before ensures files[n] == Refreshed(rows, before, f)[n] {
      if Listed(rows, n) {
        assert (n, f(before[n])) in updates;
      }
    }
  }

  function MapRows(rows: seq<Row>, g: Row -> Row): (mapped: seq<Row>)
    ensures |mapped| == |rows| && forall i | 0 <= i < |rows| :: mapped[i] == g(rows[i])
  {
    seq(|rows|, i requires 0 <= i < |rows| => g(rows[i]))
  }

  /** The in-place update of every session row. */
  method UpdateRows(original: seq<Row>, g: Row -> Row) returns (rows: seq<Row>)
    ensures rows == MapRows(original, g)
  {
    rows := original;
    for i := 0 to |rows|
      invariant |rows| == |original|
      invariant forall k | 0 <= k < i :: rows[k] == g(original[k])
      invariant forall k | i <= k < |rows| :: rows[k] == original[k]
    {
      rows := rows[i := g(rows[i])];
    }
  }

  lemma SameListing(rows: seq<Row>, mapped: seq<Row>, g: Row -> Row)
    requires mapped == MapRows(rows, g) && forall row :: g(row).session == row.session
    ensures forall n: Name :: Listed(mapped, n) <==> Listed(rows, n)
    ensures forall row | row in mapped :: exists was | was in rows :: row == g(was)
  {
    forall n: Name | Listed(rows, n) ensures Listed(mapped, n) {
      var row :| row in rows && row.session == Some(n);
      var i :| 0 <= i < |rows| && rows[i] == row;
      assert mapped[i] in mapped;
    }
  }
}
