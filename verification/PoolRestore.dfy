/** The ordered multi-file writes that close, stage, publish, roll back and condemn a pool, and the
    gated launcher between them. */
module PoolRestore {
  import opened Options
  import opened PoolDirectory

  // ---------------------------------------------------------------- begin

  function ClosedRow(row: Row): Row {
    row.(status := Restoring, leased := false)
  }

  function ClosedFile(file: SessionFile): SessionFile {
    file.(status := Restoring, leased := false)
  }

  /** What a completed begin leaves: admission closed everywhere, identities untouched. */
  function Begun(d: Dir, stamp: string, pidfile: Name, log: Name): Dir {
    d.(files := Refreshed(d.pool.rows, d.files, ClosedFile),
       pool := d.pool.(status := Restoring, rows := MapRows(d.pool.rows, ClosedRow),
                       transaction := Some(Transaction(Prelaunch, stamp, pidfile, log, None))))
  }

  predicate BeginEnabled(d: Dir) {
    d.pool.status == Stopped
  }

  /** Admission is closed in pool.json, in every seat and in every listed session file, under a new
      prelaunch transaction; nothing else has changed. */
  ghost predicate ClosedFor(d: Dir, e: Dir, stamp: string, pidfile: Name, log: Name) {
    && e.pool.status == Restoring && SeatsBecame(d.pool.rows, e.pool.rows, Restoring)
    && FilesBecame(d.pool.rows, d.files, e.files, Restoring)
    && e.pool.transaction == Some(Transaction(Prelaunch, stamp, pidfile, log, None))
    && RestKept(d, e)
  }

  /** Close admission before launching CRIU: session files first, pool.json last. */
  method BeginRestoredPoolTransaction(d: PoolDirectory, stamp: string, pidfile: Name, log: Name) returns (ok: bool)
    requires d.Valid()
    modifies d`now, d`history, d`failures
    ensures d.Valid() && old(d.history) <= d.history
    ensures ok ==> old(d.now).pool.status == Stopped && ClosedFor(old(d.now), d.now, stamp, pidfile, log)
    ensures ok ==> BeginEnabled(old(d.now)) && d.now == Begun(old(d.now), stamp, pidfile, log)
    ensures !BeginEnabled(old(d.now)) ==> d.now == old(d.now)
    ensures d.now.pool == old(d.now.pool) || d.now == Begun(old(d.now), stamp, pidfile, log)
    ensures d.failures >= old(d.failures) && (ok ==> d.failures == old(d.failures))
    ensures d.failures == old(d.failures) ==> (ok <==> BeginEnabled(old(d.now)))
  {
    hide Orderly, OpenedProperly, StepOk;
    var pool := d.now.pool;
    if pool.status != Stopped {
      return false;
    }
    var updates := CollectUpdates(pool.rows, d.now.files, ClosedFile);
    var rows := UpdateRows(pool.rows, ClosedRow);
    var transaction := Transaction(Prelaunch, stamp, pidfile, log, None);
    ok := WriteSessions(d, updates, ClosedFile);
    if !ok {
      return;
    }
    var next := d.now.(pool := pool.(status := Restoring, rows := rows, transaction := Some(transaction)));
    ClosedStepAllowed(d, next);
    ok := d.Write(next);
  }

  // ---------------------------------------------------------------- launcher

  predicate RecordEnabled(d: Dir) {
    d.pool.status == Restoring && d.pool.transaction.Some? && d.pool.transaction.value.state == Prelaunch
  }

  function LauncherRecorded(d: Dir, l: Launcher): Dir
    requires RecordEnabled(d)
  {
    d.(pool := d.pool.(transaction := Some(
      d.pool.transaction.value.(state := LauncherOwned, launcher := Some(l)))))
  }

  /** Own the gated launcher durably before allowing it to exec CRIU. */
  method RecordRestoredPoolLauncher(d: PoolDirectory, l: Launcher) returns (ok: bool)
    requires d.Valid()
    modifies d`now, d`history, d`failures
    ensures d.Valid() && old(d.history) <= d.history
    ensures ok ==>
      && old(d.now).pool.status == Restoring && old(d.now).pool.transaction.Some?
      && old(d.now).pool.transaction.value.state == Prelaunch
      && d.now.pool.transaction == Some(old(d.now).pool.transaction.value.(state := LauncherOwned, launcher := Some(l)))
    ensures ok ==> RecordEnabled(old(d.now)) && d.now == LauncherRecorded(old(d.now), l)
    ensures !ok ==> d.now == old(d.now) || (RecordEnabled(old(d.now)) && d.now == LauncherRecorded(old(d.now), l))
    ensures d.failures >= old(d.failures) && (ok ==> d.failures == old(d.failures))
    ensures d.failures == old(d.failures) ==> (ok <==> RecordEnabled(old(d.now)))
  {
    if d.now.pool.status != Restoring {
      return false;
    }
    var transaction := d.now.pool.transaction;
    if transaction.None? || transaction.value.state != Prelaunch {
      return false;
    }
    ClosedStepAllowed(d, LauncherRecorded(d.now, l));
    ok := d.Write(LauncherRecorded(d.now, l));
  }

  datatype TermSignal = SigInt | SigTerm

  /** Terminal signals are kept until the launcher has settled; the first one wins. */
  class SignalState {
    var interrupted: Option<TermSignal>
    ghost var arrived: seq<TermSignal>   // everything the handlers were called for
    ghost var looks: nat                 // the times the state was looked at

    ghost predicate Valid()
      reads this
    {
      interrupted == if arrived == [] then None else Some(arrived[0])
    }

    constructor ()
      ensures Valid() && arrived == [] && looks == 0
    {
      interrupted := None;
      arrived, looks := [], 0;
    }

    method Latch(signal: TermSignal)
      requires Valid()
      modifies this
      ensures Valid() && arrived == old(arrived) + [signal] && looks == old(looks)
    {
      if interrupted.None? {
        interrupted := Some(signal);
      }
      arrived := arrived + [signal];
    }

    /** Any signals may arrive between two statements; then the state is looked at. */
    method RaiseIfInterrupted() returns (raised: bool)
      requires Valid()
      modifies this
      ensures Valid() && old(arrived) <= arrived && (raised <==> arrived != [])
      ensures looks == old(looks) + 1
    {
      var arrivals: seq<TermSignal> := *;
      for i := 0 to |arrivals|
        invariant Valid() && old(arrived) <= arrived && looks == old(looks)
      {
        Latch(arrivals[i]);
      }
      raised := interrupted.Some?;
      looks := looks + 1;
    }
  }

  datatype LaunchResult = Launched(launcher: Launcher) | NotStarted | RecordFailed | ReleaseFailed
    | Interrupted(signal: TermSignal) | NonzeroExit

  /** Wait to settled exit without ever signalling CRIU: a terminal signal only latches. */
  method WaitRestoreLauncher(d: PoolDirectory, l: Launcher, signals: SignalState) returns (zero: bool)
    requires d.Valid() && signals.Valid() && !IsOpen(d.now)
    modifies d`now, d`history, d`failures, signals
    ensures d.Valid() && old(d.history) <= d.history && signals.Valid() && old(signals.arrived) <= signals.arrived
    ensures d.now == old(d.now).(exited := old(d.now.exited) + {l})
    ensures d.failures == old(d.failures) + if zero then 0 else 1
    ensures signals.looks == old(signals.looks) + 1
  {
    var raised := signals.RaiseIfInterrupted();
    ClosedStepAllowed(d, d.now.(exited := d.now.exited + {l}));
    d.Step(d.now.(exited := d.now.exited + {l}));
    zero := d.Answers();
  }

  /** Start, own, release and settle one launcher. Whatever the outcome, a started launcher has
      exited when this returns, and its gate opened only under the durable ownership record. */
  method RunRestoreLauncher(d: PoolDirectory, signals: SignalState) returns (r: LaunchResult)
    requires d.Valid() && signals.Valid() && !IsOpen(d.now)
    modifies d`now, d`history, d`failures, signals
    ensures d.Valid() && old(d.history) <= d.history && signals.Valid() && old(signals.arrived) <= signals.arrived
    ensures d.now.released <= old(d.now.released) + d.now.exited
    ensures d.now.pool == old(d.now.pool)
      || (RecordEnabled(old(d.now)) && d.now.pool.transaction.Some? && d.now.pool.transaction.value.launcher.Some?
          && d.now.pool == LauncherRecorded(old(d.now), d.now.pool.transaction.value.launcher.value).pool)
    ensures d.now.files == old(d.now.files) && d.now.children == old(d.now.children)
    ensures r.Launched? ==> d.failures == old(d.failures) && signals.looks == old(signals.looks) + 1
    ensures r == NonzeroExit ==> RecordEnabled(old(d.now)) && exists l ::
      (l in d.now.released * d.now.exited && d.now.pool == LauncherRecorded(old(d.now), l).pool)
    ensures r.Launched? ==>
      && RecordEnabled(old(d.now)) && r.launcher in d.now.released * d.now.exited
      && d.now.pool == LauncherRecorded(old(d.now), r.launcher).pool
    ensures r != NotStarted ==> (r.Interrupted? <==> signals.arrived != [])
    ensures r.Interrupted? ==> r.signal == signals.arrived[0]
    ensures d.failures >= old(d.failures) && (r == NonzeroExit ==> d.failures > old(d.failures))
    ensures d.failures == old(d.failures) && RecordEnabled(old(d.now)) && signals.arrived == [] ==> r.Launched?
  {
    hide PoolDirectory.Valid, Orderly, OpenedProperly, StepOk;
    var child: Launcher := *;
    var started := d.Answers();
    if !started {
      return NotStarted;
    }
    r := Launched(child);
    var recorded := RecordRestoredPoolLauncher(d, child);
    if !recorded {
      r := RecordFailed;
    } else {
      var wrote := d.Answers();
      if wrote {
        ReleaseAllowed(d, child);
        d.Step(d.now.(released := d.now.released + {child}));
      }
      var flushed := d.Answers();
      if !wrote || !flushed {
        r := ReleaseFailed;
      }
    }
    var zero := WaitRestoreLauncher(d, child, signals);
    if signals.interrupted.Some? {
      r := Interrupted(signals.interrupted.value);
    } else if r.Launched? && !zero {
      r := NonzeroExit;
    }
  }

  lemma ReleaseAllowed(d: PoolDirectory, l: Launcher)
    requires d.Valid() && d.now.pool.status == Restoring && d.now.pool.transaction.Some?
    requires d.now.pool.transaction.value.state == LauncherOwned && d.now.pool.transaction.value.launcher == Some(l)
    ensures d.Allowed(d.now.(released := d.now.released + {l}))
  {
    hide Staged, Admissible, SeatsOnly, DemotionOk;
  }

  // ---------------------------------------------------------------- stage and publish

  /** The identities observed on the restored tree, written over the recorded ones. */
  function WithBirths(p: Processes, worker: (int, string), basis: (int, string)): Processes {
    Processes(p.worker.(startTicks := Some(worker.0), identity := Some(worker.1)),
              p.basis.(startTicks := Some(basis.0), identity := Some(basis.1)))
  }

  function StagedRow(worker: (int, string), basis: (int, string)): Row -> Row {
    (row: Row) => row.(status := Restoring, leased := false, processes := WithBirths(row.processes, worker, basis))
  }

  function StagedFile(worker: (int, string), basis: (int, string)): SessionFile -> SessionFile {
    (file: SessionFile) => file.(status := Restoring, processes := WithBirths(file.processes, worker, basis))
  }

  function Validate(t: Option<Transaction>): Option<Transaction> {
    if t.Some? then Some(t.value.(state := Validated)) else None
  }

  /** What a completed staging leaves: the observed identities everywhere, still closed. */
  function StagedDir(d: Dir, w: (int, string), b: (int, string)): Dir {
    d.(children := Some(0), files := Refreshed(d.pool.rows, d.files, StagedFile(w, b)),
       pool := d.pool.(processes := WithBirths(d.pool.processes, w, b), rows := MapRows(d.pool.rows, StagedRow(w, b)),
                       transaction := Validate(d.pool.transaction)))
  }

  predicate Identified(p: Process) { p.startTicks.Some? && p.identity.Some? }

  function Observed(p: Process): (int, string)
    requires Identified(p)
  {
    (p.startTicks.value, p.identity.value)
  }

  /** These are the processes as before, but with the observed births. */
  predicate Rebound(before: Processes, after: Processes, worker: Process, basis: Process) {
    && after.worker.pid == before.worker.pid && after.worker.pgid == before.worker.pgid
    && after.basis.pid == before.basis.pid && after.basis.pgid == before.basis.pgid
    && after.worker.startTicks == worker.startTicks && after.worker.identity == worker.identity
    && after.basis.startTicks == basis.startTicks && after.basis.identity == basis.identity
  }

  /** Pool, seats and listed session files carry the observed births, still closed, with the transaction
      validated and no registered child; leases in session files are not touched. */
  ghost predicate StagedFrom(d: Dir, e: Dir, worker: Process, basis: Process) {
    && e.pool.status == Restoring && e.pool.forkBasis == d.pool.forkBasis && e.children == Some(0)
    && Rebound(d.pool.processes, e.pool.processes, worker, basis)
    && |e.pool.rows| == |d.pool.rows|
    && (forall i | 0 <= i < |d.pool.rows| :: var was, row := d.pool.rows[i], e.pool.rows[i];
        && row.status == Restoring && !row.leased && row.session == was.session && row.stopVerified == was.stopVerified
        && Rebound(was.processes, row.processes, worker, basis))
    && e.files.Keys == d.files.Keys
    && (forall n | n in d.files :: var was, file := d.files[n], e.files[n];
        if Listed(d.pool.rows, n) then
          && file.status == Restoring && file.leased == was.leased && file.stopVerified == was.stopVerified
          && Rebound(was.processes, file.processes, worker, basis)
        else file == was)
    && (if d.pool.transaction.Some? then e.pool.transaction == Some(d.pool.transaction.value.(state := Validated))
        else e.pool.transaction.None?)
    && e.released == d.released && e.exited == d.exited
  }

  lemma StagedDirIs(d: Dir, worker: Process, basis: Process)
    requires StageEnabled(d, worker, basis)
    ensures StagedFrom(d, StagedDir(d, Observed(worker), Observed(basis)), worker, basis)
  {
    hide Listed;
  }

  predicate StageEnabled(d: Dir, worker: Process, basis: Process) {
    d.pool.status == Restoring && Identified(worker) && Identified(basis)
  }

  /** Publish restored identities in a state that is not ready for checkout. */
  method StageRestoredPoolMetadata(d: PoolDirectory, worker: Process, basis: Process) returns (ok: bool)
    requires d.Valid()
    modifies d`now, d`history, d`failures
    ensures d.Valid() && old(d.history) <= d.history
    ensures ok ==> StageEnabled(old(d.now), worker, basis) && Staged(d.now)
    ensures ok ==> StagedFrom(old(d.now), d.now, worker, basis)
    ensures ok ==> d.now == StagedDir(old(d.now), Observed(worker), Observed(basis))
    ensures !StageEnabled(old(d.now), worker, basis) ==> d.now == old(d.now)
    ensures d.now.pool == old(d.now.pool)
      || (StageEnabled(old(d.now), worker, basis) && d.now == StagedDir(old(d.now), Observed(worker), Observed(basis)))
    ensures d.failures >= old(d.failures) && (ok ==> d.failures == old(d.failures))
    ensures d.failures == old(d.failures) ==> (ok <==> StageEnabled(old(d.now), worker, basis))
  {
    hide Orderly, OpenedProperly, StepOk;
    var pool := d.now.pool;
    if pool.status != Restoring {
      return false;
    }
    if worker.startTicks.None? || worker.identity.None? || basis.startTicks.None? || basis.identity.None? {
      return false;
    }
    var w := (worker.startTicks.value, worker.identity.value);
    var b := (basis.startTicks.value, basis.identity.value);
    var updates := CollectUpdates(pool.rows, d.now.files, StagedFile(w, b));
    var rows := UpdateRows(pool.rows, StagedRow(w, b));
    ClosedStepAllowed(d, d.now.(children := Some(0)));
    ok := d.Write(d.now.(children := Some(0)));
    if !ok {
      return;
    }
    ok := WriteSessions(d, updates, StagedFile(w, b));
    if !ok {
      return;
    }
    var next := d.now.(pool := pool.(processes := WithBirths(pool.processes, w, b), rows := rows,
                                     transaction := Validate(pool.transaction)));
    ClosedStepAllowed(d, next);
    StagedNow(old(d.now), w, b);
    StagedDirIs(old(d.now), worker, basis);
    ok := d.Write(next);
  }

  lemma StagedNow(d: Dir, w: (int, string), b: (int, string))
    ensures Staged(StagedDir(d, w, b))
  {
    SameListing(d.pool.rows, StagedDir(d, w, b).pool.rows, StagedRow(w, b));
  }

  function ReadyRow(row: Row): Row {
    row.(status := Idle, leased := false)
  }

  function ReadyFile(file: SessionFile): SessionFile {
    file.(status := Ready, leased := false)
  }

  function Publish(t: Option<Transaction>): Option<Transaction> {
    if t.Some? then Some(t.value.(state := Published)) else None
  }

  predicate AllRestoring(d: Dir) {
    forall n | n in d.files :: Listed(d.pool.rows, n) ==> d.files[n].status == Restoring
  }

  predicate PublishEnabled(d: Dir) {
    d.pool.status == Restoring && AllRestoring(d)
  }

  /** What a completed publish leaves behind. */
  function PublishedDir(d: Dir): Dir {
    d.(files := Refreshed(d.pool.rows, d.files, ReadyFile),
       pool := d.pool.(status := Ready, rows := MapRows(d.pool.rows, ReadyRow),
                       transaction := Publish(d.pool.transaction)))
  }

  /** Pool ready, every seat idle, every listed session file ready, nobody holding a lease. */
  ghost predicate OpenedFrom(d: Dir, e: Dir) {
    && e.pool.status == Ready && SeatsBecame(d.pool.rows, e.pool.rows, Idle)
    && FilesBecame(d.pool.rows, d.files, e.files, Ready)
    && (if d.pool.transaction.Some? then e.pool.transaction == Some(d.pool.transaction.value.(state := Published))
        else e.pool.transaction.None?)
    && RestKept(d, e)
  }

  /** Commit checkout readiness: session files first, the pool-level gate last. */
  method PublishRestoredPoolReady(d: PoolDirectory) returns (ok: bool)
    requires d.Valid()
    modifies d
    ensures d.Valid() && old(d.history) <= d.history
    ensures ok ==> OpenedFrom(old(d.now), d.now)
    ensures ok ==> PublishEnabled(old(d.now)) && d.now == PublishedDir(old(d.now)) && (Admissible(d.now) <==> Staged(old(d.now)))
    ensures Staged(old(d.now)) ==> d.careless == old(d.careless)
    ensures !PublishEnabled(old(d.now)) ==> d.now == old(d.now)
    ensures d.now.pool == old(d.now.pool) || d.now == PublishedDir(old(d.now))
    ensures d.failures >= old(d.failures) && (ok ==> d.failures == old(d.failures))
    ensures d.failures == old(d.failures) ==> (ok <==> PublishEnabled(old(d.now)))
  {
    hide Orderly, OpenedProperly, StepOk;
    var pool := d.now.pool;
    if pool.status != Restoring {
      return false;
    }
    if exists n | n in d.now.files :: Listed(pool.rows, n) && d.now.files[n].status != Restoring {
      return false;
    }
    var updates := CollectUpdates(pool.rows, d.now.files, ReadyFile);
    var rows := UpdateRows(pool.rows, ReadyRow);
    ok := WriteSessions(d, updates, ReadyFile);
    if !ok {
      return;
    }
    var next := d.now.(pool := pool.(status := Ready, rows := rows, transaction := Publish(pool.transaction)));
    PublishNeedsStaging(old(d.now));
    PublishedIs(old(d.now));
    hide SeatsBecame, FilesBecame, Staged, Admissible, Refreshed;
    OpeningAllowed(d, next, old(d.now));
    ok := d.OpeningWrite(next);
  }

  lemma PublishedIs(d: Dir)
    ensures OpenedFrom(d, PublishedDir(d))
  {
    hide Listed;
  }

  /** With the session files already open, the pool is staged exactly if it was before. */
  lemma OpeningAllowed(d: PoolDirectory, next: Dir, was: Dir)
    requires d.Valid() && !IsOpen(d.now) && next == PublishedDir(was)
    requires d.now == was.(files := Refreshed(was.pool.rows, was.files, ReadyFile))
    ensures d.Allowed(next) && (Staged(d.now) <==> Staged(was))
  {
    assert Staged(d.now) <==> Staged(was);
    PublishNeedsStaging(was);
    hide Staged, Admissible, SeatsOnly, DemotionOk, Refreshed;
  }

  /** Publishing looks at statuses only. The pool it opens is admissible exactly when the
      identities had been staged before, which is why the caller's order matters. */
  lemma PublishNeedsStaging(d: Dir)
    ensures Admissible(PublishedDir(d)) <==> Staged(d)
  {
    var e := PublishedDir(d);
    SameListing(d.pool.rows, e.pool.rows, ReadyRow);
    if Admissible(e) {
      forall row | row in d.pool.rows ensures SameBirths(row.processes, d.pool.processes) {
        var i :| 0 <= i < |d.pool.rows| && d.pool.rows[i] == row;
        assert e.pool.rows[i] in e.pool.rows;
      }
      forall n | n in d.files && Listed(d.pool.rows, n)
        ensures SameBirths(d.files[n].processes, d.pool.processes)
      {
        assert n in e.files && Listed(e.pool.rows, n);
      }
    }
  }

  /** A pool whose one seat still names the births of the generation before; publishing opens it. */
  function UnstagedPool(): Dir {
    var past, present := Process(7, 7, Some(1), Some("linux-proc:1")), Process(7, 7, Some(2), Some("linux-proc:2"));
    Dir(Pool(Restoring, true, Some(Transaction(LauncherOwned, "stamp", 0, 1, None)), Processes(present, present),
             [Row(Restoring, false, None, true, Processes(past, past))]),
        map[], Some(0), {}, {})
  }

  lemma UnstagedCanOpen()
    ensures PublishEnabled(UnstagedPool()) && !Staged(UnstagedPool())
    ensures IsOpen(PublishedDir(UnstagedPool())) && !Admissible(PublishedDir(UnstagedPool()))
  {
    var row := UnstagedPool().pool.rows[0];
    assert row in UnstagedPool().pool.rows;
    assert row.processes.worker.startTicks == Some(1);
    PublishNeedsStaging(UnstagedPool());
  }

  // ---------------------------------------------------------------- rollback

  function StoppedRow(row: Row): Row {
    row.(status := Stopped, leased := false)
  }

  function StoppedFile(file: SessionFile): SessionFile {
    file.(status := Stopped, leased := false)
  }

  /** The exact active transaction, still owned by its launcher, with every retained stop receipt. */
  predicate ResetEnabled(d: Dir, stamp: string, pidfile: Name, log: Name) {
    && d.pool.status == Restoring
    && d.pool.transaction.Some?
    && d.pool.transaction.value.stamp == stamp
    && d.pool.transaction.value.pidfile == pidfile
    && d.pool.transaction.value.log == log
    && d.pool.transaction.value.state == LauncherOwned
    && d.pool.rows != []
    && (forall row | row in d.pool.rows :: row.status == Restoring && row.stopVerified)
    && (forall n | n in d.files :: Listed(d.pool.rows, n) ==> d.files[n].status == Restoring && d.files[n].stopVerified)
  }

  function RolledBack(d: Dir): Dir {
    d.(files := Refreshed(d.pool.rows, d.files, StoppedFile),
       pool := d.pool.(status := Stopped, rows := MapRows(d.pool.rows, StoppedRow), transaction := None))
  }

  /** Everything is stopped and unleased, and no transaction is left. */
  ghost predicate StoppedFrom(d: Dir, e: Dir) {
    && e.pool.status == Stopped && e.pool.transaction.None? && SeatsBecame(d.pool.rows, e.pool.rows, Stopped)
    && RestKept(d, e)
  }

  /** Roll one proven pre-root pid collision back to the verified stopped state. */
  method ResetRootCollisionRestore(d: PoolDirectory, stamp: string, pidfile: Name, log: Name) returns (ok: bool)
    requires d.Valid()
    modifies d`now, d`history, d`failures
    ensures d.Valid() && old(d.history) <= d.history
    ensures ok ==> StoppedFrom(old(d.now), d.now) && FilesBecame(old(d.now).pool.rows, old(d.now).files, d.now.files, Stopped)
    ensures ok ==> Restorable(d.now.pool)
    ensures ok ==> ResetEnabled(old(d.now), stamp, pidfile, log) && d.now == RolledBack(old(d.now))
    ensures !ResetEnabled(old(d.now), stamp, pidfile, log) ==> d.now == old(d.now)
    ensures d.now.pool == old(d.now.pool) || d.now == RolledBack(old(d.now))
    ensures d.failures >= old(d.failures) && (ok ==> d.failures == old(d.failures))
    ensures d.failures == old(d.failures) ==> (ok <==> ResetEnabled(old(d.now), stamp, pidfile, log))
  {
    hide Orderly, OpenedProperly, StepOk;
    var pool := d.now.pool;
    if pool.status != Restoring {
      return false;
    }
    var transaction := pool.transaction;
    if transaction.None? || transaction.value.stamp != stamp || transaction.value.pidfile != pidfile
      || transaction.value.log != log || transaction.value.state != LauncherOwned {
      return false;
    }
    if pool.rows == [] || exists row | row in pool.rows :: row.status != Restoring || !row.stopVerified {
      return false;
    }
    if exists n | n in d.now.files :: Listed(pool.rows, n)
        && (d.now.files[n].status != Restoring || !d.now.files[n].stopVerified) {
      return false;
    }
    var updates := CollectUpdates(pool.rows, d.now.files, StoppedFile);
    var rows := UpdateRows(pool.rows, StoppedRow);
    ok := WriteSessions(d, updates, StoppedFile);
    if !ok {
      return;
    }
    var next := d.now.(pool := pool.(status := Stopped, rows := rows, transaction := None));
    ClosedStepAllowed(d, next);
    RolledBackIs(old(d.now), stamp, pidfile, log);
    hide SeatsBecame, FilesBecame, Refreshed, Restorable, ResetEnabled;
    ok := d.Write(next);
  }

  lemma RolledBackIs(d: Dir, stamp: string, pidfile: Name, log: Name)
    requires ResetEnabled(d, stamp, pidfile, log)
    ensures StoppedFrom(d, RolledBack(d)) && FilesBecame(d.pool.rows, d.files, RolledBack(d).files, Stopped)
    ensures Restorable(RolledBack(d).pool)
  {
    hide Listed;
    forall row | row in RolledBack(d).pool.rows ensures row.status == Stopped && row.stopVerified {
      var i :| 0 <= i < |d.pool.rows| && RolledBack(d).pool.rows[i] == row;
      assert d.pool.rows[i] in d.pool.rows;
    }
  }

  /** Every session row and file has kept its verified stop receipt. */
  predicate ReceiptsRetained(d: Dir) {
    && d.pool.rows != []
    && (forall row | row in d.pool.rows :: row.stopVerified)
    && (forall n | n in d.files :: Listed(d.pool.rows, n) ==> d.files[n].stopVerified)
  }

  /** After begin and launcher ownership, the rollback is open for exactly that transaction and
      exactly when the receipts are there. */
  lemma ResetAfterBegin(d: Dir, stamp: string, pidfile: Name, log: Name, l: Launcher,
                        askedStamp: string, askedPidfile: Name, askedLog: Name)
    ensures var e := LauncherRecorded(Begun(d, stamp, pidfile, log), l);
            ResetEnabled(e, askedStamp, askedPidfile, askedLog) <==>
              && askedStamp == stamp && askedPidfile == pidfile && askedLog == log && ReceiptsRetained(d)
  {
    var e := LauncherRecorded(Begun(d, stamp, pidfile, log), l);
    SameListing(d.pool.rows, e.pool.rows, ClosedRow);
    assert e.pool.rows == [] <==> d.pool.rows == [];
    if forall row | row in e.pool.rows :: row.stopVerified {
      forall row | row in d.pool.rows ensures row.stopVerified {
        var i :| 0 <= i < |d.pool.rows| && d.pool.rows[i] == row;
        assert e.pool.rows[i] in e.pool.rows;
      }
    }
    assert forall n | n in d.files :: e.files[n].stopVerified == d.files[n].stopVerified;
  }

  /** Begin, own the launcher, roll back: the pool is as before except that everything is stopped
      and unleased and no transaction is left. */
  lemma RollbackUndoesBegin(d: Dir, stamp: string, pidfile: Name, log: Name, l: Launcher)
    ensures var e := RolledBack(LauncherRecorded(Begun(d, stamp, pidfile, log), l));
            && BeginEnabled(e) && StoppedFrom(d, e) && FilesBecame(d.pool.rows, d.files, e.files, Stopped)
            && e.pool == d.pool.(status := Stopped, transaction := None, rows := MapRows(d.pool.rows, StoppedRow))
            && e.files == Refreshed(d.pool.rows, d.files, StoppedFile)
            && (e.children, e.released, e.exited) == (d.children, d.released, d.exited)
  {
    var b := LauncherRecorded(Begun(d, stamp, pidfile, log), l);
    SameListing(d.pool.rows, b.pool.rows, ClosedRow);
    var e := RolledBack(b);
    assert e.pool.rows == MapRows(d.pool.rows, StoppedRow);
  }

  // ---------------------------------------------------------------- failure

  function FailedRow(row: Row): Row {
    row.(status := RestoreFailed, leased := false)
  }

  function FailedFile(file: SessionFile): SessionFile {
    file.(status := RestoreFailed, leased := false)
  }

  function FailedPool(p: Pool): Pool {
    p.(status := RestoreFailed, rows := MapRows(p.rows, FailedRow))
  }

  function MarkedDir(d: Dir): Dir {
    d.(files := Refreshed(d.pool.rows, d.files, FailedFile), pool := FailedPool(d.pool))
  }

  /** Condemn a pool after a failed restore: pool.json first, so that it is closed whatever happens
      next; then every session file, each on its own, past the ones that cannot be written. */
  method MarkPoolRestoreFailed(d: PoolDirectory)
    requires d.Valid()
    modifies d`now, d`history, d`failures
    ensures d.Valid() && old(d.history) <= d.history
    ensures d.now == old(d.now)
      || (d.now == old(d.now).(pool := FailedPool(old(d.now.pool)), files := d.now.files)
          && PartlyRefreshed(old(d.now.pool.rows), old(d.now.files), FailedFile, d.now.files))
    ensures d.failures >= old(d.failures)
    ensures d.failures == old(d.failures) ==> d.now == MarkedDir(old(d.now))
    ensures d.now.pool != old(d.now).pool ==>
      && d.now.pool.status == RestoreFailed && SeatsBecame(old(d.now).pool.rows, d.now.pool.rows, RestoreFailed)
      && RestKept(old(d.now), d.now) && d.now.pool.transaction == old(d.now).pool.transaction
    ensures d.failures == old(d.failures) ==>
      && d.now.pool.status == RestoreFailed && SeatsBecame(old(d.now).pool.rows, d.now.pool.rows, RestoreFailed)
      && FilesBecame(old(d.now).pool.rows, old(d.now).files, d.now.files, RestoreFailed)
  {
    hide Orderly, OpenedProperly, StepOk, PartlyRefreshed, Listed, Refreshed;
    var pool := d.now.pool;
    var updates := CollectUpdates(pool.rows, d.now.files, FailedFile);
    var rows := UpdateRows(pool.rows, FailedRow);
    var next := d.now.(pool := pool.(status := RestoreFailed, rows := rows));
    ClosedStepAllowed(d, next);
    NoneRefreshed(pool.rows, d.now.files, FailedFile);
    MarkedIs(d.now);
    hide SeatsBecame, FilesBecame;
    var ok := d.Write(next);
    if !ok {
      return;
    }
    MarkSessions(d, updates, pool.rows);
  }

  lemma MarkedIs(d: Dir)
    ensures SeatsBecame(d.pool.rows, FailedPool(d.pool).rows, RestoreFailed)
    ensures FilesBecame(d.pool.rows, d.files, MarkedDir(d).files, RestoreFailed)
  {
    hide Listed;
  }

  method MarkSessions(d: PoolDirectory, updates: seq<(Name, SessionFile)>, rows: seq<Row>)
    requires d.Valid() && !IsOpen(d.now) && UpdatesFor(rows, d.now.files, FailedFile, updates)
    modifies d`now, d`history, d`failures
    ensures d.Valid() && old(d.history) <= d.history
    ensures d.now == old(d.now).(files := d.now.files)
    ensures PartlyRefreshed(rows, old(d.now.files), FailedFile, d.now.files)
    ensures d.failures >= old(d.failures)
    ensures d.failures == old(d.failures) ==> d.now.files == Refreshed(rows, old(d.now.files), FailedFile)
  {
    hide Orderly, OpenedProperly, StepOk, PartlyRefreshed, Listed, Refreshed;
    ghost var before := d.now.files;
    NoneRefreshed(rows, before, FailedFile);
    for i := 0 to |updates|
      invariant d.Valid() && old(d.history) <= d.history && d.failures >= old(d.failures)
      invariant d.now == old(d.now).(files := d.now.files)
      invariant PartlyRefreshed(rows, before, FailedFile, d.now.files)
      invariant d.failures == old(d.failures) ==>
        forall u | u in updates[..i] :: u.0 in d.now.files && d.now.files[u.0] == u.1
    {
      assert updates[i] in updates;
      assert updates[..i + 1] == updates[..i] + [updates[i]];
      OneRefreshed(rows, before, FailedFile, d.now.files, updates[i].0);
      SessionStepAllowed(d, d.now.files[updates[i].0 := updates[i].1]);
      var ok := d.Write(d.now.(files := d.now.files[updates[i].0 := updates[i].1]));
    }
    assert updates[..|updates|] == updates;
    if d.failures == old(d.failures) {
      AllRefreshed(rows, before, FailedFile, d.now.files, updates);
    }
  }
}
