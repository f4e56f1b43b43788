/** Reopening one dead ready generation for a restore: the metadata must be quiescent, and separate
    reads, with anything happening between them, must find nothing of the recorded processes. */
module PoolDemotion {
  import opened Options
  import opened Births
  import opened Kernels
  import opened PoolDirectory
  import PoolRestore

  function DemotedDir(d: Dir): Dir {
    d.(pool := d.pool.(status := Stopped, rows := MapRows(d.pool.rows, PoolRestore.StoppedRow), transaction := None))
  }

  datatype Demotion = NotReady | Refused | WriteRaised | Demoted

  /** Three looks in a row, starting with this kernel: the recorded identity is not under the pid,
      then the pid is free, then the group is empty. */
  ghost predicate RoleGone(ks: seq<Kernel>, from: nat, p: Process) {
    && from + 2 < |ks|
    && !(Occupied(ks[from], p.pid) && p.identity == Some(Identity(Occupant(ks[from], p.pid).ticks)))
    && !Occupied(ks[from + 1], p.pid)
    && !GroupLive(ks[from + 2], Group(p))
  }

  /** Every process that has had the pid is dead. */
  ghost predicate GenerationDead(was: Kernel, now: Kernel, p: Process) {
    forall b | b in was.table.born && b.pid == p.pid :: Dead(now.table, b)
  }

  /** The reads about one recorded process. */
  method LookForRole(system: System, p: Process) returns (gone: bool)
    requires system.Valid() && WellRecorded(p)
    modifies system`now, system`history, system`mishaps
    ensures system.Valid() && old(system.history) <= system.history && system.mishaps >= old(system.mishaps)
    ensures gone ==>
      && |system.history| == |old(system.history)| + 3
      && !Occupied(system.history[|old(system.history)| + 1], p.pid)
      && !GroupLive(system.history[|old(system.history)| + 2], Group(p))
    ensures RoleGone(system.history, |old(system.history)|, p) ==> gone
    ensures gone && system.mishaps == old(system.mishaps) ==> RoleGone(system.history, |old(system.history)|, p)
  {
    hide Evolving;
    var observed := system.ReadIdentity(p.pid);
    if observed == p.identity {
      return false;
    }
    ghost var start := |system.history| - 1;
    var alive := system.PidAlive(p.pid);
    if alive {
      assert Occupied(system.history[start + 1], p.pid);
      return false;
    }
    var groupAlive := system.GroupAlive(Group(p));
    assert groupAlive <==> GroupLive(system.history[start + 2], Group(p));
    gone := !groupAlive;
  }

  lemma LooksMeanGone(ks: seq<Kernel>, from: nat, start: nat, p: Process)
    requires from <= start && start + 2 < |ks|
    requires !Occupied(ks[start + 1], p.pid) && !GroupLive(ks[start + 2], Group(p))
    ensures SeenGone(ks, from, |ks| - 1, p)
  {
    assert GoneAt(ks, start + 1, start + 2, p);
  }

  lemma GoneMeansDead(ks: seq<Kernel>, from: nat, start: nat, p: Process)
    requires Evolving(ks) && from <= start && start + 2 < |ks| && p.pid > 0
    requires !Occupied(ks[start + 1], p.pid)
    ensures GenerationDead(ks[from], ks[|ks| - 1], p)
  {
    hide Evolving;
    assert ks[..|ks| - 1 + 1] == ks;
    assert EverVacant(ks, from, p.pid);
    forall b | b in ks[from].table.born && b.pid == p.pid ensures Dead(ks[|ks| - 1].table, b) {
      VacantMeansDead(ks, from, |ks| - 1, p.pid, b, |ks| - 1);
    }
  }

  /** `read_active_children`; false also for an error, of which only an unreadable registry is a failure. */
  method ReadNoChildren(d: PoolDirectory) returns (none: bool)
    requires d.Valid()
    modifies d`failures
    ensures d.Valid() && d.failures >= old(d.failures)
    ensures none ==> NoChildren(d.now)
    ensures d.failures == old(d.failures) ==> (none <==> NoChildren(d.now))
  {
    if d.now.children.None? {
      return !d.now.pool.forkBasis;
    }
    var readable := d.Answers();
    none := readable && d.now.children.value == 0;
  }

  /** The checks on pool.json alone. */
  method CheckMetadata(pool: Pool) returns (ok: bool)
    ensures ok <==>
      && (pool.transaction.Some? ==> pool.transaction.value.state == Published)
      && WellRecorded(pool.processes.worker) && WellRecorded(pool.processes.basis)
      && pool.rows != []
      && (forall row | row in pool.rows :: QuiescentRow(pool, row))
  {
    if pool.transaction.Some? && pool.transaction.value.state != Published {
      return false;
    }
    if !WellRecorded(pool.processes.worker) || !WellRecorded(pool.processes.basis) || pool.rows == [] {
      return false;
    }
    for i := 0 to |pool.rows|
      invariant forall row | row in pool.rows[..i] :: QuiescentRow(pool, row)
    {
      if !QuiescentRow(pool, pool.rows[i]) {
        assert pool.rows[i] in pool.rows;
        return false;
      }
      assert pool.rows[..i + 1] == pool.rows[..i] + [pool.rows[i]];
    }
    assert pool.rows[..|pool.rows|] == pool.rows;
    ok := true;
  }

  /** A role as pool.json has to record it: a pid, a group which is the pid where none is given, and an
      identity. */
  predicate RecordedAs(p: Process, group: int) {
    && p.pid > 0 && group > 0 && group == (if p.pgid != 0 then p.pgid else p.pid)
    && p.identity.Some? && p.identity.value != []
  }

  /** The session row names the same process. */
  predicate RowNames(row: Process, p: Process, group: int) {
    row.pid == p.pid && row.identity == p.identity && group == if row.pgid != 0 then row.pgid else row.pid
  }

  /** What quiescent metadata says, field by field. */
  lemma QuiescentMeans(d: Dir)
    ensures var p := d.pool; Quiescent(d) <==>
      && (p.transaction.None? || p.transaction.value.state == Published)
      && |p.rows| > 0
      && (exists worker, basis ::
            && RecordedAs(p.processes.worker, worker) && RecordedAs(p.processes.basis, basis)
            && forall i | 0 <= i < |p.rows| ::
                 && p.rows[i].status in {Idle, Ready, DeadSession} && !p.rows[i].leased && p.rows[i].stopVerified
                 && RowNames(p.rows[i].processes.worker, p.processes.worker, worker)
                 && RowNames(p.rows[i].processes.basis, p.processes.basis, basis))
      && (d.children == Some(0) || (d.children == None && !p.forkBasis))
  {
    var p := d.pool;
    var worker := if p.processes.worker.pgid != 0 then p.processes.worker.pgid else p.processes.worker.pid;
    var basis := if p.processes.basis.pgid != 0 then p.processes.basis.pgid else p.processes.basis.pid;
    forall i | 0 <= i < |p.rows| ensures p.rows[i] in p.rows { }
    assert WellRecorded(p.processes.worker) <==> RecordedAs(p.processes.worker, worker);
    assert WellRecorded(p.processes.basis) <==> RecordedAs(p.processes.basis, basis);
    if WellRecorded(p.processes.worker) && WellRecorded(p.processes.basis) {
      forall i | 0 <= i < |p.rows|
        ensures QuiescentRow(p, p.rows[i]) <==>
          && p.rows[i].status in {Idle, Ready, DeadSession} && !p.rows[i].leased && p.rows[i].stopVerified
          && RowNames(p.rows[i].processes.worker, p.processes.worker, worker)
          && RowNames(p.rows[i].processes.basis, p.processes.basis, basis) { }
    }
    hide WellRecorded, QuiescentRow, RowNames;
  }

  /** The looks for the worker and the basis, with the directory left alone. */
  method LookForGeneration(d: PoolDirectory) returns (gone: bool)
    requires d.Valid() && WellRecorded(d.now.pool.processes.worker) && WellRecorded(d.now.pool.processes.basis)
    modifies d.system
    ensures d.Valid() && old(d.system.history) <= d.system.history && d.system.mishaps >= old(d.system.mishaps)
    ensures d.system.sent == old(d.system.sent)
    ensures gone ==>
      && SeenGone(d.system.history, |old(d.system.history)| - 1, |d.system.history| - 1, d.now.pool.processes.worker)
      && SeenGone(d.system.history, |old(d.system.history)| - 1, |d.system.history| - 1, d.now.pool.processes.basis)
      && GenerationDead(old(d.system.now), d.system.now, d.now.pool.processes.worker)
      && GenerationDead(old(d.system.now), d.system.now, d.now.pool.processes.basis)
    ensures d.system.mishaps == old(d.system.mishaps) ==>
      (gone <==> RoleGone(d.system.history, |old(d.system.history)|, d.now.pool.processes.worker)
                 && RoleGone(d.system.history, |old(d.system.history)| + 3, d.now.pool.processes.basis))
  {
    hide Orderly, OpenedProperly, Evolving, RoleGone, SeenGone, GenerationDead;
    var p := d.now.pool.processes;
    ghost var before := d.system.history;
    gone := LookForRole(d.system, p.worker);
    OrderlyLater(d.history, before, d.system.history);
    if !gone {
      return;
    }
    ghost var between := d.system.history;
    gone := LookForRole(d.system, p.basis);
    OrderlyLater(d.history, between, d.system.history);
    RoleGoneLater(between, d.system.history, |before|, p.worker);
    if gone {
      LooksMeanGone(d.system.history, |before| - 1, |before|, p.worker);
      LooksMeanGone(d.system.history, |before| - 1, |between|, p.basis);
      GoneMeansDead(d.system.history, |before| - 1, |before|, p.worker);
      GoneMeansDead(d.system.history, |before| - 1, |between|, p.basis);
    }
  }

  lemma RoleGoneLater(ks: seq<Kernel>, ls: seq<Kernel>, from: nat, p: Process)
    requires ks <= ls && from + 2 < |ks|
    ensures RoleGone(ks, from, p) <==> RoleGone(ls, from, p)
  {
    assert ls[from] == ks[from] && ls[from + 1] == ks[from + 1] && ls[from + 2] == ks[from + 2];
  }

  /** Reopen one dead ready generation. A demoted pool had no lease, no child and nothing unusual in its
      metadata, whatever had its recorded pids is dead, and the next begin is open. Unless a read or
      the write fails, the six looks and the metadata decide. */
  method DemoteStaleReadyPool(d: PoolDirectory) returns (r: Demotion)
    requires d.Valid()
    modifies d`now, d`history, d`failures, d.system
    ensures d.Valid() && old(d.history) <= d.history && old(d.system.history) <= d.system.history
    ensures d.system.sent == old(d.system.sent)
    ensures r == NotReady <==> !IsOpen(old(d.now))
    ensures r == NotReady || r == Refused ==> d.now == old(d.now)
    ensures r == WriteRaised ==>
      d.failures > old(d.failures) && (d.now == old(d.now) || d.now == DemotedDir(old(d.now)))
    ensures r == Demoted ==> PoolRestore.StoppedFrom(old(d.now), d.now) && d.now.files == old(d.now).files
    ensures r == Demoted ==> Restorable(d.now.pool)
    ensures r == Demoted ==> d.now == DemotedDir(old(d.now)) && PoolRestore.BeginEnabled(d.now)
    ensures r == Demoted || r == WriteRaised ==>
      && Quiescent(old(d.now))
      && GenerationDead(old(d.system.now), d.system.now, old(d.now).pool.processes.worker)
      && GenerationDead(old(d.system.now), d.system.now, old(d.now).pool.processes.basis)
    ensures d.failures >= old(d.failures) && d.system.mishaps >= old(d.system.mishaps)
    ensures d.failures == old(d.failures) && d.system.mishaps == old(d.system.mishaps) ==>
      (r == Demoted <==>
        && IsOpen(old(d.now)) && Quiescent(old(d.now))
        && RoleGone(d.system.history, |old(d.system.history)|, old(d.now).pool.processes.worker)
        && RoleGone(d.system.history, |old(d.system.history)| + 3, old(d.now).pool.processes.basis))
  {
    hide Orderly, OpenedProperly, StepOk, Evolving, RoleGone, SeenGone, GenerationDead, QuiescentRow, WellRecorded;
    var pool := d.now.pool;
    if pool.status != Ready {
      return NotReady;
    }
    var ok := CheckMetadata(pool);
    if !ok {
      return Refused;
    }
    ok := ReadNoChildren(d);
    if !ok {
      return Refused;
    }
    assert Quiescent(d.now);
    hide Quiescent;
    LastMoment(d);
    ok := LookForGeneration(d);
    if !ok {
      return Refused;
    }
    var rows := UpdateRows(pool.rows, PoolRestore.StoppedRow);
    var next := d.now.(pool := pool.(status := Stopped, rows := rows, transaction := None));
    DemotionAllowed(d, next, |old(d.system.history)| - 1);
    DemotedIs(d.now);
    hide PoolRestore.StoppedFrom, Restorable;
    ok := d.Write(next);
    r := if ok then Demoted else WriteRaised;
  }

  lemma DemotedIs(d: Dir)
    requires Quiescent(d)
    ensures PoolRestore.StoppedFrom(d, DemotedDir(d)) && Restorable(DemotedDir(d).pool)
  {
    hide SameProcess;
    forall row | row in DemotedDir(d).pool.rows ensures row.status == Stopped && row.stopVerified {
      var i :| 0 <= i < |d.pool.rows| && DemotedDir(d).pool.rows[i] == row;
      assert d.pool.rows[i] in d.pool.rows;
    }
  }

  lemma LastMoment(d: PoolDirectory)
    requires d.Valid()
    ensures d.history[|d.history| - 1].at < |d.system.history|
  {
  }

  lemma DemotionAllowed(d: PoolDirectory, next: Dir, from: nat)
    requires d.Valid() && IsOpen(d.now) && Quiescent(d.now) && next == DemotedDir(d.now)
    requires from < |d.system.history| && d.history[|d.history| - 1].at <= from
    requires SeenGone(d.system.history, from, |d.system.history| - 1, d.now.pool.processes.worker)
    requires SeenGone(d.system.history, from, |d.system.history| - 1, d.now.pool.processes.basis)
    ensures d.Allowed(next)
  {
    hide Quiescent, Staged, Admissible, SeatsOnly, SeenGone, Evolving;
    var ks, at := d.system.history, d.history[|d.history| - 1].at;
    GoneSince(ks, from, at, d.now.pool.processes.worker);
    GoneSince(ks, from, at, d.now.pool.processes.basis);
  }

  lemma GoneSince(ks: seq<Kernel>, from: nat, earlier: nat, p: Process)
    requires |ks| > 0 && SeenGone(ks, from, |ks| - 1, p) && earlier <= from
    ensures SeenGone(ks, earlier, |ks| - 1, p)
  {
    var v: nat, g: nat :| from <= v && g <= |ks| - 1 && GoneAt(ks, v, g, p);
  }
}
