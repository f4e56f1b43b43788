/** One restore from begin to publication, its failure handling and its single retry, against a
    process table that moves on between any two reads. */
module PoolTransaction {
  import opened Options
  import opened Births
  import opened Kernels
  import opened PoolDirectory
  import opened PoolRestore
  import PoolDemotion
  import opened RestoredGroups
  import RT = RestoreTree

  /** `read_recorded_pool_processes` */
  function RecordedOf(p: Processes): RT.Owned {
    RT.Owned(RT.Recorded(p.worker.pid, Group(p.worker)), RT.Recorded(p.basis.pid, Group(p.basis)))
  }

  predicate Recordable(p: Processes) {
    p.worker.pid > 0 && Group(p.worker) > 0 && p.basis.pid > 0 && Group(p.basis) > 0
  }

  /** The metadata carries exactly what was captured of this process. */
  predicate Carries(p: Process, r: RT.Record) {
    p.pid == r.pid && r.pgid == Some(Group(p)) && p.startTicks == r.startTicks && p.identity == r.identity
  }

  ghost predicate SeenStopped(h: seq<Kernel>, from: nat, tree: seq<RT.Record>) {
    exists k | from <= k < |h| :: forall r | r in tree :: HeldStopped(h[k], r)
  }

  /** The captured tree and its two roles. */
  datatype Evidence = Evidence(root: int, tree: seq<RT.Record>, worker: RT.Record, basis: RT.Record)

  /** The accepted capture of the tree, every process of it seen alive, stopped and in an owned group. */
  ghost predicate Accepted(h: seq<Kernel>, from: nat, recorded: RT.Owned, e: Evidence) {
    && RT.OwnedStoppedTree(e.root, recorded, e.tree)
    && e.worker in e.tree && e.worker.pid == recorded.worker.pid
    && e.basis in e.tree && e.basis.pid == recorded.basis.pid
    && SeenStopped(h, from, e.tree)
  }

  predicate CarriesEvidence(p: Processes, e: Evidence) {
    Carries(p.worker, e.worker) && Carries(p.basis, e.basis)
  }

  /** An open pool whose metadata, everywhere, names the worker and the basis of an accepted tree, both
      of which were seen running after they had been continued. */
  ghost predicate Committed(d: Dir, h: seq<Kernel>, from: nat, recorded: RT.Owned, e: Evidence) {
    && IsOpen(d) && Admissible(d) && CarriesEvidence(d.pool.processes, e)
    && Accepted(h, from, recorded, e)
    && EverRunning(h, from, e.worker) && EverRunning(h, from, e.basis)
  }

  lemma AcceptedLater(h: seq<Kernel>, g: seq<Kernel>, from: nat, earlier: nat, recorded: RT.Owned, e: Evidence)
    requires Accepted(h, from, recorded, e) && h <= g && earlier <= from
    ensures Accepted(g, earlier, recorded, e)
  {
    hide HeldStopped, RT.OwnedStoppedTree;
    var k :| from <= k < |h| && forall r | r in e.tree :: HeldStopped(h[k], r);
    assert g[k] == h[k];
  }

  lemma RunningSince(h: seq<Kernel>, g: seq<Kernel>, from: nat, earlier: nat, r: RT.Record)
    requires EverRunning(h, from, r) && h <= g && earlier <= from
    ensures EverRunning(g, earlier, r)
  {
    hide Running;
    var k :| from <= k < |h| && Running(h[k], r);
    assert g[k] == h[k];
  }

  // ---------------------------------------------------------------- the phases

  datatype Phase = Done | Nonzero | Raised

  /** Close the pool, then own, release and settle the launcher. */
  method LaunchPhase(d: PoolDirectory, signals: SignalState, stamp: string, pidfile: Name, log: Name) returns (r: Phase)
    requires d.Valid() && signals.Valid() && signals.arrived == []
    modifies d`now, d`history, d`failures, signals
    ensures d.Valid() && old(d.history) <= d.history && signals.Valid() && d.failures >= old(d.failures)
    ensures d.now.pool.processes == old(d.now.pool.processes)
    ensures r.Done? ==> d.now.pool.status == Restoring && AllRestoring(d.now) && signals.arrived == []
    ensures r.Nonzero? ==> d.failures > old(d.failures)
    ensures d.failures == old(d.failures) ==> (r.Done? <==> BeginEnabled(old(d.now)) && signals.arrived == [])
    ensures r.Done? ==> d.failures == old(d.failures) && signals.looks == old(signals.looks) + 3
  {
    hide Orderly, OpenedProperly, StepOk, Refreshed;
    var ok := BeginRestoredPoolTransaction(d, stamp, pidfile, log);
    if !ok {
      return Raised;
    }
    BegunIsRestoring(d.now, old(d.now), stamp, pidfile, log);
    var interrupted := signals.RaiseIfInterrupted();
    if interrupted {
      return Raised;
    }
    var launched := RunRestoreLauncher(d, signals);
    interrupted := signals.RaiseIfInterrupted();
    r := if launched == NonzeroExit then Nonzero else if launched.Launched? && !interrupted then Done else Raised;
  }

  lemma BegunIsRestoring(e: Dir, d: Dir, stamp: string, pidfile: Name, log: Name)
    requires e == Begun(d, stamp, pidfile, log)
    ensures RecordEnabled(e) && AllRestoring(e) && !IsOpen(e)
  {
    SameListing(d.pool.rows, e.pool.rows, ClosedRow);
  }

  /** Read the root pid, capture the stopped tree and validate it. */
  method ValidatePhase(d: PoolDirectory, signals: SignalState, recorded: RT.Owned) returns (e: Option<Evidence>)
    requires d.Valid() && signals.Valid() && signals.arrived == []
    modifies d`failures, d.system, signals
    ensures d.Valid() && old(d.system.history) <= d.system.history && signals.Valid() && d.failures >= old(d.failures)
    ensures e.Some? ==> Accepted(d.system.history, |old(d.system.history)|, recorded, e.value) && signals.arrived == []
    ensures d.failures == old(d.failures) ==> (e.Some? <==> signals.arrived == [])
    ensures e.Some? ==> d.failures == old(d.failures) && signals.looks == old(signals.looks) + 1
  {
    hide Orderly, OpenedProperly, StepOk, Evolving, RT.OwnedStoppedTree, HeldStopped;
    var root: int := *;
    var readable := d.Answers();
    if !readable {
      return None;
    }
    ghost var before := d.system.history;
    var tree, v := CaptureRestoredTree(d.system, root, recorded);
    OrderlyLater(d.history, before, d.system.history);
    if !v.Accepted? {
      d.Fail();
      return None;
    }
    assert d.system.history[|before|] == d.system.now;
    var interrupted := signals.RaiseIfInterrupted();
    e := if interrupted then None else Some(Evidence(root, tree, v.worker, v.basis));
  }

  /** Stage the identities of the validated roles. */
  method StagePhase(d: PoolDirectory, signals: SignalState, ghost recorded: RT.Owned, e: Evidence) returns (ok: bool)
    requires d.Valid() && signals.Valid() && signals.arrived == []
    requires d.now.pool.status == Restoring && AllRestoring(d.now) && recorded == RecordedOf(d.now.pool.processes)
    requires RT.OwnedStoppedTree(e.root, recorded, e.tree) && e.worker in e.tree && e.basis in e.tree
    requires e.worker.pid == recorded.worker.pid && e.basis.pid == recorded.basis.pid
    modifies d`now, d`history, d`failures, signals
    ensures d.Valid() && old(d.history) <= d.history && signals.Valid() && d.failures >= old(d.failures)
    ensures ok ==> PublishEnabled(d.now) && Staged(d.now) && signals.arrived == []
    ensures ok ==> CarriesEvidence(d.now.pool.processes, e)
    ensures d.failures == old(d.failures) ==> (ok <==> signals.arrived == [])
    ensures ok ==> d.failures == old(d.failures) && signals.looks == old(signals.looks) + 1
  {
    hide Orderly, OpenedProperly, StepOk, Refreshed;
    RoleIsComplete(e.root, recorded, e.tree, e.worker);
    RoleIsComplete(e.root, recorded, e.tree, e.basis);
    hide RT.OwnedStoppedTree;
    var worker, basis := ProcessOf(e.worker), ProcessOf(e.basis);
    ghost var was := d.now;
    ok := StageRestoredPoolMetadata(d, worker, basis);
    var interrupted := signals.RaiseIfInterrupted();
    if ok {
      StagedIsRestoring(d.now, was, worker, basis);
    }
    ok := ok && !interrupted;
  }

  /** The fields staging takes from a captured record. */
  function ProcessOf(r: RT.Record): Process {
    Process(r.pid, if r.pgid.Some? then r.pgid.value else 0, r.startTicks, r.identity)
  }

  lemma RoleIsComplete(root: int, recorded: RT.Owned, tree: seq<RT.Record>, r: RT.Record)
    requires RT.OwnedStoppedTree(root, recorded, tree) && r in tree
    ensures r.startTicks.Some? && r.identity.Some? && r.pgid.Some?
    ensures r.pid == recorded.worker.pid ==> r.pgid == Some(recorded.worker.pgid)
    ensures r.pid == recorded.basis.pid ==> r.pgid == Some(recorded.basis.pgid)
  {
    assert RT.Complete(r) && RT.OwnedGroup(recorded, r);
  }

  lemma StagedIsRestoring(e: Dir, d: Dir, worker: Process, basis: Process)
    requires StageEnabled(d, worker, basis) && e == StagedDir(d, Observed(worker), Observed(basis)) && AllRestoring(d)
    ensures PublishEnabled(e)
  {
    SameListing(d.pool.rows, e.pool.rows, StagedRow(Observed(worker), Observed(basis)));
  }

  /** Continue both groups and see both roles running. */
  method ResumePhase(d: PoolDirectory, signals: SignalState, e: Evidence) returns (ok: bool)
    requires d.Valid() && signals.Valid() && signals.arrived == [] && e.worker.pgid.Some? && e.basis.pgid.Some?
    modifies d`failures, d.system, signals
    ensures d.Valid() && old(d.system.history) <= d.system.history && signals.Valid() && d.failures >= old(d.failures)
    ensures ok ==>
      && signals.arrived == []
      && EverRunning(d.system.history, |old(d.system.history)|, e.worker)
      && EverRunning(d.system.history, |old(d.system.history)|, e.basis)
    ensures d.failures == old(d.failures) ==> (ok <==> signals.arrived == [])
    ensures ok ==> d.failures == old(d.failures) && signals.looks == old(signals.looks) + 1
  {
    hide Orderly, OpenedProperly, StepOk, Evolving, EverRunning, EverNotRunning, EverUnhealthy;
    ghost var before, sent := d.system.history, d.system.sent;
    ok := ResumeRestoredProcesses(d.system, e.worker, e.basis);
    OrderlyLater(d.history, before, d.system.history);
    if !ok {
      d.Fail();
      return;
    }
    ResumedLate(d.system.history, |before|, d.system.sent[|sent|..], e);
    var interrupted := signals.RaiseIfInterrupted();
    ok := !interrupted;
  }

  lemma ResumedLate(h: seq<Kernel>, from: nat, sends: seq<Send>, e: Evidence)
    requires |sends| == 2 && Continued(h, from, sends[1], e.worker)
    requires EverRunning(h, sends[1].at, e.worker) && EverRunning(h, sends[1].at, e.basis)
    ensures EverRunning(h, from, e.worker) && EverRunning(h, from, e.basis)
  {
    hide Running, EverRunning;
    RunningSince(h, h, sends[1].at, from, e.worker);
    RunningSince(h, h, sends[1].at, from, e.basis);
  }

  /** Publish, then remove what the restore left. */
  method PublishPhase(d: PoolDirectory, signals: SignalState) returns (ok: bool)
    requires d.Valid() && signals.Valid() && signals.arrived == [] && PublishEnabled(d.now) && Staged(d.now)
    modifies d, signals
    ensures d.Valid() && old(d.history) <= d.history && signals.Valid() && d.failures >= old(d.failures)
    ensures d.careless == old(d.careless)
    ensures ok ==> IsOpen(d.now) && Admissible(d.now) && d.now.pool.processes == old(d.now.pool.processes) && signals.arrived == []
    ensures d.failures == old(d.failures) ==> (ok <==> signals.arrived == [])
    ensures ok ==> d.failures == old(d.failures) && signals.looks == old(signals.looks) + 2
  {
    hide Orderly, OpenedProperly, StepOk, Staged, Admissible;
    ok := PublishRestoredPoolReady(d);
    if !ok {
      return;
    }
    var interrupted := signals.RaiseIfInterrupted();
    if interrupted {
      return false;
    }
    var removed := d.Answers();
    if !removed {
      return false;
    }
    interrupted := signals.RaiseIfInterrupted();
    ok := !interrupted;
  }

  // ---------------------------------------------------------------- the transaction

  datatype Attempt = Success(evidence: Evidence) | ExitedNonzero | Failure

  /** The body of the transaction; a signal that has arrived stops it at the next check. */
  method TryRestore(d: PoolDirectory, signals: SignalState, recorded: RT.Owned, stamp: string, pidfile: Name, log: Name)
    returns (a: Attempt)
    requires d.Valid() && signals.Valid() && signals.arrived == [] && recorded == RecordedOf(d.now.pool.processes)
    modifies d, d.system, signals
    ensures d.Valid() && old(d.history) <= d.history && old(d.system.history) <= d.system.history && signals.Valid()
    ensures d.failures >= old(d.failures) && d.careless == old(d.careless)
    ensures a.Success? ==> Committed(d.now, d.system.history, |old(d.system.history)|, recorded, a.evidence)
    ensures a.ExitedNonzero? ==> d.failures > old(d.failures) && d.now.pool.processes == old(d.now.pool.processes)
    ensures d.failures == old(d.failures) ==> (a.Success? <==> BeginEnabled(old(d.now)) && signals.arrived == [])
    ensures a.Success? ==> d.failures == old(d.failures) && signals.looks == old(signals.looks) + 8
  {
    hide Orderly, OpenedProperly, StepOk, Evolving, Staged, Admissible, PublishEnabled, AllRestoring, RT.OwnedStoppedTree, SeenStopped, EverRunning;
    var launched := LaunchPhase(d, signals, stamp, pidfile, log);
    if !launched.Done? {
      return if launched.Nonzero? then ExitedNonzero else Failure;
    }
    ghost var start := |d.system.history|;
    var e := ValidatePhase(d, signals, recorded);
    if e.None? {
      return Failure;
    }
    ghost var validated := d.system.history;
    var ok := StagePhase(d, signals, recorded, e.value);
    if !ok {
      return Failure;
    }
    ok := ResumePhase(d, signals, e.value);
    if !ok {
      return Failure;
    }
    AcceptedLater(validated, d.system.history, start, start, recorded, e.value);
    RunningSince(d.system.history, d.system.history, |validated|, start, e.value.worker);
    RunningSince(d.system.history, d.system.history, |validated|, start, e.value.basis);
    ok := PublishPhase(d, signals);
    a := if ok then Success(e.value) else Failure;
  }

  /** What `_handle_transaction_failure` does to the processes and the metadata. Which records it
      captures again for its kill is left open: any list. */
  method HandleFailure(d: PoolDirectory)
    requires d.Valid()
    modifies d`now, d`history, d`failures, d.system
    ensures d.Valid() && old(d.history) <= d.history && old(d.system.history) <= d.system.history
    ensures d.failures >= old(d.failures) && (d.failures == old(d.failures) ==> d.now.pool.status == RestoreFailed)
  {
    hide Orderly, OpenedProperly, StepOk, Evolving, Refreshed;
    var tree: seq<RT.Record>, root: Option<int> := *, *;
    ghost var before := d.system.history;
    var verified, parts, order, reps := TerminateRestoredTree(d.system, tree, root);
    OrderlyLater(d.history, before, d.system.history);
    MarkPoolRestoreFailed(d);
  }

  /** `interrupted`: everything was done, and a signal then ended the controller. */
  datatype Result = Restored(interrupted: bool, evidence: Evidence) | Failed

  /** What happened on the way: a signal arrived, CRIU failed over a pid collision, a second attempt was made. */
  datatype Course = Course(arrived: bool, collided: bool, retried: bool)

  /** The transaction with its handlers: after a pid collision of the root it is rolled back and tried
      once more; after any other failure the tree is killed and the pool condemned. */
  method ExecuteRestoreTransaction(d: PoolDirectory, recorded: RT.Owned, stamp: string, pidfile: Name, log: Name, allowRetry: bool)
    returns (r: Result, ghost course: Course)
    requires d.Valid() && recorded == RecordedOf(d.now.pool.processes)
    modifies d, d.system
    ensures d.Valid() && old(d.history) <= d.history && old(d.system.history) <= d.system.history
    ensures d.failures >= old(d.failures) && d.careless == old(d.careless)
    ensures r.Restored? ==> Committed(d.now, d.system.history, |old(d.system.history)|, recorded, r.evidence)
    ensures r.Failed? ==> d.now.pool.status == RestoreFailed || d.failures > old(d.failures)
    ensures d.failures == old(d.failures) ==> (r.Restored? && !r.interrupted <==> BeginEnabled(old(d.now)) && !course.arrived)
    ensures r.Restored? ==> (r.interrupted <==> course.arrived)
    // A second attempt is made exactly after a collision, and only one.
    ensures course.retried <==> course.collided && allowRetry
    ensures course.retried ==> d.failures > old(d.failures)
    decreases if allowRetry then 2 else 0
  {
    hide Orderly, OpenedProperly, StepOk, Evolving, Committed;
    var signals := new SignalState();
    var a := TryRestore(d, signals, recorded, stamp, pidfile, log);
    course := Course(signals.arrived != [], false, false);
    if a.Success? {
      var interrupted := signals.RaiseIfInterrupted();
      return Restored(interrupted, a.evidence), Course(interrupted, false, false);
    }
    var collision: bool := *;
    course := course.(collided := a.ExitedNonzero? && collision);
    if a.ExitedNonzero? && allowRetry && collision {
      ghost var before := d.system.history;
      ghost var again: Course;
      r, again := Retry(d, recorded, stamp, pidfile, log);
      var interrupted := signals.RaiseIfInterrupted();
      course := Course(interrupted || again.arrived, true, true);
      if r.Restored? {
        CommittedSince(d.now, d.system.history, |before|, |old(d.system.history)|, recorded, r.evidence);
        r := Restored(r.interrupted || interrupted, r.evidence);
      }
      return;
    }
    HandleFailure(d);
    r := Failed;
  }

  /** Roll the transaction back and try once more. */
  method Retry(d: PoolDirectory, recorded: RT.Owned, stamp: string, pidfile: Name, log: Name)
    returns (r: Result, ghost course: Course)
    requires d.Valid() && recorded == RecordedOf(d.now.pool.processes)
    modifies d, d.system
    ensures d.Valid() && old(d.history) <= d.history && old(d.system.history) <= d.system.history
    ensures d.failures >= old(d.failures) && d.careless == old(d.careless)
    ensures r.Restored? ==> Committed(d.now, d.system.history, |old(d.system.history)|, recorded, r.evidence)
    ensures r.Restored? ==> (r.interrupted <==> course.arrived)
    decreases 1
  {
    hide Orderly, OpenedProperly, StepOk, Evolving, Committed;
    var ok := ResetRootCollisionRestore(d, stamp, pidfile, log);
    if !ok {
      return Failed, Course(false, false, false);
    }
    var stampAgain: string, pidfileAgain: Name, logAgain: Name := *, *, *;
    r, course := ExecuteRestoreTransaction(d, recorded, stampAgain, pidfileAgain, logAgain, false);
  }

  // ---------------------------------------------------------------- before the transaction

  /** The recorded process is under its pid and not about to go. */
  ghost predicate RecordedLive(k: Kernel, p: Process) {
    && p.pid > 0 && Occupied(k, p.pid) && p.identity == Some(Identity(Occupant(k, p.pid).ticks))
    && Occupant(k, p.pid) in k.states && k.states[Occupant(k, p.pid)] !in {'X', 'x', 'Z'}
  }

  /** The recorded process was seen under its pid. */
  ghost predicate SeenLive(h: seq<Kernel>, from: nat, p: Process) {
    exists k | from <= k < |h| :: p.pid > 0 && Occupied(h[k], p.pid) && p.identity == Some(Identity(Occupant(h[k], p.pid).ticks))
  }

  ghost predicate SeenNotLive(h: seq<Kernel>, from: nat, p: Process) {
    exists k | from <= k < |h| :: !RecordedLive(h[k], p)
  }

  lemma SeenOn(h: seq<Kernel>, g: seq<Kernel>, from: nat, earlier: nat, p: Process)
    requires h <= g && earlier <= from
    ensures SeenLive(h, from, p) ==> SeenLive(g, earlier, p)
    ensures SeenNotLive(h, from, p) ==> SeenNotLive(g, earlier, p)
  {
    hide RecordedLive;
    if SeenLive(h, from, p) {
      var k :| from <= k < |h| && p.pid > 0 && Occupied(h[k], p.pid) && p.identity == Some(Identity(Occupant(h[k], p.pid).ticks));
      assert g[k] == h[k];
    }
    if SeenNotLive(h, from, p) {
      var k :| from <= k < |h| && !RecordedLive(h[k], p);
      assert g[k] == h[k];
    }
  }

  /** `pid_is_alive` and the recorded birth identity, three reads. */
  method RoleIsLive(system: System, p: Process) returns (live: bool)
    requires system.Valid()
    modifies system`now, system`history, system`mishaps
    ensures system.Valid() && old(system.history) <= system.history && system.mishaps >= old(system.mishaps)
    ensures live ==> SeenLive(system.history, |old(system.history)|, p)
    ensures !live && system.mishaps == old(system.mishaps) && p.identity.Some? ==>
      p.pid <= 0 || SeenNotLive(system.history, |old(system.history)|, p)
  {
    hide Evolving;
    ghost var start := |system.history|;
    if p.pid <= 0 || p.identity.None? {
      return false;
    }
    live := system.PidAlive(p.pid);
    if !live {
      assert !RecordedLive(system.history[start], p);
      return;
    }
    var state := system.ReadState(p.pid);
    if state.None? || Terminal(state.value) {
      if system.mishaps == old(system.mishaps) {
        assert !RecordedLive(system.history[start + 1], p);
      }
      return false;
    }
    var identity := system.ReadIdentity(p.pid);
    live := identity == p.identity;
    if live {
      assert Occupied(system.history[start + 2], p.pid);
    } else if system.mishaps == old(system.mishaps) {
      assert !RecordedLive(system.history[start + 2], p);
    }
  }

  /** Both roles of the pool were seen under their pids. */
  ghost predicate SeenBothLive(h: seq<Kernel>, from: nat, p: Processes) {
    SeenLive(h, from, p.worker) && SeenLive(h, from, p.basis)
  }

  /** `pool_is_live` */
  method PoolIsLive(d: PoolDirectory) returns (live: bool)
    requires d.Valid()
    modifies d.system`now, d.system`history, d.system`mishaps
    ensures d.Valid() && old(d.system.history) <= d.system.history && d.system.mishaps >= old(d.system.mishaps)
    ensures live ==> SeenBothLive(d.system.history, |old(d.system.history)|, d.now.pool.processes)
    ensures !live && d.system.mishaps == old(d.system.mishaps) ==>
      NotBothLive(d.system.history, |old(d.system.history)|, d.now.pool.processes)
  {
    hide Orderly, OpenedProperly, Evolving, SeenLive, SeenNotLive;
    ghost var before := d.system.history;
    live := RoleIsLive(d.system, d.now.pool.processes.worker);
    OrderlyLater(d.history, before, d.system.history);
    if !live {
      return;
    }
    ghost var between := d.system.history;
    live := RoleIsLive(d.system, d.now.pool.processes.basis);
    OrderlyLater(d.history, between, d.system.history);
    SeenOn(between, d.system.history, |before|, |before|, d.now.pool.processes.worker);
    SeenOn(d.system.history, d.system.history, |between|, |before|, d.now.pool.processes.basis);
  }

  /** One of the roles was seen not to be live, or has no pid or identity recorded. */
  ghost predicate NotBothLive(h: seq<Kernel>, from: nat, p: Processes) {
    || SeenNotLive(h, from, p.worker) || SeenNotLive(h, from, p.basis)
    || p.worker.pid <= 0 || p.basis.pid <= 0 || p.worker.identity.None? || p.basis.identity.None?
  }

  /** `restore_preflight_failure`: an open pool that is live may be used as it is; else only a stopped
      pool that is not live, with a verified stop of every session, may be restored. */
  method RestorePreflight(d: PoolDirectory) returns (ok: bool)
    requires d.Valid()
    modifies d.system`now, d.system`history, d.system`mishaps
    ensures d.Valid() && old(d.system.history) <= d.system.history && d.system.mishaps >= old(d.system.mishaps)
    ensures ok ==>
      || (IsOpen(d.now) && SeenBothLive(d.system.history, |old(d.system.history)|, d.now.pool.processes))
      || (d.now.pool.status == Stopped && |d.now.pool.rows| > 0 && RowsStopped(d.now.pool.rows, |d.now.pool.rows|))
    ensures !ok && Restorable(d.now.pool) ==> SeenBothLive(d.system.history, |old(d.system.history)|, d.now.pool.processes)
    ensures !ok && IsOpen(d.now) && d.system.mishaps == old(d.system.mishaps) ==>
      NotBothLive(d.system.history, |old(d.system.history)|, d.now.pool.processes)
  {
    hide Orderly, OpenedProperly, Evolving, SeenBothLive, NotBothLive;
    var live := PoolIsLive(d);
    if d.now.pool.status == Ready {
      return live;
    }
    if d.now.pool.status != Stopped || live {
      return false;
    }
    ok := |d.now.pool.rows| > 0;
    for i := 0 to |d.now.pool.rows|
      invariant ok <==> |d.now.pool.rows| > 0 && RowsStopped(d.now.pool.rows, i)
    {
      if d.now.pool.rows[i].status != Stopped || !d.now.pool.rows[i].stopVerified {
        ok := false;
      }
    }
    RestorableMeans(d.now.pool);
  }

  /** The first `n` sessions were stopped and their stop verified. */
  predicate RowsStopped(rows: seq<Row>, n: nat)
    requires n <= |rows|
  {
    forall k | 0 <= k < n :: rows[k].status == Stopped && rows[k].stopVerified
  }

  lemma RestorableMeans(p: Pool)
    ensures Restorable(p) <==> p.status == Stopped && |p.rows| > 0 && RowsStopped(p.rows, |p.rows|)
  {
    if p.rows != [] && RowsStopped(p.rows, |p.rows|) {
      forall row | row in p.rows ensures row.status == Stopped && row.stopVerified { }
    }
    if Restorable(p) {
      forall k | 0 <= k < |p.rows| ensures p.rows[k] in p.rows { }
    }
  }

  datatype Answer = Unavailable | AlreadyLive | Answered(result: Result)

  /** A restore under the pool's locks: demote a dead ready generation if asked to, refuse what the
      preflight refuses, leave a live pool alone, read what the stopped pool recorded, and run the
      transaction. */
  method RestorePool(d: PoolDirectory, demote: bool, stamp: string, pidfile: Name, log: Name)
    returns (answer: Answer, demotion: Option<PoolDemotion.Demotion>, ghost course: Course)
    requires d.Valid()
    modifies d, d.system
    // A demotion that is refused or fails ends it.
    ensures demotion.Some? ==> demote && (demotion.value.Refused? || demotion.value.WriteRaised? ==> answer.Unavailable?)
    ensures demotion.None? && demote ==> !answer.Answered? && d.now == old(d.now)
    ensures if answer.Answered? then course.retried <==> course.collided else course == Course(false, false, false)
    ensures d.Valid() && old(d.history) <= d.history && old(d.system.history) <= d.system.history
    ensures d.failures >= old(d.failures) && d.careless == old(d.careless)
    ensures answer.Answered? && answer.result.Restored? ==>
      Committed(d.now, d.system.history, |old(d.system.history)|, RecordedOf(old(d.now).pool.processes), answer.result.evidence)
    ensures answer.Answered? && answer.result.Restored? ==>
      SameNumbers(old(d.now).pool.processes, d.now.pool.processes)
    ensures answer.Unavailable? ==> !IsOpen(d.now) || d.now == old(d.now)
    ensures answer.AlreadyLive? ==> SeenBothLive(d.system.history, |old(d.system.history)|, d.now.pool.processes)
    ensures answer.AlreadyLive? && !demote ==> d.now == old(d.now) && (IsOpen(d.now) || Restorable(d.now.pool))
    ensures answer.Answered? ==> Numbered(old(d.now).pool.processes)
    // A pool is restored only out of a verified stop, or out of a dead generation that was demoted;
    // a live pool that dies between two looks is tried too, and fails.
    ensures answer.Answered? ==>
      || (demote && IsOpen(old(d.now)) && Quiescent(old(d.now)))
      || Restorable(old(d.now).pool)
      || (IsOpen(old(d.now)) && SeenBothLive(d.system.history, |old(d.system.history)|, old(d.now).pool.processes))
  {
    hide Orderly, OpenedProperly, StepOk, Evolving, Committed, Quiescent, Accepted, SeenBothLive, NotBothLive, Restorable,
      StoppedFrom, BeginEnabled, PoolDemotion.GenerationDead, PoolDemotion.RoleGone, RowsStopped, SameNumbers;
    course, demotion := Course(false, false, false), None;
    if demote {
      var published := LivePublished(d);
      if published.Some? {
        return published.value, None, course;
      }
      var outcome := PoolDemotion.DemoteStaleReadyPool(d);
      demotion := Some(outcome);
      if outcome.Refused? || outcome.WriteRaised? {
        return Unavailable, demotion, course;
      }
    }
    ghost var before := d.system.history;
    var ok := RestorePreflight(d);
    if !ok {
      return Unavailable, demotion, course;
    }
    RestorableMeans(d.now.pool);
    ghost var between := d.system.history;
    var live := PoolIsLive(d);
    SeenBothOn(between, d.system.history, |before|, |old(d.system.history)|, d.now.pool.processes);
    SeenBothOn(d.system.history, d.system.history, |between|, |old(d.system.history)|, d.now.pool.processes);
    if live {
      return AlreadyLive, demotion, course;
    }
    if !Recordable(d.now.pool.processes) {
      return Unavailable, demotion, course;
    }
    ghost var demoted, looked := d.system.history, d.now.pool.processes;
    var result;
    result, course := ExecuteRestoreTransaction(d, RecordedOf(d.now.pool.processes), stamp, pidfile, log, true);
    if result.Restored? {
      CommittedSince(d.now, d.system.history, |demoted|, |old(d.system.history)|, RecordedOf(old(d.now).pool.processes), result.evidence);
      CommittedNames(d.now, d.system.history, |old(d.system.history)|, old(d.now).pool.processes, result.evidence);
    }
    SeenBothOn(demoted, d.system.history, |old(d.system.history)|, |old(d.system.history)|, looked);
    answer := Answered(result);
  }

  lemma SeenBothOn(h: seq<Kernel>, g: seq<Kernel>, from: nat, earlier: nat, p: Processes)
    requires h <= g && earlier <= from
    ensures SeenBothLive(h, from, p) ==> SeenBothLive(g, earlier, p)
  {
    hide SeenLive;
    SeenOn(h, g, from, earlier, p.worker);
    SeenOn(h, g, from, earlier, p.basis);
  }

  /** The checks for a published shelf before anything is written: a live ready pool is left alone, a
      dead one goes on, and otherwise only a stopped pool that is not live. */
  method LivePublished(d: PoolDirectory) returns (answer: Option<Answer>)
    requires d.Valid()
    modifies d.system`now, d.system`history, d.system`mishaps
    ensures d.Valid() && old(d.system.history) <= d.system.history && d.system.mishaps >= old(d.system.mishaps)
    ensures answer.None? ==> d.now.pool.status == Ready || d.now.pool.status == Stopped
    ensures answer.None? || answer == Some(Unavailable) || answer == Some(AlreadyLive)
    ensures answer == Some(AlreadyLive) ==>
      IsOpen(d.now) && SeenBothLive(d.system.history, |old(d.system.history)|, d.now.pool.processes)
    ensures answer == Some(Unavailable) ==> !IsOpen(d.now)
    ensures answer == Some(Unavailable) && d.now.pool.status == Stopped ==>
      SeenBothLive(d.system.history, |old(d.system.history)|, d.now.pool.processes)
  {
    hide Orderly, OpenedProperly, Evolving, SeenBothLive, NotBothLive;
    var live := PoolIsLive(d);
    if d.now.pool.status == Ready {
      return if live then Some(AlreadyLive) else None;
    }
    if d.now.pool.status != Stopped || live {
      return Some(Unavailable);
    }
    answer := None;
  }

  /** Both roles have a pid, and a group if they name one. */
  predicate Numbered(p: Processes) {
    p.worker.pid > 0 && p.worker.pgid >= 0 && p.basis.pid > 0 && p.basis.pgid >= 0
  }

  /** The processes keep the pids and groups that the pool recorded, role by role. */
  predicate SameNumbers(was: Processes, now: Processes) {
    && now.worker.pid == was.worker.pid && now.basis.pid == was.basis.pid
    && (if now.worker.pgid == 0 then now.worker.pid else now.worker.pgid)
         == (if was.worker.pgid == 0 then was.worker.pid else was.worker.pgid)
    && (if now.basis.pgid == 0 then now.basis.pid else now.basis.pgid)
         == (if was.basis.pgid == 0 then was.basis.pid else was.basis.pgid)
  }

  lemma CommittedNames(d: Dir, h: seq<Kernel>, from: nat, was: Processes, e: Evidence)
    requires Committed(d, h, from, RecordedOf(was), e)
    ensures SameNumbers(was, d.pool.processes)
  {
    hide Admissible, SeenStopped, EverRunning;
    RoleIsComplete(e.root, RecordedOf(was), e.tree, e.worker);
    RoleIsComplete(e.root, RecordedOf(was), e.tree, e.basis);
  }

  lemma CommittedSince(d: Dir, h: seq<Kernel>, from: nat, earlier: nat, recorded: RT.Owned, e: Evidence)
    requires Committed(d, h, from, recorded, e) && earlier <= from
    ensures Committed(d, h, earlier, recorded, e)
  {
    hide Admissible, EverRunning, Accepted;
    AcceptedLater(h, h, from, earlier, recorded, e);
    RunningSince(h, h, from, earlier, e.worker);
    RunningSince(h, h, from, earlier, e.basis);
  }
}
