/** Every run: launches, recoveries and owned restores in any order, each of which may lose its
    controller after any step, while processes come and go. */
module LazyRuns {
  import opened Options
  import opened Births
  import opened LazyWorld
  import opened LazyMachine
  import opened LazyLifecycle
  import opened LazyRecovery
  import opened LazyLauncher
  import opened LazyRestore

  datatype Operation = Launch(paths: Paths) | Recover | OwnedRestore(paths: Paths)

  /** One operation by one controller, possibly cut short after any of its steps. */
  method Perform(m: Machine, op: Operation)
    requires m.Valid()
    modifies m
    ensures m.Valid() && old(m.history)[0] == m.history[0]
  {
    hide Inv, Safe, Lawful;
    match op {
      case Launch(paths) =>
        var record, started := LaunchLazyPagesInternal(m, paths);
      case Recover =>
        var recovery, receipt := RecoverLazyPagesLaunch(m);
      case OwnedRestore(paths) =>
        var ledger := new Ledger();
        var outcome, account := RunOwnedLazyPagesRestore(m, ledger, paths);
    }
    assert m.history[0] == old(m.history)[0];
    var survives: bool := *;
    if !survives {
      var k: int := *;
      if 0 <= k < |m.history| {
        m.CrashAfter(k);
      }
    }
  }

  /** From an empty image directory, every run has a lawful history. */
  method AnyRun(table: Table, ops: seq<Operation>) returns (h: seq<Sys>)
    requires WellFormed(table)
    ensures |h| > 0 && h[0].disk == EMPTY_DISK && h[0].gates == map[] && h[0].deliveries == [] && Lawful(h)
  {
    var m := new Machine(table);
    var first := m.now;
    for i := 0 to |ops|
      invariant m.Valid() && m.history[0] == first
    {
      Perform(m, ops[i]);
    }
    h := m.history;
  }

  /** A recovery whose result lets a launch go on leaves nothing the launch's preparation would
      refuse for: no intent, no orphaned socket, no stale pidfile. */
  method RecoverThenPrepare(m: Machine) returns (r: Option<Recovery>, refusal: Option<Refusal>)
    requires m.Valid()
    modifies m
    ensures m.Valid() && m.mishaps >= old(m.mishaps)
    ensures r.Some? && AllowsLaunch(r.value) ==>
      refusal != Some(PendingLaunch) && refusal != Some(SocketWithoutOwner) && refusal != Some(StalePidfile)
    ensures m.mishaps == old(m.mishaps) ==> r.Some? && (refusal.None? <==> !Unbound(old(m.now)))
    ensures refusal.None? ==> !Recorded(m.now)
  {
    hide Inv, Safe, Rely, Lawful;
    var receipt;
    r, receipt := RecoverLazyPagesLaunch(m);
    refusal := PrepareLaunch(m);
  }

  // ---------------------------------------------------------------- what lawful runs promise

  /** At most one released daemon of this image is alive. */
  ghost predicate OneDaemon(s: Sys) {
    forall k, l | k in s.daemons && l in s.daemons
      && Alive(s.table, s.daemons[k]) && Alive(s.table, s.daemons[l]) :: k == l
  }

  /** Whenever CRIU may be running, or has left a socket or pidfile, a record is on disk. */
  ghost predicate Accountable(s: Sys) {
    !NoneActive(s) || s.disk.socket || s.disk.pidfiles != map[] ==> Recorded(s)
  }

  /** Pending and owner together describe one launch, whose launcher is already gone. */
  ghost predicate RecordsAgree(s: Sys) {
    s.disk.pending.Some? && s.disk.owner.Some? ==>
      && s.disk.pending.value.paths == s.disk.owner.value.paths
      && s.disk.pending.value.stage == DaemonBound(s.disk.owner.value.daemon)
      && Dead(s.table, s.disk.pending.value.launcher)
  }

  lemma StatesAreSafe(h: seq<Sys>, i: nat)
    requires Lawful(h) && i < |h|
    ensures OneDaemon(h[i]) && Accountable(h[i]) && RecordsAgree(h[i])
  {
    var s := h[i];
    forall k | k in s.daemons && Alive(s.table, s.daemons[k]) ensures s.current == Some(k) {
      assert Active(s, k);
    }
    if s.disk.pidfiles != map[] {
      var n :| n in s.disk.pidfiles;
      assert PidfileOk(s, n);
    }
  }

  /** A birth seen dead once is dead in every later state of the run. */
  lemma {:induction false} DeadForGood(h: seq<Sys>, i: nat, j: nat, b: Birth)
    requires Lawful(h) && i <= j < |h| && Dead(h[i].table, b)
    ensures Dead(h[j].table, b)
    decreases j - i
  {
    if i < j {
      assert Safe(h[i], h[i + 1]);
      DeadForGood(h, i + 1, j, b);
    }
  }

  /** Every signal of a run was delivered at some step to a live process whose exact birth a
      controller had bound before that step. */
  lemma {:induction false} SignalsWereAuthorized(h: seq<Sys>, j: nat, k: nat) returns (i: nat)
    requires Lawful(h) && j < |h| && h[0].deliveries == [] && k < |h[j].deliveries|
    ensures i < j && h[j].deliveries[k].target in h[i].bound
    ensures Alive(h[i].table, h[j].deliveries[k].target)
    ensures |h[i].deliveries| <= k < |h[i + 1].deliveries|
    decreases j
  {
    assert Safe(h[j - 1], h[j]);
    if k < |h[j - 1].deliveries| {
      i := SignalsWereAuthorized(h, j - 1, k);
    } else {
      i := j - 1;
    }
  }

  /** Every KILL of a run came a whole grace period after a TERM to the same birth. */
  lemma KillsWaitForTerm(h: seq<Sys>, j: nat, k: nat) returns (t: nat)
    requires Lawful(h) && j < |h| && h[0].deliveries == [] && k < |h[j].deliveries|
    requires h[j].deliveries[k].signal == SigKill
    ensures t < k && h[j].deliveries[t].target == h[j].deliveries[k].target && h[j].deliveries[t].signal == SigTerm
    ensures h[j].deliveries[t].at + 1000 <= h[j].deliveries[k].at
  {
    var i := SignalsWereAuthorized(h, j, k);
    DeliveriesGrow(h, i, j);
    DeliveriesGrow(h, i + 1, j);
    assert Safe(h[i], h[i + 1]) && h[i + 1].deliveries[k] == h[j].deliveries[k];
    assert DeliveryOk(h[i], h[i + 1].deliveries[k]);
    var e :| e in h[i].deliveries && e.target == h[j].deliveries[k].target && e.signal == SigTerm
      && e.at + TERM_GRACE <= h[i].clock;
    t :| 0 <= t < |h[i].deliveries| && h[i].deliveries[t] == e;
  }

  lemma {:induction false} DeliveriesGrow(h: seq<Sys>, i: nat, j: nat)
    requires Lawful(h) && i <= j < |h|
    ensures h[i].deliveries <= h[j].deliveries
    decreases j
  {
    if i < j {
      DeliveriesGrow(h, i, j - 1);
      assert Safe(h[j - 1], h[j]);
    }
  }

  /** A gate that is open at the end of a run opened at a step where the durable pending record
      named its launcher and no other launch of this image was active. */
  lemma {:induction false} GatesOpenedUnderRecord(h: seq<Sys>, j: nat, l: Birth) returns (i: nat)
    requires Lawful(h) && j < |h| && h[0].gates == map[] && IsReleased(h[j], l)
    ensures i < j && !IsReleased(h[i], l) && IsReleased(h[i + 1], l)
    ensures h[i].disk.pending.Some? && h[i].disk.pending.value.launcher == l && NoneActive(h[i])
    decreases j
  {
    assert Safe(h[j - 1], h[j]);
    if IsReleased(h[j - 1], l) {
      i := GatesOpenedUnderRecord(h, j - 1, l);
    } else {
      i := j - 1;
    }
  }

  /** Whenever the last record disappears, CRIU was already gone and nothing else was left. */
  lemma LastRecordGoesLast(h: seq<Sys>, i: nat)
    requires Lawful(h) && 0 < i < |h| && Recorded(h[i - 1]) && !Recorded(h[i])
    ensures NoneActive(h[i - 1]) && !h[i - 1].disk.socket && h[i - 1].disk.pidfiles == map[]
    ensures !h[i].disk.socket && h[i].disk.pidfiles == map[]
  {
    StatesAreSafe(h, i);
  }
}
