/** Fail-closed preparation, cleanup and recovery of a lazy-pages launch. */
module LazyLifecycle {
  import opened Options
  import opened Births
  import opened LazyWorld
  import opened LazyMachine
  import opened LazyDisk
  import opened LazyOwner
  import opened LazyProtocol

  // ---------------------------------------------------------------- retirement

  /** Termination as callers see it: an interrupt may replace the report (`None`). */
  method Terminate(m: Machine, daemon: Birth) returns (c: Option<Cleanup>)
    requires m.Valid() && daemon in m.now.bound
    modifies m
    ensures m.Valid() && old(m.history) <= m.history && Tends(old(m.now), m.now)
    ensures SentOnly(old(m.now), m.now, daemon)
    ensures m.mishaps == old(m.mishaps) ==> |m.now.deliveries| <= |old(m.now.deliveries)| + 1
    ensures c.Some? && c.value.verified ==> Dead(m.now.table, daemon)
    ensures c.Some? ==> (c.value.verified <==> c.value.status == Quiescent)
    ensures m.mishaps >= old(m.mishaps)
    ensures m.mishaps == old(m.mishaps) ==> c.Some? && c.value.verified
  {
    var report := TerminateOwnedDaemon(m, daemon);
    var answered := m.Answers();
    c := if answered then Some(report) else None;
  }

  /** Everything a later launch could reuse is gone, the owner record last. */
  ghost predicate Retired(s: Sys, o: Owner) {
    && s.disk.owner.None? && Quiet(s) && Dead(s.table, o.daemon) && o.paths.log !in s.disk.logs
  }

  /** Remove the artifacts of a daemon reported quiescent. `given` replaces the termination when
      the caller has already terminated. `None` stands for a raised error. */
  method RetirePriorOwner(m: Machine, o: Owner, given: Option<Cleanup>) returns (c: Option<Cleanup>)
    requires m.Valid() && m.now.disk.owner == Some(o)
    requires given.Some? && given.value.verified ==> Dead(m.now.table, o.daemon)
    modifies m
    ensures m.Valid() && old(m.history) <= m.history
    ensures SameLaunches(old(m.now), m.now)
    ensures if given.Some? then m.now.deliveries == old(m.now.deliveries) else SentOnly(old(m.now), m.now, o.daemon)
    ensures m.mishaps == old(m.mishaps) ==> |m.now.deliveries| <= |old(m.now.deliveries)| + 1
    ensures m.now.disk.pending == old(m.now.disk.pending)
    ensures m.now.disk.owner == None || m.now.disk.owner == Some(o)
    ensures c.Some? ==> Retired(m.now, o) && (given.Some? ==> c == given) && c.value.verified
    ensures c.Some? && given.None? ==> c == Some(VERIFIED)
    ensures m.mishaps >= old(m.mishaps)
    ensures m.mishaps == old(m.mishaps) && (given.Some? ==> given.value.verified) ==> c.Some?
  {
    hide Inv, Rely, Safe, Lawful, Tends, NoneActive, Narrowed;
    ghost var s0 := m.now;
    OwnerNamesCurrent(s0, o);
    var cleanup := given;
    if given.None? {
      cleanup := Terminate(m, o.daemon);
      TendsEvolves(s0, m.now);
    } else {
      RelyReflexive(s0);
      TendsEvolves(s0, s0);
    }
    if cleanup.None? || !cleanup.value.verified {
      return None;
    }
    OwnerNamesCurrent(m.now, o);
    NarrowedAndDead(m.now, m.now.current.value, o.daemon);
    var ok := UnlinkOwned(m, o);
    c := if ok then cleanup else None;
  }

  /** Socket, pidfile and log, and then the owner record. */
  method UnlinkOwned(m: Machine, o: Owner) returns (ok: bool)
    requires m.Valid() && m.now.disk.owner == Some(o) && NoneActive(m.now)
    modifies m
    ensures m.Valid() && old(m.history) <= m.history
    ensures SameLaunches(old(m.now), m.now) && m.now.deliveries == old(m.now.deliveries)
    ensures m.now.disk.pending == old(m.now.disk.pending)
    ensures m.now.disk.owner == None || m.now.disk.owner == Some(o)
    ensures ok ==> m.now.disk.owner.None? && Quiet(m.now) && o.paths.log !in m.now.disk.logs
    ensures m.mishaps >= old(m.mishaps) && (!ok ==> m.mishaps > old(m.mishaps))
  {
    hide Inv, Rely, Safe, Lawful, Tends, NoneActive, Narrowed, Dead;
    OwnerNamesCurrent(m.now, o);
    ok := UnlinkSocket(m);
    if !ok {
      return;
    }
    ok := UnlinkPidfile(m, o.paths.pidfile);
    if !ok {
      return;
    }
    assert m.now.disk.pidfiles == map[];
    ok := UnlinkLog(m, o.paths.log);
    if !ok {
      return;
    }
    assert m.now.disk.pidfiles == map[];
    ok := UnlinkOwner(m);
    assert m.now.disk.pidfiles == map[];
  }

  /** An owner record describes the last released launch, whose pidfile is the only one. */
  lemma OwnerNamesCurrent(s: Sys, o: Owner)
    requires Inv(s) && s.disk.owner == Some(o)
    ensures s.current.Some? && Narrowed(s, s.current.value, o.daemon)
    ensures Dead(s.table, s.current.value) && o.daemon in s.bound
    ensures s.disk.pidfiles.Keys <= {o.paths.pidfile}
    ensures s.disk.pending.Some? ==>
      && s.disk.pending.value == Pending(o.paths, s.current.value, DaemonBound(o.daemon))
  {
    forall n | n in s.disk.pidfiles ensures n == o.paths.pidfile {
      assert PidfileOk(s, n);
    }
  }

  // ---------------------------------------------------------------- preparation

  datatype Refusal =
    | PendingLaunch
    | SocketWithoutOwner
    | OwnerUnreadable
    | OwnerNotRetired
    | StalePidfile

  /** Block ambiguous recovery and retire a prior verified owner if present. */
  method PrepareLaunch(m: Machine) returns (refusal: Option<Refusal>)
    requires m.Valid()
    modifies m
    ensures m.Valid() && old(m.history) <= m.history
    ensures refusal.None? ==> !Recorded(m.now)
    ensures old(m.now.disk.pending).Some? <==> refusal == Some(PendingLaunch)
    ensures refusal != Some(SocketWithoutOwner) && refusal != Some(StalePidfile)
    ensures refusal == Some(PendingLaunch) ==> m.now.disk.owner == old(m.now.disk.owner)
    ensures SameLaunches(old(m.now), m.now)
    ensures m.mishaps >= old(m.mishaps)
    ensures m.mishaps == old(m.mishaps) && old(m.now.disk.pending).None? ==> refusal.None?
  {
    hide Inv, Rely, Safe, Lawful, Tends, NoneActive, Narrowed;
    ghost var s0 := m.now;
    m.Interfere();
    RelyEvolves(s0, m.now);
    if m.now.disk.pending.Some? {
      return Some(PendingLaunch);
    }
    ghost var s1 := m.now;
    m.Interfere();
    RelyEvolves(s1, m.now);
    var readable := m.Answers();
    if !readable {
      return Some(OwnerUnreadable);
    }
    UnrecordedIsQuiet(m.now);
    var owner := m.now.disk.owner;
    refusal := if m.now.disk.socket && owner.None? then Some(SocketWithoutOwner) else None;
    if refusal.None? && owner.Some? {
      var cleanup := RetirePriorOwner(m, owner.value, None);
      if cleanup.None? {
        return Some(OwnerNotRetired);
      }
    }
    ghost var s2 := m.now;
    m.Interfere();
    RelyEvolves(s2, m.now);
    UnrecordedIsQuiet(m.now);
    if refusal.None? && m.now.disk.pidfiles != map[] {
      refusal := Some(StalePidfile);
    }
  }

  /** Without a record there is nothing to trip over. */
  lemma UnrecordedIsQuiet(s: Sys)
    requires Inv(s)
    ensures !Recorded(s) ==> Quiet(s)
  {
    if s.disk.pidfiles != map[] {
      var n :| n in s.disk.pidfiles;
      assert PidfileOk(s, n);
    }
  }

  // ---------------------------------------------------------------- failed launch

  /** `verified` is `verified_quiescent`; the two parts are what it is made of. */
  datatype LaunchCleanup = LaunchCleanup(
    verified: bool, daemonVerified: bool, launcherVerified: bool, identityUnavailable: bool)

  /** Close the owned pipes and settle the gated parent without guessing daemon identity. */
  method AbortLauncher(m: Machine, launcher: LazyPagesLauncher, daemonBound: bool) returns (c: LaunchCleanup)
    requires m.Valid() && launcher.Tracks(m.now)
    modifies m, launcher
    ensures m.Valid() && old(m.history) <= m.history && launcher.Tracks(m.now)
    ensures !launcher.gateWriteFd && !launcher.statusReadFd && launcher.released == old(launcher.released)
    ensures m.now.disk.pending == old(m.now.disk.pending) && m.now.disk.owner == old(m.now.disk.owner)
    ensures m.now.deliveries == old(m.now.deliveries)
    ensures !old(launcher.gateWriteFd) ==> Rely(old(m.now), m.now)
    ensures !c.verified && !c.daemonVerified
    ensures c.launcherVerified ==> Dead(m.now.table, launcher.birth)
    ensures c.identityUnavailable <==> old(launcher.released) && !daemonBound
    ensures m.now.current == old(m.now.current) && (old(NoneActive(m.now)) ==> NoneActive(m.now))
    ensures m.mishaps >= old(m.mishaps) && (!c.launcherVerified ==> m.mishaps > old(m.mishaps))
  {
    hide Inv, Rely, Safe, Lawful, Tends, NoneActive, Narrowed;
    var wasReleased := launcher.released;
    CloseGate(m, launcher);
    launcher.statusReadFd := false;
    ghost var s := m.now;
    var settled := WaitLauncher(m, launcher);
    RelyEvolves(s, m.now);
    QuietStaysQuiet(s, m.now);
    c := LaunchCleanup(false, false, settled, wasReleased && !daemonBound);
  }

  /** What a failed launch knows when a daemon was bound. */
  ghost predicate BoundLaunch(s: Sys, l: Birth, paths: Paths, daemon: Birth) {
    && s.current == Some(l) && Narrowed(s, l, daemon)
    && s.disk.pending.Some? && s.disk.pending.value.launcher == l && s.disk.pending.value.paths == paths
  }

  /** Clean only an in-memory bound daemon; a PID-only pidfile is not authority. */
  method CleanupFailedLaunch(m: Machine, launcher: LazyPagesLauncher?, ghost paths: Paths, bound: Option<Birth>)
    returns (c: LaunchCleanup)
    requires m.Valid() && (launcher != null ==> launcher.Tracks(m.now))
    requires bound.Some? ==>
      launcher != null && launcher.released && BoundLaunch(m.now, launcher.birth, paths, bound.value)
    modifies m, launcher
    ensures m.Valid() && old(m.history) <= m.history
    ensures m.now.disk.pending == old(m.now.disk.pending) && m.now.disk.owner == old(m.now.disk.owner)
    ensures if bound.Some? then SentOnly(old(m.now), m.now, bound.value) else m.now.deliveries == old(m.now.deliveries)
    ensures m.mishaps == old(m.mishaps) ==> |m.now.deliveries| <= |old(m.now.deliveries)| + 1
    ensures launcher != null ==> launcher.Tracks(m.now) && !launcher.gateWriteFd && !launcher.statusReadFd
    ensures c.verified ==>
      && bound.Some? && Dead(m.now.table, bound.value) && Dead(m.now.table, launcher.birth)
      && BoundLaunch(m.now, launcher.birth, paths, bound.value) && NoneActive(m.now)
    ensures c.verified <==> c.daemonVerified && c.launcherVerified
    ensures c.daemonVerified ==> bound.Some? && Dead(m.now.table, bound.value)
    ensures c.launcherVerified ==> launcher != null && Dead(m.now.table, launcher.birth)
    ensures c.identityUnavailable <==> launcher != null && old(launcher.released) && bound.None?
    ensures bound.None? ==> m.now.current == old(m.now.current) && (old(NoneActive(m.now)) ==> NoneActive(m.now))
    ensures m.mishaps >= old(m.mishaps)
    ensures bound.Some? && m.mishaps == old(m.mishaps) ==> c.verified
  {
    hide Inv, Rely, Safe, Lawful, Tends, NoneActive, Narrowed;
    if launcher != null && launcher.released && bound.Some? {
      ghost var s0 := m.now;
      NarrowedIsBound(s0, launcher.birth, bound.value);
      var report := Terminate(m, bound.value);
      ghost var s1 := m.now;
      TendsEvolves(s0, s1);
      NarrowedTends(s0, s1, launcher.birth, bound.value);
      var daemonVerified := report.Some? && report.value.verified;
      // An interrupt during the settle leaves the launcher unverified.
      var parent := AbortLauncher(m, launcher, true);
      RelyEvolves(s1, m.now);
      NarrowedTends(s1, m.now, launcher.birth, bound.value);
      var answered := m.Answers();
      var launcherVerified := parent.launcherVerified && answered;
      if daemonVerified {
        DeadStaysDead(s1.table, m.now.table, bound.value);
        NarrowedAndDead(m.now, launcher.birth, bound.value);
      }
      return LaunchCleanup(daemonVerified && launcherVerified, daemonVerified, launcherVerified, false);
    }
    if launcher == null {
      return LaunchCleanup(false, false, false, false);
    }
    c := AbortLauncher(m, launcher, false);
  }

  lemma NarrowedIsBound(s: Sys, l: Birth, d: Birth)
    requires Inv(s) && Narrowed(s, l, d)
    ensures d in s.bound && d in s.table.born
  {
  }

  /** Socket, owner, pidfile, and the pending record after all of them. */
  method ClearVerifiedDaemonArtifacts(m: Machine, pidfile: Name, pending: bool) returns (ok: bool)
    requires m.Valid() && NoneActive(m.now)
    requires m.now.disk.pending.Some? && m.now.disk.pidfiles.Keys <= {pidfile}
    modifies m
    ensures m.Valid() && old(m.history) <= m.history && NoneActive(m.now)
    ensures SameLaunches(old(m.now), m.now) && m.now.deliveries == old(m.now.deliveries)
    ensures m.now.disk.pending == None || m.now.disk.pending == old(m.now.disk.pending)
    ensures ok ==> Quiet(m.now) && m.now.disk.owner.None? && (pending ==> m.now.disk.pending.None?)
    ensures m.now.disk.pending.None? ==> pending && Quiet(m.now) && m.now.disk.owner.None?
    ensures m.mishaps >= old(m.mishaps) && (!ok ==> m.mishaps > old(m.mishaps))
  {
    hide Inv, Rely, Safe, Lawful, Tends, NoneActive, Narrowed;
    ok := UnlinkSocket(m);
    if !ok {
      return;
    }
    ok := UnlinkOwner(m);
    if !ok {
      return;
    }
    ok := UnlinkPidfile(m, pidfile);
    if !ok {
      return;
    }
    assert m.now.disk.pidfiles == map[];
    if pending {
      ok := UnlinkPending(m);
    }
  }
}
