/** Recovery of one durable launch intent without guessing at daemon identity. */
module LazyRecovery {
  import opened Options
  import opened Births
  import opened LazyWorld
  import opened LazyMachine
  import opened LazyDisk
  import opened LazyOwner
  import opened LazyLifecycle

  /** The status each recovery receipt carries. */
  datatype Receipt =
    | NothingPending
    | BlockedOwnerMismatch
    | BlockedOwnerUnavailable
    | OwnerReadyPendingCleared
    | OwnerReadyPendingRetained
    | StaleOwnerCleared
    | StaleOwnerCleanPendingRetained
    | BlockedMissingDaemonIdentity
    | BlockedSurvivors
    | CleanupVerifiedArtifactsRetained
    | Recovered

  datatype RecoveryStatus = Clear | OwnerReady | Settled(report: CleanupStatus)

  /** `retained` joins the two clear errors a recovery may report. */
  datatype Recovery = Recovery(status: RecoveryStatus, verified: bool, retained: bool, receipt: Receipt)

  predicate MatchingOwner(p: Pending, o: Owner) {
    o.paths == p.paths
  }

  /** `_require_recovery_allows_launch` */
  predicate AllowsLaunch(r: Recovery) {
    || r.status == Clear
    || (r.status == OwnerReady && !r.retained)
    || (r.status == Settled(Quiescent) && r.verified && !r.retained)
  }

  /** What each receipt goes with. */
  predicate ReceiptFits(r: Recovery) {
    match r.receipt
    case NothingPending => r == Recovery(Clear, false, false, NothingPending)
    case BlockedOwnerMismatch => r.status == Settled(Unverified) && !r.verified && !r.retained
    case BlockedOwnerUnavailable => r.status == Settled(Unverified) && !r.verified && !r.retained
    case BlockedMissingDaemonIdentity => r.status == Settled(Unverified) && !r.verified && !r.retained
    case OwnerReadyPendingCleared => r.status == OwnerReady && !r.verified && !r.retained
    case OwnerReadyPendingRetained => r.status == OwnerReady && !r.verified && r.retained
    case StaleOwnerCleared => r.status == Settled(Quiescent) && r.verified && !r.retained
    case StaleOwnerCleanPendingRetained => r.status == Settled(Quiescent) && r.verified && r.retained
    case BlockedSurvivors => r.status.Settled? && !r.verified && !r.retained
    case CleanupVerifiedArtifactsRetained => r.status == Settled(Quiescent) && r.verified && r.retained
    case Recovered => r.status == Settled(Quiescent) && r.verified && !r.retained
  }

  lemma OwnerReadyFits(cleared: bool)
    ensures ReceiptFits(Recovery(OwnerReady, false, !cleared, if cleared then OwnerReadyPendingCleared else OwnerReadyPendingRetained))
  {
  }

  lemma StaleOwnerFits(cleared: bool)
    ensures ReceiptFits(Recovery(Settled(Quiescent), true, !cleared,
                                 if cleared then StaleOwnerCleared else StaleOwnerCleanPendingRetained))
  {
  }

  lemma BlockedFits(receipt: Receipt)
    requires receipt in {BlockedOwnerMismatch, BlockedOwnerUnavailable, BlockedMissingDaemonIdentity}
    ensures ReceiptFits(Recovery(Settled(Unverified), false, false, receipt))
  {
  }

  lemma NothingFits()
    ensures ReceiptFits(Recovery(Clear, false, false, NothingPending))
  {
  }

  lemma SettledFits(status: CleanupStatus, verified: bool, cleared: bool)
    requires verified ==> status == Quiescent
    ensures ReceiptFits(Recovery(Settled(status), verified, verified && !cleared,
      if !verified then BlockedSurvivors else if cleared then Recovered else CleanupVerifiedArtifactsRetained))
  {
  }

  /** What a verified recovery of `p` has established. */
  ghost predicate LaunchOver(s: Sys, p: Pending) {
    p.stage.DaemonBound? && Dead(s.table, p.stage.daemon) && Dead(s.table, p.launcher) && NoneActive(s)
  }

  /** Signals of a recovery reach the recorded daemon birth and nobody else. */
  ghost predicate SentForPending(s: Sys, t: Sys, p: Pending) {
    if p.stage.DaemonBound? then SentOnly(s, t, p.stage.daemon) else t.deliveries == s.deliveries
  }

  /** A launch intent whose daemon nobody has identified. */
  predicate Unbound(s: Sys) {
    s.disk.pending.Some? && s.disk.pending.value.stage.ReleaseAuthorized?
  }

  method RecoverLazyPagesLaunch(m: Machine) returns (r: Option<Recovery>, receipt: Option<Receipt>)
    requires m.Valid()
    modifies m
    ensures m.Valid() && old(m.history) <= m.history
    ensures m.now.gates == old(m.now.gates) && m.now.current == old(m.now.current)
    ensures r.Some? ==> r.value.receipt != BlockedOwnerMismatch && ReceiptFits(r.value)
    ensures r.Some? && AllowsLaunch(r.value) ==> m.now.disk.pending.None?
    ensures r.Some? && r.value.verified ==>
      old(m.now.disk.pending).Some? && LaunchOver(m.now, old(m.now.disk.pending).value)
    ensures if old(m.now.disk.pending).Some?
            then SentForPending(old(m.now), m.now, old(m.now.disk.pending).value)
            else Rely(old(m.now), m.now)
    ensures m.mishaps >= old(m.mishaps)
    ensures m.mishaps == old(m.mishaps) ==> |m.now.deliveries| <= |old(m.now.deliveries)| + 1
    // When every step gives an answer, recovery unblocks the directory unless no identity was bound.
    ensures m.mishaps == old(m.mishaps) ==>
      r.Some? && (AllowsLaunch(r.value) <==> !Unbound(old(m.now)))
    ensures m.mishaps == old(m.mishaps) && Unbound(old(m.now)) ==>
      r.value.receipt == BlockedMissingDaemonIdentity && m.now.disk.pending == old(m.now.disk.pending)
    ensures m.mishaps == old(m.mishaps) && old(m.now.disk.pending).Some? && AllowsLaunch(r.value) ==>
      r.value.receipt == OwnerReadyPendingCleared || !Recorded(m.now)
    ensures r.Some? ==> (r.value.receipt == NothingPending <==> old(m.now.disk.pending).None?)
    // A recovery that met a pending intent has written the receipt it returns.
    ensures receipt == if r.Some? && old(m.now.disk.pending).Some? then Some(r.value.receipt) else None
  {
    hide Inv, Rely, Safe, Lawful, Tends, NoneActive, Narrowed, ReceiptFits;
    ghost var s0 := m.now;
    m.Interfere();
    RelyEvolves(s0, m.now);
    ghost var s1 := m.now;
    var readable := m.Answers();
    if !readable {
      return None, None;
    }
    var pending := m.now.disk.pending;
    if pending.None? {
      NothingFits();
      return Some(Recovery(Clear, false, false, NothingPending)), None;
    }
    m.Interfere();
    RelyEvolves(s1, m.now);
    readable := m.Answers();
    if !readable {
      return None, None;
    }
    var owner := m.now.disk.owner;
    if owner.Some? {
      r := RecoverWithOwner(m, pending.value, owner.value);
    } else {
      r := RecoverWithoutOwner(m, pending.value);
    }
    receipt := None;
    if r.Some? {
      var written := m.Answers();
      if !written {
        return None, None;
      }
      receipt := Some(r.value.receipt);
    }
  }

  method RecoverWithOwner(m: Machine, p: Pending, o: Owner) returns (r: Option<Recovery>)
    requires m.Valid() && m.now.disk.pending == Some(p) && m.now.disk.owner == Some(o)
    modifies m
    ensures m.Valid() && old(m.history) <= m.history
    ensures m.now.gates == old(m.now.gates) && m.now.current == old(m.now.current)
    ensures r.Some? ==> r.value.receipt != BlockedOwnerMismatch && ReceiptFits(r.value)
    ensures r.Some? && AllowsLaunch(r.value) ==> m.now.disk.pending.None?
    ensures r.Some? && r.value.verified ==> LaunchOver(m.now, p)
    ensures SentForPending(old(m.now), m.now, p)
    ensures m.mishaps == old(m.mishaps) ==> |m.now.deliveries| <= |old(m.now.deliveries)| + 1
    ensures m.mishaps >= old(m.mishaps) && p.stage.DaemonBound?
    ensures r.Some? ==> r.value.receipt in {OwnerReadyPendingCleared, OwnerReadyPendingRetained, StaleOwnerCleared,
      StaleOwnerCleanPendingRetained, BlockedOwnerUnavailable}
    ensures r.Some? && r.value.receipt == OwnerReadyPendingCleared ==> m.now.disk.owner == Some(o) && m.now.disk.pending.None?
    ensures r.Some? && r.value.receipt == OwnerReadyPendingRetained ==> m.now.disk.owner == Some(o)
    ensures r.Some? && r.value.receipt == BlockedOwnerUnavailable ==>
      m.mishaps > old(m.mishaps) && m.now.disk.owner == Some(o) && m.now.disk.pending == Some(p)
    ensures m.mishaps == old(m.mishaps) ==>
      r.Some? && AllowsLaunch(r.value) && m.now.disk.pending.None?
      && (r.value.receipt == OwnerReadyPendingCleared || (r.value.receipt == StaleOwnerCleared && m.now.disk.owner.None?))
  {
    hide Inv, Rely, Safe, Lawful, Tends, NoneActive, Narrowed, ReceiptFits;
    ghost var s0 := m.now;
    OwnerNamesCurrent(s0, o);
    NarrowedIsBound(s0, s0.current.value, o.daemon);
    var matching := MatchingOwner(p, o);
    var liveness := Unavailable;
    if matching {
      liveness := DaemonLiveness(m, o.daemon);
      RelyEvolves(s0, m.now);
    }
    ghost var s1 := m.now;
    OwnerNamesCurrent(s1, o);
    if matching && liveness == Exact {
      var cleared := UnlinkPending(m);
      OwnerReadyFits(cleared);
      return Some(Recovery(OwnerReady, false, !cleared,
                           if cleared then OwnerReadyPendingCleared else OwnerReadyPendingRetained));
    }
    if matching && Over(liveness) {
      var cleanup := RetirePriorOwner(m, o, None);
      if cleanup.None? {
        return None;
      }
      var cleared := UnlinkPending(m);
      assert LaunchOver(m.now, p) by { QuietIsInactive(m.now); }
      StaleOwnerFits(cleared);
      return Some(Recovery(Settled(cleanup.value.status), cleanup.value.verified, !cleared,
                           if cleared then StaleOwnerCleared else StaleOwnerCleanPendingRetained));
    }
    BlockedFits(if matching then BlockedOwnerUnavailable else BlockedOwnerMismatch);
    r := Some(Recovery(Settled(Unverified), false, false,
                       if matching then BlockedOwnerUnavailable else BlockedOwnerMismatch));
  }

  method RecoverWithoutOwner(m: Machine, p: Pending) returns (r: Option<Recovery>)
    requires m.Valid() && m.now.disk.pending == Some(p) && m.now.disk.owner.None?
    modifies m
    ensures m.Valid() && old(m.history) <= m.history
    ensures m.now.gates == old(m.now.gates) && m.now.current == old(m.now.current)
    ensures r.Some? ==> r.value.receipt != BlockedOwnerMismatch && ReceiptFits(r.value)
    ensures r.Some? && AllowsLaunch(r.value) ==> m.now.disk.pending.None?
    ensures r.Some? && r.value.verified ==> LaunchOver(m.now, p)
    ensures SentForPending(old(m.now), m.now, p)
    ensures m.mishaps == old(m.mishaps) ==> |m.now.deliveries| <= |old(m.now.deliveries)| + 1
    ensures m.mishaps >= old(m.mishaps) && r.Some?
    ensures p.stage.DaemonBound? ==>
      r.value.receipt in {Recovered, BlockedSurvivors, CleanupVerifiedArtifactsRetained}
    ensures r.value.receipt == BlockedSurvivors ==> m.now.disk.pending == Some(p)
    ensures r.value.receipt == Recovered ==> !Recorded(m.now) && !m.now.disk.socket && m.now.disk.pidfiles == map[]
    ensures p.stage.ReleaseAuthorized? ==>
      r.value.receipt == BlockedMissingDaemonIdentity && !AllowsLaunch(r.value) && m.now.disk.pending == Some(p)
    ensures p.stage.DaemonBound? && m.mishaps == old(m.mishaps) ==>
      r.value.receipt == Recovered && r.value.verified && AllowsLaunch(r.value) && m.now.disk.owner.None?
  {
    hide Inv, Rely, Safe, Lawful, Tends, NoneActive, Narrowed, Alive, Dead, Evolves, ReceiptFits;
    ghost var s0 := m.now;
    PendingIsKnown(s0, p);
    var launcherLiveness := DaemonLiveness(m, p.launcher);
    ghost var s1 := m.now;
    RelyEvolves(s0, s1);
    DeadIsNotAlive(s0.table, s1.table, p.launcher);
    if p.stage.ReleaseAuthorized? {
      BlockedFits(BlockedMissingDaemonIdentity);
      return Some(Recovery(Settled(Unverified), false, false, BlockedMissingDaemonIdentity));
    }
    var daemon := p.stage.daemon;
    var daemonState := DaemonLiveness(m, daemon);
    ghost var s2 := m.now;
    RelyEvolves(s1, s2);
    var cleanup := UNVERIFIED;
    if daemonState == Exact {
      PendingIsKnown(s2, p);
      var report := Terminate(m, daemon);
      TendsEvolves(s2, m.now);
      cleanup := if report.Some? then report.value else UNVERIFIED;
    } else if Over(daemonState) {
      cleanup := VERIFIED;
    }
    var launcherVerified := Over(launcherLiveness);
    var verified := cleanup.verified && launcherVerified;
    var receipt, retained := BlockedSurvivors, false;
    if verified {
      PendingIsKnown(m.now, p);
      NarrowedAndDead(m.now, p.launcher, daemon);
      ghost var s3 := m.now;
      var cleared := ClearVerifiedDaemonArtifacts(m, p.paths.pidfile, true);
      DeadStaysDead(s3.table, m.now.table, daemon);
      DeadStaysDead(s3.table, m.now.table, p.launcher);
      retained := !cleared;
      receipt := if cleared then Recovered else CleanupVerifiedArtifactsRetained;
    }
    SettledFits(cleanup.status, verified, verified && !retained);
    r := Some(Recovery(Settled(cleanup.status), verified, retained, receipt));
  }

  /** A pending record names a launcher that exists, the only pidfile, and, once bound, the one
      identity the launch has been narrowed to. */
  lemma PendingIsKnown(s: Sys, p: Pending)
    requires Inv(s) && s.disk.pending == Some(p)
    ensures p.launcher in s.table.born && s.disk.pidfiles.Keys <= {p.paths.pidfile}
    ensures p.stage.DaemonBound? ==>
      && s.current == Some(p.launcher) && Narrowed(s, p.launcher, p.stage.daemon)
      && p.stage.daemon in s.bound && p.stage.daemon in s.table.born && Dead(s.table, p.launcher)
  {
    forall n | n in s.disk.pidfiles ensures n == p.paths.pidfile {
      assert PidfileOk(s, n);
    }
  }

  lemma QuietIsInactive(s: Sys)
    requires Quiet(s)
    ensures NoneActive(s)
  {
  }
}
