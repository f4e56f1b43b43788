/** The lazy-pages launch transaction and its failure path. */
module LazyLauncher {
  import opened Options
  import opened Births
  import opened LazyWorld
  import opened LazyMachine
  import opened LazyDisk
  import opened LazyOwner
  import opened LazyProtocol
  import opened LazyLifecycle

  datatype Phase =
    | Preflight | Spawn | PendingPublication | GateRelease | StatusWait
    | ParentReap | DaemonBind | DaemonHandoff | OwnerPublication

  /** What the local variables of the transaction know when it stops: a bound daemon implies a
      released launcher whose launch has been narrowed to that daemon. */
  ghost predicate Knows(s: Sys, launcher: LazyPagesLauncher?, paths: Paths, daemon: Option<Birth>, pending: bool)
    reads launcher
  {
    && (launcher != null ==> launcher.Tracks(s))
    && (daemon.Some? ==>
        && launcher != null && launcher.released && pending
        && BoundLaunch(s, launcher.birth, paths, daemon.value))
  }

  /** The launch is published: owner and pending name the same daemon and the same paths. */
  ghost predicate Published(s: Sys, o: Owner, l: Birth) {
    && s.disk.owner == Some(o)
    && s.disk.pending == Some(Pending(o.paths, l, DaemonBound(o.daemon)))
    && s.current == Some(l)
  }

  method WritePendingLaunch(m: Machine, launcher: LazyPagesLauncher, paths: Paths) returns (ok: bool)
    requires m.Valid() && launcher.Tracks(m.now) && launcher.gateWriteFd && !Recorded(m.now)
    requires launcher.birth in m.now.commands && m.now.commands[launcher.birth] == paths
    modifies m
    ensures m.Valid() && old(m.history) <= m.history && launcher.Tracks(m.now)
    ensures m.now.deliveries == old(m.now.deliveries)
    ensures ok ==> Authorized(m.now, launcher.birth, paths)
    ensures m.now.current == old(m.now.current)
    ensures m.mishaps >= old(m.mishaps) && (!ok ==> m.mishaps > old(m.mishaps))
  {
    hide Inv, Rely, Safe, Lawful;
    ghost var s := m.now;
    m.Interfere();
    RelyEvolves(s, m.now);
    var p := Pending(paths, launcher.birth, ReleaseAuthorized);
    PutPendingOk(m.now, p);
    ok := m.Attempt(WithPending(m.now, Some(p)));
  }

  method WriteBoundPending(m: Machine, ghost l: Birth, ghost paths: Paths, daemon: Birth) returns (ok: bool)
    requires m.Valid() && Authorized(m.now, l, paths) && BoundLaunch(m.now, l, paths, daemon)
    modifies m
    ensures m.Valid() && old(m.history) <= m.history && BoundLaunch(m.now, l, paths, daemon)
    ensures m.now.gates == old(m.now.gates) && m.now.deliveries == old(m.now.deliveries)
    ensures m.now.disk.owner.None?
    ensures ok ==> m.now.disk.pending == Some(Pending(paths, l, DaemonBound(daemon)))
    ensures m.mishaps >= old(m.mishaps) && (!ok ==> m.mishaps > old(m.mishaps))
  {
    hide Inv, Rely, Safe, Lawful, Narrowed;
    ghost var s := m.now;
    m.Interfere();
    RelyEvolves(s, m.now);
    NarrowedTends(s, m.now, l, daemon);
    var record := m.now.disk.pending;
    var usable := m.Answers();
    if !usable || record.None? || record.value.stage != ReleaseAuthorized {
      return false;
    }
    BindPendingOk(m.now, record.value, daemon);
    DropKeepsNoneActive(m.now, WithPending(m.now, Some(record.value.(stage := DaemonBound(daemon)))));
    ok := m.Attempt(WithPending(m.now, Some(record.value.(stage := DaemonBound(daemon)))));
  }

  method WriteOwner(m: Machine, ghost l: Birth, o: Owner) returns (ok: bool)
    requires m.Valid() && BoundLaunch(m.now, l, o.paths, o.daemon)
    requires m.now.disk.pending == Some(Pending(o.paths, l, DaemonBound(o.daemon)))
    modifies m
    ensures m.Valid() && old(m.history) <= m.history && BoundLaunch(m.now, l, o.paths, o.daemon)
    ensures m.now.gates == old(m.now.gates) && m.now.deliveries == old(m.now.deliveries)
    ensures m.now.disk.pending == old(m.now.disk.pending)
    ensures ok ==> Published(m.now, o, l)
    ensures m.mishaps >= old(m.mishaps) && (!ok ==> m.mishaps > old(m.mishaps))
  {
    hide Inv, Rely, Safe, Lawful, Narrowed;
    ghost var s := m.now;
    m.Interfere();
    RelyEvolves(s, m.now);
    NarrowedTends(s, m.now, l, o.daemon);
    PutOwnerOk(m.now, m.now.disk.pending.value, o);
    DropKeepsNoneActive(m.now, WithOwner(m.now, Some(o)));
    ok := m.Attempt(WithOwner(m.now, Some(o)));
  }

  /** From preflight to the opened gate. */
  method AuthorizeLaunch(m: Machine, paths: Paths)
    returns (phase: Phase, launcher: LazyPagesLauncher?, pending: bool, ok: bool)
    requires m.Valid()
    modifies m
    ensures m.Valid() && old(m.history) <= m.history
    ensures Knows(m.now, launcher, paths, None, pending)
    ensures launcher != null ==> fresh(launcher)
    ensures ok ==>
      && launcher != null && launcher.released && pending && !launcher.gateWriteFd
      && Authorized(m.now, launcher.birth, paths) && m.now.current == Some(launcher.birth)
    ensures launcher != null && launcher.released ==> pending
    ensures launcher != null ==> launcher.birth !in old(m.now.gates)
    // The phase names the step that a failed launch did not get past.
    ensures launcher == null <==> phase == Preflight || phase == Spawn
    ensures phase == Preflight ==> m.now.gates == old(m.now.gates)
    ensures phase == PendingPublication <==> launcher != null && !pending
    ensures phase == GateRelease <==> pending
    ensures old(m.now.disk.pending).Some? ==> phase == Preflight
    ensures m.mishaps >= old(m.mishaps)
    ensures m.mishaps == old(m.mishaps) ==> ok || old(m.now.disk.pending).Some?
  {
    hide Inv, Rely, Safe, Lawful, Narrowed;
    launcher, pending, ok := null, false, false;
    phase := Preflight;
    var refusal := PrepareLaunch(m);
    if refusal.Some? {
      return;
    }
    phase := Spawn;
    launcher := StartGatedLazyPages(m, paths);
    if launcher == null {
      return;
    }
    phase := PendingPublication;
    var controllerStable := m.Answers();
    if !controllerStable {
      return;
    }
    pending := WritePendingLaunch(m, launcher, paths);
    if !pending {
      return;
    }
    phase := GateRelease;
    ok := ReleaseGatedLazyPages(m, launcher, paths);
  }

  /** From the opened gate to the published owner. */
  method AwaitAndPublish(m: Machine, launcher: LazyPagesLauncher, paths: Paths)
    returns (phase: Phase, ready: bool, daemon: Option<Birth>, record: Option<Owner>)
    requires m.Valid() && launcher.Tracks(m.now) && launcher.released && !launcher.gateWriteFd
    requires Authorized(m.now, launcher.birth, paths) && m.now.current == Some(launcher.birth)
    modifies m
    ensures m.Valid() && old(m.history) <= m.history
    ensures Knows(m.now, launcher, paths, daemon, true)
    ensures record.Some? ==>
      && Published(m.now, record.value, launcher.birth)
      && record.value.paths == paths && daemon == Some(record.value.daemon)
      && record.value.daemon in m.now.bound
    ensures m.now.deliveries == old(m.now.deliveries) && m.now.current == old(m.now.current)
    ensures m.mishaps >= old(m.mishaps)
    ensures daemon.None? <==> phase == StatusWait || phase == ParentReap || phase == DaemonBind
    ensures !ready <==> phase == StatusWait
    ensures phase == StatusWait || phase == ParentReap ==> m.mishaps > old(m.mishaps)
    ensures phase == OwnerPublication ==> m.now.disk.pending == Some(Pending(paths, launcher.birth, DaemonBound(daemon.value)))
    ensures phase == DaemonHandoff ==> m.now.disk.owner.None?
    ensures record.Some? ==> phase == OwnerPublication
    ensures m.mishaps == old(m.mishaps) && record.None? ==> daemon.None? && NoneActive(m.now)
  {
    hide Inv, Rely, Safe, Lawful, Narrowed, Tends, NoneActive;
    daemon, record := None, None;
    ghost var s0 := m.now;
    phase := StatusWait;
    ready := ObserveStatusNul(m);
    RelyEvolves(s0, m.now);
    if !ready {
      return;
    }
    phase := ParentReap;
    ghost var s1 := m.now;
    var settled := WaitLauncher(m, launcher);
    RelyEvolves(s1, m.now);
    var zeroExit := m.Answers();
    if !settled || !zeroExit {
      return;
    }
    phase := DaemonBind;
    ghost var s2 := m.now;
    AuthorizedCommand(s2, launcher.birth, paths);
    var found := BindDaemonIdentity(m, paths.pidfile);
    TendsEvolves(s2, m.now);
    if found.None? {
      return;
    }
    daemon := found;
    phase := DaemonHandoff;
    var ok := WriteBoundPending(m, launcher.birth, paths, daemon.value);
    if !ok {
      return;
    }
    phase := OwnerPublication;
    var o := Owner(paths, daemon.value);
    ok := WriteOwner(m, launcher.birth, o);
    if ok {
      record := Some(o);
      OwnerNamesCurrent(m.now, o);
    }
  }

  lemma AuthorizedCommand(s: Sys, l: Birth, paths: Paths)
    requires Inv(s) && Authorized(s, l, paths)
    ensures l in s.commands && s.commands[l] == paths
  {
  }

  /** `None` is a raised launch. A returned record is on disk, its launcher is gone, and the
      pending record is gone too unless removing it failed. */
  method LaunchLazyPagesInternal(m: Machine, paths: Paths)
    returns (record: Option<Owner>, ghost started: LazyPagesLauncher?)
    requires m.Valid()
    modifies m
    // No pipe end stays open, however the launch went.
    ensures started != null ==> fresh(started) && !started.gateWriteFd && !started.statusReadFd
    ensures record.Some? ==> started != null && m.now.current == Some(started.birth)
    ensures m.Valid() && old(m.history) <= m.history
    ensures record.Some? ==>
      && m.now.disk.owner == record && record.value.paths == paths
      && record.value.daemon in m.now.bound
      && m.now.current.Some? && Narrowed(m.now, m.now.current.value, record.value.daemon)
    ensures m.mishaps >= old(m.mishaps)
    // When every step gives an answer: refused for an older intent, or launched, and then either
    // published with the intent removed or dead before it could be bound.
    ensures m.mishaps == old(m.mishaps) && record.Some? ==> m.now.disk.pending.None?
    ensures m.mishaps == old(m.mishaps) && record.None? ==>
      old(m.now.disk.pending).Some?
      || (m.now.current.Some? && m.now.current.value !in old(m.now.gates) && NoneActive(m.now))
  {
    hide Inv, Rely, Safe, Lawful, Narrowed, Tends, NoneActive;
    var phase, launcher, pending, ok := AuthorizeLaunch(m, paths);
    started := launcher;
    var daemon: Option<Birth> := None;
    record := None;
    if ok {
      var ready: bool;
      phase, ready, daemon, record := AwaitAndPublish(m, launcher, paths);
    }
    if record.None? {
      var receipted := FailLaunch(m, launcher, paths, daemon, pending);
      return;
    }
    ghost var s := m.now;
    var cleared := UnlinkPending(m);
    OwnerNamesCurrent(m.now, record.value);
    launcher.statusReadFd := false;
  }

  /** The `except` branch: clean up, write the receipt, and clear artifacts only when both the
      daemon and the launcher are verified gone. */
  method FailLaunch(m: Machine, launcher: LazyPagesLauncher?, paths: Paths, daemon: Option<Birth>, pending: bool)
    returns (receipted: bool)
    requires m.Valid() && Knows(m.now, launcher, paths, daemon, pending)
    modifies m, launcher
    ensures m.Valid() && old(m.history) <= m.history
    ensures launcher != null ==> !launcher.gateWriteFd && !launcher.statusReadFd
    ensures m.now.disk.pending != old(m.now.disk.pending) ==>
      && m.now.disk.pending.None? && daemon.Some? && pending && receipted
      && Quiet(m.now) && m.now.disk.owner.None?
      && Dead(m.now.table, daemon.value) && Dead(m.now.table, launcher.birth)
    ensures if daemon.Some? then SentOnly(old(m.now), m.now, daemon.value)
            else m.now.deliveries == old(m.now.deliveries)
    ensures daemon.None? ==> m.now.current == old(m.now.current) && (old(NoneActive(m.now)) ==> NoneActive(m.now))
    ensures m.mishaps >= old(m.mishaps)
    ensures daemon.Some? && m.mishaps == old(m.mishaps) ==> m.now.disk.pending.None?
  {
    hide Inv, Rely, Safe, Lawful, Narrowed, Tends, NoneActive;
    var cleanup := CleanupFailedLaunch(m, launcher, paths, daemon);
    ghost var s := m.now;
    m.Interfere();
    RelyEvolves(s, m.now);
    QuietStaysQuiet(s, m.now);
    receipted := m.Answers();
    if receipted && cleanup.daemonVerified && cleanup.verified {
      BoundLaunchPidfile(m.now, launcher.birth, paths);
      var cleared := ClearVerifiedDaemonArtifacts(m, paths.pidfile, pending);
    }
  }

  lemma BoundLaunchPidfile(s: Sys, l: Birth, paths: Paths)
    requires Inv(s) && s.current == Some(l)
    requires s.disk.pending.Some? && s.disk.pending.value.launcher == l && s.disk.pending.value.paths == paths
    ensures s.disk.pidfiles.Keys <= {paths.pidfile}
  {
    forall n | n in s.disk.pidfiles ensures n == paths.pidfile {
      assert PidfileOk(s, n);
    }
  }
}
