/** The durable file operations of the lazy-pages protocol, one step each. */
module LazyDisk {
  import opened Options
  import opened Births
  import opened LazyWorld
  import opened LazyMachine

  function WithPending(s: Sys, p: Option<Pending>): Sys {
    s.(disk := s.disk.(pending := p))
  }

  function WithOwner(s: Sys, o: Option<Owner>): Sys {
    s.(disk := s.disk.(owner := o))
  }

  function WithoutSocket(s: Sys): Sys {
    s.(disk := s.disk.(socket := false))
  }

  function WithoutPidfile(s: Sys, n: Name): Sys {
    s.(disk := s.disk.(pidfiles := s.disk.pidfiles - {n}))
  }

  function WithoutLog(s: Sys, n: Name): Sys {
    s.(disk := s.disk.(logs := s.disk.logs - {n}))
  }

  /** CRIU is gone and so is everything a later launch could trip over. */
  ghost predicate Quiet(s: Sys) {
    NoneActive(s) && !s.disk.socket && s.disk.pidfiles == map[]
  }

  // ---------------------------------------------------------------- each step is allowed

  lemma PutPendingOk(s: Sys, p: Pending)
    requires Inv(s) && !Recorded(s)
    requires p.launcher in s.gates && s.gates[p.launcher] != Released
    requires s.commands[p.launcher] == p.paths && p.stage == ReleaseAuthorized
    ensures var t := WithPending(s, Some(p)); Inv(t) && Safe(s, t)
  {
    var t := WithPending(s, Some(p));
    assert forall l :: Active(t, l) <==> Active(s, l);
    assert s.disk.pidfiles == map[];
  }

  lemma BindPendingOk(s: Sys, p: Pending, d: Birth)
    requires Inv(s) && s.disk.pending == Some(p) && s.disk.owner.None?
    requires p.stage == ReleaseAuthorized && Narrowed(s, p.launcher, d)
    ensures var t := WithPending(s, Some(p.(stage := DaemonBound(d)))); Inv(t) && Safe(s, t)
  {
    var t := WithPending(s, Some(p.(stage := DaemonBound(d))));
    assert forall l :: Active(t, l) <==> Active(s, l);
    assert forall n | n in t.disk.pidfiles :: PidfileOk(s, n) && PidfileOk(t, n);
  }

  lemma PutOwnerOk(s: Sys, p: Pending, o: Owner)
    requires Inv(s) && s.disk.pending == Some(p)
    requires p.stage == DaemonBound(o.daemon) && p.paths == o.paths
    ensures var t := WithOwner(s, Some(o)); Inv(t) && Safe(s, t)
  {
    var t := WithOwner(s, Some(o));
    assert forall l :: Active(t, l) <==> Active(s, l);
    assert forall n | n in t.disk.pidfiles :: PidfileOk(s, n) && PidfileOk(t, n);
  }

  lemma DropSocketOk(s: Sys)
    requires Inv(s)
    ensures Inv(WithoutSocket(s)) && Safe(s, WithoutSocket(s))
  {
    var t := WithoutSocket(s);
    assert forall l :: Active(t, l) <==> Active(s, l);
    assert forall n | n in t.disk.pidfiles :: PidfileOk(s, n) && PidfileOk(t, n);
  }

  lemma DropPidfileOk(s: Sys, n: Name)
    requires Inv(s)
    ensures Inv(WithoutPidfile(s, n)) && Safe(s, WithoutPidfile(s, n))
  {
    var t := WithoutPidfile(s, n);
    assert forall l :: Active(t, l) <==> Active(s, l);
    assert forall k | k in t.disk.pidfiles :: PidfileOk(s, k) && PidfileOk(t, k);
    if s.disk.pidfiles == map[] { assert t.disk.pidfiles == map[]; }
  }

  lemma DropLogOk(s: Sys, n: Name)
    requires Inv(s)
    ensures Inv(WithoutLog(s, n)) && Safe(s, WithoutLog(s, n))
  {
    var t := WithoutLog(s, n);
    assert forall l :: Active(t, l) <==> Active(s, l);
    assert forall k | k in t.disk.pidfiles :: PidfileOk(s, k) && PidfileOk(t, k);
  }

  lemma DropOwnerOk(s: Sys)
    requires Inv(s) && (s.disk.pending.Some? || Quiet(s))
    ensures Inv(WithOwner(s, None)) && Safe(s, WithOwner(s, None))
  {
    var t := WithOwner(s, None);
    assert forall l :: Active(t, l) <==> Active(s, l);
    assert forall k | k in t.disk.pidfiles :: PidfileOk(s, k) && PidfileOk(t, k);
  }

  lemma DropPendingOk(s: Sys)
    requires Inv(s) && (s.disk.owner.Some? || Quiet(s))
    ensures Inv(WithPending(s, None)) && Safe(s, WithPending(s, None))
  {
    var t := WithPending(s, None);
    assert forall l :: Active(t, l) <==> Active(s, l);
    assert forall k | k in t.disk.pidfiles :: PidfileOk(s, k) && PidfileOk(t, k);
  }

  /** Once CRIU is gone it stays gone, and nobody else writes its files. */
  lemma QuietStaysQuiet(s: Sys, t: Sys)
    requires Inv(s) && Rely(s, t)
    ensures NoneActive(s) ==> NoneActive(t)
    ensures NoneActive(s) && !s.disk.socket ==> !t.disk.socket
    ensures NoneActive(s) ==> t.disk.pidfiles.Keys <= s.disk.pidfiles.Keys && t.disk.logs <= s.disk.logs
    ensures Quiet(s) ==> Quiet(t)
  {
    forall l | l in t.gates && Active(t, l) ensures Active(s, l) {
      ActiveOnlyShrinks(s, t, l);
    }
  }

  /** With the bound daemon dead, a narrowed launch is over. */
  lemma NarrowedAndDead(s: Sys, l: Birth, d: Birth)
    requires Inv(s) && s.current == Some(l) && Narrowed(s, l, d) && Dead(s.table, d)
    ensures NoneActive(s)
  {
  }

  // ---------------------------------------------------------------- steps

  /** Nothing but the disk changed at the controller's hand. */
  ghost predicate SameLaunches(s: Sys, t: Sys) {
    && Evolves(s.table, t.table)
    && t.gates == s.gates && t.commands == s.commands && t.current == s.current
    && s.bound <= t.bound && s.deliveries <= t.deliveries
  }

  /** durable_unlink of the socket. */
  method UnlinkSocket(m: Machine) returns (ok: bool)
    requires m.Valid() && NoneActive(m.now)
    modifies m
    ensures m.Valid() && old(m.history) <= m.history && NoneActive(m.now)
    ensures SameLaunches(old(m.now), m.now) && m.now.deliveries == old(m.now.deliveries)
    ensures m.now.disk.pending == old(m.now.disk.pending) && m.now.disk.owner == old(m.now.disk.owner)
    ensures m.now.disk.pidfiles.Keys <= old(m.now.disk.pidfiles.Keys)
    ensures m.now.disk.logs <= old(m.now.disk.logs)
    ensures ok ==> !m.now.disk.socket
    ensures m.mishaps >= old(m.mishaps) && (!ok ==> m.mishaps > old(m.mishaps))
  {
    hide Inv, Rely, Safe, Lawful, NoneActive, Evolves;
    ghost var s := m.now;
    m.Interfere();
    RelyEvolves(s, m.now); QuietStaysQuiet(s, m.now);
    DropSocketOk(m.now);
    DropKeepsNoneActive(m.now, WithoutSocket(m.now));
    ok := m.Attempt(WithoutSocket(m.now));
  }

  method UnlinkPidfile(m: Machine, n: Name) returns (ok: bool)
    requires m.Valid() && NoneActive(m.now) && !m.now.disk.socket
    modifies m
    ensures m.Valid() && old(m.history) <= m.history && NoneActive(m.now) && !m.now.disk.socket
    ensures SameLaunches(old(m.now), m.now) && m.now.deliveries == old(m.now.deliveries)
    ensures m.now.disk.pending == old(m.now.disk.pending) && m.now.disk.owner == old(m.now.disk.owner)
    ensures m.now.disk.pidfiles.Keys <= old(m.now.disk.pidfiles.Keys)
    ensures m.now.disk.logs <= old(m.now.disk.logs)
    ensures ok ==> n !in m.now.disk.pidfiles
    ensures m.mishaps >= old(m.mishaps) && (!ok ==> m.mishaps > old(m.mishaps))
  {
    hide Inv, Rely, Safe, Lawful, NoneActive, Evolves;
    ghost var s := m.now;
    m.Interfere();
    RelyEvolves(s, m.now); QuietStaysQuiet(s, m.now);
    DropPidfileOk(m.now, n);
    DropKeepsNoneActive(m.now, WithoutPidfile(m.now, n));
    ok := m.Attempt(WithoutPidfile(m.now, n));
  }

  method UnlinkLog(m: Machine, n: Name) returns (ok: bool)
    requires m.Valid() && NoneActive(m.now) && !m.now.disk.socket
    modifies m
    ensures m.Valid() && old(m.history) <= m.history && NoneActive(m.now) && !m.now.disk.socket
    ensures SameLaunches(old(m.now), m.now) && m.now.deliveries == old(m.now.deliveries)
    ensures m.now.disk.pending == old(m.now.disk.pending) && m.now.disk.owner == old(m.now.disk.owner)
    ensures m.now.disk.pidfiles.Keys <= old(m.now.disk.pidfiles.Keys)
    ensures ok ==> n !in m.now.disk.logs
    ensures m.mishaps >= old(m.mishaps) && (!ok ==> m.mishaps > old(m.mishaps))
  {
    hide Inv, Rely, Safe, Lawful, NoneActive, Evolves;
    ghost var s := m.now;
    m.Interfere();
    RelyEvolves(s, m.now); QuietStaysQuiet(s, m.now);
    DropLogOk(m.now, n);
    DropKeepsNoneActive(m.now, WithoutLog(m.now, n));
    ok := m.Attempt(WithoutLog(m.now, n));
  }

  /** durable_unlink of the owner record: it may go last, or while pending still stands. */
  method UnlinkOwner(m: Machine) returns (ok: bool)
    requires m.Valid() && NoneActive(m.now) && !m.now.disk.socket
    requires m.now.disk.pending.Some? || Quiet(m.now)
    modifies m
    ensures m.Valid() && old(m.history) <= m.history && NoneActive(m.now) && !m.now.disk.socket
    ensures SameLaunches(old(m.now), m.now) && m.now.deliveries == old(m.now.deliveries)
    ensures m.now.disk.pending == old(m.now.disk.pending)
    ensures m.now.disk.pidfiles.Keys <= old(m.now.disk.pidfiles.Keys)
    ensures m.now.disk.logs <= old(m.now.disk.logs)
    ensures m.now.disk.owner == None || (!ok && m.now.disk.owner == old(m.now.disk.owner))
    ensures m.mishaps >= old(m.mishaps) && (!ok ==> m.mishaps > old(m.mishaps))
  {
    hide Inv, Rely, Safe, Lawful, NoneActive, Evolves;
    ghost var s := m.now;
    m.Interfere();
    RelyEvolves(s, m.now); QuietStaysQuiet(s, m.now);
    DropOwnerOk(m.now);
    DropKeepsNoneActive(m.now, WithOwner(m.now, None));
    ok := m.Attempt(WithOwner(m.now, None));
  }

  /** durable_unlink of the pending record: only beside an owner, or as the very last file. */
  method UnlinkPending(m: Machine) returns (ok: bool)
    requires m.Valid() && (m.now.disk.owner.Some? || Quiet(m.now))
    modifies m
    ensures m.Valid() && old(m.history) <= m.history && (old(Quiet(m.now)) ==> Quiet(m.now))
    ensures SameLaunches(old(m.now), m.now) && m.now.deliveries == old(m.now.deliveries)
    ensures m.now.disk.owner == old(m.now.disk.owner)
    ensures old(NoneActive(m.now)) ==> m.now.disk.logs <= old(m.now.disk.logs)
    ensures m.now.disk.pending == None || (!ok && m.now.disk.pending == old(m.now.disk.pending))
    ensures m.mishaps >= old(m.mishaps) && (!ok ==> m.mishaps > old(m.mishaps))
  {
    hide Inv, Rely, Safe, Lawful, NoneActive, Evolves;
    ghost var s := m.now;
    m.Interfere();
    RelyEvolves(s, m.now); QuietStaysQuiet(s, m.now);
    DropPendingOk(m.now);
    DropKeepsNoneActive(m.now, WithPending(m.now, None));
    ok := m.Attempt(WithPending(m.now, None));
  }

  /** Activity is a matter of processes and gates, not of files. */
  lemma DropKeepsNoneActive(s: Sys, t: Sys)
    requires t == s.(disk := t.disk)
    ensures NoneActive(s) <==> NoneActive(t)
    ensures Inv(s) ==> SameLaunches(s, t)
    ensures forall l, d :: Narrowed(s, l, d) <==> Narrowed(t, l, d)
  {
    assert forall l :: Active(t, l) <==> Active(s, l);
  }
}
