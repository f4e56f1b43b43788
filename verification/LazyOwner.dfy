/** Binding one daemon birth, judging whether it is still there, and terminating it. */
module LazyOwner {
  import opened Options
  import opened Births
  import opened LazyWorld
  import opened LazyMachine
  import opened OwnedSignal

  datatype Liveness = Gone | Unavailable | Replaced | Exact

  predicate Over(v: Liveness) {
    v == Gone || v == Replaced
  }

  /** The report of a termination. `status` is what callers print; only `verified` is a claim. */
  datatype CleanupStatus = Quiescent | Survivors | Unverified
  datatype Cleanup = Cleanup(status: CleanupStatus, verified: bool)

  const UNVERIFIED := Cleanup(Unverified, false)
  const VERIFIED := Cleanup(Quiescent, true)

  /** The signals a termination may send: TERM, then KILL after the whole grace period, both to that
      one daemon. */
  predicate SignalsTo(sent: seq<Delivery>, daemon: Birth) {
    && |sent| <= 2
    && (|sent| >= 1 ==> sent[0].target == daemon && sent[0].signal == SigTerm)
    && (|sent| == 2 ==> sent[1].target == daemon && sent[1].signal == SigKill && sent[1].at >= sent[0].at + TERM_GRACE)
  }

  ghost predicate SentOnly(s: Sys, t: Sys, daemon: Birth) {
    s.deliveries <= t.deliveries && SignalsTo(t.deliveries[|s.deliveries|..], daemon)
  }

  /** Three separate reads of `/proc`; the identity read is compared with the ticks read. */
  method DaemonLiveness(m: Machine, daemon: Birth) returns (v: Liveness)
    requires m.Valid() && daemon in m.now.table.born
    modifies m
    ensures m.Valid() && old(m.history) <= m.history && Rely(old(m.now), m.now)
    ensures daemon in m.now.table.born
    ensures Over(v) ==> Dead(m.now.table, daemon)
    ensures v == Exact ==> Alive(m.now.table, daemon)
    ensures m.mishaps >= old(m.mishaps) && (v == Unavailable ==> m.mishaps > old(m.mishaps))
  {
    hide Inv, Rely, Safe, Tends, Lawful, NoReuse;
    ghost var s0, before := m.now, m.mishaps;
    var alive := m.PidAlive(daemon.pid);
    RelyEvolves(s0, m.now);
    if !alive {
      return Gone;
    }
    ghost var s1 := m.now;
    var ticks := m.StartTicks(daemon.pid);
    RelyEvolves(s1, m.now);
    RelyTransitive(s0, s1, m.now);
    ghost var s2 := m.now;
    var identity := m.StartTicks(daemon.pid);
    RelyEvolves(s2, m.now);
    RelyTransitive(s0, s2, m.now);
    if m.mishaps == before {
      Steady(s2, m.now, daemon.pid);
    }
    if ticks.None? || identity.None? || identity != ticks {
      return Unavailable;
    }
    if ticks.value != daemon.ticks {
      return Replaced;
    }
    return Exact;
  }

  /** Poll until the bound birth is seen gone or the deadline passes. */
  method WaitForQuiescence(m: Machine, daemon: Birth, timeout: nat) returns (quiescent: bool)
    requires m.Valid() && daemon in m.now.table.born
    modifies m
    ensures m.Valid() && old(m.history) <= m.history && Rely(old(m.now), m.now)
    ensures quiescent ==> Dead(m.now.table, daemon)
    ensures !quiescent ==> m.now.clock >= old(m.now.clock) + timeout
    ensures m.mishaps >= old(m.mishaps) && (!quiescent ==> m.mishaps > old(m.mishaps))
    // Giving up counts once; if nothing else went wrong the last look still found the birth.
    ensures !quiescent && m.mishaps == old(m.mishaps) + 1 ==> Alive(m.now.table, daemon)
  {
    hide Inv, Rely, Safe, Tends, Lawful;
    ghost var start := m.now;
    RelyReflexive(start);
    var deadline := m.now.clock + timeout;
    while true
      invariant m.Valid() && old(m.history) <= m.history && Rely(start, m.now)
      invariant daemon in m.now.table.born && m.mishaps >= old(m.mishaps)
      decreases deadline - m.now.clock
    {
      ghost var s := m.now;
      var v := DaemonLiveness(m, daemon);
      RelyTransitive(start, s, m.now);
      RelyEvolves(s, m.now);
      if Over(v) {
        return true;
      }
      if m.now.clock >= deadline {
        m.Mishap();
        return false;
      }
      ghost var polled := m.now;
      m.Sleep();
      RelyEvolves(polled, m.now);
      RelyTransitive(start, polled, m.now);
    }
  }

  /** Send one signal through the helper. `None` means it was delivered; otherwise the report
      that ends the termination: after a helper that found no such process, or another one under
      the pid, the parent rechecks the birth itself. */
  method SignalAndClassify(m: Machine, daemon: Birth, signal: Signal)
    returns (ended: Option<Cleanup>, ghost delivered: bool)
    requires m.Valid() && daemon in m.now.bound && (signal == SigKill ==> Overdue(m.now, daemon))
    modifies m
    ensures m.Valid() && old(m.history) <= m.history && Tends(old(m.now), m.now)
    ensures daemon in m.now.bound
    ensures DeliveredOnly(old(m.now), m.now, daemon, signal, delivered)
    ensures ended.None? ==> delivered
    ensures ended.Some? && ended.value.verified ==> Dead(m.now.table, daemon)
    ensures ended.Some? ==> (ended.value.verified <==> ended.value.status == Quiescent)
    ensures m.mishaps >= old(m.mishaps)
    ensures ended.Some? && !ended.value.verified ==> m.mishaps > old(m.mishaps)
  {
    hide Inv, Rely, Safe, Tends, Lawful, Alive, Dead, Evolves;
    ghost var s0 := m.now;
    var status: SignalStatus;
    ghost var reported: bool;
    status, delivered, reported := PrivilegedPidfdSignal(m, daemon.pid, daemon.ticks, signal);
    ghost var s1 := m.now;
    TendsEvolves(s0, s1);
    if status == AlreadyQuiescent || status == IdentityMismatch {
      BoundIsBorn(s1, daemon);
      var v := DaemonLiveness(m, daemon);
      RelyEvolves(s1, m.now);
      TendsTransitive(s0, s1, m.now);
      DeadIsNotAlive(s1.table, m.now.table, daemon);
      return Some(if Over(v) then VERIFIED else UNVERIFIED), delivered;
    }
    ended := if status != Signalled then Some(UNVERIFIED) else None;
  }

  /** Terminate only the bound birth, and claim quiescence only once that birth is gone. */
  method TerminateOwnedDaemon(m: Machine, daemon: Birth) returns (c: Cleanup)
    requires m.Valid() && daemon in m.now.bound
    modifies m
    ensures m.Valid() && old(m.history) <= m.history && Tends(old(m.now), m.now)
    ensures SentOnly(old(m.now), m.now, daemon)
    ensures c.verified ==> Dead(m.now.table, daemon)
    ensures c.verified <==> c.status == Quiescent
    ensures m.mishaps >= old(m.mishaps) && (!c.verified ==> m.mishaps > old(m.mishaps))
    // A KILL takes a wait that ran out, or some other step without an answer.
    ensures m.mishaps == old(m.mishaps) ==> |m.now.deliveries| <= |old(m.now.deliveries)| + 1
  {
    hide Inv, Rely, Safe, Tends, Lawful, Alive, Dead, Evolves;
    BoundIsBorn(m.now, daemon);
    ghost var s0 := m.now;
    var initial := DaemonLiveness(m, daemon);
    ghost var s1 := m.now;
    RelyEvolves(s0, s1);
    if Over(initial) {
      return VERIFIED;
    }
    if initial != Exact {
      return UNVERIFIED;
    }
    var term, termDelivered := SignalAndClassify(m, daemon, SigTerm);
    ghost var s2 := m.now;
    TendsTransitive(s0, s1, s2);
    if term.Some? {
      return term.value;
    }
    BoundIsBorn(s2, daemon);
    var quiescent := WaitForQuiescence(m, daemon, TERM_GRACE);
    ghost var s3 := m.now;
    RelyEvolves(s2, s3);
    TendsTransitive(s0, s2, s3);
    TermSent(s0, s2, s3, daemon);
    if !quiescent {
      ghost var killDelivered: bool;
      quiescent, c, killDelivered := KillAndWait(m, daemon);
      TendsTransitive(s0, s3, m.now);
      KillSent(s0, s3, m.now, daemon, killDelivered);
      if !quiescent {
        return;
      }
    }
    c := VERIFIED;
  }

  /** After TERM and a wait of the whole grace period a KILL is due, and no earlier. */
  lemma TermSent(s0: Sys, s2: Sys, s3: Sys, daemon: Birth)
    requires DeliveredOnly(s0, s2, daemon, SigTerm, true) && s3.deliveries == s2.deliveries
    ensures SentOnly(s0, s3, daemon) && |s3.deliveries| == |s0.deliveries| + 1
    ensures s3.clock >= s2.clock + TERM_GRACE ==> Overdue(s3, daemon) && s3.deliveries[|s0.deliveries|].at + TERM_GRACE <= s3.clock
  {
    assert s3.deliveries[|s0.deliveries|..] == [s3.deliveries[|s0.deliveries|]];
    assert s3.deliveries[|s0.deliveries|] in s3.deliveries;
  }

  lemma KillSent(s0: Sys, s3: Sys, t: Sys, daemon: Birth, delivered: bool)
    requires SentOnly(s0, s3, daemon) && |s3.deliveries| == |s0.deliveries| + 1
    requires s3.deliveries[|s0.deliveries|].at + TERM_GRACE <= s3.clock
    requires DeliveredOnly(s3, t, daemon, SigKill, delivered)
    ensures SentOnly(s0, t, daemon)
  {
  }

  /** The escalation to KILL after TERM left the birth in place. */
  method KillAndWait(m: Machine, daemon: Birth)
    returns (quiescent: bool, c: Cleanup, ghost delivered: bool)
    requires m.Valid() && daemon in m.now.bound && Overdue(m.now, daemon)
    modifies m
    ensures m.Valid() && old(m.history) <= m.history && Tends(old(m.now), m.now)
    ensures DeliveredOnly(old(m.now), m.now, daemon, SigKill, delivered)
    ensures c.verified ==> Dead(m.now.table, daemon)
    ensures c.verified <==> c.status == Quiescent
    ensures quiescent ==> c.verified
    ensures m.mishaps >= old(m.mishaps) && (!c.verified ==> m.mishaps > old(m.mishaps))
  {
    hide Inv, Rely, Safe, Tends, Lawful, Alive, Dead, Evolves;
    ghost var s0 := m.now;
    var kill: Option<Cleanup>;
    kill, delivered := SignalAndClassify(m, daemon, SigKill);
    ghost var s1 := m.now;
    if kill.Some? {
      return false, kill.value, delivered;
    }
    BoundIsBorn(s1, daemon);
    quiescent := WaitForQuiescence(m, daemon, TERM_GRACE);
    RelyEvolves(s1, m.now);
    TendsTransitive(s0, s1, m.now);
    c := if quiescent then VERIFIED else Cleanup(Survivors, false);
  }

  /** Two reads of the start ticks and of the identity. `None` when any is missing or differs;
      `at` is the state the first read saw. */
  method ReadIdentityTwice(m: Machine, pid: nat) returns (ticks: Option<nat>, ghost at: Sys)
    requires m.Valid()
    modifies m
    ensures m.Valid() && old(m.history) <= m.history
    ensures Inv(at) && Rely(old(m.now), at) && Rely(at, m.now)
    ensures ticks.Some? ==> Alive(at.table, Birth(pid, ticks.value)) && Alive(m.now.table, Birth(pid, ticks.value))
    ensures m.mishaps >= old(m.mishaps) && (ticks.None? ==> m.mishaps > old(m.mishaps))
  {
    hide Inv, Rely, Safe, Tends, Lawful, Dead, Evolves, NoReuse;
    ghost var before := m.mishaps;
    ticks := m.StartTicks(pid);
    at := m.now;
    var firstIdentity := m.StartTicks(pid);
    ghost var s1 := m.now;
    var secondTicks := m.StartTicks(pid);
    ghost var s2 := m.now;
    RelyTransitive(at, s1, s2);
    var secondIdentity := m.StartTicks(pid);
    RelyTransitive(at, s2, m.now);
    if m.mishaps == before {
      Steady(at, s1, pid);
      Steady(s1, s2, pid);
      Steady(s2, m.now, pid);
    }
    if ticks.None? || firstIdentity.None? || ticks != secondTicks
      || firstIdentity != secondIdentity || firstIdentity != ticks {
      ticks := None;
    }
  }

  /** Read the pidfile, then the identity twice, then the pidfile again; any churn seen between
      the reads refuses the binding. `None` stands for every raised error. */
  method BindDaemonIdentity(m: Machine, pidfile: Name) returns (daemon: Option<Birth>)
    requires m.Valid()
    modifies m
    ensures m.Valid() && old(m.history) <= m.history && Tends(old(m.now), m.now)
    ensures m.now.deliveries == old(m.now.deliveries)
    ensures daemon.Some? ==> daemon.value in m.now.bound
    ensures daemon.Some? && LaunchedWith(old(m.now), pidfile) ==>
              Narrowed(m.now, old(m.now).current.value, daemon.value)
    ensures m.mishaps >= old(m.mishaps)
    ensures daemon.None? && m.mishaps == old(m.mishaps) && LaunchedWith(old(m.now), pidfile) ==> NoneActive(m.now)
  {
    hide Inv, Rely, Safe, Tends, Lawful, Alive, Dead, Evolves, Narrowed, LaunchedWith, NoneActive, NoReuse;
    ghost var s0, before := m.now, m.mishaps;
    var pid := m.ReadPidfile(pidfile);
    ghost var s1 := m.now;
    RelyEvolves(s0, s1);
    if pid.None? {
      return None;
    }
    var alive := m.PidAlive(pid.value);
    ghost var s2 := m.now;
    RelyTransitive(s0, s1, s2);
    RelyEvolves(s0, s2);
    if !alive {
      if LaunchedWith(s0, pidfile) {
        GoneIsInactive(s0, s1, s2, pidfile, pid.value);
      }
      return None;
    }
    ghost var at: Sys;
    var ticks: Option<nat>;
    ticks, at := ReadIdentityTwice(m, pid.value);
    ghost var s3 := m.now;
    var finalPid := m.ReadPidfile(pidfile);
    ghost var s4 := m.now;
    RelyTransitive(at, s3, s4);
    RelyTransitive(s1, s2, at);
    RelyTransitive(s0, s2, at);
    RelyTransitive(s0, at, s4);
    RelyEvolves(s0, s4);
    if LaunchedWith(s0, pidfile) && finalPid.Some? {
      RelyTransitive(s1, at, s4);
      PidfileIsFixed(s0, s1, s4, pidfile);
    }
    if ticks.None? || finalPid != pid {
      return None;
    }
    var b := Birth(pid.value, ticks.value);
    BindKeepsInv(at, s4, b);
    if LaunchedWith(s0, pidfile) {
      BindingNarrows(s0, s1, at, s4, pidfile, b);
    }
    m.Move(m.now.(bound := m.now.bound + {b}));
    TendsTransitive(s0, s4, m.now);
    daemon := Some(b);
  }

  /** The last released launcher is gone and its command names this pidfile. */
  ghost predicate LaunchedWith(s: Sys, pidfile: Name) {
    && s.current.Some? && Dead(s.table, s.current.value)
    && s.current.value in s.commands && s.commands[s.current.value].pidfile == pidfile
  }

  // ---------------------------------------------------------------- lemmas

  /** With no pid given out again, two reads of a pid that both succeed agree. */
  lemma Steady(s: Sys, t: Sys, pid: nat)
    requires Inv(s) && Rely(s, t) && NoReuse(s.table, t.table)
    requires pid in s.table.live && pid in t.table.live
    ensures s.table.live[pid] == t.table.live[pid]
  {
    SameOccupant(s.table, t.table, pid);
  }

  lemma DeadIsNotAlive(t: Table, u: Table, b: Birth)
    requires Evolves(t, u)
    ensures Dead(t, b) ==> !Alive(u, b)
  {
  }

  /** A launch's pidfile can name no other pid than its daemon's. */
  lemma PidfileIsFixed(s: Sys, t: Sys, u: Sys, pidfile: Name)
    requires Inv(s) && Inv(t) && Inv(u) && Rely(s, t) && Rely(s, u)
    requires LaunchedWith(s, pidfile) && pidfile in t.disk.pidfiles && pidfile in u.disk.pidfiles && Rely(t, u)
    ensures t.disk.pidfiles[pidfile] == u.disk.pidfiles[pidfile]
  {
    assert PidfileOk(t, pidfile) && PidfileOk(u, pidfile);
  }

  lemma GoneIsInactive(s: Sys, t: Sys, u: Sys, pidfile: Name, pid: nat)
    requires Inv(s) && Inv(t) && Inv(u) && Rely(s, t) && Rely(t, u) && LaunchedWith(s, pidfile)
    requires pidfile in t.disk.pidfiles && t.disk.pidfiles[pidfile] == pid && pid !in u.table.live
    ensures NoneActive(u)
  {
    assert PidfileOk(t, pidfile);
    var l := s.current.value;
    assert Dead(u.table, l);
  }

  lemma BoundIsBorn(s: Sys, b: Birth)
    requires Inv(s) && b in s.bound
    ensures b in s.table.born
  {
  }

  lemma TendsEvolves(s: Sys, t: Sys)
    requires Tends(s, t)
    ensures Evolves(s.table, t.table) && s.bound <= t.bound && s.deliveries <= t.deliveries
    ensures t.gates == s.gates && t.commands == s.commands && t.current == s.current
    ensures t.disk.pending == s.disk.pending && t.disk.owner == s.disk.owner
  {
  }

  lemma BindKeepsInv(seen: Sys, s: Sys, b: Birth)
    requires Inv(seen) && Inv(s) && Rely(seen, s) && Alive(seen.table, b)
    ensures var t := s.(bound := s.bound + {b});
            Inv(t) && Safe(s, t) && Tends(s, t) && t.deliveries == s.deliveries
  {
    var t := s.(bound := s.bound + {b});
    assert forall l :: Active(t, l) <==> Active(s, l);
    assert t.(bound := s.bound) == s;
  }

  /** The pidfile named the daemon's pid while the daemon existed, so a live process under that
      pid is the daemon unless the daemon is dead. */
  lemma BindingNarrows(atStart: Sys, atPidfile: Sys, atTicks: Sys, end: Sys, pidfile: Name, b: Birth)
    requires Inv(atStart) && Inv(atPidfile) && Inv(atTicks) && Inv(end)
    requires Rely(atStart, atPidfile) && Rely(atPidfile, atTicks) && Rely(atTicks, end)
    requires LaunchedWith(atStart, pidfile)
    requires pidfile in atPidfile.disk.pidfiles && atPidfile.disk.pidfiles[pidfile] == b.pid
    requires Alive(atTicks.table, b)
    ensures atStart.current.Some? && Narrowed(end.(bound := end.bound + {b}), atStart.current.value, b)
  {
    var l := atStart.current.value;
    var d := atPidfile.daemons[l];
    assert d.pid == b.pid;
    if Alive(end.table, d) {
      assert Alive(atTicks.table, d);
    }
  }
}
