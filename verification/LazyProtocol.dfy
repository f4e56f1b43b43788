/** The gated launcher: a child that runs CRIU only if the one release byte arrives. */
module LazyProtocol {
  import opened Options
  import opened Births
  import opened LazyWorld
  import opened LazyMachine

  class LazyPagesLauncher {
    const birth: Birth
    var gateWriteFd: bool    // the write end of the gate pipe is still open
    var statusReadFd: bool
    var released: bool

    constructor (birth: Birth)
      ensures this.birth == birth && gateWriteFd && statusReadFd && !released
    {
      this.birth := birth;
      gateWriteFd, statusReadFd, released := true, true, false;
    }

    /** The controller's view of its gate agrees with the pipe. `released` may lag behind: an
        interrupt can fall between writing the byte and noting it. */
    ghost predicate Tracks(s: Sys)
      reads this
    {
      && birth in s.gates
      && (gateWriteFd <==> s.gates[birth] == Waiting)
      && (released ==> s.gates[birth] == Released)
    }
  }

  /** A new launcher process with a closed gate. */
  function Spawned(s: Sys, l: Birth, paths: Paths): Sys {
    s.(table := Enter(s.table, l), gates := s.gates[l := Waiting], commands := s.commands[l := paths])
  }

  function GateSet(s: Sys, l: Birth, g: Gate): Sys {
    s.(gates := s.gates[l := g])
  }

  /** The release byte is in the pipe. */
  function Opened(s: Sys, l: Birth): Sys {
    s.(gates := s.gates[l := Released], current := Some(l))
  }

  lemma SpawnOk(s: Sys, l: Birth, paths: Paths)
    requires Inv(s) && l.pid !in s.table.live && l !in s.table.born
    ensures var t := Spawned(s, l, paths);
            Inv(t) && Safe(s, t) && (NoneActive(s) ==> NoneActive(t))
  {
    var t := Spawned(s, l, paths);
    assert l !in s.gates;
    assert forall k :: IsReleased(t, k) <==> IsReleased(s, k);
    assert forall b | b in s.table.born :: Alive(t.table, b) <==> Alive(s.table, b);
    assert forall k :: Active(t, k) <==> Active(s, k);
    SpawnKeepsRecords(s, t, l, paths);
  }

  lemma SpawnKeepsRecords(s: Sys, t: Sys, l: Birth, paths: Paths)
    requires Inv(s) && l.pid !in s.table.live && l !in s.table.born && t == Spawned(s, l, paths)
    requires forall k :: Active(t, k) <==> Active(s, k)
    ensures PendingOk(t) && OwnerOk(t) && AuthorityOk(t)
  {
    assert NoneActive(t) <==> NoneActive(s);
    assert forall k, d | Narrowed(s, k, d) :: Narrowed(t, k, d);
    assert forall n | n in t.disk.pidfiles :: PidfileOk(s, n) && PidfileOk(t, n);
  }

  lemma CloseOk(s: Sys, l: Birth)
    requires Inv(s) && l in s.gates && s.gates[l] == Waiting
    ensures var t := GateSet(s, l, Closed); Inv(t) && Safe(s, t) && (NoneActive(s) ==> NoneActive(t))
  {
    var t := GateSet(s, l, Closed);
    assert forall k :: IsReleased(t, k) <==> IsReleased(s, k);
    assert forall k :: Active(t, k) <==> Active(s, k);
    assert forall k | k in t.disk.pidfiles :: PidfileOk(s, k) && PidfileOk(t, k);
  }

  /** The gate opens only under a durable pending record naming its launcher. */
  lemma OpenOk(s: Sys, l: Birth)
    requires Inv(s) && l in s.gates && s.gates[l] == Waiting
    requires s.disk.pending.Some? && s.disk.pending.value.launcher == l
    ensures Inv(Opened(s, l)) && Safe(s, Opened(s, l))
  {
    var t := Opened(s, l);
    assert forall k | k != l :: Active(t, k) <==> Active(s, k);
  }

  /** What a launch still to be released has on disk. */
  ghost predicate Authorized(s: Sys, l: Birth, paths: Paths) {
    && s.disk.pending == Some(Pending(paths, l, ReleaseAuthorized))
    && s.disk.owner.None?
  }

  lemma NewLauncher(s: Sys, l: Birth)
    requires Inv(s) && l !in s.table.born
    ensures l !in s.gates
  {
  }

  method StartGatedLazyPages(m: Machine, paths: Paths) returns (launcher: LazyPagesLauncher?)
    requires m.Valid() && !Recorded(m.now)
    modifies m
    ensures m.Valid() && old(m.history) <= m.history && !Recorded(m.now)
    ensures m.now.deliveries == old(m.now.deliveries)
    ensures launcher != null ==>
      && fresh(launcher) && launcher.Tracks(m.now) && launcher.gateWriteFd && !launcher.released
      && launcher.birth in m.now.commands && m.now.commands[launcher.birth] == paths
      && launcher.birth !in old(m.now.gates)
    // A launcher that is given up on has its gate closed.
    ensures forall l | l in m.now.gates && l !in old(m.now.gates) :: m.now.gates[l] == Closed || (launcher != null && l == launcher.birth)
    ensures m.now.current == old(m.now.current)
    ensures m.mishaps >= old(m.mishaps) && (launcher == null ==> m.mishaps > old(m.mishaps))
  {
    hide Inv, Rely, Safe, Lawful;
    ghost var s := m.now;
    m.Interfere();
    RelyEvolves(s, m.now);
    var popen := m.Answers();
    if !popen {
      return null;
    }
    FreshBirthExists(m.now.table);
    var child: Birth :| child.pid !in m.now.table.live && child !in m.now.table.born;
    SpawnOk(m.now, child, paths);
    NewLauncher(m.now, child);
    m.Move(Spawned(m.now, child, paths));
    // The child has not been reaped, so its own entry answers the identity reads or none does.
    var identityStable := m.Answers();
    if !identityStable {
      CloseOk(m.now, child);
      m.Move(GateSet(m.now, child, Closed));
      return null;
    }
    launcher := new LazyPagesLauncher(child);
  }

  /** Write the byte, note it, and close the write end whatever happens. */
  method ReleaseGatedLazyPages(m: Machine, launcher: LazyPagesLauncher, ghost paths: Paths)
    returns (ok: bool)
    requires m.Valid() && launcher.Tracks(m.now) && Authorized(m.now, launcher.birth, paths)
    modifies m, launcher
    ensures m.Valid() && old(m.history) <= m.history
    ensures launcher.Tracks(m.now) && !launcher.gateWriteFd
    ensures Authorized(m.now, launcher.birth, paths)
    ensures m.now.deliveries == old(m.now.deliveries)
    ensures ok ==> launcher.released && m.now.current == Some(launcher.birth)
    ensures m.mishaps >= old(m.mishaps)
    ensures !ok && old(launcher.gateWriteFd) ==> m.mishaps > old(m.mishaps)
  {
    hide Inv, Rely, Safe, Lawful;
    ghost var s := m.now;
    if !launcher.gateWriteFd {
      return false;
    }
    m.Interfere();
    RelyEvolves(s, m.now);
    var wrote := m.Answers();
    if wrote {
      OpenOk(m.now, launcher.birth);
      m.Move(Opened(m.now, launcher.birth));
      // An interrupt may come between the write and the note of it.
      launcher.released := m.Answers();
    } else {
      CloseOk(m.now, launcher.birth);
      m.Move(GateSet(m.now, launcher.birth, Closed));
    }
    launcher.gateWriteFd := false;
    ok := wrote && launcher.released;
  }

  method CloseGate(m: Machine, launcher: LazyPagesLauncher)
    requires m.Valid() && launcher.Tracks(m.now)
    modifies m, launcher
    ensures m.Valid() && old(m.history) <= m.history
    ensures launcher.Tracks(m.now) && !launcher.gateWriteFd
    ensures launcher.released == old(launcher.released) && launcher.statusReadFd == old(launcher.statusReadFd)
    ensures m.now == old(m.now) || m.now == GateSet(old(m.now), launcher.birth, Closed)
    ensures !old(launcher.gateWriteFd) ==> m.now == old(m.now)
    ensures old(NoneActive(m.now)) ==> NoneActive(m.now)
    ensures m.mishaps == old(m.mishaps)
  {
    if launcher.gateWriteFd {
      CloseOk(m.now, launcher.birth);
      m.Move(GateSet(m.now, launcher.birth, Closed));
      launcher.gateWriteFd := false;
    }
  }

  /** CRIU's one ready byte; any other outcome, or the deadline, raises. */
  method ObserveStatusNul(m: Machine) returns (ready: bool)
    requires m.Valid()
    modifies m
    ensures m.Valid() && old(m.history) <= m.history && Rely(old(m.now), m.now)
    ensures m.mishaps >= old(m.mishaps) && (!ready ==> m.mishaps > old(m.mishaps))
  {
    m.Interfere();
    ready := m.Answers();
  }

  /** Bounded wait for the launcher: true once it has exited and been reaped. */
  method WaitLauncher(m: Machine, launcher: LazyPagesLauncher) returns (settled: bool)
    requires m.Valid() && launcher.Tracks(m.now)
    modifies m
    ensures m.Valid() && old(m.history) <= m.history && Rely(old(m.now), m.now)
    ensures settled ==> Dead(m.now.table, launcher.birth)
    ensures m.mishaps >= old(m.mishaps) && (!settled ==> m.mishaps > old(m.mishaps))
  {
    m.Interfere();
    settled := !Alive(m.now.table, launcher.birth);
    if !settled {
      m.Mishap();
    }
  }
}
