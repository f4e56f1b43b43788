/** The state a lazy-pages controller shares with the kernel and with CRIU: the process table,
    the gates of the launchers it started, and the files of one image directory. */
module LazyWorld {
  import opened Options
  import opened Births

  /** A file name inside the image directory. */
  type Name = nat

  /** The artifact paths of one launch; the socket path is the same for every launch. */
  datatype Paths = Paths(pidfile: Name, log: Name)

  /** The launcher's gate pipe: `Released` once the one release byte is in the pipe, `Closed`
      when the write end is gone without it (the launcher then exits without running CRIU). */
  datatype Gate = Waiting | Released | Closed

  datatype Stage = ReleaseAuthorized | DaemonBound(daemon: Birth)

  /** lazy-pages-launch.json */
  datatype Pending = Pending(paths: Paths, launcher: Birth, stage: Stage)

  /** lazy-pages-owner.json */
  datatype Owner = Owner(paths: Paths, daemon: Birth)

  datatype Disk = Disk(
    pending: Option<Pending>,
    owner: Option<Owner>,
    socket: bool,
    pidfiles: map<Name, nat>,
    logs: set<Name>)

  datatype Signal = SigTerm | SigKill

  /** A signal that reached a process, and when. */
  datatype Delivery = Delivery(target: Birth, signal: Signal, at: nat)

  /** How long a daemon has to go after TERM, in milliseconds. */
  const TERM_GRACE := 1000

  datatype Sys = Sys(
    table: Table,
    gates: map<Birth, Gate>,       // every launcher ever started
    commands: map<Birth, Paths>,   // the paths on each launcher's CRIU command line
    daemons: map<Birth, Birth>,    // the daemon a released launcher forked, if it has
    current: Option<Birth>,        // the launcher whose gate opened last
    bound: set<Birth>,             // identities some controller has bound
    disk: Disk,
    deliveries: seq<Delivery>,
    clock: nat)                    // milliseconds of `time.monotonic`

  const EMPTY_DISK := Disk(None, None, false, map[], {})

  predicate IsReleased(s: Sys, l: Birth) {
    l in s.gates && s.gates[l] == Released
  }

  /** CRIU may be running for launcher `l`: it was released, and it or its daemon is alive. */
  predicate Active(s: Sys, l: Birth) {
    && IsReleased(s, l)
    && (Alive(s.table, l) || (l in s.daemons && Alive(s.table, s.daemons[l])))
  }

  predicate NoneActive(s: Sys) {
    forall l | l in s.gates :: !Active(s, l)
  }

  predicate Recorded(s: Sys) {
    s.disk.pending.Some? || s.disk.owner.Some?
  }

  /** The launch of `l` has been narrowed to one identity: its launcher is gone, and if its
      daemon is still alive then the daemon is `d`. */
  predicate Narrowed(s: Sys, l: Birth, d: Birth) {
    && IsReleased(s, l)
    && Dead(s.table, l)
    && d in s.bound
    && (l in s.daemons && Alive(s.table, s.daemons[l]) ==> s.daemons[l] == d)
  }

  // ---------------------------------------------------------------- what others may do

  /** Everything that may happen between two steps of the controller: the kernel moves on, and
      CRIU processes of an active launch fork their daemon and write their files. */
  predicate Rely(s: Sys, t: Sys) {
    && Evolves(s.table, t.table)
    && t.gates == s.gates && t.commands == s.commands && t.current == s.current
    && t.bound == s.bound && t.deliveries == s.deliveries && s.clock <= t.clock
    && t.disk.pending == s.disk.pending && t.disk.owner == s.disk.owner
    && (forall l | l in s.daemons :: l in t.daemons && t.daemons[l] == s.daemons[l])
    && (forall l | l in t.daemons :: l in s.daemons || ForksIn(s, t, l))
    && (t.disk.socket == s.disk.socket || !NoneActive(s))
    && (forall n | n in t.disk.pidfiles ::
        || (n in s.disk.pidfiles && t.disk.pidfiles[n] == s.disk.pidfiles[n])
        || (exists l | l in s.gates :: WritesPidfile(s, t, l, n)))
    && (forall n | n in t.disk.logs ::
        n in s.disk.logs || exists l | l in s.gates :: WritesLog(s, l, n))
  }

  predicate ForksIn(s: Sys, t: Sys, l: Birth)
    requires l in t.daemons
  {
    IsReleased(s, l) && Alive(s.table, l) && t.daemons[l] in t.table.born && t.daemons[l] !in s.table.born
  }

  predicate WritesPidfile(s: Sys, t: Sys, l: Birth, n: Name) {
    && Active(s, l)
    && l in s.commands && s.commands[l].pidfile == n
    && l in t.daemons && n in t.disk.pidfiles && t.disk.pidfiles[n] == t.daemons[l].pid
  }

  predicate WritesLog(s: Sys, l: Birth, n: Name) {
    Active(s, l) && l in s.commands && s.commands[l].log == n
  }

  /** One move of the kernel or of a CRIU process. */
  datatype EnvMove =
    | Exit(b: Birth)
    | Appear(b: Birth)
    | ForkDaemon(l: Birth, d: Birth)
    | WritePidfile(l: Birth)
    | WriteLog(l: Birth)
    | MakeSocket(l: Birth)
    | DropSocket(l: Birth)
    | Tick

  predicate EnvAllows(s: Sys, m: EnvMove) {
    match m
    case Exit(b) => Alive(s.table, b)
    case Appear(b) => b.pid !in s.table.live && b !in s.table.born
    case ForkDaemon(l, d) =>
      && IsReleased(s, l) && Alive(s.table, l) && l !in s.daemons
      && d.pid !in s.table.live && d !in s.table.born
    case WritePidfile(l) => Active(s, l) && l in s.commands && l in s.daemons
    case WriteLog(l) => Active(s, l) && l in s.commands
    case MakeSocket(l) => Active(s, l)
    case DropSocket(l) => Active(s, l)
    case Tick => true
  }

  function Enter(t: Table, b: Birth): Table {
    Table(t.live[b.pid := b.ticks], t.born + {b})
  }

  function EnvApply(s: Sys, m: EnvMove): Sys
    requires EnvAllows(s, m)
  {
    match m
    case Exit(b) => s.(table := s.table.(live := s.table.live - {b.pid}))
    case Appear(b) => s.(table := Enter(s.table, b))
    case ForkDaemon(l, d) => s.(table := Enter(s.table, d), daemons := s.daemons[l := d])
    case WritePidfile(l) =>
      s.(disk := s.disk.(pidfiles := s.disk.pidfiles[s.commands[l].pidfile := s.daemons[l].pid]))
    case WriteLog(l) => s.(disk := s.disk.(logs := s.disk.logs + {s.commands[l].log}))
    case MakeSocket(_) => s.(disk := s.disk.(socket := true))
    case DropSocket(_) => s.(disk := s.disk.(socket := false))
    case Tick => s.(clock := s.clock + 1)
  }

  ghost predicate EnvRun(s: Sys, moves: seq<EnvMove>, t: Sys)
    decreases |moves|
  {
    if moves == [] then s == t
    else EnvAllows(s, moves[0]) && EnvRun(EnvApply(s, moves[0]), moves[1..], t)
  }

  // ---------------------------------------------------------------- the invariant

  ghost predicate ProcessesOk(s: Sys) {
    && WellFormed(s.table)
    && (forall l | l in s.gates :: l in s.table.born && l in s.commands)
    && (forall l | l in s.daemons :: IsReleased(s, l) && s.daemons[l] in s.table.born)
    && s.bound <= s.table.born
    && (forall e | e in s.deliveries :: e.target in s.bound && e.at <= s.clock)
  }

  /** Every launch but the last released one is over. */
  ghost predicate CurrentOk(s: Sys) {
    && (s.current.Some? ==> IsReleased(s, s.current.value))
    && (forall l | l in s.gates && s.current != Some(l) :: !Active(s, l))
  }

  ghost predicate PendingOk(s: Sys) {
    s.disk.pending.Some? ==>
      var p := s.disk.pending.value;
      && p.launcher in s.gates && p.launcher in s.commands
      && s.commands[p.launcher] == p.paths
      && (if s.gates[p.launcher] == Released then s.current == Some(p.launcher) else
          && p.stage == ReleaseAuthorized && s.disk.owner.None?
          && NoneActive(s) && !s.disk.socket && s.disk.pidfiles == map[])
      && (p.stage.DaemonBound? ==> Narrowed(s, p.launcher, p.stage.daemon))
  }

  ghost predicate OwnerOk(s: Sys) {
    s.disk.owner.Some? ==>
      var o := s.disk.owner.value;
      && s.current.Some? && s.current.value in s.commands
      && s.commands[s.current.value] == o.paths
      && Narrowed(s, s.current.value, o.daemon)
      && (s.disk.pending.Some? ==> s.disk.pending.value.stage == DaemonBound(o.daemon))
  }

  /** An active launch, a socket or a pidfile always has a record beside it. */
  ghost predicate AuthorityOk(s: Sys) {
    && (!Recorded(s) ==> NoneActive(s) && !s.disk.socket)
    && (forall n | n in s.disk.pidfiles :: PidfileOk(s, n))
  }

  ghost predicate PidfileOk(s: Sys, n: Name) {
    && s.current.Some? && s.current.value in s.commands && s.current.value in s.daemons
    && s.commands[s.current.value].pidfile == n
    && n in s.disk.pidfiles && s.disk.pidfiles[n] == s.daemons[s.current.value].pid
    && Recorded(s)
  }

  ghost predicate Inv(s: Sys) {
    ProcessesOk(s) && CurrentOk(s) && PendingOk(s) && OwnerOk(s) && AuthorityOk(s)
  }

  // ---------------------------------------------------------------- what a step may do

  /** What every single step of anyone guarantees, read on the two states it connects. */
  ghost predicate Safe(s: Sys, t: Sys) {
    && Evolves(s.table, t.table)
    && s.bound <= t.bound
    && GateStepOk(s, t)
    && RecordStepOk(s, t)
    && s.deliveries <= t.deliveries
    && s.clock <= t.clock
    && (forall i | |s.deliveries| <= i < |t.deliveries| :: DeliveryOk(s, t.deliveries[i]))
  }

  /** A signal reaches a bound, live birth, and a KILL only one that was sent a TERM long enough ago. */
  ghost predicate DeliveryOk(s: Sys, e: Delivery) {
    && e.target in s.bound && Alive(s.table, e.target) && e.at == s.clock
    && (e.signal == SigKill ==> Overdue(s, e.target))
  }

  ghost predicate Overdue(s: Sys, target: Birth) {
    exists e | e in s.deliveries :: e.target == target && e.signal == SigTerm && e.at + TERM_GRACE <= s.clock
  }

  /** A gate opens only while the pending record naming that launcher is on disk. */
  ghost predicate GateStepOk(s: Sys, t: Sys) {
    forall l | l in t.gates && t.gates[l] == Released && !IsReleased(s, l) ::
      s.disk.pending.Some? && s.disk.pending.value.launcher == l
      && s.disk.pending.value.stage == ReleaseAuthorized
      && NoneActive(s)
  }

  /** The last record goes only when CRIU is gone and the other artifacts are gone; an owner
      appears only beside a pending record that already names the same daemon. */
  ghost predicate RecordStepOk(s: Sys, t: Sys) {
    && (Recorded(s) && !Recorded(t) ==>
        NoneActive(s) && !s.disk.socket && s.disk.pidfiles == map[])
    && (t.disk.owner.Some? && t.disk.owner != s.disk.owner ==>
        && s.disk.pending.Some? && s.disk.pending.value.paths == t.disk.owner.value.paths
        && s.disk.pending.value.stage == DaemonBound(t.disk.owner.value.daemon))
  }

  /** The controller is gone: its memory with it, and the kernel closes its pipe ends. */
  function Crashed(s: Sys): Sys {
    s.(gates := map l | l in s.gates :: if s.gates[l] == Waiting then Closed else s.gates[l])
  }

  // ---------------------------------------------------------------- lemmas

  lemma ActiveOnlyShrinks(s: Sys, t: Sys, l: Birth)
    requires ProcessesOk(s) && Rely(s, t) && Active(t, l)
    ensures Active(s, l)
  {
  }

  lemma NarrowedIsStable(s: Sys, t: Sys, l: Birth, d: Birth)
    requires ProcessesOk(s) && Rely(s, t) && Narrowed(s, l, d)
    ensures Narrowed(t, l, d)
  {
  }

  lemma RelyKeepsInv(s: Sys, t: Sys)
    requires Inv(s) && Rely(s, t)
    ensures Inv(t) && Safe(s, t)
  {
    forall l | l in t.gates && Active(t, l) ensures Active(s, l) {
      ActiveOnlyShrinks(s, t, l);
    }
  }

  lemma RelyReflexive(s: Sys)
    requires Inv(s)
    ensures Rely(s, s) && Tends(s, s)
  {
  }

  lemma RelyEvolves(s: Sys, t: Sys)
    requires Rely(s, t)
    ensures Evolves(s.table, t.table) && Tends(s, t)
    ensures t.bound == s.bound && t.deliveries == s.deliveries && t.gates == s.gates
    ensures t.commands == s.commands && t.current == s.current && s.clock <= t.clock
    ensures t.disk.pending == s.disk.pending && t.disk.owner == s.disk.owner
  {
  }

  /** What CRIU writes in the second stretch it could have written over both. */
  lemma WritesReachBack(s: Sys, t: Sys, u: Sys)
    requires ProcessesOk(s) && Rely(s, t) && Rely(t, u)
    ensures forall l, n | l in t.gates && WritesPidfile(t, u, l, n) :: WritesPidfile(s, u, l, n)
    ensures forall l, n | l in t.gates && WritesLog(t, l, n) :: WritesLog(s, l, n)
    ensures !NoneActive(t) ==> !NoneActive(s)
  {
    forall l | l in t.gates && Active(t, l) ensures Active(s, l) {
      ActiveOnlyShrinks(s, t, l);
    }
  }

  /** A pidfile written in the first stretch and not since. */
  lemma WritesStay(s: Sys, t: Sys, u: Sys)
    requires Rely(s, t) && Rely(t, u)
    ensures forall l, n | WritesPidfile(s, t, l, n) && n in u.disk.pidfiles
      && u.disk.pidfiles[n] == t.disk.pidfiles[n] :: WritesPidfile(s, u, l, n)
  {
  }

  lemma ForksReachBack(s: Sys, t: Sys, u: Sys)
    requires ProcessesOk(s) && Rely(s, t) && Rely(t, u)
    ensures forall l | l in u.daemons :: l in s.daemons || ForksIn(s, u, l)
  {
  }

  lemma RelyTransitive(s: Sys, t: Sys, u: Sys)
    requires Inv(s) && Rely(s, t) && Rely(t, u)
    ensures Rely(s, u)
  {
    EvolvesTransitive(s.table, t.table, u.table);
    WritesReachBack(s, t, u);
    WritesStay(s, t, u);
    ForksReachBack(s, t, u);
    hide WritesPidfile, WritesLog, NoneActive, Evolves, ForksIn;
  }

  /** The controller has only looked, bound identities or signalled: its records, gates and
      launches are as they were, and the rest of the world moved on. */
  ghost predicate Tends(s: Sys, t: Sys) {
    && s.bound <= t.bound && s.deliveries <= t.deliveries
    && Rely(s, t.(bound := s.bound, deliveries := s.deliveries))
  }

  lemma TendsTransitive(s: Sys, t: Sys, u: Sys)
    requires Inv(s) && Inv(t) && Tends(s, t) && Tends(t, u)
    ensures Tends(s, u)
  {
    var t' := t.(bound := s.bound, deliveries := s.deliveries);
    var u' := u.(bound := s.bound, deliveries := s.deliveries);
    assert forall l :: Active(t', l) <==> Active(t, l);
    assert Rely(t', u') by {
      hide Inv, Evolves;
      var u'' := u.(bound := t.bound, deliveries := t.deliveries);
      assert Rely(t, u'');
      assert forall l, n | WritesPidfile(t, u'', l, n) :: WritesPidfile(t', u', l, n);
      assert forall l, n | WritesLog(t, l, n) :: WritesLog(t', l, n);
    }
    RelyTransitive(s, t', u');
  }

  /** A signal through a pidfd leaves everything but the delivery log alone. */
  lemma DeliverKeepsInv(s: Sys, target: Birth, signal: Signal)
    requires Inv(s) && target in s.bound && Alive(s.table, target) && (signal == SigKill ==> Overdue(s, target))
    ensures var t := s.(deliveries := s.deliveries + [Delivery(target, signal, s.clock)]);
            Inv(t) && Safe(s, t) && Tends(s, t)
  {
    var t := s.(deliveries := s.deliveries + [Delivery(target, signal, s.clock)]);
    assert forall l :: Active(t, l) <==> Active(s, l);
    assert t.(deliveries := s.deliveries) == s;
  }

  lemma NarrowedTends(s: Sys, t: Sys, l: Birth, d: Birth)
    requires Inv(s) && Tends(s, t) && Narrowed(s, l, d)
    ensures Narrowed(t, l, d)
  {
    NarrowedIsStable(s, t.(bound := s.bound, deliveries := s.deliveries), l, d);
  }

  lemma EnvMoveIsRely(s: Sys, m: EnvMove)
    requires Inv(s) && EnvAllows(s, m)
    ensures Rely(s, EnvApply(s, m))
  {
  }

  /** Any number of kernel and CRIU moves fit between two controller steps. */
  lemma {:induction false} EnvRunIsRely(s: Sys, moves: seq<EnvMove>, t: Sys)
    requires Inv(s) && EnvRun(s, moves, t)
    ensures Rely(s, t)
    decreases |moves|
  {
    if moves != [] {
      var u := EnvApply(s, moves[0]);
      EnvMoveIsRely(s, moves[0]);
      RelyKeepsInv(s, u);
      EnvRunIsRely(u, moves[1..], t);
      RelyTransitive(s, u, t);
    }
  }

  lemma CrashKeepsInv(s: Sys)
    requires Inv(s)
    ensures Inv(Crashed(s)) && Safe(s, Crashed(s))
  {
    var t := Crashed(s);
    assert forall l :: IsReleased(t, l) <==> IsReleased(s, l);
    assert forall l :: Active(t, l) <==> Active(s, l);
  }
}
