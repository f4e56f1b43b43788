/** Signalling one exact process through a pidfd. */
module OwnedSignal {
  import opened Options
  import opened Births
  import opened LazyWorld
  import opened LazyMachine

  datatype SignalStatus = Signalled | AlreadyQuiescent | IdentityMismatch | IdentityUnavailable | SignalFailed

  /** What one attempt may add to the delivery log. */
  ghost predicate DeliveredOnly(s: Sys, t: Sys, target: Birth, signal: Signal, delivered: bool) {
    if delivered then
      exists at :: s.clock <= at <= t.clock && t.deliveries == s.deliveries + [Delivery(target, signal, at)]
    else t.deliveries == s.deliveries
  }

  lemma StillOverdue(s: Sys, t: Sys, target: Birth)
    requires Overdue(s, target) && s.deliveries <= t.deliveries && s.clock <= t.clock
    ensures Overdue(t, target)
  {
    var e :| e in s.deliveries && e.target == target && e.signal == SigTerm && e.at + TERM_GRACE <= s.clock;
    assert e in t.deliveries;
  }

  lemma BoundBirth(s: Sys, b: Birth)
    requires Inv(s) && b in s.bound
    ensures b in s.table.born
  {
  }

  /** Between the three steps (open, read the start ticks, send) the process may exit and its
      pid may be given to another one; the pidfd keeps naming the incarnation that was opened. */
  method SignalExactProcess(m: Machine, pid: nat, expectedTicks: nat, signal: Signal)
    returns (status: SignalStatus)
    requires m.Valid() && Birth(pid, expectedTicks) in m.now.bound
    requires signal == SigKill ==> Overdue(m.now, Birth(pid, expectedTicks))
    modifies m
    ensures m.Valid() && old(m.history) <= m.history && Tends(old(m.now), m.now)
    ensures DeliveredOnly(old(m.now), m.now, Birth(pid, expectedTicks), signal, status == Signalled)
    ensures status != SignalFailed && m.mishaps >= old(m.mishaps)
    ensures status == AlreadyQuiescent || status == IdentityMismatch ==> Dead(m.now.table, Birth(pid, expectedTicks))
    ensures status == IdentityUnavailable ==> m.mishaps > old(m.mishaps)
  {
    hide Inv, Rely, Safe, Tends, Lawful;
    ghost var start := m.now;
    BoundBirth(start, Birth(pid, expectedTicks));
    m.Interfere();
    RelyEvolves(start, m.now);
    if pid !in m.now.table.live {
      return AlreadyQuiescent;
    }
    var pidfd := Birth(pid, m.now.table.live[pid]);
    ghost var atOpen := m.now;
    var ticks := m.StartTicks(pid);
    RelyEvolves(atOpen, m.now);
    TendsTransitive(start, atOpen, m.now);
    if ticks != Some(expectedTicks) {
      return if ticks.Some? then IdentityMismatch else IdentityUnavailable;
    }
    ghost var atRead := m.now;
    m.Interfere();
    RelyEvolves(atRead, m.now);
    TendsTransitive(start, atRead, m.now);
    ghost var atSend := m.now;
    if !Alive(m.now.table, pidfd) {
      return AlreadyQuiescent;
    }
    assert pidfd == Birth(pid, expectedTicks) by {
      assert pidfd in atOpen.table.born && Alive(atRead.table, pidfd);
    }
    if signal == SigKill {
      StillOverdue(start, m.now, pidfd);
    }
    DeliverKeepsInv(m.now, pidfd, signal);
    m.Move(m.now.(deliveries := m.now.deliveries + [Delivery(pidfd, signal, m.now.clock)]));
    TendsTransitive(start, atSend, m.now);
    status := Signalled;
  }

  /** The same attempt through a `sudo` helper, whose report may be lost or refused;
      `delivered` is what really happened. */
  method PrivilegedPidfdSignal(m: Machine, pid: nat, startTicks: nat, signal: Signal)
    returns (status: SignalStatus, ghost delivered: bool, ghost reported: bool)
    requires m.Valid() && Birth(pid, startTicks) in m.now.bound
    requires signal == SigKill ==> Overdue(m.now, Birth(pid, startTicks))
    modifies m
    ensures m.Valid() && old(m.history) <= m.history && Tends(old(m.now), m.now)
    ensures DeliveredOnly(old(m.now), m.now, Birth(pid, startTicks), signal, delivered)
    ensures status == Signalled ==> delivered
    // A report that is lost or incoherent counts as a failure.
    ensures status == SignalFailed <==> !reported
    ensures delivered ==> status == Signalled || status == SignalFailed
    ensures status == AlreadyQuiescent || status == IdentityMismatch ==> Dead(m.now.table, Birth(pid, startTicks))
    ensures m.mishaps >= old(m.mishaps)
    ensures status == IdentityUnavailable || status == SignalFailed ==> m.mishaps > old(m.mishaps)
  {
    hide Inv, Rely, Safe, Tends, Lawful;
    var starts := m.Answers();
    if !starts {
      ghost var start := m.now;
      m.Interfere();
      RelyEvolves(start, m.now);
      return SignalFailed, false, false;
    }
    status := SignalExactProcess(m, pid, startTicks, signal);
    delivered := status == Signalled;
    var coherent := m.Answers();
    reported := coherent;
    if !coherent {
      status := SignalFailed;
    }
  }
}
