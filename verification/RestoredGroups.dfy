/** What is done to the processes of a restored CRIU tree: reading and validating it while it is
    stopped, continuing its groups, or killing every captured group and waiting until nothing of the
    tree is left. Other processes
    come, go and take over freed pids between any two reads and signals. */
module RestoredGroups {
  import opened Options
  import opened Births
  import opened Kernels
  import opened ProcessGroups
  import RT = RestoreTree

  // ---------------------------------------------------------------- capture

  /** Every entry is what the kernel holds for that pid now; `None` stands for a failed read. */
  predicate Shows(k: Kernel, proc: RT.Proc) {
    forall pid | pid in proc :: EntryShows(k, pid, proc[pid])
  }

  predicate EntryShows(k: Kernel, pid: int, e: RT.Entry) {
    && (e.startTicks.Some? ==> Occupied(k, pid) && e.startTicks.value == Occupant(k, pid).ticks)
    && (e.identity.Some? ==> Occupied(k, pid) && e.identity.value == Identity(Occupant(k, pid).ticks))
    && (e.pgid.Some? ==> Occupied(k, pid) && MemberOf(k, Occupant(k, pid), e.pgid.value))
    && (e.state.Some? ==>
        Occupied(k, pid) && Occupant(k, pid) in k.states && e.state.value == k.states[Occupant(k, pid)])
  }

  /** The recorded process of the role is there, in its group, held stopped. */
  ghost predicate HeldStopped(k: Kernel, r: RT.Record) {
    && r.identity.Some? && r.pgid.Some? && Named(k, r.pid, r.identity, r.startTicks)
    && MemberOf(k, Occupant(k, r.pid), r.pgid.value)
    && Occupant(k, r.pid) in k.states && k.states[Occupant(k, r.pid)] in {'T', 't'}
  }

  /** Read the tree, held stopped by CRIU, in one moment, and validate it: every process of an accepted
      tree was alive, stopped and in an owned group in that kernel. */
  method CaptureRestoredTree(sys: System, root: int, recorded: RT.Owned) returns (tree: seq<RT.Record>, v: RT.Validation)
    requires sys.Valid()
    modifies sys`now, sys`history
    ensures sys.Valid() && sys.history == old(sys.history) + [sys.now] && sys.sent == old(sys.sent)
    ensures v.Accepted? <==> RT.OwnedStoppedTree(root, recorded, tree)
    ensures v.Accepted? ==>
      && v.worker in tree && v.worker.pid == recorded.worker.pid
      && v.basis in tree && v.basis.pid == recorded.basis.pid
      && forall r | r in tree :: HeldStopped(sys.now, r) && r.startTicks.Some?
  {
    sys.Elapse();
    assert Shows(sys.now, map[]);
    var proc: RT.Proc :| Shows(sys.now, proc);
    tree, v := RT.CaptureAndValidate(proc, root, recorded);
    if v.Accepted? {
      forall r | r in tree ensures HeldStopped(sys.now, r) && r.startTicks.Some? {
        AcceptedIsHeld(sys.now, proc, root, recorded, tree, r);
      }
    }
  }

  lemma AcceptedIsHeld(k: Kernel, proc: RT.Proc, root: int, recorded: RT.Owned, tree: seq<RT.Record>, r: RT.Record)
    requires Shows(k, proc) && RT.OwnedStoppedTree(root, recorded, tree) && r in tree && r == RT.Observe(proc, r.pid)
    ensures HeldStopped(k, r) && r.startTicks.Some?
  {
    assert RT.Complete(r) && RT.Stopped(r.state);
    assert r.pid in proc && EntryShows(k, r.pid, proc[r.pid]);
  }

  predicate Terminal(state: char) { state == 'X' || state == 'x' || state == 'Z' }

  // ---------------------------------------------------------------- resume

  /** The recorded process of the role holds its pid, in its recorded group, and is not about to go. */
  ghost predicate Healthy(k: Kernel, r: RT.Record) {
    && r.identity.Some? && r.pgid.Some? && Named(k, r.pid, r.identity, None)
    && MemberOf(k, Occupant(k, r.pid), r.pgid.value)
    && Occupant(k, r.pid) in k.states && k.states[Occupant(k, r.pid)] !in {'X', 'x', 'Z'}
  }

  ghost predicate Running(k: Kernel, r: RT.Record) {
    && r.identity.Some? && Named(k, r.pid, r.identity, None) && Occupant(k, r.pid) in k.states
    && k.states[Occupant(k, r.pid)] !in {'X', 'x', 'Z', 'T', 't'}
  }

  ghost predicate EverRunning(h: seq<Kernel>, from: nat, r: RT.Record) {
    exists k | from <= k < |h| :: Running(h[k], r)
  }

  ghost predicate EverUnhealthy(h: seq<Kernel>, from: nat, r: RT.Record) {
    exists k | from <= k < |h| :: !Healthy(h[k], r)
  }

  ghost predicate EverNotRunning(h: seq<Kernel>, from: nat, r: RT.Record) {
    exists k | from <= k < |h| :: !Running(h[k], r)
  }

  /** Whatever process holds the pid, it is in the recorded group. */
  ghost predicate InRecordedGroup(k: Kernel, r: RT.Record) {
    Occupied(k, r.pid) && r.pgid.Some? && MemberOf(k, Occupant(k, r.pid), r.pgid.value)
  }

  ghost predicate GroupSeen(h: seq<Kernel>, from: nat, to: nat, r: RT.Record) {
    exists k | from <= k < to && k < |h| :: InRecordedGroup(h[k], r)
  }

  /** A SIGCONT to the role's group, after a look that found the recorded process under its pid and
      one that found the pid's process in that group. */
  ghost predicate Continued(h: seq<Kernel>, from: nat, s: Send, r: RT.Record) {
    && r.pgid == Some(s.group) && s.signal == Cont && s.at < |h|
    && NamedBefore(h, from, s.at, r.pid, r.identity, None) && GroupSeen(h, from, s.at, r)
  }

  lemma ContinuedLater(h: seq<Kernel>, g: seq<Kernel>, from: nat, earlier: nat, s: Send, r: RT.Record)
    requires Continued(h, from, s, r) && h <= g && earlier <= from
    ensures Continued(g, earlier, s, r)
  {
    var k :| from <= k < s.at && k < |h| && Named(h[k], r.pid, r.identity, None);
    assert g[k] == h[k];
    var l :| from <= l < s.at && l < |h| && InRecordedGroup(h[l], r);
    assert g[l] == h[l];
  }

  lemma UnhealthyLater(h: seq<Kernel>, g: seq<Kernel>, from: nat, earlier: nat, r: RT.Record)
    requires EverUnhealthy(h, from, r) && h <= g && earlier <= from
    ensures EverUnhealthy(g, earlier, r)
  {
    var k :| from <= k < |h| && !Healthy(h[k], r);
    assert g[k] == h[k];
  }

  /** `_identity_matches` */
  method IdentityMatches(sys: System, r: RT.Record) returns (matches: bool)
    requires sys.Valid()
    modifies sys`now, sys`history, sys`mishaps
    ensures sys.Valid() && old(sys.history) <= sys.history && sys.mishaps >= old(sys.mishaps)
    ensures matches ==> r.identity.Some? && sys.history == old(sys.history) + [sys.now] && Named(sys.now, r.pid, r.identity, None)
    ensures !matches && sys.mishaps == old(sys.mishaps) ==>
      r.identity.None? || (sys.history == old(sys.history) + [sys.now] && !Named(sys.now, r.pid, r.identity, None))
  {
    if r.identity.None? {
      return false;
    }
    var current := sys.ReadIdentity(r.pid);
    matches := current == r.identity;
  }

  /** Check and continue one role's group. */
  method ContinueRole(sys: System, r: RT.Record) returns (ok: bool)
    requires sys.Valid() && r.pgid.Some?
    modifies sys
    ensures sys.Valid() && old(sys.history) <= sys.history && sys.mishaps >= old(sys.mishaps)
    ensures if ok then |sys.sent| == |old(sys.sent)| + 1 && sys.sent == old(sys.sent) + [sys.sent[|old(sys.sent)|]]
                       && Continued(sys.history, |old(sys.history)|, sys.sent[|old(sys.sent)|], r)
            else sys.sent == old(sys.sent)
    ensures !ok && r.identity.Some? && r.pgid.value != sys.own && sys.mishaps == old(sys.mishaps) ==>
      EverUnhealthy(sys.history, |old(sys.history)|, r)
  {
    hide Evolving, Healthy, Named, EverUnhealthy, NamedBefore, GroupSeen;
    ghost var start := |sys.history|;
    ok := IdentityMatches(sys, r);
    if !ok {
      if |sys.history| > start {
        LooksTell(sys.history, start, r);
      }
      return;
    }
    ghost var looked := sys.history;
    Looked(looked, start, start, r.pid, r.identity, None);
    var group := sys.GroupOf(r.pid);
    assert sys.history[start + 1] == sys.now;
    LooksTell(sys.history, start, r);
    if group != r.pgid {
      return false;
    }
    ghost var grouped := sys.history;
    ok := SendCont(sys, r, start);
    if ok {
      NamedLater(looked, sys.history, start, start + 1, r.pid, r.identity, None);
      NamedWithin(sys.history, start, start + 1, start + 2, r);
      SeenLater(grouped, sys.history, start, start + 2, r);
    }
  }

  lemma NamedWithin(h: seq<Kernel>, from: nat, to: nat, later: nat, r: RT.Record)
    requires NamedBefore(h, from, to, r.pid, r.identity, None) && to <= later
    ensures NamedBefore(h, from, later, r.pid, r.identity, None)
  {
  }

  method SendCont(sys: System, r: RT.Record, ghost start: nat) returns (ok: bool)
    requires sys.Valid() && r.pgid.Some? && start <= |sys.history|
    modifies sys
    ensures sys.Valid() && sys.history == old(sys.history) + [sys.now] && sys.mishaps >= old(sys.mishaps)
    ensures sys.sent == if ok then old(sys.sent) + [Send(r.pgid.value, Cont, |old(sys.history)|)] else old(sys.sent)
    ensures !ok && r.pgid.value != sys.own && sys.mishaps == old(sys.mishaps) ==> EverUnhealthy(sys.history, start, r)
  {
    hide Healthy, EverUnhealthy, Evolving;
    var sent := sys.SignalGroup(r.pgid.value, Cont);
    ok := sent.Sent?;
    if sent.NoGroup? {
      DescribedAt(sys.history, |sys.history| - 1);
      NoGroupIsUnhealthy(sys.history, start, |sys.history| - 1, r);
    }
  }

  lemma NoGroupIsUnhealthy(h: seq<Kernel>, from: nat, k: nat, r: RT.Record)
    requires from <= k < |h| && r.pgid.Some? && !GroupLive(h[k], r.pgid.value) && Described(h[k])
    ensures EverUnhealthy(h, from, r)
  {
    if Healthy(h[k], r) {
      HealthyIsMember(h[k], r);
    }
  }

  lemma HealthyIsMember(k: Kernel, r: RT.Record)
    requires Described(k) && Healthy(k, r)
    ensures GroupLive(k, r.pgid.value)
  {
    OccupantDescribed(k, r.pid);
  }

  lemma DescribedAt(h: seq<Kernel>, k: nat)
    requires Evolving(h) && k < |h|
    ensures Described(h[k])
  {
  }

  /** What the two looks before a SIGCONT say about the role. */
  lemma LooksTell(h: seq<Kernel>, start: nat, r: RT.Record)
    requires start < |h| && r.pgid.Some?
    ensures r.identity.Some? && !Named(h[start], r.pid, r.identity, None) ==> EverUnhealthy(h, start, r)
    ensures start + 1 < |h| && r.identity.Some? && !InRecordedGroup(h[start + 1], r) ==> EverUnhealthy(h, start, r)
    ensures start + 1 < |h| && InRecordedGroup(h[start + 1], r) ==> GroupSeen(h, start, start + 2, r)
  {
    if r.identity.Some? && !Named(h[start], r.pid, r.identity, None) {
      assert !Healthy(h[start], r);
    }
    if start + 1 < |h| && !InRecordedGroup(h[start + 1], r) {
      assert !Healthy(h[start + 1], r);
    }
  }

  lemma SeenLater(h: seq<Kernel>, g: seq<Kernel>, from: nat, to: nat, r: RT.Record)
    requires GroupSeen(h, from, to, r) && h <= g
    ensures GroupSeen(g, from, to, r)
  {
    var k :| from <= k < to && k < |h| && InRecordedGroup(h[k], r);
    assert g[k] == h[k];
  }

  /** The process under the pid was seen about to go. */
  ghost predicate EverTerminal(h: seq<Kernel>, from: nat, pid: int) {
    exists k | from <= k < |h| ::
      && Occupied(h[k], pid) && Occupant(h[k], pid) in h[k].states
      && h[k].states[Occupant(h[k], pid)] in {'X', 'x', 'Z'}
  }

  datatype Poll = RoleRuns | RolePending | RoleTerminal

  /** One role in one poll round: its state, and its identity only if the state leaves it open. Since
      the process was seen before, finding it again means that the state between was its own. */
  method PollRole(sys: System, r: RT.Record, ghost from: nat) returns (p: Poll)
    requires sys.Valid() && from < |sys.history| && NamedBefore(sys.history, 0, from, r.pid, r.identity, None)
    modifies sys`now, sys`history, sys`mishaps
    ensures sys.Valid() && old(sys.history) <= sys.history && sys.mishaps >= old(sys.mishaps)
    ensures p.RoleRuns? ==> EverRunning(sys.history, from, r)
    ensures !p.RoleRuns? && sys.mishaps == old(sys.mishaps) ==> EverNotRunning(sys.history, from, r)
    ensures p.RoleTerminal? ==> EverTerminal(sys.history, from, r.pid)
    ensures p.RoleTerminal? && sys.mishaps == old(sys.mishaps) ==> EverUnhealthy(sys.history, from, r)
  {
    ghost var start, before := |sys.history|, sys.history;
    var state := sys.ReadState(r.pid);
    if state.Some? && Terminal(state.value) {
      assert !Running(sys.history[start], r) && !Healthy(sys.history[start], r);
      assert Occupied(sys.history[start], r.pid);
      return RoleTerminal;
    }
    if state.None? || RT.Stopped(state) {
      if sys.mishaps == old(sys.mishaps) {
        assert !Running(sys.history[start], r);
      }
      return RolePending;
    }
    var matches := IdentityMatches(sys, r);
    if matches {
      NamedLater(before, sys.history, 0, from, r.pid, r.identity, None);
      SameProcess(sys.history, from, start, start + 1, r);
      assert Running(sys.history[start], r);
      p := RoleRuns;
    } else {
      if sys.mishaps == old(sys.mishaps) {
        assert !Running(sys.history[start + 1], r);
      }
      p := RolePending;
    }
  }

  lemma SameProcess(h: seq<Kernel>, from: nat, middle: nat, last: nat, r: RT.Record)
    requires Evolving(h) && from <= middle <= last < |h| && r.identity.Some?
    requires NamedBefore(h, 0, from, r.pid, r.identity, None) && Named(h[last], r.pid, r.identity, None)
    ensures Named(h[middle], r.pid, r.identity, None)
  {
    var k :| 0 <= k < from && k < |h| && Named(h[k], r.pid, r.identity, None);
    hide Evolving;
    IdentityNames(Occupant(h[k], r.pid).ticks, Occupant(h[last], r.pid).ticks);
    AliveBetween(h, k, middle, last, Occupant(h[k], r.pid));
  }

  /** Poll both roles until they run, one of them ends, or the deadline passes. */
  method PollUntilRunning(sys: System, worker: RT.Record, basis: RT.Record, timeout: nat, ghost from: nat)
    returns (ok: bool)
    requires sys.Valid() && from < |sys.history|
    requires NamedBefore(sys.history, 0, from, worker.pid, worker.identity, None)
    requires NamedBefore(sys.history, 0, from, basis.pid, basis.identity, None)
    modifies sys`now, sys`history, sys`mishaps
    ensures sys.Valid() && old(sys.history) <= sys.history && sys.mishaps >= old(sys.mishaps)
    ensures ok ==> EverRunning(sys.history, from, worker) && EverRunning(sys.history, from, basis)
    ensures !ok && sys.mishaps == old(sys.mishaps) ==>
      EverNotRunning(sys.history, from, worker) || EverNotRunning(sys.history, from, basis)
    ensures !ok ==>
      || EverTerminal(sys.history, from, worker.pid) || EverTerminal(sys.history, from, basis.pid)
      || sys.now.clock >= old(sys.now.clock) + timeout
  {
    hide EverRunning, EverNotRunning, EverUnhealthy, EverTerminal, NamedBefore, Evolving;
    var deadline := sys.now.clock + timeout;
    while true
      invariant sys.Valid() && old(sys.history) <= sys.history && sys.mishaps >= old(sys.mishaps)
      decreases deadline - sys.now.clock
    {
      ghost var before := |sys.history|;
      NamedLater(old(sys.history), sys.history, 0, from, worker.pid, worker.identity, None);
      var w := PollRole(sys, worker, from);
      ghost var between := sys.history;
      NamedLater(old(sys.history), sys.history, 0, from, basis.pid, basis.identity, None);
      var b := PollRole(sys, basis, from);
      RunsLater(between, sys.history, from, worker);
      if w.RoleTerminal? || b.RoleTerminal? {
        return false;
      }
      if w.RoleRuns? && b.RoleRuns? {
        return true;
      }
      if sys.now.clock >= deadline {
        return false;
      }
      ClockGrows(sys.history, before - 1, |sys.history| - 1);
      sys.Sleep();
    }
  }

  lemma RunsLater(h: seq<Kernel>, g: seq<Kernel>, from: nat, r: RT.Record)
    requires h <= g
    ensures EverRunning(h, from, r) ==> EverRunning(g, from, r)
    ensures EverNotRunning(h, from, r) ==> EverNotRunning(g, from, r)
    ensures EverTerminal(h, from, r.pid) ==> EverTerminal(g, from, r.pid)
  {
    if EverTerminal(h, from, r.pid) {
      var k :| from <= k < |h| && Occupied(h[k], r.pid) && Occupant(h[k], r.pid) in h[k].states
        && h[k].states[Occupant(h[k], r.pid)] in {'X', 'x', 'Z'};
      assert g[k] == h[k];
    }
    hide Running;
    if EverRunning(h, from, r) {
      var k :| from <= k < |h| && Running(h[k], r);
      assert g[k] == h[k];
    }
    if EverNotRunning(h, from, r) {
      var k :| from <= k < |h| && !Running(h[k], r);
      assert g[k] == h[k];
    }
  }

  const RESUME_TIMEOUT := 500
  const KILL_GRACE := 1000

  /** `resume_restored_processes`. True means that both groups were continued, basis first, and both
      recorded processes ran afterwards. False without a mishap means that one of them was not
      there, not in its group, or not running at some look. */
  method ResumeRestoredProcesses(sys: System, worker: RT.Record, basis: RT.Record) returns (ok: bool)
    requires sys.Valid() && worker.pgid.Some? && basis.pgid.Some?
    modifies sys
    ensures sys.Valid() && old(sys.history) <= sys.history && old(sys.sent) <= sys.sent && sys.mishaps >= old(sys.mishaps)
    ensures var sends := sys.sent[|old(sys.sent)|..];
      && |sends| <= 2
      && (|sends| >= 1 ==> Continued(sys.history, |old(sys.history)|, sends[0], basis))
      && (|sends| == 2 ==> Continued(sys.history, |old(sys.history)|, sends[1], worker))
      && (ok ==> |sends| == 2
                 && EverRunning(sys.history, sends[1].at, worker) && EverRunning(sys.history, sends[1].at, basis))
      && (!ok && sys.mishaps == old(sys.mishaps) && worker.identity.Some? && basis.identity.Some?
          && worker.pgid.value != sys.own && basis.pgid.value != sys.own ==>
          || EverUnhealthy(sys.history, |old(sys.history)|, worker) || EverUnhealthy(sys.history, |old(sys.history)|, basis)
          || (|sends| == 2
              && (EverNotRunning(sys.history, sends[1].at, worker) || EverNotRunning(sys.history, sends[1].at, basis))))
      // After both signals only a role about to go, or half a second, ends the wait.
      && (!ok && |sends| == 2 ==>
          || EverTerminal(sys.history, sends[1].at, worker.pid) || EverTerminal(sys.history, sends[1].at, basis.pid)
          || (sends[1].at < |sys.history| && sys.now.clock >= sys.history[sends[1].at].clock + 500))
  {
    hide Continued, EverRunning, EverUnhealthy, EverNotRunning, NamedBefore, Evolving;
    ghost var start, before := |sys.history|, sys.sent;
    ok := ContinueRole(sys, basis);
    if !ok {
      return;
    }
    ghost var afterBasis := sys.history;
    ok := ContinueRole(sys, worker);
    ContinuedLater(afterBasis, sys.history, start, start, sys.sent[|before|], basis);
    if !ok {
      if EverUnhealthy(sys.history, |afterBasis|, worker) {
        UnhealthyLater(sys.history, sys.history, |afterBasis|, start, worker);
      }
      return;
    }
    ContinuedLater(sys.history, sys.history, |afterBasis|, start, sys.sent[|before| + 1], worker);
    ghost var resumed, from := sys.history, sys.sent[|before| + 1].at;
    LeadersSeen(resumed, start, |afterBasis|, sys.sent[|before|], sys.sent[|before| + 1], worker, basis);
    ghost var continued := sys.now.clock;
    ok := PollUntilRunning(sys, worker, basis, RESUME_TIMEOUT, from);
    ClockGrows(resumed, from, |resumed| - 1);
    assert sys.history[from] == resumed[from];
    ContinuedLater(resumed, sys.history, start, start, sys.sent[|before|], basis);
    ContinuedLater(resumed, sys.history, start, start, sys.sent[|before| + 1], worker);
  }

  lemma LeadersSeen(h: seq<Kernel>, start: nat, between: nat, first: Send, second: Send, worker: RT.Record, basis: RT.Record)
    requires Continued(h, start, first, basis) && Continued(h, between, second, worker) && first.at < between
    ensures second.at < |h|
    ensures NamedBefore(h, 0, second.at, worker.pid, worker.identity, None)
    ensures NamedBefore(h, 0, second.at, basis.pid, basis.identity, None)
  {
  }

  // ---------------------------------------------------------------- termination

  function Concat(parts: seq<seq<Send>>): seq<Send> {
    if parts == [] then [] else Concat(parts[..|parts| - 1]) + parts[|parts| - 1]
  }

  /** The signals of a termination, group by group in this order: TERM and KILL at most, each after a
      look that found the group's representative alive under its pid. */
  ghost predicate GroupwiseGuarded(h: seq<Kernel>, from: nat, parts: seq<seq<Send>>, order: seq<int>, reps: map<int, RT.Record>) {
    && |parts| <= |order|
    && forall i | 0 <= i < |parts| ::
      order[i] in reps
      && TermThenKill(h, from, parts[i], order[i], reps[order[i]].pid, reps[order[i]].identity, reps[order[i]].startTicks, 0)
  }

  lemma GroupwiseLater(h: seq<Kernel>, g: seq<Kernel>, from: nat, parts: seq<seq<Send>>, order: seq<int>, reps: map<int, RT.Record>)
    requires GroupwiseGuarded(h, from, parts, order, reps) && h <= g
    ensures GroupwiseGuarded(g, from, parts, order, reps)
  {
    hide TermThenKill;
    forall i | 0 <= i < |parts|
      ensures TermThenKill(g, from, parts[i], order[i], reps[order[i]].pid, reps[order[i]].identity, reps[order[i]].startTicks, 0)
    {
      TermLater(h, g, from, from, parts[i], order[i], reps[order[i]]);
    }
  }

  lemma TermLater(h: seq<Kernel>, g: seq<Kernel>, from: nat, earlier: nat, sends: seq<Send>, group: int, r: RT.Record)
    requires TermThenKill(h, from, sends, group, r.pid, r.identity, r.startTicks, 0) && h <= g && earlier <= from
    ensures TermThenKill(g, earlier, sends, group, r.pid, r.identity, r.startTicks, 0)
  {
    hide NamedBefore;
    if |sends| == 2 {
      DueLater(h, g, sends[0].at + 1, sends[0].at + 1, sends[1].at, group);
    } else if |sends| == 1 && sends[0].signal == Kill {
      DueLater(h, g, from, earlier, sends[0].at, group);
    }
    forall s | s in sends ensures NamedBefore(g, earlier, s.at, r.pid, r.identity, r.startTicks) {
      NamedLater(h, g, from, s.at, r.pid, r.identity, r.startTicks);
      NamedSince(g, from, earlier, s.at, r.pid, r.identity, r.startTicks);
    }
  }

  lemma DueLater(h: seq<Kernel>, g: seq<Kernel>, from: nat, earlier: nat, to: nat, group: int)
    requires SeenLive(h, from, to, group) && h <= g && earlier <= from
    ensures SeenLive(g, earlier, to, group)
  {
    var k :| from <= k < to && k < |h| && GroupLive(h[k], group);
    assert g[k] == h[k];
  }

  function PidsOf(tree: seq<RT.Record>): (pids: seq<int>)
    ensures |pids| == |tree| && forall i | 0 <= i < |tree| :: pids[i] == tree[i].pid
  {
    seq(|tree|, i requires 0 <= i < |tree| => tree[i].pid)
  }

  /** Every process that held a captured pid when the termination began is dead. */
  ghost predicate AllDead(tree: seq<RT.Record>, start: Kernel, k: Kernel) {
    forall b | b in start.table.born && b.pid > 0 && (exists r | r in tree :: r.pid == b.pid) :: Dead(k.table, b)
  }

  lemma GoneMeansDead(h: seq<Kernel>, from: nat, groups: seq<int>, tree: seq<RT.Record>, start: nat)
    requires Evolving(h) && start < from <= |h| && AllGone(h, from, PidsOf(tree), groups)
    ensures AllDead(tree, h[start], h[|h| - 1])
  {
    hide Evolving;
    forall b, r | b in h[start].table.born && b.pid > 0 && r in tree && r.pid == b.pid
      ensures Dead(h[|h| - 1].table, b)
    {
      var i :| 0 <= i < |tree| && tree[i] == r;
      assert PidsOf(tree)[i] in PidsOf(tree);
      assert EverVacant(h, from, b.pid);
      assert h[..|h|] == h;
      StartEarlier(h, from, start, b.pid);
      VacantMeansDead(h, start, |h| - 1, b.pid, b, |h| - 1);
    }
  }

  lemma StartEarlier(h: seq<Kernel>, from: nat, start: nat, pid: int)
    requires EverVacant(h, from, pid) && start <= from
    ensures EverVacant(h, start, pid)
  {
  }

  /** Kill every captured group once, the root's own group last, and wait. A verified result means
      that whatever held a captured pid is dead for good and each group was seen empty; an
      unverified one that something was still seen. */
  method TerminateRestoredTree(sys: System, tree: seq<RT.Record>, rootPid: Option<int>)
    returns (verified: bool, ghost parts: seq<seq<Send>>, ghost order: seq<int>, ghost reps: map<int, RT.Record>)
    requires sys.Valid()
    modifies sys
    ensures sys.Valid() && old(sys.history) <= sys.history && old(sys.sent) <= sys.sent && sys.mishaps >= old(sys.mishaps)
    ensures RT.Represents(tree, reps) && RT.NoRepeats(order) && (forall g :: g in order <==> g in reps)
    ensures forall i | 0 <= i < |order| && Some(order[i]) == RT.RootGroup(tree, rootPid) :: i == |order| - 1
    ensures sys.sent == old(sys.sent) + Concat(parts) && |parts| == |order|
    ensures GroupwiseGuarded(sys.history, |old(sys.history)|, parts, order, reps)
    ensures verified ==> AllDead(tree, old(sys.now), sys.now)
    ensures verified ==> AllGone(sys.history, |old(sys.history)|, PidsOf(tree), order)
    ensures !verified ==> EverRemaining(sys.history, |old(sys.history)|, PidsOf(tree), order)
    ensures !verified ==> sys.now.clock >= old(sys.now.clock) + 1000
  {
    hide Evolving, AllGone, EverRemaining, GroupwiseGuarded, AllDead, RT.Represents;
    ghost var start := |sys.history|;
    var groups, todo, representatives;
    representatives, groups := RT.GroupRepresentatives(tree);
    todo := RT.KillOrder(groups, RT.RootGroup(tree, rootPid));
    RootLast(todo, groups, tree, rootPid);
    forall i | 0 <= i < |todo| ensures todo[i] in representatives {
      assert todo[i] in todo;
    }
    parts := KillGroups(sys, todo, representatives);
    ghost var killed := sys.history;
    verified := WaitForQuiescence(sys, PidsOf(tree), todo, KILL_GRACE);
    ClockGrows(killed, start - 1, |killed| - 1);
    GroupwiseLater(killed, sys.history, start, parts, todo, representatives);
    if verified {
      GoneMeansDead(sys.history, |killed|, todo, tree, start - 1);
      GoneSince(sys.history, |killed|, start, PidsOf(tree), todo);
    } else {
      RemainingSince(sys.history, |killed|, start, PidsOf(tree), todo);
    }
    order, reps := todo, representatives;
  }

  lemma RootLast(order: seq<int>, groups: seq<int>, tree: seq<RT.Record>, rootPid: Option<int>)
    requires order == RT.KillOrder(groups, RT.RootGroup(tree, rootPid)) && RT.NoRepeats(groups)
    ensures RT.NoRepeats(order) && forall g :: g in order <==> g in groups
    ensures forall i | 0 <= i < |order| && Some(order[i]) == RT.RootGroup(tree, rootPid) :: i == |order| - 1
  {
    RT.SameCounts(order, groups);
    var last := |order| - 1;
    assert forall i | 0 <= i < last :: order[i] != order[last];
  }

  /** One termination per group; `parts` are the signals each one sent. */
  method KillGroups(sys: System, order: seq<int>, reps: map<int, RT.Record>) returns (ghost parts: seq<seq<Send>>)
    requires sys.Valid() && forall i | 0 <= i < |order| :: order[i] in reps
    modifies sys
    ensures sys.Valid() && old(sys.history) <= sys.history && old(sys.sent) <= sys.sent && sys.mishaps >= old(sys.mishaps)
    ensures sys.sent == old(sys.sent) + Concat(parts) && |parts| == |order|
    ensures GroupwiseGuarded(sys.history, |old(sys.history)|, parts, order, reps)
  {
    hide Evolving, TermThenKill;
    parts := [];
    for i := 0 to |order|
      invariant sys.Valid() && old(sys.history) <= sys.history && sys.mishaps >= old(sys.mishaps)
      invariant sys.sent == old(sys.sent) + Concat(parts) && |parts| == i
      invariant GroupwiseGuarded(sys.history, |old(sys.history)|, parts, order, reps)
    {
      ghost var before, sent := sys.history, sys.sent;
      var record := reps[order[i]];
      var receipt := TerminateProcessGroup(sys, order[i], record.pid, record.identity, record.startTicks, 0, KILL_GRACE);
      GroupwiseLater(before, sys.history, |old(sys.history)|, parts, order, reps);
      ghost var part := sys.sent[|sent|..];
      TermLater(sys.history, sys.history, |before|, |old(sys.history)|, part, order[i], record);
      assert (parts + [part])[..i] == parts && sys.sent == sent + part;
      assert Concat(parts + [part]) == Concat(parts) + part;
      parts := parts + [part];
    }
  }
}
