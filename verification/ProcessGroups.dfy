/** Waiting for pids and groups to go, and terminating a group whose leader's birth is checked
    before every signal. */
module ProcessGroups {
  import opened Options
  import opened Births
  import opened Kernels

  // ---------------------------------------------------------------- waiting

  /** Every pid was seen free, and every group empty, at some time from `from` on. */
  ghost predicate AllGone(h: seq<Kernel>, from: nat, pids: seq<int>, groups: seq<int>) {
    && (forall pid | pid in pids && pid > 0 :: EverVacant(h, from, pid))
    && (forall g | g in groups && g > 0 :: EverEmpty(h, from, g))
  }

  /** One of the pids or groups is there. */
  ghost predicate Remaining(k: Kernel, pids: seq<int>, groups: seq<int>) {
    || (exists pid | pid in pids && pid > 0 :: Occupied(k, pid))
    || (exists g | g in groups && g > 0 :: GroupLive(k, g))
  }

  ghost predicate EverRemaining(h: seq<Kernel>, from: nat, pids: seq<int>, groups: seq<int>) {
    exists k | from <= k < |h| :: Remaining(h[k], pids, groups)
  }

  lemma VacantLater(h: seq<Kernel>, g: seq<Kernel>, from: nat, pid: int)
    requires EverVacant(h, from, pid) && h <= g
    ensures EverVacant(g, from, pid)
  {
    var k :| from <= k < |h| && !Occupied(h[k], pid);
    assert g[k] == h[k];
  }

  lemma EmptyLater(h: seq<Kernel>, g: seq<Kernel>, from: nat, group: int)
    requires EverEmpty(h, from, group) && h <= g
    ensures EverEmpty(g, from, group)
  {
    var k :| from <= k < |h| && !GroupLive(h[k], group);
    assert g[k] == h[k];
  }

  lemma RemainingLater(h: seq<Kernel>, g: seq<Kernel>, from: nat, pids: seq<int>, groups: seq<int>)
    requires EverRemaining(h, from, pids, groups) && h <= g
    ensures EverRemaining(g, from, pids, groups)
  {
    var k :| from <= k < |h| && Remaining(h[k], pids, groups);
    assert g[k] == h[k];
  }

  lemma RemainingSince(h: seq<Kernel>, from: nat, earlier: nat, pids: seq<int>, groups: seq<int>)
    requires EverRemaining(h, from, pids, groups) && earlier <= from
    ensures EverRemaining(h, earlier, pids, groups)
  {
  }

  lemma GoneSince(h: seq<Kernel>, from: nat, earlier: nat, pids: seq<int>, groups: seq<int>)
    requires AllGone(h, from, pids, groups) && earlier <= from
    ensures AllGone(h, earlier, pids, groups)
  {
    forall pid | pid in pids && pid > 0 ensures EverVacant(h, earlier, pid) {
      assert EverVacant(h, from, pid);
    }
    forall g | g in groups && g > 0 ensures EverEmpty(h, earlier, g) {
      assert EverEmpty(h, from, g);
    }
  }

  /** What every read and every wait does to the history. */
  twostate predicate OnlyLooked(sys: System)
    reads sys
  {
    && old(sys.Valid()) && sys.Valid() && old(sys.history) <= sys.history && sys.sent == old(sys.sent)
    && sys.mishaps == old(sys.mishaps)
  }

  method PollPids(sys: System, pids: seq<int>, groups: seq<int>) returns (live: bool)
    requires sys.Valid()
    modifies sys`now, sys`history
    ensures OnlyLooked(sys)
    ensures live ==> EverRemaining(sys.history, |old(sys.history)|, pids, groups)
    ensures !live ==> forall pid | pid in pids && pid > 0 :: EverVacant(sys.history, |old(sys.history)|, pid)
  {
    live := false;
    ghost var start := |sys.history|;
    for i := 0 to |pids|
      invariant OnlyLooked(sys)
      invariant live ==> EverRemaining(sys.history, start, pids, groups)
      invariant !live ==> forall pid | pid in pids[..i] && pid > 0 :: EverVacant(sys.history, start, pid)
    {
      ghost var before := sys.history;
      if pids[i] > 0 {
        var alive := sys.PidAlive(pids[i]);
        if alive {
          assert Remaining(sys.history[|before|], pids, groups);
          live := true;
        } else if !live {
          assert !Occupied(sys.history[|before|], pids[i]);
        }
      }
      if live {
        if exists k | start <= k < |before| :: Remaining(before[k], pids, groups) {
          RemainingLater(before, sys.history, start, pids, groups);
        }
      } else {
        forall pid | pid in pids[..i] && pid > 0 ensures EverVacant(sys.history, start, pid) {
          VacantLater(before, sys.history, start, pid);
        }
        assert pids[..i + 1] == pids[..i] + [pids[i]];
      }
    }
    assert pids[..|pids|] == pids;
  }

  method PollGroups(sys: System, pids: seq<int>, groups: seq<int>) returns (live: bool)
    requires sys.Valid()
    modifies sys`now, sys`history
    ensures OnlyLooked(sys)
    ensures live ==> EverRemaining(sys.history, |old(sys.history)|, pids, groups)
    ensures !live ==> forall g | g in groups && g > 0 :: EverEmpty(sys.history, |old(sys.history)|, g)
  {
    live := false;
    ghost var start := |sys.history|;
    for i := 0 to |groups|
      invariant OnlyLooked(sys)
      invariant live ==> EverRemaining(sys.history, start, pids, groups)
      invariant !live ==> forall g | g in groups[..i] && g > 0 :: EverEmpty(sys.history, start, g)
    {
      ghost var before := sys.history;
      if groups[i] > 0 {
        var alive := sys.GroupAlive(groups[i]);
        if alive {
          assert Remaining(sys.history[|before|], pids, groups);
          live := true;
        } else if !live {
          assert !GroupLive(sys.history[|before|], groups[i]);
        }
      }
      if live {
        if exists k | start <= k < |before| :: Remaining(before[k], pids, groups) {
          RemainingLater(before, sys.history, start, pids, groups);
        }
      } else {
        forall g | g in groups[..i] && g > 0 ensures EverEmpty(sys.history, start, g) {
          EmptyLater(before, sys.history, start, g);
        }
        assert groups[..i + 1] == groups[..i] + [groups[i]];
      }
    }
    assert groups[..|groups|] == groups;
  }

  /** `wait_for_quiescence`: rounds of polling until a round finds nothing, or the deadline. */
  method WaitForQuiescence(sys: System, pids: seq<int>, groups: seq<int>, timeout: nat) returns (quiet: bool)
    requires sys.Valid()
    modifies sys`now, sys`history
    ensures OnlyLooked(sys)
    ensures quiet ==> AllGone(sys.history, |old(sys.history)|, pids, groups)
    ensures !quiet ==> EverRemaining(sys.history, |old(sys.history)|, pids, groups)
    ensures !quiet ==> sys.now.clock >= old(sys.now.clock) + timeout
  {
    hide EverVacant, EverEmpty, EverRemaining;
    ghost var start := |sys.history|;
    var deadline := sys.now.clock + timeout;
    while true
      invariant OnlyLooked(sys)
      decreases deadline - sys.now.clock
    {
      ghost var before := |sys.history|;
      ghost var clock := sys.now.clock;
      quiet := PollRound(sys, pids, groups);
      if quiet {
        GoneSince(sys.history, before, start, pids, groups);
        return;
      }
      RemainingSince(sys.history, before, start, pids, groups);
      if sys.now.clock >= deadline {
        return;
      }
      ClockGrows(sys.history, before - 1, |sys.history| - 1);
      sys.Sleep();
    }
  }

  lemma ClockGrows(h: seq<Kernel>, i: nat, j: nat)
    requires Evolving(h) && i <= j < |h|
    ensures h[i].clock <= h[j].clock
  {
    MovesAlong(h, i, j);
  }

  method PollRound(sys: System, pids: seq<int>, groups: seq<int>) returns (quiet: bool)
    requires sys.Valid()
    modifies sys`now, sys`history
    ensures OnlyLooked(sys)
    ensures quiet ==> AllGone(sys.history, |old(sys.history)|, pids, groups)
    ensures !quiet ==> EverRemaining(sys.history, |old(sys.history)|, pids, groups)
  {
    hide EverVacant, EverEmpty, EverRemaining;
    ghost var start := |sys.history|;
    var livePids := PollPids(sys, pids, groups);
    ghost var between := sys.history;
    var liveGroups := PollGroups(sys, pids, groups);
    quiet := !livePids && !liveGroups;
    if livePids {
      RemainingLater(between, sys.history, start, pids, groups);
    } else if liveGroups {
      RemainingSince(sys.history, |between|, start, pids, groups);
    } else {
      forall pid | pid in pids && pid > 0 ensures EverVacant(sys.history, start, pid) {
        VacantLater(between, sys.history, start, pid);
      }
      forall g | g in groups && g > 0 ensures EverEmpty(sys.history, start, g) {
        EmptySince(sys.history, |between|, start, g);
      }
    }
  }

  lemma EmptySince(h: seq<Kernel>, from: nat, earlier: nat, g: int)
    requires EverEmpty(h, from, g) && earlier <= from
    ensures EverEmpty(h, earlier, g)
  {
  }

  // ---------------------------------------------------------------- one group

  /** The pid is held by the process that was recorded: by its identity, or by its start ticks
      where no identity was recorded. */
  ghost predicate Named(k: Kernel, pid: int, identity: Option<string>, ticks: Option<int>) {
    && Occupied(k, pid)
    && match identity
       case Some(text) => text == Identity(Occupant(k, pid).ticks)
       case None => ticks == Some(Occupant(k, pid).ticks) && ticks.value > 0
  }

  ghost predicate NamedBefore(h: seq<Kernel>, from: nat, to: nat, pid: int, identity: Option<string>, ticks: Option<int>) {
    exists k | from <= k < to && k < |h| :: Named(h[k], pid, identity, ticks)
  }

  /** Another process was seen under the pid. */
  ghost predicate EverOther(h: seq<Kernel>, from: nat, pid: int, identity: Option<string>, ticks: Option<int>) {
    exists k | from <= k < |h| :: Occupied(h[k], pid) && !Named(h[k], pid, identity, ticks)
  }

  predicate NothingToCompare(identity: Option<string>, ticks: Option<int>) {
    identity.None? && (ticks.None? || ticks.value <= 0)
  }

  datatype Check = Matches | Mismatch | Unavailable

  datatype Termination = AlreadyQuiescent | IdentityMismatch | IdentityUnavailable | SignalFailed | Quiescent | Survivors

  /** `identity_failure` */
  method CheckIdentity(sys: System, pid: int, identity: Option<string>, ticks: Option<int>) returns (c: Check)
    requires sys.Valid()
    modifies sys`now, sys`history, sys`mishaps
    ensures sys.Valid() && sys.history == old(sys.history) + [sys.now] && sys.mishaps >= old(sys.mishaps)
    ensures c.Matches? ==> Named(sys.now, pid, identity, ticks)
    ensures c.Mismatch? ==> Occupied(sys.now, pid) && !Named(sys.now, pid, identity, ticks)
    ensures c.Unavailable? && sys.mishaps == old(sys.mishaps) ==>
      !Occupied(sys.now, pid) || NothingToCompare(identity, ticks)
  {
    if identity.Some? {
      var current := sys.ReadIdentity(pid);
      c := if current.None? then Unavailable else if current != identity then Mismatch else Matches;
    } else {
      var current := sys.ReadStartTicks(pid);
      c := if ticks.None? || ticks.value <= 0 || current.None? then Unavailable
           else if current != ticks then Mismatch else Matches;
    }
  }

  /** The group was seen live at some time from `from` on and before `to`. */
  ghost predicate SeenLive(h: seq<Kernel>, from: nat, to: nat, group: int) {
    exists k | from <= k < to && k < |h| :: GroupLive(h[k], group)
  }

  /** New signals, if any, are one TERM and then one KILL to this group, each after a look that
      found the recorded process under its pid, and the KILL after the grace period and a look, later
      than the TERM, that found the group still there. */
  ghost predicate TermThenKill(h: seq<Kernel>, from: nat, sends: seq<Send>, group: int, pid: int,
                               identity: Option<string>, ticks: Option<int>, grace: nat) {
    && (forall s | s in sends :: s.group == group && NamedBefore(h, from, s.at, pid, identity, ticks))
    && |sends| <= 2 && (forall s | s in sends :: s.signal != Cont)
    && (|sends| == 1 && sends[0].signal == Kill ==> SeenLive(h, from, sends[0].at, group))
    && (|sends| == 2 ==> sends[0].signal == Term && sends[1].signal == Kill)
    && (|sends| == 2 ==> KillIsDue(h, sends[0], sends[1], group, grace))
  }

  ghost predicate KillIsDue(h: seq<Kernel>, term: Send, kill: Send, group: int, grace: nat) {
    && SeenLive(h, term.at + 1, kill.at, group)
    && term.at < |h| && kill.at < |h| && h[kill.at].clock >= h[term.at].clock + grace
  }

  lemma NamedLater(h: seq<Kernel>, g: seq<Kernel>, from: nat, to: nat, pid: int, identity: Option<string>, ticks: Option<int>)
    requires NamedBefore(h, from, to, pid, identity, ticks) && h <= g
    ensures NamedBefore(g, from, to, pid, identity, ticks)
  {
    var k :| from <= k < to && k < |h| && Named(h[k], pid, identity, ticks);
    assert g[k] == h[k];
  }

  /** At most one signal more than before, sent to this group after such a look. */
  ghost predicate OneGuarded(h: seq<Kernel>, from: nat, before: seq<Send>, after: seq<Send>, group: int, signal: Signal,
                             pid: int, identity: Option<string>, ticks: Option<int>) {
    after == before
    || (|after| == |before| + 1
        && var s := after[|before|];
           after == before + [s] && s.group == group && s.signal == signal
           && NamedBefore(h, from, s.at, pid, identity, ticks))
  }

  /** The reason of a refusal: another process under the pid, none there or nothing to compare it with,
      or a mishap. */
  ghost predicate Explained(r: Termination, sys: System, before: nat, from: nat, group: int, pid: int,
                            identity: Option<string>, ticks: Option<int>)
    reads sys
  {
    && (r.SignalFailed? ==> group == sys.own || sys.mishaps > before)
    && (r.IdentityMismatch? ==> EverOther(sys.history, from, pid, identity, ticks))
    && (r.IdentityUnavailable? ==>
        sys.mishaps > before || NothingToCompare(identity, ticks) || EverVacant(sys.history, from, pid))
  }

  lemma Looked(h: seq<Kernel>, from: nat, k: nat, pid: int, identity: Option<string>, ticks: Option<int>)
    requires from <= k < |h|
    ensures Named(h[k], pid, identity, ticks) ==> NamedBefore(h, from, k + 1, pid, identity, ticks)
    ensures Occupied(h[k], pid) && !Named(h[k], pid, identity, ticks) ==> EverOther(h, from, pid, identity, ticks)
    ensures !Occupied(h[k], pid) ==> EverVacant(h, from, pid)
  {
  }

  /** Check, then signal; `Survivors` means that the wait comes next. */
  method GuardedSignal(sys: System, group: int, signal: Signal, pid: int, identity: Option<string>, ticks: Option<int>)
    returns (r: Termination)
    requires sys.Valid()
    modifies sys
    ensures sys.Valid() && old(sys.history) <= sys.history && sys.mishaps >= old(sys.mishaps)
    ensures !r.AlreadyQuiescent? && !r.Quiescent?
    ensures OneGuarded(sys.history, |old(sys.history)|, old(sys.sent), sys.sent, group, signal, pid, identity, ticks)
    ensures r.Survivors? ==> |sys.sent| == |old(sys.sent)| + 1 || EverEmpty(sys.history, |old(sys.history)|, group)
    ensures |sys.sent| > |old(sys.sent)| ==> sys.sent[|old(sys.sent)|].at == |sys.history| - 1
    ensures Explained(r, sys, old(sys.mishaps), |old(sys.history)|, group, pid, identity, ticks)
  {
    hide EverVacant, EverEmpty, EverOther, Evolving, Named, NamedBefore, Occupied, NothingToCompare, GroupLive;
    ghost var start := |sys.history|;
    var c := CheckIdentity(sys, pid, identity, ticks);
    Looked(sys.history, start, start, pid, identity, ticks);
    if c != Matches {
      return if c == Mismatch then IdentityMismatch else IdentityUnavailable;
    }
    ghost var checked := sys.history;
    var sent := sys.SignalGroup(group, signal);
    if sent.NotAllowed? {
      var stillThere := sys.GroupAlive(group);
      return SignalFailed;
    }
    if sent.NoGroup? {
      EmptyNow(sys.history, start, |sys.history| - 1, group);
    } else {
      NamedLater(checked, sys.history, start, start + 1, pid, identity, ticks);
    }
    r := Survivors;
  }

  /** After the new signal, or since `from` when there is none, the group was seen live, and the grace
      period has passed since. */
  ghost predicate Outlasted(h: seq<Kernel>, from: nat, before: seq<Send>, after: seq<Send>, group: int, grace: nat) {
    var since := if |after| > |before| then after[|after| - 1].at + 1 else from;
    && 0 < since <= |h| && SeenLive(h, since, |h|, group)
    && h[|h| - 1].clock >= h[since - 1].clock + grace
  }

  /** Check, signal, wait. */
  method SignalAndWait(sys: System, group: int, signal: Signal, pid: int, identity: Option<string>, ticks: Option<int>,
                       grace: nat)
    returns (r: Termination)
    requires sys.Valid() && group > 0
    modifies sys
    ensures sys.Valid() && old(sys.history) <= sys.history && sys.mishaps >= old(sys.mishaps) && !r.AlreadyQuiescent?
    ensures OneGuarded(sys.history, |old(sys.history)|, old(sys.sent), sys.sent, group, signal, pid, identity, ticks)
    ensures r.Quiescent? ==> EverEmpty(sys.history, |old(sys.history)|, group)
    ensures r.Survivors? ==> |sys.sent| == |old(sys.sent)| + 1 || EverEmpty(sys.history, |old(sys.history)|, group)
    ensures r.Survivors? ==> Outlasted(sys.history, |old(sys.history)|, old(sys.sent), sys.sent, group, grace)
    ensures Explained(r, sys, old(sys.mishaps), |old(sys.history)|, group, pid, identity, ticks)
  {
    hide AllGone, EverVacant, EverRemaining, EverEmpty, EverOther, Evolving, NamedBefore, Outlasted;
    ghost var start := |sys.history|;
    r := GuardedSignal(sys, group, signal, pid, identity, ticks);
    if r != Survivors {
      return;
    }
    ghost var before, signalled := sys.history, sys.sent;
    var quiet := WaitForQuiescence(sys, [], [group], grace);
    if |signalled| > |old(sys.sent)| {
      NamedLater(before, sys.history, start, signalled[|old(sys.sent)|].at, pid, identity, ticks);
    } else {
      EmptyLater(before, sys.history, start, group);
    }
    if quiet {
      GroupGone(sys.history, |before|, start, group);
    } else {
      WaitedOut(before, sys.history, start, old(sys.sent), signalled, group, grace);
    }
    r := if quiet then Quiescent else Survivors;
  }

  lemma WaitedOut(h: seq<Kernel>, g: seq<Kernel>, start: nat, before: seq<Send>, after: seq<Send>, group: int, grace: nat)
    requires Evolving(g) && h <= g && 0 < start <= |h| && EverRemaining(g, |h|, [], [group])
    requires g[|g| - 1].clock >= h[|h| - 1].clock + grace
    requires |after| > |before| ==> after[|after| - 1].at == |h| - 1
    ensures Outlasted(g, start, before, after, group, grace)
  {
    hide Evolving, GroupLive;
    var k :| |h| <= k < |g| && Remaining(g[k], [], [group]);
    assert GroupLive(g[k], group);
    assert g[|h| - 1] == h[|h| - 1];
    ClockGrows(g, start - 1, |h| - 1);
  }

  /** `terminate_process_group` with a required identity. */
  method TerminateProcessGroup(sys: System, group: int, pid: int, identity: Option<string>, ticks: Option<int>,
                               termGrace: nat, killGrace: nat)
    returns (r: Termination)
    requires sys.Valid()
    modifies sys
    ensures sys.Valid() && old(sys.history) <= sys.history && old(sys.sent) <= sys.sent && sys.mishaps >= old(sys.mishaps)
    ensures TermThenKill(sys.history, |old(sys.history)|, sys.sent[|old(sys.sent)|..], group, pid, identity, ticks, termGrace)
    ensures r.AlreadyQuiescent? || r.Quiescent? ==> group <= 0 || EverEmpty(sys.history, |old(sys.history)|, group)
    ensures r.Survivors? ==> |sys.sent| == |old(sys.sent)| + 2 || EverEmpty(sys.history, |old(sys.history)|, group)
    ensures r.Survivors? ==> Outlasted(sys.history, |old(sys.history)|, old(sys.sent), sys.sent, group, killGrace)
    ensures Explained(r, sys, old(sys.mishaps), |old(sys.history)|, group, pid, identity, ticks)
  {
    hide EverOther, AllGone, EverEmpty, EverVacant, EverRemaining, NamedBefore, TermThenKill, OneGuarded, Evolving, Outlasted;
    ghost var start, before := |sys.history|, sys.sent;
    if group <= 0 {
      NothingSent(sys.history, start, before, group, pid, identity, ticks, termGrace);
      return AlreadyQuiescent;
    }
    var alive := sys.GroupAlive(group);
    if !alive {
      NothingSent(sys.history, start, before, group, pid, identity, ticks, termGrace);
      EmptyNow(sys.history, start, |sys.history| - 1, group);
      return AlreadyQuiescent;
    }
    r := SignalAndWait(sys, group, Term, pid, identity, ticks, termGrace);
    ghost var termed, afterTerm := sys.sent, sys.history;
    TermSent(afterTerm, start, before, termed, group, pid, identity, ticks, termGrace);
    Since(afterTerm, start + 1, start, group, pid, identity, ticks);
    if r != Survivors {
      return;
    }
    r := SignalAndWait(sys, group, Kill, pid, identity, ticks, killGrace);
    KillSent(afterTerm, sys.history, start, before, termed, sys.sent, group, pid, identity, ticks, termGrace);
    Since(sys.history, |afterTerm|, start, group, pid, identity, ticks);
    if r.Survivors? {
      OutlastedSince(sys.history, |afterTerm|, start, before, termed, sys.sent, group, killGrace);
    }
    if |sys.sent| != |before| + 2 && EverEmpty(afterTerm, start, group) {
      EmptyLater(afterTerm, sys.history, start, group);
    }
  }

  lemma OutlastedSince(h: seq<Kernel>, middle: nat, start: nat, before: seq<Send>, termed: seq<Send>, killed: seq<Send>,
                       group: int, grace: nat)
    requires Evolving(h) && 0 < start <= middle && |before| <= |termed| <= |killed| && termed <= killed
    requires |termed| > |before| ==> termed[|termed| - 1].at < middle
    requires Outlasted(h, middle, termed, killed, group, grace)
    ensures Outlasted(h, start, before, killed, group, grace)
  {
    if |killed| == |termed| {
      var since := if |killed| > |before| then killed[|killed| - 1].at + 1 else start;
      var k :| middle <= k < |h| && GroupLive(h[k], group);
      ClockGrows(h, since - 1, middle - 1);
    }
  }

  lemma Since(h: seq<Kernel>, from: nat, earlier: nat, group: int, pid: int, identity: Option<string>, ticks: Option<int>)
    requires earlier <= from
    ensures EverEmpty(h, from, group) ==> EverEmpty(h, earlier, group)
    ensures EverOther(h, from, pid, identity, ticks) ==> EverOther(h, earlier, pid, identity, ticks)
    ensures EverVacant(h, from, pid) ==> EverVacant(h, earlier, pid)
  {
    hide Named;
  }

  lemma NothingSent(h: seq<Kernel>, from: nat, sent: seq<Send>, group: int, pid: int, identity: Option<string>,
                    ticks: Option<int>, grace: nat)
    ensures TermThenKill(h, from, sent[|sent|..], group, pid, identity, ticks, grace)
  {
  }

  lemma EmptyNow(h: seq<Kernel>, from: nat, k: nat, group: int)
    requires from <= k < |h| && !GroupLive(h[k], group)
    ensures EverEmpty(h, from, group)
  {
  }

  lemma GroupGone(h: seq<Kernel>, from: nat, earlier: nat, group: int)
    requires AllGone(h, from, [], [group]) && earlier <= from && group > 0
    ensures EverEmpty(h, earlier, group)
  {
    assert group in [group];
    EmptySince(h, from, earlier, group);
  }

  lemma NamedSince(h: seq<Kernel>, from: nat, earlier: nat, to: nat, pid: int, identity: Option<string>, ticks: Option<int>)
    requires NamedBefore(h, from, to, pid, identity, ticks) && earlier <= from
    ensures NamedBefore(h, earlier, to, pid, identity, ticks)
  {
  }

  lemma TermSent(h: seq<Kernel>, start: nat, before: seq<Send>, termed: seq<Send>, group: int, pid: int,
                 identity: Option<string>, ticks: Option<int>, grace: nat)
    requires OneGuarded(h, start + 1, before, termed, group, Term, pid, identity, ticks)
    ensures before <= termed && TermThenKill(h, start, termed[|before|..], group, pid, identity, ticks, grace)
  {
    hide NamedBefore;
    if termed != before {
      assert termed[|before|..] == [termed[|before|]];
      NamedSince(h, start + 1, start, termed[|before|].at, pid, identity, ticks);
    }
  }

  lemma LiveLater(h: seq<Kernel>, g: seq<Kernel>, from: nat, earlier: nat, to: nat, group: int)
    requires SeenLive(h, from, |h|, group) && h <= g && earlier <= from && |h| <= to
    ensures SeenLive(g, earlier, to, group)
  {
    var k :| from <= k < |h| && GroupLive(h[k], group);
    assert g[k] == h[k];
  }

  lemma KillSent(h: seq<Kernel>, g: seq<Kernel>, start: nat, before: seq<Send>, termed: seq<Send>, killed: seq<Send>,
                 group: int, pid: int, identity: Option<string>, ticks: Option<int>, grace: nat)
    requires h <= g && Evolving(g) && start < |h| && OneGuarded(h, start + 1, before, termed, group, Term, pid, identity, ticks)
    requires OneGuarded(g, |h|, termed, killed, group, Kill, pid, identity, ticks)
    requires Outlasted(h, start + 1, before, termed, group, grace)
    requires forall s | s in killed :: s.at < |g|
    ensures before <= termed <= killed && TermThenKill(g, start, killed[|before|..], group, pid, identity, ticks, grace)
  {
    hide NamedBefore, Evolving, SeenLive;
    TermSent(h, start, before, termed, group, pid, identity, ticks, grace);
    if termed != before {
      NamedLater(h, g, start, termed[|before|].at, pid, identity, ticks);
      assert termed[|before|..] == [termed[|before|]];
    }
    if killed != termed {
      var kill := killed[|termed|];
      NamedSince(g, |h|, start, kill.at, pid, identity, ticks);
      assert killed[|before|..] == termed[|before|..] + [kill];
      NamedEarlier(g, |h|, kill.at, pid, identity, ticks);
      assert kill in killed;
      if termed != before {
        LiveLater(h, g, termed[|before|].at + 1, termed[|before|].at + 1, kill.at, group);
        ClockGrows(g, |h| - 1, kill.at);
        assert g[|h| - 1] == h[|h| - 1] && g[termed[|before|].at] == h[termed[|before|].at];
        assert KillIsDue(g, termed[|before|], kill, group, grace);
      } else {
        LiveLater(h, g, start + 1, start, kill.at, group);
      }
    }
  }

  lemma NamedEarlier(h: seq<Kernel>, from: nat, to: nat, pid: int, identity: Option<string>, ticks: Option<int>)
    requires NamedBefore(h, from, to, pid, identity, ticks)
    ensures from < to
  {
  }
}
