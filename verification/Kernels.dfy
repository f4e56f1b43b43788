/** The kernel as the pool code sees it: the process table with the group and state of every
    process, reads that name a pid or a group, and signals to whole groups. */
module Kernels {
  import opened Options
  import opened Births
  import PythonText

  /** `groups` and `states` say what they say about live births only; the clock counts milliseconds. */
  datatype Kernel = Kernel(table: Table, groups: map<Birth, nat>, states: map<Birth, char>, clock: nat)

  /** `process_birth_identity` on a system with `/proc`. */
  function Identity(ticks: nat): string {
    "linux-proc:" + PythonText.Decimal(ticks)
  }

  lemma IdentityNames(a: nat, b: nat)
    requires Identity(a) == Identity(b)
    ensures a == b
  {
    var head := |"linux-proc:"|;
    assert PythonText.Decimal(a) == Identity(a)[head..] && PythonText.Decimal(b) == Identity(b)[head..];
    PythonText.DecimalValue(a);
    PythonText.DecimalValue(b);
  }

  predicate Occupied(k: Kernel, pid: int) {
    pid > 0 && pid in k.table.live
  }

  function Occupant(k: Kernel, pid: int): Birth
    requires Occupied(k, pid)
  {
    Birth(pid, k.table.live[pid])
  }

  predicate MemberOf(k: Kernel, b: Birth, g: int) {
    Alive(k.table, b) && b in k.groups && k.groups[b] == g
  }

  /** A process group lives while it has a member, be it a zombie. */
  predicate GroupLive(k: Kernel, g: int) {
    exists b | b in k.table.born :: MemberOf(k, b, g)
  }

  predicate Described(k: Kernel) {
    && WellFormed(k.table)
    && forall b | b in k.table.born :: Alive(k.table, b) ==> b in k.groups && b in k.states
  }

  /** A group that is gone can appear again only under a process with its number. */
  predicate GroupReturns(k: Kernel, l: Kernel, g: int) {
    exists b | b in l.table.born :: b.pid == g && (b !in k.table.born || Alive(k.table, b))
  }

  predicate Moves(k: Kernel, l: Kernel) {
    && Evolves(k.table, l.table) && Described(l) && k.clock <= l.clock
    && forall b | b in l.groups :: MemberOf(l, b, l.groups[b]) && !GroupLive(k, l.groups[b]) ==> GroupReturns(k, l, l.groups[b])
  }

  lemma NewGroup(k: Kernel, l: Kernel, g: int)
    requires Moves(k, l) && GroupLive(l, g) && !GroupLive(k, g)
    ensures GroupReturns(k, l, g)
  {
  }

  ghost predicate Evolving(h: seq<Kernel>) {
    (forall i | 0 <= i < |h| :: Described(h[i])) && (forall i | 0 < i < |h| :: Moves(h[i - 1], h[i]))
  }

  // ---------------------------------------------------------------- along a history

  lemma MovesTransitive(k: Kernel, l: Kernel, m: Kernel)
    requires Moves(k, l) && Moves(l, m)
    ensures Moves(k, m)
  {
    EvolvesTransitive(k.table, l.table, m.table);
    forall a | a in m.groups && MemberOf(m, a, m.groups[a]) && !GroupLive(k, m.groups[a])
      ensures GroupReturns(k, m, m.groups[a])
    {
      var g := m.groups[a];
      assert GroupLive(m, g);
      if GroupLive(l, g) {
        NewGroup(k, l, g);
        var b :| b in l.table.born && b.pid == g && (b !in k.table.born || Alive(k.table, b));
        assert b in m.table.born;
      } else {
        NewGroup(l, m, g);
        var b :| b in m.table.born && b.pid == g && (b !in l.table.born || Alive(l.table, b));
        assert b !in k.table.born || Alive(k.table, b);
      }
    }
  }

  lemma MovesReflexive(k: Kernel)
    requires Described(k)
    ensures Moves(k, k)
  {
  }

  lemma {:induction false} MovesAlong(h: seq<Kernel>, i: nat, j: nat)
    requires Evolving(h) && i <= j < |h|
    ensures Moves(h[i], h[j])
    decreases j
  {
    hide Moves;
    if i == j {
      MovesReflexive(h[i]);
    } else {
      MovesAlong(h, i, j - 1);
      MovesTransitive(h[i], h[j - 1], h[j]);
    }
  }

  /** Alive before and after means alive between. */
  lemma AliveBetween(h: seq<Kernel>, i: nat, j: nat, l: nat, b: Birth)
    requires Evolving(h) && i <= j <= l < |h| && Alive(h[i].table, b) && Alive(h[l].table, b)
    ensures Alive(h[j].table, b)
  {
    hide Evolving, GroupLive, GroupReturns;
    assert Described(h[i]) by { MovesAlong(h, i, i); }
    MovesAlong(h, i, j);
    MovesAlong(h, j, l);
  }

  ghost predicate EverVacant(h: seq<Kernel>, from: nat, pid: int) {
    exists k | from <= k < |h| :: !Occupied(h[k], pid)
  }

  ghost predicate EverEmpty(h: seq<Kernel>, from: nat, g: int) {
    exists k | from <= k < |h| :: !GroupLive(h[k], g)
  }

  /** A pid seen free: every process that had it before is dead, then and ever after. */
  lemma VacantMeansDead(h: seq<Kernel>, from: nat, to: nat, pid: int, b: Birth, j: nat)
    requires Evolving(h) && from <= to <= j < |h| && EverVacant(h[..to + 1], from, pid)
    requires b in h[from].table.born && b.pid == pid > 0
    ensures Dead(h[j].table, b)
  {
    hide Evolving, GroupLive, GroupReturns;
    var k :| from <= k < |h[..to + 1]| && !Occupied(h[..to + 1][k], pid);
    assert h[..to + 1][k] == h[k];
    MovesAlong(h, from, k);
    MovesAlong(h, k, j);
  }

  // ---------------------------------------------------------------- reads and signals

  datatype Signal = Term | Kill | Cont

  /** A signal that reached a live group; `at` is the kernel it met. */
  datatype Send = Send(group: int, signal: Signal, at: nat)

  datatype SendResult = Sent | NoGroup | NotAllowed

  class System {
    const own: nat      // the controller's own process group
    var now: Kernel
    var history: seq<Kernel>
    var sent: seq<Send>

    /** `/proc` entries that could not be read, and signals the kernel did not permit. */
    var mishaps: nat

    ghost predicate Valid()
      reads this
    {
      && |history| > 0 && history[|history| - 1] == now && Evolving(history)
      && forall i | 0 <= i < |sent| :: sent[i].at < |history|
    }

    constructor (k: Kernel, own: nat)
      requires Described(k)
      ensures Valid() && now == k && history == [k] && sent == [] && mishaps == 0 && this.own == own
    {
      this.own := own;
      now := k;
      history := [k];
      sent := [];
      mishaps := 0;
    }

    /** Processes come and go, change state, and groups with them. */
    method Elapse()
      requires Valid()
      modifies this`now, this`history
      ensures Valid() && history == old(history) + [now]
    {
      MovesReflexive(now);
      var next: Kernel :| Moves(now, next);
      assert Moves(now, next);
      now := next;
      history := history + [next];
    }

    /** Some time passes. */
    method Sleep()
      requires Valid()
      modifies this`now, this`history
      ensures Valid() && history == old(history) + [now] && now.clock > old(now.clock)
    {
      var next := now.(clock := now.clock + 1);
      Waited(now, next);
      now := next;
      history := history + [next];
    }

    method Mishap()
      requires Valid()
      modifies this`mishaps
      ensures Valid() && mishaps == old(mishaps) + 1
    {
      mishaps := mishaps + 1;
    }

    /** `process_birth_identity` */
    method ReadIdentity(pid: int) returns (identity: Option<string>)
      requires Valid()
      modifies this`now, this`history, this`mishaps
      ensures Valid() && history == old(history) + [now] && mishaps >= old(mishaps)
      ensures identity.Some? ==> Occupied(now, pid) && identity.value == Identity(Occupant(now, pid).ticks)
      ensures identity.None? && mishaps == old(mishaps) ==> !Occupied(now, pid)
    {
      Elapse();
      var readable: bool := *;
      if Occupied(now, pid) && readable {
        return Some(Identity(Occupant(now, pid).ticks));
      }
      if Occupied(now, pid) {
        Mishap();
      }
      identity := None;
    }

    /** `process_start_ticks` */
    method ReadStartTicks(pid: int) returns (ticks: Option<int>)
      requires Valid()
      modifies this`now, this`history, this`mishaps
      ensures Valid() && history == old(history) + [now] && mishaps >= old(mishaps)
      ensures ticks.Some? ==> Occupied(now, pid) && ticks.value == Occupant(now, pid).ticks
      ensures ticks.None? && mishaps == old(mishaps) ==> !Occupied(now, pid)
    {
      Elapse();
      var readable: bool := *;
      if Occupied(now, pid) && readable {
        return Some(Occupant(now, pid).ticks);
      }
      if Occupied(now, pid) {
        Mishap();
      }
      ticks := None;
    }

    /** `process_state` */
    method ReadState(pid: int) returns (state: Option<char>)
      requires Valid()
      modifies this`now, this`history, this`mishaps
      ensures Valid() && history == old(history) + [now] && mishaps >= old(mishaps)
      ensures state.Some? ==>
        Occupied(now, pid) && Occupant(now, pid) in now.states && state.value == now.states[Occupant(now, pid)]
      ensures state.None? && mishaps == old(mishaps) ==> !Occupied(now, pid)
    {
      Elapse();
      var readable: bool := *;
      if Occupied(now, pid) {
        OccupantDescribed(now, pid);
        if readable {
          return Some(now.states[Occupant(now, pid)]);
        }
        Mishap();
      }
      state := None;
    }

    /** `os.getpgid`; `None` stands for the error about a missing process. */
    method GroupOf(pid: int) returns (group: Option<int>)
      requires Valid()
      modifies this`now, this`history
      ensures Valid() && history == old(history) + [now]
      ensures if Occupied(now, pid)
              then Occupant(now, pid) in now.groups && group == Some(now.groups[Occupant(now, pid)]) else group.None?
    {
      Elapse();
      if Occupied(now, pid) {
        OccupantDescribed(now, pid);
        return Some(now.groups[Occupant(now, pid)]);
      }
      group := None;
    }

    /** `kill(pid, 0)`, for which a process without permission is alive too. */
    method PidAlive(pid: int) returns (alive: bool)
      requires Valid()
      modifies this`now, this`history
      ensures Valid() && history == old(history) + [now] && (alive <==> Occupied(now, pid))
    {
      Elapse();
      alive := Occupied(now, pid);
    }

    /** `process_group_is_alive` */
    method GroupAlive(group: int) returns (alive: bool)
      requires Valid()
      modifies this`now, this`history
      ensures Valid() && history == old(history) + [now] && (alive <==> GroupLive(now, group))
    {
      Elapse();
      alive := GroupLive(now, group);
    }

    /** `signal_process_group`: never the controller's own group. */
    method SignalGroup(group: int, signal: Signal) returns (r: SendResult)
      requires Valid()
      modifies this
      ensures Valid() && history == old(history) + [now] && mishaps >= old(mishaps)
      ensures sent == if r.Sent? then old(sent) + [Send(group, signal, |history| - 1)] else old(sent)
      ensures r.Sent? ==> group != own && GroupLive(now, group)
      ensures r.NoGroup? ==> !GroupLive(now, group)
      ensures r.NotAllowed? ==> group == own || mishaps > old(mishaps)
    {
      Elapse();
      if group == own {
        return NotAllowed;
      }
      if !GroupLive(now, group) {
        return NoGroup;
      }
      var permitted: bool := *;
      if !permitted {
        Mishap();
        return NotAllowed;
      }
      sent := sent + [Send(group, signal, |history| - 1)];
      r := Sent;
    }
  }

  lemma Waited(k: Kernel, l: Kernel)
    requires Described(k) && l == k.(clock := k.clock + 1)
    ensures Moves(k, l)
  {
    assert forall b, g :: MemberOf(l, b, g) <==> MemberOf(k, b, g);
    assert forall g :: GroupLive(l, g) <==> GroupLive(k, g);
  }

  lemma OccupantDescribed(k: Kernel, pid: int)
    requires Described(k) && Occupied(k, pid)
    ensures Alive(k.table, Occupant(k, pid)) && Occupant(k, pid) in k.table.born
    ensures Occupant(k, pid) in k.groups && Occupant(k, pid) in k.states
  {
  }
}
