/** One controller at work on the shared state. Every primitive first lets the rest of the
    world move, and every state passed through is kept in `history`. */
module LazyMachine {
  import opened Options
  import opened Births
  import opened LazyWorld

  /** Every state meets the invariant and every step is one the protocol allows. */
  ghost predicate Lawful(h: seq<Sys>) {
    && (forall i | 0 <= i < |h| :: Inv(h[i]))
    && (forall i | 0 < i < |h| :: Safe(h[i - 1], h[i]))
  }

  class Machine {
    var now: Sys
    var history: seq<Sys>

    /** Steps that gave no conclusive answer: a `/proc` entry or file that could not be read, a
        failed write or unlink, a lost helper report, a passed deadline, an interrupt, a pid given
        out again between two steps. */
    var mishaps: nat

    ghost predicate Valid()
      reads this
    {
      |history| > 0 && history[|history| - 1] == now && Inv(now) && Lawful(history)
    }

    constructor (table: Table)
      requires WellFormed(table)
      ensures Valid() && history == [now] && now.disk == EMPTY_DISK
      ensures now.gates == map[] && now.deliveries == [] && mishaps == 0
    {
      mishaps := 0;
      now := Sys(table, map[], map[], map[], None, {}, EMPTY_DISK, [], 0);
      history := [Sys(table, map[], map[], map[], None, {}, EMPTY_DISK, [], 0)];
    }

    /** One step of the history. */
    method Move(next: Sys)
      requires Valid() && Inv(next) && Safe(now, next)
      modifies this
      ensures Valid() && now == next && history == old(history) + [next] && mishaps == old(mishaps)
    {
      now := next;
      history := history + [next];
    }

    /** The kernel and CRIU take any number of steps. */
    method Interfere()
      requires Valid()
      modifies this
      ensures Valid() && old(history) <= history && Rely(old(now), now) && mishaps >= old(mishaps)
      ensures mishaps == old(mishaps) ==> NoReuse(old(now).table, now.table)
    {
      RelyReflexive(now);
      var next :| Rely(now, next);
      RelyKeepsInv(now, next);
      var reuse := !NoReuse(now.table, next.table);
      Move(next);
      if reuse {
        Mishap();
      }
    }

    /** `time.sleep`: some time passes, and so may anything else. */
    method Sleep()
      requires Valid()
      modifies this
      ensures Valid() && old(history) <= history && Rely(old(now), now) && old(now).clock < now.clock
      ensures mishaps >= old(mishaps)
    {
      EnvMoveIsRely(now, Tick);
      assert now.clock < EnvApply(now, Tick).clock;
      var next: Sys :| Rely(now, next) && now.clock < next.clock;
      RelyKeepsInv(now, next);
      var reuse := !NoReuse(now.table, next.table);
      Move(next);
      if reuse {
        Mishap();
      }
    }

    method Mishap()
      requires Valid()
      modifies this`mishaps
      ensures Valid() && mishaps == old(mishaps) + 1
    {
      mishaps := mishaps + 1;
    }

    /** Whether the outside world answers: a read succeeds, a report comes back, nothing is raised. */
    method Answers() returns (ok: bool)
      requires Valid()
      modifies this`mishaps
      ensures Valid() && mishaps == old(mishaps) + if ok then 0 else 1
    {
      ok := *;
      if !ok {
        Mishap();
      }
    }

    /** A step that may fail: it raises with or without having taken effect. */
    method Attempt(next: Sys) returns (ok: bool)
      requires Valid() && Inv(next) && Safe(now, next)
      modifies this
      ensures Valid() && old(history) <= history
      ensures now == next || (!ok && now == old(now))
      ensures if ok then mishaps == old(mishaps) else mishaps > old(mishaps)
    {
      ok := *;
      var took: bool := *;
      if ok || took {
        Move(next);
      }
      if !ok {
        Mishap();
      }
    }

    // -------------------------------------------------------------- reads

    method PidAlive(pid: nat) returns (alive: bool)
      requires Valid()
      modifies this
      ensures Valid() && old(history) <= history && Rely(old(now), now)
      ensures alive <==> pid in now.table.live
      ensures mishaps >= old(mishaps) && (mishaps == old(mishaps) ==> NoReuse(old(now).table, now.table))
    {
      Interfere();
      alive := pid in now.table.live;
    }

    /** `/proc/PID/stat`; it may be unreadable even while the process exists. */
    method StartTicks(pid: nat) returns (ticks: Option<nat>)
      requires Valid()
      modifies this
      ensures Valid() && old(history) <= history && Rely(old(now), now)
      ensures ticks.Some? ==> Alive(now.table, Birth(pid, ticks.value))
      ensures mishaps >= old(mishaps) && (ticks.None? ==> mishaps > old(mishaps))
      ensures mishaps == old(mishaps) ==> NoReuse(old(now).table, now.table)
    {
      Interfere();
      var readable: bool := *;
      ticks := if readable && pid in now.table.live then Some(now.table.live[pid]) else None;
      if ticks.None? {
        Mishap();
      }
    }

    method ReadPidfile(name: Name) returns (pid: Option<nat>)
      requires Valid()
      modifies this
      ensures Valid() && old(history) <= history && Rely(old(now), now)
      ensures pid.Some? ==> name in now.disk.pidfiles && now.disk.pidfiles[name] == pid.value
      ensures mishaps >= old(mishaps) && (pid.None? ==> mishaps > old(mishaps))
      ensures mishaps == old(mishaps) ==> NoReuse(old(now).table, now.table)
    {
      Interfere();
      var readable: bool := *;
      pid := if readable && name in now.disk.pidfiles then Some(now.disk.pidfiles[name]) else None;
      if pid.None? {
        Mishap();
      }
    }

    // -------------------------------------------------------------- crash

    /** The controller died after step `k` of its history instead of carrying on. */
    method CrashAfter(k: nat)
      requires Valid() && k < |history|
      modifies this
      ensures Valid() && history == old(history)[..k + 1] + [now]
      ensures now == Crashed(old(history)[k])
    {
      CrashKeepsInv(history[k]);
      var next := Crashed(history[k]);
      now := next;
      history := history[..k + 1] + [next];
    }
  }
}
