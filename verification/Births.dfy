/** The kernel's process table, seen the way `/proc` shows it: a pid names whatever process
    occupies the entry now, and only (pid, start ticks) names one process for good. */
module Births {

  /** One process incarnation. */
  datatype Birth = Birth(pid: nat, ticks: nat)

  /** `live` maps an occupied pid to the start ticks of its occupant (a zombie occupies its
      entry until it is reaped); `born` is every incarnation there has ever been. */
  datatype Table = Table(live: map<nat, nat>, born: set<Birth>)

  predicate Alive(t: Table, b: Birth) {
    b.pid in t.live && t.live[b.pid] == b.ticks
  }

  /** The birth has happened and is over. */
  predicate Dead(t: Table, b: Birth) {
    b in t.born && !Alive(t, b)
  }

  predicate WellFormed(t: Table) {
    forall p | p in t.live :: Birth(p, t.live[p]) in t.born
  }

  /** Anything the kernel may do between two reads: processes exit, new ones appear (a freed
      pid may be given out again), but no incarnation returns once it is gone. */
  predicate Evolves(t: Table, u: Table) {
    && WellFormed(u)
    && t.born <= u.born
    && forall b | b in t.born :: Alive(u, b) ==> Alive(t, b)
  }

  lemma DeadStaysDead(t: Table, u: Table, b: Birth)
    requires Evolves(t, u) && Dead(t, b)
    ensures Dead(u, b)
  {
  }

  lemma EvolvesTransitive(t: Table, u: Table, v: Table)
    requires Evolves(t, u) && Evolves(u, v)
    ensures Evolves(t, v)
  {
  }

  /** No pid of an earlier process was given to a new one. */
  predicate NoReuse(t: Table, u: Table) {
    forall b, c | b in u.born && b !in t.born && c in t.born :: b.pid != c.pid
  }

  /** Without reuse, whoever holds a pid held it before, if anybody did. */
  lemma SameOccupant(t: Table, u: Table, pid: nat)
    requires WellFormed(t) && Evolves(t, u) && NoReuse(t, u) && pid in t.live && pid in u.live
    ensures u.live[pid] == t.live[pid]
  {
    var before, after := Birth(pid, t.live[pid]), Birth(pid, u.live[pid]);
    assert before in t.born && after in u.born;
    assert Alive(u, after);
  }

  /** The kernel never runs out of births. */
  lemma {:induction false} PidsAreBounded(born: set<Birth>) returns (n: nat)
    ensures forall b | b in born :: b.pid < n
    decreases |born|
  {
    if born == {} {
      n := 0;
    } else {
      var b :| b in born;
      var m := PidsAreBounded(born - {b});
      n := if b.pid < m then m else b.pid + 1;
    }
  }

  lemma FreshBirthExists(t: Table)
    requires WellFormed(t)
    ensures exists b: Birth :: b.pid !in t.live && b !in t.born
  {
    var n := PidsAreBounded(t.born);
    forall p | p in t.live ensures p < n {
      assert Birth(p, t.live[p]) in t.born;
    }
    assert Birth(n, 0).pid !in t.live && Birth(n, 0) !in t.born;
  }
}
