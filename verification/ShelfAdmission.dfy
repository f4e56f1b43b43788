/** The admission code itself, run by one client while the others take any steps in between. Each
    call it makes is one step of the shelf's state machine, and each call of a cleanup may raise
    instead. */
module ShelfAdmission {
  import opened Options
  import opened Shelf

  /** What the steps of the other clients cannot change for `c`. */
  predicate Undisturbed(s: State, t: State, c: Client) {
    && c in s.pcs && c in t.pcs && t.pcs[c] == s.pcs[c]
    && (forall l | l in s.locks :: s.locks[l] == c ==> HoldsLock(t, c, l))
    && (forall l | l in t.locks :: t.locks[l] == c ==> HoldsLock(s, c, l))
    && (c in s.demands <==> c in t.demands)
  }

  class Room {
    var now: State
    var mishaps: nat                // exceptions raised so far: failed calls, interrupts, the body's own
    var retries: nat                // rounds over the slots after the first
    ghost var history: seq<State>   // every state so far in which the client looked or acted

    constructor (s: State)
      requires Inv(s)
      ensures now == s && mishaps == 0 && retries == 0 && history == [s]
    {
      now := s;
      mishaps := 0;
      retries := 0;
      history := [s];
    }

    /** Any number of steps by any other clients. */
    method Others(c: Client)
      requires Inv(now) && c in now.pcs
      modifies this
      ensures Inv(now) && c in now.pcs && Undisturbed(old(now), now, c)
      ensures mishaps == old(mishaps) && retries == old(retries)
      ensures history == old(history) + [now]
    {
      UndisturbedAtFirst(now, c);
      var next: State :| c in next.pcs && Inv(next) && Undisturbed(now, next, c);
      now := next;
      history := history + [now];
    }

    /** The client's own next step, after whatever the others did. */
    method Act(c: Client, a: Action)
      requires Inv(now) && Enabled(now, c, a)
      modifies this
      ensures Inv(now) && c in now.pcs && now == Apply(old(now), c, a) && mishaps == old(mishaps)
      ensures history == old(history) + [now] && retries == old(retries) + if a == Retry then 1 else 0
    {
      StepKeepsInv(now, c, a);
      if a == Retry {
        retries := retries + 1;
      }
      now := Apply(now, c, a);
      history := history + [now];
    }

    /** An exception out of a call of a cleanup. */
    method RaiseInCleanup(c: Client)
      requires Inv(now) && c in now.pcs && InCleanup(now.pcs[c])
      modifies this
      ensures Inv(now) && c in now.pcs && now == Apply(old(now), c, Raise)
      ensures mishaps == old(mishaps) + 1 && retries == old(retries)
      ensures history == old(history) + [now]
    {
      Act(c, Raise);
      mishaps := mishaps + 1;
    }
  }

  /** Steps of other clients are among the moves `Others` allows. */
  lemma {:induction false} OthersCoverRuns(h: seq<State>, moves: seq<(Client, Action)>, c: Client, i: nat)
    requires |h| == |moves| + 1 && Inv(h[0]) && c in h[0].pcs && i < |h|
    requires forall k | 0 <= k < |moves| ::
      moves[k].0 != c && Enabled(h[k], moves[k].0, moves[k].1) && h[k + 1] == Apply(h[k], moves[k].0, moves[k].1)
    ensures Inv(h[i]) && Undisturbed(h[0], h[i], c)
  {
    hide Inv, Enabled, Apply, Undisturbed, LocksConfined, FilesConfined;
    if i > 0 {
      OthersCoverRuns(h, moves, c, i - 1);
      StepKeepsInv(h[i - 1], moves[i - 1].0, moves[i - 1].1);
      StepIsConfined(h[i - 1], moves[i - 1].0, moves[i - 1].1);
      ConfinedUndisturbed(h[0], h[i - 1], h[i], moves[i - 1].0, c);
    } else {
      UndisturbedAtFirst(h[0], c);
    }
  }

  lemma UndisturbedAtFirst(s: State, c: Client)
    requires c in s.pcs
    ensures Undisturbed(s, s, c)
  {
  }

  lemma ConfinedUndisturbed(r: State, s: State, t: State, d: Client, c: Client)
    requires Undisturbed(r, s, c) && Confined(s, t, d) && d != c
    ensures Undisturbed(r, t, c)
  {
  }

  // ---------------------------------------------------------------- taking a slot

  /** Some lock of the slot is with another client. */
  predicate Busy(s: State, c: Client, slot: nat) {
    exists l | l in LockGroup(slot) :: l in s.locks && s.locks[l] != c
  }

  /** The slot was busy in some state from `from` on. */
  ghost predicate BusyDuring(h: seq<State>, from: nat, c: Client, slot: nat) {
    exists k | from <= k < |h| :: Busy(h[k], c, slot)
  }

  ghost predicate AllBusyDuring(h: seq<State>, from: nat, c: Client, slots: nat) {
    forall slot | 1 <= slot <= slots :: BusyDuring(h, from, c, slot)
  }

  lemma LaterStill(h: seq<State>, g: seq<State>, from: nat, c: Client, slots: nat)
    requires AllBusyDuring(h, from, c, slots) && h <= g
    ensures AllBusyDuring(g, from, c, slots)
  {
    forall slot | 1 <= slot <= slots ensures BusyDuring(g, from, c, slot) {
      assert BusyDuring(h, from, c, slot);
      var k :| from <= k < |h| && Busy(h[k], c, slot);
      assert g[k] == h[k];
    }
  }

  lemma SeenAt(h: seq<State>, from: nat, k: nat, c: Client, slot: nat)
    requires from <= k < |h| && Busy(h[k], c, slot)
    ensures BusyDuring(h, from, c, slot)
  {
  }

  /** A lock the attempt is about to take and finds taken is with another client. */
  lemma TakenByAnother(s: State, c: Client, capacity: nat, slot: nat, held: nat)
    requires Inv(s) && c in s.pcs && s.pcs[c] == Probing(capacity, slot, held)
    requires held < |LockGroup(slot)| && !Free(s, LockGroup(slot)[held])
    ensures Busy(s, c, slot)
  {
    assert ClientOk(s, c);
    var l := LockGroup(slot)[held];
    assert l in LockGroup(slot);
    assert l !in LockGroup(slot)[..held];
  }

  /** `_try_lock_group`: all locks of the slot, or none of them because another client had one. */
  method TryLockGroup(room: Room, c: Client, capacity: nat, slot: nat) returns (acquired: bool)
    requires Inv(room.now) && c in room.now.pcs && room.now.pcs[c] == Probing(capacity, slot, 0)
    modifies room
    ensures room.retries == old(room.retries)
    ensures Inv(room.now) && c in room.now.pcs
    ensures room.now.pcs[c] == if acquired then Acquired(capacity, slot) else NextSlot(capacity, slot)
    ensures room.mishaps == old(room.mishaps) && old(room.history) <= room.history
    ensures !acquired ==> BusyDuring(room.history, |old(room.history)|, c, slot)
  {
    hide Inv, Busy, BusyDuring, Undisturbed;
    var held := 0;
    var locks := LockGroup(slot);
    while held < |locks|
      invariant room.retries == old(room.retries)
      invariant Inv(room.now) && c in room.now.pcs && room.mishaps == old(room.mishaps) && 0 <= held <= |locks|
      invariant old(room.history) <= room.history
      invariant room.now.pcs[c] == if held < |locks| then Probing(capacity, slot, held) else Acquired(capacity, slot)
    {
      OthersKeepPc(room, c);
      var free := Free(room.now, locks[held]);
      ghost var seen := room.history;
      if !free {
        TakenByAnother(room.now, c, capacity, slot, held);
        SeenAt(room.history, |old(room.history)|, |room.history| - 1, c, slot);
      }
      room.Act(c, TryLock);
      if !free {
        UnlockAcquired(room, c, capacity, slot, held);
        BusyLater(seen, room.history, |old(room.history)|, c, slot);
        return false;
      }
      held := held + 1;
    }
    acquired := true;
  }

  lemma BusyLater(h: seq<State>, g: seq<State>, from: nat, c: Client, slot: nat)
    requires BusyDuring(h, from, c, slot) && h <= g
    ensures BusyDuring(g, from, c, slot)
  {
    var k :| from <= k < |h| && Busy(h[k], c, slot);
    assert g[k] == h[k];
  }

  method OthersKeepPc(room: Room, c: Client)
    requires Inv(room.now) && c in room.now.pcs
    modifies room
    ensures room.retries == old(room.retries)
    ensures Inv(room.now) && c in room.now.pcs && room.now.pcs[c] == old(room.now.pcs[c])
    ensures room.mishaps == old(room.mishaps) && room.history == old(room.history) + [room.now]
  {
    room.Others(c);
  }

  /** The `finally` of a failed attempt: the acquired prefix, in reverse. */
  method UnlockAcquired(room: Room, c: Client, capacity: nat, slot: nat, taken: nat)
    requires Inv(room.now) && c in room.now.pcs && taken < |LockGroup(slot)|
    requires room.now.pcs[c] == if taken > 0 then Backing(capacity, slot, taken) else NextSlot(capacity, slot)
    modifies room
    ensures room.retries == old(room.retries)
    ensures Inv(room.now) && c in room.now.pcs && room.now.pcs[c] == NextSlot(capacity, slot)
    ensures room.mishaps == old(room.mishaps) && old(room.history) <= room.history
  {
    hide Inv;
    var held := taken;
    while held > 0
      invariant room.retries == old(room.retries)
      invariant Inv(room.now) && c in room.now.pcs && room.mishaps == old(room.mishaps) && 0 <= held <= taken
      invariant old(room.history) <= room.history
      invariant room.now.pcs[c] == if held > 0 then Backing(capacity, slot, held) else NextSlot(capacity, slot)
    {
      OthersKeepPc(room, c);
      room.Act(c, Unlock);
      held := held - 1;
    }
  }

  /** One round over every slot, lowest first: a slot is passed over only while another client has a
      lock of it, so a round that finds none has seen every slot busy. */
  method ProbeSlots(room: Room, c: Client, capacity: nat) returns (slot: Option<nat>)
    requires Inv(room.now) && c in room.now.pcs && room.now.pcs[c] == Probing(capacity, 1, 0) && capacity > 0
    modifies room
    ensures room.retries == old(room.retries)
    ensures Inv(room.now) && c in room.now.pcs
    ensures room.now.pcs[c] == if slot.Some? then Acquired(capacity, slot.value) else Full(capacity)
    ensures slot.Some? ==> 1 <= slot.value <= capacity
    ensures AllBusyDuring(room.history, |old(room.history)|, c, if slot.Some? then slot.value - 1 else capacity)
    ensures room.mishaps == old(room.mishaps) && old(room.history) <= room.history
  {
    hide Inv, BusyDuring;
    var k := 1;
    while k <= capacity
      invariant room.retries == old(room.retries)
      invariant Inv(room.now) && c in room.now.pcs && room.mishaps == old(room.mishaps) && 1 <= k <= capacity + 1
      invariant old(room.history) <= room.history
      invariant room.now.pcs[c] == if k <= capacity then Probing(capacity, k, 0) else Full(capacity)
      invariant AllBusyDuring(room.history, |old(room.history)|, c, k - 1)
    {
      ghost var before := room.history;
      var acquired := TryLockGroup(room, c, capacity, k);
      LaterStill(before, room.history, |old(room.history)|, c, k - 1);
      if acquired {
        return Some(k);
      }
      BusySince(room.history, |before|, |old(room.history)|, c, k);
      k := k + 1;
    }
    slot := None;
  }

  lemma BusySince(h: seq<State>, from: nat, earlier: nat, c: Client, slot: nat)
    requires BusyDuring(h, from, c, slot) && earlier <= from
    ensures BusyDuring(h, earlier, c, slot)
  {
  }

  lemma AllBusySince(h: seq<State>, from: nat, earlier: nat, c: Client, slots: nat)
    requires AllBusyDuring(h, from, c, slots) && earlier <= from
    ensures AllBusyDuring(h, earlier, c, slots)
  {
    forall slot | 1 <= slot <= slots ensures BusyDuring(h, earlier, c, slot) {
      BusySince(h, from, earlier, c, slot);
    }
  }

  /** Probe until some slot is acquired, for as long as the caller waits. */
  method AcquireSlot(room: Room, c: Client, capacity: nat, wait: bool) returns (slot: Option<nat>)
    requires Inv(room.now) && c in room.now.pcs && room.now.pcs[c] == Probing(capacity, 1, 0) && capacity > 0
    modifies room
    ensures Inv(room.now) && c in room.now.pcs
    ensures room.now.pcs[c] == if slot.Some? then Acquired(capacity, slot.value) else Full(capacity)
    ensures slot.Some? ==> 1 <= slot.value <= capacity
    ensures AllBusyDuring(room.history, |old(room.history)|, c, if slot.Some? then slot.value - 1 else capacity)
    ensures room.mishaps >= old(room.mishaps) && (slot.None? && wait ==> room.mishaps > old(room.mishaps))
    ensures slot.Some? ==> room.mishaps == old(room.mishaps)
    ensures old(room.history) <= room.history
    ensures !wait ==> room.retries == old(room.retries)
  {
    hide Inv, HoldsExactly, AllBusyDuring;
    slot := ProbeSlots(room, c, capacity);
    var patience: int := *;
    while slot.None? && wait && patience > 0
      invariant Inv(room.now) && c in room.now.pcs && room.mishaps == old(room.mishaps)
      invariant old(room.history) <= room.history
      invariant room.now.pcs[c] == if slot.Some? then Acquired(capacity, slot.value) else Full(capacity)
      invariant slot.Some? ==> 1 <= slot.value <= capacity
      invariant AllBusyDuring(room.history, |old(room.history)|, c, if slot.Some? then slot.value - 1 else capacity)
      invariant !wait ==> room.retries == old(room.retries)
    {
      OthersKeepPc(room, c);
      room.Act(c, Retry);
      ghost var before := room.history;
      slot := ProbeSlots(room, c, capacity);
      AllBusySince(room.history, |before|, |old(room.history)|, c, if slot.Some? then slot.value - 1 else capacity);
      patience := patience - 1;
    }
    if slot.None? && wait {
      room.mishaps := room.mishaps + 1;   // interrupted while waiting
    }
  }

  // ---------------------------------------------------------------- the cleanups

  /** `clear_shelf_owner`: read every owner path present and remove the file with the own id. */
  method ClearShelfOwner(room: Room, c: Client, capacity: nat, slot: nat) returns (ok: bool)
    requires Inv(room.now) && c in room.now.pcs
    requires room.now.pcs[c].Scanning? && room.now.pcs[c].capacity == capacity && room.now.pcs[c].slot == slot
    modifies room
    ensures room.retries == old(room.retries)
    ensures Inv(room.now) && c in room.now.pcs
    ensures if ok then room.now.pcs[c] == Scanning(capacity, slot, {}) else room.now.pcs[c].Closing?
    ensures room.mishaps == old(room.mishaps) + (if ok then 0 else 1) && old(room.history) <= room.history
  {
    hide Inv;
    var todo := room.now.pcs[c].todo;
    while todo != {}
      invariant room.retries == old(room.retries)
      invariant Inv(room.now) && c in room.now.pcs && room.mishaps == old(room.mishaps)
      invariant old(room.history) <= room.history && room.now.pcs[c] == Scanning(capacity, slot, todo)
      decreases todo
    {
      var path :| path in todo;
      OthersKeepPc(room, c);
      var raised: bool := *;
      if raised {
        room.RaiseInCleanup(c);
        return false;
      }
      room.Act(c, ScanPath(path));
      todo := todo - {path};
      if room.now.pcs[c].Unlinking? {
        OthersKeepPc(room, c);
        raised := *;
        if raised {
          room.RaiseInCleanup(c);
          return false;
        }
        room.Act(c, UnlinkPath);
      }
    }
    ok := true;
  }

  method UnlockGroup(room: Room, c: Client, slot: nat) returns (ok: bool)
    requires Inv(room.now) && c in room.now.pcs && room.now.pcs[c] == Unlocking(slot, |LockGroup(slot)|)
    modifies room
    ensures room.retries == old(room.retries)
    ensures Inv(room.now) && c in room.now.pcs && room.now.pcs[c].Closing?
    ensures ok ==> !room.now.pcs[c].stale
    ensures room.mishaps == old(room.mishaps) + (if ok then 0 else 1) && old(room.history) <= room.history
  {
    hide Inv;
    var held := |LockGroup(slot)|;
    while held > 0
      invariant room.retries == old(room.retries)
      invariant Inv(room.now) && c in room.now.pcs && room.mishaps == old(room.mishaps)
      invariant old(room.history) <= room.history && 0 <= held <= |LockGroup(slot)|
      invariant room.now.pcs[c] == if held > 0 then Unlocking(slot, held) else Closing(false)
    {
      OthersKeepPc(room, c);
      var raised: bool := *;
      if raised {
        room.RaiseInCleanup(c);
        return false;
      }
      room.Act(c, Unlock);
      held := held - 1;
    }
    ok := true;
  }

  method ClearDemandRecord(room: Room, c: Client) returns (ok: bool)
    requires Inv(room.now) && c in room.now.pcs && room.now.pcs[c].ClearingDemand?
    modifies room
    ensures room.retries == old(room.retries)
    ensures Inv(room.now) && c in room.now.pcs
    ensures room.now.pcs[c] == Exited(old(room.now.pcs[c].stale), !ok, false)
    ensures room.mishaps == old(room.mishaps) + (if ok then 0 else 1) && old(room.history) <= room.history
  {
    hide Inv;
    OthersKeepPc(room, c);
    var raised: bool := *;
    if raised {
      room.RaiseInCleanup(c);
      return false;
    }
    room.Act(c, ClearDemand);
    ok := true;
  }

  function Held(s: State, c: Client): (locks: set<Lock>)
    ensures forall l :: l in locks <==> HoldsLock(s, c, l)
  {
    set l | l in s.locks && s.locks[l] == c
  }

  /** Close the lock files, which gives up any lock still held. */
  method CloseFiles(room: Room, c: Client) returns (ok: bool)
    requires Inv(room.now) && c in room.now.pcs && room.now.pcs[c].Closing?
    modifies room
    ensures room.retries == old(room.retries)
    ensures Inv(room.now) && c in room.now.pcs
    ensures var stale := old(room.now.pcs[c].stale);
      room.now.pcs[c] == if ok then ClearingDemand(stale) else Exited(stale, true, true)
    ensures room.mishaps == old(room.mishaps) + (if ok then 0 else 1) && old(room.history) <= room.history
  {
    hide *;
    var mine := Held(room.now, c);
    while mine != {}
      invariant room.retries == old(room.retries)
      invariant Inv(room.now) && c in room.now.pcs && room.mishaps == old(room.mishaps)
      invariant old(room.history) <= room.history && room.now.pcs[c] == old(room.now.pcs[c])
      invariant mine == Held(room.now, c)
      decreases mine
    {
      var l :| l in mine;
      ok := CloseOne(room, c, l);
      if !ok {
        return;
      }
      mine := mine - {l};
    }
    AllClosed(room.now, c);
    room.Act(c, ClosedAll);
    ok := true;
  }

  method CloseOne(room: Room, c: Client, l: Lock) returns (ok: bool)
    requires Inv(room.now) && c in room.now.pcs && room.now.pcs[c].Closing? && l in Held(room.now, c)
    modifies room
    ensures room.retries == old(room.retries)
    ensures Inv(room.now) && c in room.now.pcs
    ensures room.now.pcs[c] == if ok then old(room.now.pcs[c]) else Exited(old(room.now.pcs[c].stale), true, true)
    ensures ok ==> Held(room.now, c) == Held(old(room.now), c) - {l}
    ensures room.mishaps == old(room.mishaps) + (if ok then 0 else 1) && old(room.history) <= room.history
  {
    hide *;
    ghost var before := room.now;
    room.Others(c);
    ClosingSteps(before, room.now, c, l);
    ok := *;
    if ok {
      room.Act(c, CloseFile(l));
    } else {
      room.RaiseInCleanup(c);
    }
  }

  lemma ClosingSteps(s: State, t: State, c: Client, l: Lock)
    requires Undisturbed(s, t, c) && t.pcs[c].Closing? && HoldsLock(s, c, l)
    ensures InCleanup(t.pcs[c]) && Enabled(t, c, Raise) && Apply(t, c, Raise).pcs[c] == Exited(t.pcs[c].stale, true, true)
    ensures t.pcs[c] == s.pcs[c] && Enabled(t, c, CloseFile(l)) && Apply(t, c, CloseFile(l)).pcs == t.pcs
    ensures Held(Apply(t, c, CloseFile(l)), c) == Held(s, c) - {l}
  {
  }

  lemma AllClosed(s: State, c: Client)
    requires c in s.pcs && s.pcs[c].Closing? && Held(s, c) == {}
    ensures Enabled(s, c, ClosedAll) && Apply(s, c, ClosedAll).pcs[c] == ClearingDemand(s.pcs[c].stale)
  {
    assert forall l | l in s.locks && s.locks[l] == c :: l in Held(s, c);
  }

  /** The outer `finally`: close the files, then clear the demand record. */
  method CloseAndClear(room: Room, c: Client) returns (ok: bool)
    requires Inv(room.now) && c in room.now.pcs && room.now.pcs[c].Closing?
    modifies room
    ensures room.retries == old(room.retries)
    ensures Inv(room.now) && c in room.now.pcs && room.now.pcs[c].Exited?
    ensures room.now.pcs[c].stale == old(room.now.pcs[c].stale) && room.now.pcs[c].demand == !ok
    ensures ok ==> !room.now.pcs[c].open
    ensures room.mishaps == old(room.mishaps) + (if ok then 0 else 1) && old(room.history) <= room.history
  {
    hide *;
    ok := CloseFiles(room, c);
    if ok {
      ok := ClearDemandRecord(room, c);
    }
  }

  // ---------------------------------------------------------------- whole admissions

  lemma OwnerSteps(s: State, c: Client, a: Action)
    requires c in s.pcs
    requires match a
             case WriteOwner(took, raised) => s.pcs[c].Acquired? && (took || raised)
             case LeaveBody => s.pcs[c].Body?
             case ScanDone => s.pcs[c].Scanning? && s.pcs[c].todo == {}
             case _ => false
    ensures Enabled(s, c, a)
    ensures var pc, next := s.pcs[c], Apply(s, c, a).pcs[c];
      match a
      case WriteOwner(_, raised) =>
        if raised then next.Scanning? && next.slot == pc.slot && next.capacity == pc.capacity
        else next == Body(pc.capacity, pc.slot)
      case LeaveBody => next.Scanning? && next.slot == pc.slot && next.capacity == pc.capacity
      case ScanDone => next == Unlocking(pc.slot, |LockGroup(pc.slot)|)
  {
  }

  /** The two `finally` suites: the inner one removes the owner file and unlocks the group, and what
      it raises skips the rest of it but not the outer one. */
  method LeaveSlot(room: Room, c: Client, capacity: nat, slot: nat) returns (ok: bool)
    requires Inv(room.now) && c in room.now.pcs
    requires room.now.pcs[c].Scanning? && room.now.pcs[c].capacity == capacity && room.now.pcs[c].slot == slot
    modifies room
    ensures room.retries == old(room.retries)
    ensures Inv(room.now) && c in room.now.pcs && room.now.pcs[c].Exited?
    ensures room.mishaps >= old(room.mishaps) && (ok <==> room.mishaps == old(room.mishaps))
    ensures ok ==> room.now.pcs[c] == Exited(false, false, false)
    ensures old(room.history) <= room.history
  {
    hide *;
    var unlocked := false;
    var cleared := ClearShelfOwner(room, c, capacity, slot);
    if cleared {
      OthersKeepPc(room, c);
      OwnerSteps(room.now, c, ScanDone);
      room.Act(c, ScanDone);
      unlocked := UnlockGroup(room, c, slot);
    }
    var closed := CloseAndClear(room, c);
    ok := unlocked && closed;
  }

  /** The client was in the body of the slot in some state from `from` on. */
  ghost predicate InBody(h: seq<State>, from: nat, c: Client, capacity: nat, slot: nat) {
    exists k | from <= k < |h| :: c in h[k].pcs && h[k].pcs[c] == Body(capacity, slot)
  }

  lemma InBodyLater(h: seq<State>, g: seq<State>, from: nat, earlier: nat, c: Client, capacity: nat, slot: nat)
    requires InBody(h, from, c, capacity, slot) && h <= g && earlier <= from
    ensures InBody(g, earlier, c, capacity, slot)
  {
    var k :| from <= k < |h| && c in h[k].pcs && h[k].pcs[c] == Body(capacity, slot);
    assert g[k] == h[k];
  }

  lemma InBodyNow(h: seq<State>, from: nat, c: Client, capacity: nat, slot: nat)
    requires h != [] && from < |h|
    requires c in h[|h| - 1].pcs && h[|h| - 1].pcs[c] == Body(capacity, slot)
    ensures InBody(h, from, c, capacity, slot)
  {
  }

  /** Publish the owner, run the body, and undo everything in order. The owner write, the body and
      every call of the cleanups may raise; an exception of one cleanup skips to the next. */
  method ServeSlot(room: Room, c: Client, capacity: nat, slot: nat) returns (served: bool)
    requires Inv(room.now) && c in room.now.pcs && room.now.pcs[c] == Acquired(capacity, slot)
    modifies room
    ensures room.retries == old(room.retries)
    ensures Inv(room.now) && c in room.now.pcs && room.now.pcs[c].Exited?
    ensures room.mishaps >= old(room.mishaps) && (served <==> room.mishaps == old(room.mishaps))
    ensures served ==> room.now.pcs[c] == Exited(false, false, false)
    ensures served ==> InBody(room.history, |old(room.history)|, c, capacity, slot)
    ensures old(room.history) <= room.history
  {
    hide *;
    OthersKeepPc(room, c);
    var took: bool, raised: bool := *, *;
    OwnerSteps(room.now, c, WriteOwner(took || !raised, raised));
    room.Act(c, WriteOwner(took || !raised, raised));
    ghost var entered := room.history;
    if !raised {
      InBodyNow(entered, |old(room.history)|, c, capacity, slot);
      OthersKeepPc(room, c);
      OwnerSteps(room.now, c, LeaveBody);
      room.Act(c, LeaveBody);
      raised := *;   // the body's own exception
    }
    if raised {
      room.mishaps := room.mishaps + 1;
    }
    var left := LeaveSlot(room, c, capacity, slot);
    served := !raised && left;
    if served {
      InBodyLater(entered, room.history, |old(room.history)|, |old(room.history)|, c, capacity, slot);
    }
  }

  /** Write the demand record and settle the capacity. `None` when this raised: the attempt is
      then over. */
  method Demand(room: Room, c: Client, capacity: nat, hasExpander: bool) returns (expanded: Option<nat>)
    requires Inv(room.now) && c in room.now.pcs && room.now.pcs[c] == Start && capacity > 0
    modifies room
    ensures room.retries == old(room.retries)
    ensures Inv(room.now) && c in room.now.pcs
    ensures match expanded
            case Some(n) => n > 0 && room.now.pcs[c] == Probing(n, 1, 0) && (!hasExpander ==> n == capacity)
            case None => room.now.pcs[c].Exited?
    ensures room.mishaps >= old(room.mishaps) && (expanded.None? <==> room.mishaps > old(room.mishaps))
    ensures old(room.history) <= room.history
  {
    hide Inv, HoldsExactly;
    OthersKeepPc(room, c);
    var took: bool, raised: bool := *, *;
    room.Act(c, WriteDemand(took || !raised, raised));
    if raised {
      room.mishaps := room.mishaps + 1;
      return None;
    }
    OthersKeepPc(room, c);
    var expandedTo: int := *;
    if !hasExpander {
      expandedTo := capacity;
    }
    var inCleanupRegion: bool, raisedHere: bool := *, *;
    if raisedHere || expandedTo <= 0 {
      room.mishaps := room.mishaps + 1;
      room.Act(c, RaiseBeforeLocks(inCleanupRegion));
      if inCleanupRegion {
        var cleared := ClearDemandRecord(room, c);
      }
      return None;
    }
    room.Act(c, Expand(expandedTo));
    expanded := Some(expandedTo);
  }

  /** One whole admission with its body. Whatever happens, the attempt ends outside the shelf; if it
      was served, or ended without any exception, it has left nothing there. */
  method CriuShelfAdmission(room: Room, c: Client, capacity: nat, hasExpander: bool, wait: bool)
    returns (slot: Option<nat>, settled: nat)
    requires Inv(room.now) && c in room.now.pcs && room.now.pcs[c] == Start
    modifies room
    ensures !wait ==> room.retries == old(room.retries)
    ensures Inv(room.now) && c in room.now.pcs
    ensures if capacity == 0 then slot.None? && room.now.pcs[c] == Start else room.now.pcs[c].Exited?
    ensures slot.Some? ==> 1 <= slot.value <= settled && room.mishaps == old(room.mishaps)
    ensures slot.Some? ==> InBody(room.history, |old(room.history)|, c, settled, slot.value)
    ensures slot.Some? ==> AllBusyDuring(room.history, |old(room.history)|, c, slot.value - 1)
    ensures capacity > 0 && room.mishaps == old(room.mishaps) ==> room.now.pcs[c] == Exited(false, false, false)
    // Without an exception only a caller that does not wait is turned away, having found all slots busy.
    ensures room.mishaps >= old(room.mishaps)
    ensures capacity > 0 && room.mishaps == old(room.mishaps) && slot.None? ==>
      !wait && AllBusyDuring(room.history, |old(room.history)|, c, settled)
    ensures capacity > 0 && room.mishaps == old(room.mishaps) && !hasExpander ==> settled == capacity
  {
    hide Inv, HoldsExactly, Apply, Enabled, AllBusyDuring, InBody;
    slot, settled := None, capacity;
    if capacity == 0 {
      return;
    }
    var expanded := Demand(room, c, capacity, hasExpander);
    if expanded.None? {
      return;
    }
    settled := expanded.value;
    ghost var probed := room.history;
    slot := AcquireSlot(room, c, settled, wait);
    AllBusySince(room.history, |probed|, |old(room.history)|, c, if slot.Some? then slot.value - 1 else settled);
    ghost var tried := room.history;
    var interrupted: bool := *;
    if interrupted {
      room.mishaps := room.mishaps + 1;
    }
    if slot.None? || interrupted {
      GiveUp(room, c);
      LaterStill(tried, room.history, |old(room.history)|, c, if slot.Some? then slot.value - 1 else settled);
      slot := None;
      return;
    }
    var served := ServeSlot(room, c, settled, slot.value);
    if served {
      InBodyLater(room.history, room.history, |tried|, |old(room.history)|, c, settled, slot.value);
    }
    LaterStill(tried, room.history, |old(room.history)|, c, slot.value - 1);
    if !served {
      slot := None;
    }
  }

  /** Leaving without having been served: only the closing suite runs. */
  method GiveUp(room: Room, c: Client)
    requires Inv(room.now) && c in room.now.pcs && (room.now.pcs[c].Full? || room.now.pcs[c].Acquired?)
    modifies room
    ensures room.retries == old(room.retries)
    ensures Inv(room.now) && c in room.now.pcs && room.now.pcs[c].Exited?
    ensures room.mishaps == old(room.mishaps) ==> room.now.pcs[c] == Exited(false, false, false)
    ensures room.mishaps >= old(room.mishaps) && old(room.history) <= room.history
  {
    hide Inv, HoldsExactly;
    OthersKeepPc(room, c);
    room.Act(c, Interrupt);
    var closed := CloseAndClear(room, c);
  }

  // ---------------------------------------------------------------- the exclusive closer

  predicate TakenByOther(s: State, c: Client, l: Lock) {
    l in s.locks && s.locks[l] != c
  }

  lemma ClosingTaken(s: State, c: Client, capacity: nat, held: nat)
    requires Inv(s) && c in s.pcs && s.pcs[c] == CloserLocking(capacity, held) && held <= capacity
    requires !Free(s, ClosingLocks(capacity)[held])
    ensures TakenByOther(s, c, ClosingLocks(capacity)[held])
  {
    assert ClientOk(s, c);
    var all := ClosingLocks(capacity);
    forall i | 0 <= i < held ensures all[i] != all[held] { }
    assert all[held] !in all[..held];
  }

  /** `try_exclusive_criu_shelf_admission`: every lock of both generations without waiting. */
  method TryExclusive(room: Room, c: Client, capacity: nat) returns (available: bool)
    requires Inv(room.now) && c in room.now.pcs && room.now.pcs[c] == CloserLocking(capacity, 0)
    modifies room
    ensures room.retries == old(room.retries)
    ensures Inv(room.now) && c in room.now.pcs && room.now.pcs[c].CloserBody?
    ensures room.now.pcs[c].capacity == capacity && room.now.pcs[c].available == available
    ensures room.mishaps == old(room.mishaps) && old(room.history) <= room.history
    ensures !available ==> exists k, l | |old(room.history)| <= k < |room.history| && l in ClosingLocks(capacity) ::
      TakenByOther(room.history[k], c, l)
  {
    hide Inv, HoldsExactly;
    var held := 0;
    assert |ClosingLocks(capacity)| == capacity + 1;
    while held <= capacity
      invariant room.retries == old(room.retries)
      invariant Inv(room.now) && c in room.now.pcs && room.mishaps == old(room.mishaps) && 0 <= held <= capacity + 1
      invariant old(room.history) <= room.history
      invariant room.now.pcs[c] == if held <= capacity then CloserLocking(capacity, held) else CloserBody(capacity, held, true)
    {
      OthersKeepPc(room, c);
      var lock := ClosingLocks(capacity)[held];
      var free := Free(room.now, lock);
      if !free {
        ClosingTaken(room.now, c, capacity, held);
        assert TakenByOther(room.history[|room.history| - 1], c, lock);
      }
      room.Act(c, TryLock);
      if !free {
        ghost var k := |room.history| - 2;
        assert TakenByOther(room.history[k], c, lock) && lock in ClosingLocks(capacity) && |old(room.history)| <= k;
        return false;
      }
      held := held + 1;
    }
    available := true;
  }

  /** Its `finally`: every lock taken is given up again, unless an unlock raises. */
  method ReleaseExclusive(room: Room, c: Client) returns (ok: bool)
    requires Inv(room.now) && c in room.now.pcs && room.now.pcs[c].CloserBody?
    modifies room
    ensures room.retries == old(room.retries)
    ensures Inv(room.now) && c in room.now.pcs && room.now.pcs[c] == Gone(!ok)
    ensures room.mishaps == old(room.mishaps) + (if ok then 0 else 1)
  {
    hide *;
    var capacity, held := room.now.pcs[c].capacity, room.now.pcs[c].held;
    OthersKeepPc(room, c);
    ReleaseStarts(room.now, c);
    room.Act(c, YieldDone);
    while held > 0
      invariant room.retries == old(room.retries)
      invariant Inv(room.now) && c in room.now.pcs && room.mishaps == old(room.mishaps) && 0 <= held <= capacity + 1
      invariant room.now.pcs[c] == if held > 0 then CloserReleasing(capacity, held) else Gone(false)
    {
      OthersKeepPc(room, c);
      ReleaseStep(room.now, c, capacity, held);
      var raised: bool := *;
      if raised {
        room.RaiseInCleanup(c);
        return false;
      }
      room.Act(c, Unlock);
      held := held - 1;
    }
    ok := true;
  }

  lemma ReleaseStarts(s: State, c: Client)
    requires Inv(s) && c in s.pcs && s.pcs[c].CloserBody?
    ensures Enabled(s, c, YieldDone) && s.pcs[c].held <= s.pcs[c].capacity + 1
    ensures var pc := s.pcs[c];
      Apply(s, c, YieldDone).pcs[c] == if pc.held > 0 then CloserReleasing(pc.capacity, pc.held) else Gone(false)
  {
    assert ClientOk(s, c);
    hide Inv, HoldsExactly, ClosingLocks;
  }

  lemma ReleaseStep(s: State, c: Client, capacity: nat, held: nat)
    requires c in s.pcs && s.pcs[c] == CloserReleasing(capacity, held) && 0 < held <= capacity + 1
    ensures Enabled(s, c, Unlock) && Enabled(s, c, Raise) && InCleanup(s.pcs[c])
    ensures Apply(s, c, Raise).pcs[c] == Gone(true)
    ensures Apply(s, c, Unlock).pcs[c] == if held > 1 then CloserReleasing(capacity, held - 1) else Gone(false)
  {
    hide LockGroup, OwnsFile;
    assert LastLock(s.pcs[c]).Some?;
    hide LastLock, ClosingLocks;
  }
}
