/** Admission to one CRIU profile shelf: every flock, file write and unlink is its own step, an
    exception may arrive between any two of them, and any number of clients of mixed generations and
    capacities interleave. */
module Shelf {
  import opened Options

  type Client = nat

  /** `admission.lock` of the retired generation, and the numbered locks `admission-K.lock`. */
  datatype Lock = Legacy | Numbered(slot: nat)

  /** Every file a caller must hold for a slot; slot one bridges the retired lock. */
  function LockGroup(slot: nat): seq<Lock> {
    if slot == 1 then [Legacy, Numbered(1)] else [Numbered(slot)]
  }

  /** The locks the exclusive closer takes, in order. */
  function ClosingLocks(capacity: nat): seq<Lock> {
    [Legacy] + seq(capacity, i requires 0 <= i => Numbered(i + 1))
  }

  /** `shelf_owner_path`: slot one (and anything below) uses the legacy file. */
  function OwnerPath(slot: nat): nat {
    if slot <= 1 then 1 else slot
  }

  /** Where one client is in its code. */
  datatype Pc =
    | Start
    | Expanding                                        // the demand record is written
    | Probing(capacity: nat, slot: nat, held: nat)     // this many locks of the group taken
    | Backing(capacity: nat, slot: nat, held: nat)     // a lock of the group was taken by another
    | Full(capacity: nat)                              // no slot was free in this round
    | Acquired(capacity: nat, slot: nat)
    | Body(capacity: nat, slot: nat)
    | Scanning(capacity: nat, slot: nat, todo: set<nat>)   // clear_shelf_owner, paths still to read
    | Unlinking(capacity: nat, slot: nat, todo: set<nat>, path: nat)   // this path was read with the own id in it
    | Unlocking(slot: nat, held: nat)
    | Closing(stale: bool)                             // closing the lock files; stale: left an owner file
    | ClearingDemand(stale: bool)
    | Exited(stale: bool, demand: bool, open: bool)    // what was left: owner file, demand record, open locks
    | Crashed
    | LegacyStart
    | LegacyHolding
    | Gone(open: bool)                                 // a legacy holder or a closer that is through
    | CloserLocking(capacity: nat, held: nat)
    | CloserBody(capacity: nat, held: nat, available: bool)
    | CloserReleasing(capacity: nat, held: nat)

  datatype State = State(
    locks: map<Lock, Client>,
    owners: map<nat, Client>,      // owner path -> attempt id in the file
    demands: set<Client>,
    pcs: map<Client, Pc>)

  /** The client holds exactly these locks. */
  predicate HoldsExactly(s: State, c: Client, locks: seq<Lock>) {
    && (forall l | l in locks :: l in s.locks && s.locks[l] == c)
    && (forall l | l in s.locks && s.locks[l] == c :: l in locks)
  }

  predicate HoldsLock(s: State, c: Client, l: Lock) {
    l in s.locks && s.locks[l] == c
  }

  // ---------------------------------------------------------------- steps

  datatype Action =
    | WriteDemand(took: bool, raised: bool)
    | Expand(capacity: nat)
    | RaiseBeforeLocks(inCleanupRegion: bool)
    | TryLock
    | Unlock
    | Retry
    | Interrupt
    | Raise                       // an exception inside a cleanup
    | WriteOwner(took: bool, raised: bool)
    | LeaveBody
    | ScanPath(path: nat)
    | UnlinkPath
    | ScanDone
    | CloseFile(lock: Lock)
    | ClosedAll
    | ClearDemand
    | Crash
    | YieldDone
    | Finalize                    // lock files left open go with their process or their last reference

  predicate Free(s: State, l: Lock) {
    l !in s.locks
  }

  /** The next lock of a group or closing list. */
  function NextLock(pc: Pc): Option<Lock> {
    match pc
    case Probing(_, slot, held) => if held < |LockGroup(slot)| then Some(LockGroup(slot)[held]) else None
    case LegacyStart => Some(Legacy)
    case CloserLocking(capacity, held) => if held <= capacity then Some(ClosingLocks(capacity)[held]) else None
    case _ => None
  }

  /** The lock released next: groups are unlocked in reverse order. */
  function LastLock(pc: Pc): Option<Lock> {
    match pc
    case Backing(_, slot, held) => if 0 < held <= |LockGroup(slot)| then Some(LockGroup(slot)[held - 1]) else None
    case Unlocking(slot, held) => if 0 < held <= |LockGroup(slot)| then Some(LockGroup(slot)[held - 1]) else None
    case LegacyHolding => Some(Legacy)
    case CloserReleasing(capacity, held) => if 0 < held <= capacity + 1 then Some(ClosingLocks(capacity)[held - 1]) else None
    case _ => None
  }

  function AfterLock(pc: Pc): Pc {
    match pc
    case Probing(capacity, slot, held) =>
      if held + 1 == |LockGroup(slot)| then Acquired(capacity, slot) else Probing(capacity, slot, held + 1)
    case LegacyStart => LegacyHolding
    case CloserLocking(capacity, held) =>
      if held == capacity then CloserBody(capacity, held + 1, true) else CloserLocking(capacity, held + 1)
    case _ => pc
  }

  function NextSlot(capacity: nat, slot: nat): Pc {
    if slot < capacity then Probing(capacity, slot + 1, 0) else Full(capacity)
  }

  function AfterBlocked(pc: Pc): Pc {
    match pc
    case Probing(capacity, slot, held) => if held > 0 then Backing(capacity, slot, held) else NextSlot(capacity, slot)
    case CloserLocking(capacity, held) => CloserBody(capacity, held, false)
    case _ => pc
  }

  function AfterUnlock(pc: Pc): Pc {
    match pc
    case Backing(capacity, slot, held) => if held <= 1 then NextSlot(capacity, slot) else Backing(capacity, slot, held - 1)
    case Unlocking(slot, held) => if held <= 1 then Closing(false) else Unlocking(slot, held - 1)
    case LegacyHolding => Gone(false)
    case CloserReleasing(capacity, held) => if held <= 1 then Gone(false) else CloserReleasing(capacity, held - 1)
    case _ => pc
  }

  /** States in which an exception reaches the handler that closes the lock files. */
  predicate Interruptible(pc: Pc) {
    pc.Probing? || pc.Backing? || pc.Full? || pc.Acquired? || pc.CloserLocking?
  }

  /** The cleanups, each of which may be cut short. */
  predicate InCleanup(pc: Pc) {
    || pc.Scanning? || pc.Unlinking? || pc.Unlocking? || pc.Closing? || pc.ClearingDemand? || pc.CloserReleasing?
  }

  predicate LeftOpen(pc: Pc) {
    (pc.Exited? || pc.Gone?) && pc.open
  }

  predicate Enabled(s: State, c: Client, a: Action) {
    && c in s.pcs
    && var pc := s.pcs[c];
    match a
    case WriteDemand(took, raised) => pc.Start? && (took || raised)
    case Expand(capacity) => pc.Expanding? && capacity > 0
    case RaiseBeforeLocks(_) => pc.Expanding?
    case TryLock => NextLock(pc).Some? && (pc.LegacyStart? ==> Free(s, Legacy))
    case Unlock => LastLock(pc).Some?
    case Retry => pc.Full?
    case Interrupt => Interruptible(pc)
    case Raise => InCleanup(pc)
    case WriteOwner(took, raised) => pc.Acquired? && (took || raised)
    case LeaveBody => pc.Body?
    case ScanPath(path) => pc.Scanning? && path in pc.todo
    case UnlinkPath => pc.Unlinking?
    case ScanDone => pc.Scanning? && pc.todo == {}
    case CloseFile(lock) => pc.Closing? && lock in s.locks && s.locks[lock] == c
    case ClosedAll => pc.Closing? && forall l | l in s.locks :: s.locks[l] != c
    case ClearDemand => pc.ClearingDemand?
    case Crash => !pc.Exited? && !pc.Gone?
    case YieldDone => pc.CloserBody?
    case Finalize => LeftOpen(pc)
  }

  function SetPc(s: State, c: Client, pc: Pc): State {
    s.(pcs := s.pcs[c := pc])
  }

  /** The paths `clear_shelf_owner` looks at: the legacy one and every numbered one present. */
  function OwnerPaths(s: State): set<nat> {
    {1} + s.owners.Keys
  }

  predicate OwnsFile(s: State, c: Client) {
    exists p | p in s.owners :: s.owners[p] == c
  }

  function Unlocked(s: State, c: Client): State {
    s.(locks := map l | l in s.locks && s.locks[l] != c :: s.locks[l])
  }

  function AfterInterrupt(pc: Pc): Pc {
    match pc
    case CloserLocking(capacity, held) => if held == 0 then Gone(false) else CloserReleasing(capacity, held)
    case _ => Closing(false)
  }

  /** An exception in a cleanup skips the rest of its `finally` suite and goes on to the next one. */
  function AfterRaise(s: State, c: Client): Pc
    requires c in s.pcs
  {
    match s.pcs[c]
    case Closing(stale) => Exited(stale, true, true)
    case ClearingDemand(stale) => Exited(stale, true, false)
    case CloserReleasing(_, _) => Gone(true)
    case _ => Closing(OwnsFile(s, c))
  }

  /** flock(LOCK_EX | LOCK_NB) */
  function Flocked(s: State, c: Client, l: Lock): State
    requires c in s.pcs
  {
    if Free(s, l) then SetPc(s.(locks := s.locks[l := c]), c, AfterLock(s.pcs[c]))
    else SetPc(s, c, AfterBlocked(s.pcs[c]))
  }

  /** flock(LOCK_UN) */
  function Unflocked(s: State, c: Client, l: Lock): State
    requires c in s.pcs
  {
    SetPc(s.(locks := s.locks - {l}), c, AfterUnlock(s.pcs[c]))
  }

  function Apply(s: State, c: Client, a: Action): State
    requires Enabled(s, c, a)
  {
    var pc := s.pcs[c];
    match a
    case WriteDemand(took, raised) =>
      SetPc(if took then s.(demands := s.demands + {c}) else s, c, if raised then Exited(false, took, false) else Expanding)
    case Expand(capacity) => SetPc(s, c, Probing(capacity, 1, 0))
    case RaiseBeforeLocks(inCleanupRegion) => 
      SetPc(s, c, if inCleanupRegion then ClearingDemand(false) else Exited(false, true, false))
    case TryLock => Flocked(s, c, NextLock(pc).value)
    case Unlock => Unflocked(s, c, LastLock(pc).value)
    case Retry => SetPc(s, c, Probing(pc.capacity, 1, 0))
    case Interrupt => SetPc(s, c, AfterInterrupt(pc))
    case Raise => SetPc(s, c, AfterRaise(s, c))
    case WriteOwner(took, raised) =>
      var u := if took then s.(owners := s.owners[OwnerPath(pc.slot) := c]) else s;
      SetPc(u, c, if raised then Scanning(pc.capacity, pc.slot, OwnerPaths(u)) else Body(pc.capacity, pc.slot))
    case LeaveBody => SetPc(s, c, Scanning(pc.capacity, pc.slot, OwnerPaths(s)))
    case ScanPath(path) =>
      SetPc(s, c, if path in s.owners && s.owners[path] == c then Unlinking(pc.capacity, pc.slot, pc.todo - {path}, path)
                  else Scanning(pc.capacity, pc.slot, pc.todo - {path}))
    case UnlinkPath => SetPc(s.(owners := s.owners - {pc.path}), c, Scanning(pc.capacity, pc.slot, pc.todo))
    case ScanDone => SetPc(s, c, Unlocking(pc.slot, |LockGroup(pc.slot)|))
    case CloseFile(lock) => s.(locks := s.locks - {lock})
    case ClosedAll => SetPc(s, c, ClearingDemand(pc.stale))
    case ClearDemand => SetPc(s.(demands := s.demands - {c}), c, Exited(pc.stale, false, false))
    case Crash => SetPc(Unlocked(s, c), c, Crashed)
    case YieldDone => SetPc(s, c, if pc.held == 0 then Gone(false) else CloserReleasing(pc.capacity, pc.held))
    case Finalize => SetPc(Unlocked(s, c), c, pc.(open := false))
  }

  // ---------------------------------------------------------------- the invariant

  /** The locks a client holds at its place in the code; while closing, and with files left open, it
      may still hold anything. */
  predicate LocksOk(s: State, c: Client, pc: Pc) {
    match pc
    case Probing(capacity, slot, held) =>
      1 <= slot <= capacity && held < |LockGroup(slot)| && HoldsExactly(s, c, LockGroup(slot)[..held])
    case Backing(capacity, slot, held) =>
      1 <= slot <= capacity && 0 < held < |LockGroup(slot)| && HoldsExactly(s, c, LockGroup(slot)[..held])
    case Full(capacity) => capacity > 0 && HoldsExactly(s, c, [])
    case Acquired(capacity, slot) => 1 <= slot <= capacity && HoldsExactly(s, c, LockGroup(slot))
    case Body(capacity, slot) => 1 <= slot <= capacity && HoldsExactly(s, c, LockGroup(slot))
    case Scanning(capacity, slot, _) => 1 <= slot <= capacity && HoldsExactly(s, c, LockGroup(slot))
    case Unlinking(capacity, slot, _, _) => 1 <= slot <= capacity && HoldsExactly(s, c, LockGroup(slot))
    case Unlocking(slot, held) =>
      slot > 0 && 0 < held <= |LockGroup(slot)| && HoldsExactly(s, c, LockGroup(slot)[..held])
    case Closing(_) => true
    case Exited(_, _, open) => open || HoldsExactly(s, c, [])
    case Gone(open) => open || HoldsExactly(s, c, [])
    case LegacyHolding => HoldsExactly(s, c, [Legacy])
    case CloserLocking(capacity, held) => held <= capacity && HoldsExactly(s, c, ClosingLocks(capacity)[..held])
    case CloserBody(capacity, held, available) =>
      held <= capacity + 1 && (available <==> held == capacity + 1) && HoldsExactly(s, c, ClosingLocks(capacity)[..held])
    case CloserReleasing(capacity, held) =>
      0 < held <= capacity + 1 && HoldsExactly(s, c, ClosingLocks(capacity)[..held])
    case _ => HoldsExactly(s, c, [])
  }

  /** An owner file with the client's id exists only at its slot's path, there for the whole body, and
      past the cleanup only if that was cut short. */
  predicate OwnerOk(s: State, c: Client, pc: Pc) {
    match pc
    case Body(_, slot) => OwnedOnlyAt(s, c, OwnerPath(slot)) && OwnerPath(slot) in s.owners && s.owners[OwnerPath(slot)] == c
    case Scanning(_, slot, todo) => forall p | p in s.owners && s.owners[p] == c :: p == OwnerPath(slot) && p in todo
    case Unlinking(_, slot, todo, path) =>
      OwnedOnlyAt(s, c, path) && path == OwnerPath(slot) && path in s.owners && s.owners[path] == c
    case Closing(stale) => stale || !OwnsFile(s, c)
    case ClearingDemand(stale) => stale || !OwnsFile(s, c)
    case Exited(stale, _, _) => stale || !OwnsFile(s, c)
    case Crashed => true
    case _ => !OwnsFile(s, c)
  }

  predicate OwnedOnlyAt(s: State, c: Client, path: nat) {
    forall p | p in s.owners && s.owners[p] == c :: p == path
  }

  /** The demand record stands from before the first lock until after the last one is gone. */
  predicate DemandOk(s: State, c: Client, pc: Pc) {
    match pc
    case Start => c !in s.demands
    case Exited(_, demand, _) => c in s.demands <==> demand
    case LegacyStart => c !in s.demands
    case LegacyHolding => c !in s.demands
    case CloserLocking(_, _) => c !in s.demands
    case CloserBody(_, _, _) => c !in s.demands
    case CloserReleasing(_, _) => c !in s.demands
    case Gone(_) => c !in s.demands
    case Crashed => true
    case _ => c in s.demands
  }

  predicate ClientOk(s: State, c: Client) {
    c in s.pcs && LocksOk(s, c, s.pcs[c]) && OwnerOk(s, c, s.pcs[c]) && DemandOk(s, c, s.pcs[c])
  }

  predicate Inv(s: State) {
    forall c | c in s.pcs :: ClientOk(s, c)
  }

  /** Clients that have not started; the directory may hold records of older attempts. */
  predicate Initial(s: State) {
    && s.locks == map[]
    && (forall c | c in s.pcs ::
        && (s.pcs[c].Start? || s.pcs[c].LegacyStart? || (s.pcs[c].CloserLocking? && s.pcs[c].held == 0))
        && c !in s.demands && !OwnsFile(s, c))
  }

  lemma InitialIsInv(s: State)
    requires Initial(s)
    ensures Inv(s)
  {
  }

  // ---------------------------------------------------------------- preservation

  /** A step of `c` takes only free locks, drops only its own, and touches no file of another
      client: an owner path changes only under the numbered lock of that path. */
  ghost predicate Confined(s: State, t: State, c: Client) {
    && c in s.pcs && c in t.pcs && t.pcs == s.pcs[c := t.pcs[c]]
    && LocksConfined(s, t, c) && FilesConfined(s, t, c)
  }

  ghost predicate LocksConfined(s: State, t: State, c: Client) {
    && (forall l | l in s.locks && s.locks[l] != c :: l in t.locks && t.locks[l] == s.locks[l])
    && (forall l | l in t.locks && t.locks[l] != c :: l in s.locks && s.locks[l] == t.locks[l])
  }

  ghost predicate FilesConfined(s: State, t: State, c: Client) {
    && (forall p | p in s.owners && s.owners[p] != c ::
        (p in t.owners && t.owners[p] == s.owners[p]) || HoldsPath(s, c, p))
    && (forall p | p in t.owners && t.owners[p] != c :: p in s.owners && s.owners[p] == t.owners[p])
    && (forall d | d != c :: d in s.demands <==> d in t.demands)
  }

  predicate HoldsPath(s: State, c: Client, path: nat) {
    Numbered(path) in s.locks && s.locks[Numbered(path)] == c
  }

  lemma OthersUnaffected(s: State, t: State, c: Client, d: Client)
    requires Confined(s, t, c) && d != c && ClientOk(s, d)
    ensures ClientOk(t, d)
  {
    OthersKeepLocks(s, t, c, d);
    assert t.pcs[d] == s.pcs[d];
    OthersKeepFiles(s, t, c, d);
    assert LocksOk(t, d, t.pcs[d]) by {
      hide HoldsExactly, OwnerOk, DemandOk;
    }
  }

  lemma OthersKeepFiles(s: State, t: State, c: Client, d: Client)
    requires Confined(s, t, c) && d != c && ClientOk(s, d)
    ensures OwnerOk(t, d, s.pcs[d]) && DemandOk(t, d, s.pcs[d])
  {
    var pc := s.pcs[d];
    if pc.Body? || pc.Unlinking? {
      GroupEndsNumbered(pc.slot);
      assert s.locks[Numbered(OwnerPath(pc.slot))] == d;
    }
    hide LocksOk, HoldsExactly, LocksConfined;
  }

  lemma OthersKeepLocks(s: State, t: State, c: Client, d: Client)
    requires Confined(s, t, c) && d != c
    ensures forall locks :: HoldsExactly(s, d, locks) ==> HoldsExactly(t, d, locks)
  {
  }

  lemma GroupEndsNumbered(slot: nat)
    requires slot > 0
    ensures Numbered(slot) in LockGroup(slot) && OwnerPath(slot) == slot
  {
    assert LockGroup(slot)[|LockGroup(slot)| - 1] == Numbered(slot);
  }

  lemma StepKeepsInv(s: State, c: Client, a: Action)
    requires Inv(s) && Enabled(s, c, a)
    ensures Inv(Apply(s, c, a))
  {
    hide Enabled, Apply, ClientOk, Confined;
    var t := Apply(s, c, a);
    StepIsConfined(s, c, a);
    StepKeepsOwn(s, c, a);
    forall d | d in t.pcs ensures ClientOk(t, d) {
      if d != c {
        assert d in s.pcs by { ConfinedPcs(s, t, c, d); }
        OthersUnaffected(s, t, c, d);
      }
    }
  }

  lemma ConfinedPcs(s: State, t: State, c: Client, d: Client)
    requires Confined(s, t, c) && d != c && d in t.pcs
    ensures d in s.pcs
  {
  }

  lemma StepIsConfined(s: State, c: Client, a: Action)
    requires Inv(s) && Enabled(s, c, a)
    ensures Confined(s, Apply(s, c, a), c)
  {
    hide LocksConfined, FilesConfined, ClientOk, Apply, Enabled;
    StepConfinesLocks(s, c, a);
    StepConfinesFiles(s, c, a);
    StepMovesOne(s, c, a);
  }

  lemma StepMovesOne(s: State, c: Client, a: Action)
    requires Enabled(s, c, a)
    ensures var t := Apply(s, c, a); c in s.pcs && c in t.pcs && t.pcs == s.pcs[c := t.pcs[c]]
  {
    hide NextLock, LastLock, AfterLock, AfterUnlock, AfterBlocked;
  }

  lemma LocksUntouched(s: State, c: Client, a: Action)
    requires Enabled(s, c, a) && !a.TryLock? && !a.Unlock? && !a.CloseFile? && !a.Crash? && !a.Finalize?
    ensures Apply(s, c, a).locks == s.locks
  {
    hide OwnerPaths, OwnsFile;
  }

  lemma StepConfinesLocks(s: State, c: Client, a: Action)
    requires Inv(s) && Enabled(s, c, a)
    ensures LocksConfined(s, Apply(s, c, a), c)
  {
    assert ClientOk(s, c);
    if a.Unlock? {
      LastIsHeld(s, c);
    } else if !a.TryLock? && !a.CloseFile? && !a.Crash? && !a.Finalize? {
      LocksUntouched(s, c, a);
    }
    hide Inv, ClientOk, LastLock, NextLock, OwnerPaths, OwnsFile, AfterLock, AfterBlocked, AfterUnlock, AfterInterrupt, AfterRaise;
  }

  /** Only two steps change owner files, and no step another client's demand record. */
  lemma FilesTouched(s: State, c: Client, a: Action)
    requires Enabled(s, c, a)
    ensures !a.WriteOwner? && !a.UnlinkPath? ==> Apply(s, c, a).owners == s.owners
    ensures forall d | d != c :: d in s.demands <==> d in Apply(s, c, a).demands
  {
    hide OwnerPaths, LastLock, NextLock, AfterLock, AfterBlocked, AfterUnlock, Free;
  }

  lemma StepConfinesFiles(s: State, c: Client, a: Action)
    requires Inv(s) && Enabled(s, c, a)
    ensures FilesConfined(s, Apply(s, c, a), c)
  {
    FilesTouched(s, c, a);
    if a.WriteOwner? || a.UnlinkPath? {
      assert ClientOk(s, c);
      WriterHoldsPath(s, c, a);
    }
    hide Inv, Apply, Enabled, ClientOk;
  }

  lemma WriterHoldsPath(s: State, c: Client, a: Action)
    requires ClientOk(s, c) && Enabled(s, c, a) && (a.WriteOwner? || a.UnlinkPath?)
    ensures FilesConfined(s, Apply(s, c, a), c)
  {
    if a.WriteOwner? {
      GroupEndsNumbered(s.pcs[c].slot);
      assert HoldsPath(s, c, OwnerPath(s.pcs[c].slot));
    }
  }

  lemma LastIsHeld(s: State, c: Client)
    requires ClientOk(s, c) && LastLock(s.pcs[c]).Some?
    ensures var l := LastLock(s.pcs[c]).value; l in s.locks && s.locks[l] == c
  {
    var pc := s.pcs[c];
    match pc {
      case Backing(_, slot, held) => assert LockGroup(slot)[..held][held - 1] == LockGroup(slot)[held - 1];
      case Unlocking(slot, held) => assert LockGroup(slot)[..held][held - 1] == LockGroup(slot)[held - 1];
      case CloserReleasing(capacity, held) =>
        assert ClosingLocks(capacity)[..held][held - 1] == ClosingLocks(capacity)[held - 1];
      case _ =>
    }
  }

  lemma StepKeepsOwn(s: State, c: Client, a: Action)
    requires Inv(s) && Enabled(s, c, a)
    ensures ClientOk(Apply(s, c, a), c)
  {
    hide LocksOk, OwnerOk, DemandOk, Flocked, Unflocked;
    assert ClientOk(s, c);
    OwnerKept(s, c, a);
    DemandKept(s, c, a);
    if a.TryLock? {
      FlockKeepsLocks(s, c, NextLock(s.pcs[c]).value);
    } else if a.Unlock? {
      UnflockKeepsLocks(s, c, LastLock(s.pcs[c]).value);
    } else {
      FileStepKeepsLocks(s, c, a);
    }
  }

  lemma OwnerKept(s: State, c: Client, a: Action)
    requires ClientOk(s, c) && Enabled(s, c, a)
    ensures var t := Apply(s, c, a); c in t.pcs && OwnerOk(t, c, t.pcs[c])
  {
    if a.WriteOwner? || a.LeaveBody? || a.ScanPath? || a.UnlinkPath? || a.ScanDone? {
      CleanupKeepsOwner(s, c, a);
    } else {
      NothingOwnedStays(s, c, a);
    }
    hide ClientOk, Enabled, Apply, OwnerOk;
  }

  /** Outside the body and its cleanup no owner file carries the client's id. */
  lemma NothingOwnedStays(s: State, c: Client, a: Action)
    requires ClientOk(s, c) && Enabled(s, c, a)
    requires !a.WriteOwner? && !a.LeaveBody? && !a.ScanPath? && !a.UnlinkPath? && !a.ScanDone?
    ensures var t := Apply(s, c, a); c in t.pcs && OwnerOk(t, c, t.pcs[c])
  {
    hide HoldsExactly, DemandOk, LockGroup, ClosingLocks, OwnedOnlyAt;
    FilesTouched(s, c, a);
  }

  /** The steps that write, look for and remove the owner file. */
  lemma CleanupKeepsOwner(s: State, c: Client, a: Action)
    requires ClientOk(s, c) && Enabled(s, c, a)
    requires a.WriteOwner? || a.LeaveBody? || a.ScanPath? || a.UnlinkPath? || a.ScanDone?
    ensures var t := Apply(s, c, a); c in t.pcs && OwnerOk(t, c, t.pcs[c])
  {
    hide HoldsExactly, DemandOk;
  }

  lemma DemandKept(s: State, c: Client, a: Action)
    requires ClientOk(s, c) && Enabled(s, c, a)
    ensures var t := Apply(s, c, a); c in t.pcs && DemandOk(t, c, t.pcs[c])
  {
    assert DemandOk(s, c, s.pcs[c]);
    hide ClientOk, LocksOk, HoldsExactly, OwnerOk, LockGroup, ClosingLocks, OwnerPaths, OwnsFile, Unlocked;
    if a.TryLock? || a.Unlock? {
      FlockKeepsDemand(s, c, a);
    }
  }

  lemma FlockKeepsDemand(s: State, c: Client, a: Action)
    requires Enabled(s, c, a) && DemandOk(s, c, s.pcs[c]) && (a.TryLock? || a.Unlock?)
    ensures var t := Apply(s, c, a); c in t.pcs && DemandOk(t, c, t.pcs[c])
  {
    hide LockGroup, ClosingLocks;
  }

  lemma Takes(s: State, t: State, c: Client, held: seq<Lock>, l: Lock)
    requires HoldsExactly(s, c, held) && Free(s, l) && t.locks == s.locks[l := c]
    ensures HoldsExactly(t, c, held + [l])
  {
  }

  lemma Drops(s: State, t: State, c: Client, held: seq<Lock>, l: Lock)
    requires HoldsExactly(s, c, held + [l]) && l !in held && t.locks == s.locks - {l}
    ensures HoldsExactly(t, c, held)
  {
    assert l in held + [l];
    assert forall k | k in held :: k in held + [l];
  }

  lemma PrefixStep(locks: seq<Lock>, held: nat)
    requires held < |locks|
    ensures locks[..held + 1] == locks[..held] + [locks[held]]
    ensures held + 1 == |locks| ==> locks[..held + 1] == locks
    ensures locks[..0] == []
  {
  }

  lemma SameLocks(s: State, t: State, c: Client)
    requires t.locks == s.locks
    ensures forall locks :: HoldsExactly(s, c, locks) <==> HoldsExactly(t, c, locks)
  {
  }

  lemma HoldsNothing(s: State, c: Client)
    requires forall l | l in s.locks :: s.locks[l] != c
    ensures HoldsExactly(s, c, [])
  {
  }

  lemma FlockKeepsLocks(s: State, c: Client, l: Lock)
    requires c in s.pcs && LocksOk(s, c, s.pcs[c]) && NextLock(s.pcs[c]) == Some(l)
    requires s.pcs[c].LegacyStart? ==> Free(s, l)
    ensures var t := Flocked(s, c, l); LocksOk(t, c, t.pcs[c])
  {
    if Free(s, l) {
      TakenKeepsLocks(s, c, l);
    } else {
      BlockedKeepsLocks(s, c, l);
    }
  }

  lemma TakenKeepsLocks(s: State, c: Client, l: Lock)
    requires c in s.pcs && LocksOk(s, c, s.pcs[c]) && NextLock(s.pcs[c]) == Some(l) && Free(s, l)
    ensures LocksOk(Flocked(s, c, l), c, AfterLock(s.pcs[c]))
  {
    hide HoldsExactly, LockGroup, ClosingLocks;
    var pc := s.pcs[c];
    if pc.Probing? {
      ProbeTakes(s, c, pc.capacity, pc.slot, pc.held);
    } else if pc.LegacyStart? {
      Takes(s, Flocked(s, c, l), c, [], Legacy);
      assert [] + [Legacy] == [Legacy];
    } else {
      GroupShapes(pc);
      CloserTakes(s, c, pc.capacity, pc.held);
    }
  }

  lemma ProbeTakes(s: State, c: Client, capacity: nat, slot: nat, held: nat)
    requires c in s.pcs && s.pcs[c] == Probing(capacity, slot, held) && LocksOk(s, c, s.pcs[c])
    requires Free(s, LockGroup(slot)[held])
    ensures LocksOk(Flocked(s, c, LockGroup(slot)[held]), c, AfterLock(s.pcs[c]))
  {
    hide HoldsExactly, LockGroup;
    PrefixStep(LockGroup(slot), held);
    Takes(s, Flocked(s, c, LockGroup(slot)[held]), c, LockGroup(slot)[..held], LockGroup(slot)[held]);
  }

  lemma CloserTakes(s: State, c: Client, capacity: nat, held: nat)
    requires c in s.pcs && s.pcs[c] == CloserLocking(capacity, held) && LocksOk(s, c, s.pcs[c])
    requires |ClosingLocks(capacity)| == capacity + 1 && Free(s, ClosingLocks(capacity)[held])
    ensures LocksOk(Flocked(s, c, ClosingLocks(capacity)[held]), c, AfterLock(s.pcs[c]))
  {
    hide HoldsExactly, ClosingLocks;
    PrefixStep(ClosingLocks(capacity), held);
    Takes(s, Flocked(s, c, ClosingLocks(capacity)[held]), c, ClosingLocks(capacity)[..held], ClosingLocks(capacity)[held]);
  }

  lemma BlockedKeepsLocks(s: State, c: Client, l: Lock)
    requires c in s.pcs && LocksOk(s, c, s.pcs[c]) && NextLock(s.pcs[c]) == Some(l)
    requires !Free(s, l) && !s.pcs[c].LegacyStart?
    ensures LocksOk(Flocked(s, c, l), c, AfterBlocked(s.pcs[c]))
  {
    hide HoldsExactly, LockGroup, ClosingLocks;
    var pc := s.pcs[c];
    if pc.Probing? {
      ProbeBlocked(s, c, pc.capacity, pc.slot, pc.held);
    } else {
      GroupShapes(pc);
      SameLocks(s, Flocked(s, c, l), c);
    }
  }

  lemma ProbeBlocked(s: State, c: Client, capacity: nat, slot: nat, held: nat)
    requires c in s.pcs && s.pcs[c] == Probing(capacity, slot, held) && LocksOk(s, c, s.pcs[c])
    requires !Free(s, LockGroup(slot)[held])
    ensures LocksOk(Flocked(s, c, LockGroup(slot)[held]), c, AfterBlocked(s.pcs[c]))
  {
    hide HoldsExactly, LockGroup;
    SameLocks(s, Flocked(s, c, LockGroup(slot)[held]), c);
    NotEmpty(slot + 1);
    PrefixStep(LockGroup(slot), 0);
    PrefixStep(LockGroup(slot + 1), 0);
  }

  lemma NotEmpty(slot: nat)
    ensures |LockGroup(slot)| > 0
  {
  }

  lemma UnflockKeepsLocks(s: State, c: Client, l: Lock)
    requires c in s.pcs && LocksOk(s, c, s.pcs[c]) && LastLock(s.pcs[c]) == Some(l)
    ensures var t := Unflocked(s, c, l); LocksOk(t, c, t.pcs[c])
  {
    hide HoldsExactly, LockGroup, ClosingLocks;
    var t := Unflocked(s, c, l);
    var pc := s.pcs[c];
    GroupShapes(pc);
    if pc.Backing? || pc.Unlocking? {
      PrefixStep(LockGroup(pc.slot), pc.held - 1);
      PrefixStep(LockGroup(pc.slot + 1), 0);
      Drops(s, t, c, LockGroup(pc.slot)[..pc.held - 1], l);
    } else if pc.LegacyHolding? {
      assert [] + [Legacy] == [Legacy];
      Drops(s, t, c, [], Legacy);
    } else {
      PrefixStep(ClosingLocks(pc.capacity), pc.held - 1);
      Drops(s, t, c, ClosingLocks(pc.capacity)[..pc.held - 1], l);
    }
  }

  predicate Distinct(locks: seq<Lock>) {
    forall i, j | 0 <= i < j < |locks| :: locks[i] != locks[j]
  }

  lemma GroupShapes(pc: Pc)
    ensures forall slot: nat :: 1 <= |LockGroup(slot)| && Distinct(LockGroup(slot))
    ensures pc.CloserLocking? || pc.CloserReleasing? ==>
      |ClosingLocks(pc.capacity)| == pc.capacity + 1 && Distinct(ClosingLocks(pc.capacity))
  {
  }

  /** Every step other than a flock call. */
  lemma FileStepKeepsLocks(s: State, c: Client, a: Action)
    requires c in s.pcs && LocksOk(s, c, s.pcs[c]) && Enabled(s, c, a) && !a.TryLock? && !a.Unlock?
    ensures var t := Apply(s, c, a); LocksOk(t, c, t.pcs[c])
  {
    if a.CloseFile? || a.ClosedAll? || a.Crash? || a.Finalize? {
      hide HoldsExactly, OwnerPaths, OwnerPath;
      if !a.CloseFile? {
        HoldsNothing(Apply(s, c, a), c);
      }
    } else {
      QuietStepKeepsLocks(s, c, a);
    }
  }

  predicate InnerStep(a: Action) {
    a.WriteOwner? || a.LeaveBody? || a.ScanPath? || a.UnlinkPath? || a.ScanDone?
  }

  /** Steps that leave every lock where it is. */
  lemma QuietStepKeepsLocks(s: State, c: Client, a: Action)
    requires c in s.pcs && LocksOk(s, c, s.pcs[c]) && Enabled(s, c, a)
    requires !a.TryLock? && !a.Unlock? && !a.CloseFile? && !a.ClosedAll? && !a.Crash? && !a.Finalize?
    ensures var t := Apply(s, c, a); LocksOk(t, c, t.pcs[c])
  {
    hide HoldsExactly, OwnerPaths, OwnerPath;
    var t := Apply(s, c, a);
    var pc := s.pcs[c];
    if InnerStep(a) {
      InnerStepKeepsLocks(s, c, a);
    } else {
      SameLocks(s, t, c);
      if a.Expand? || a.Retry? {
        PrefixStep(LockGroup(1), 0);
      } else if a.YieldDone? {
        assert ClosingLocks(pc.capacity)[..0] == [];
      } else if a.Interrupt? && pc.CloserLocking? {
        assert ClosingLocks(pc.capacity)[..0] == [];
      }
    }
  }

  lemma InnerStepKeepsLocks(s: State, c: Client, a: Action)
    requires c in s.pcs && LocksOk(s, c, s.pcs[c]) && Enabled(s, c, a) && InnerStep(a)
    ensures var t := Apply(s, c, a); LocksOk(t, c, t.pcs[c])
  {
    hide HoldsExactly, OwnerPaths, OwnerPath;
    SameLocks(s, Apply(s, c, a), c);
    if a.ScanDone? {
      var group := LockGroup(s.pcs[c].slot);
      assert group[..|group|] == group;
    }
  }

  // ---------------------------------------------------------------- runs

  /** Any interleaving of any clients' steps, from clients that have not started. */
  ghost predicate Run(h: seq<State>, moves: seq<(Client, Action)>) {
    && |h| == |moves| + 1 && Initial(h[0])
    && forall i | 0 <= i < |moves| :: Enabled(h[i], moves[i].0, moves[i].1) && h[i + 1] == Apply(h[i], moves[i].0, moves[i].1)
  }

  lemma {:induction false} RunKeepsInv(h: seq<State>, moves: seq<(Client, Action)>, i: nat)
    requires Run(h, moves) && i < |h|
    ensures Inv(h[i])
  {
    if i == 0 {
      InitialIsInv(h[0]);
    } else {
      RunKeepsInv(h, moves, i - 1);
      StepKeepsInv(h[i - 1], moves[i - 1].0, moves[i - 1].1);
    }
  }

  predicate Admitted(pc: Pc) {
    pc.Acquired? || pc.Body? || pc.Scanning? || pc.Unlinking?
  }

  lemma AdmittedHoldsGroup(s: State, c: Client)
    requires Inv(s) && c in s.pcs && Admitted(s.pcs[c])
    ensures 1 <= s.pcs[c].slot <= s.pcs[c].capacity
    ensures HoldsExactly(s, c, LockGroup(s.pcs[c].slot)) && HoldsPath(s, c, s.pcs[c].slot)
  {
    assert ClientOk(s, c);
    GroupEndsNumbered(s.pcs[c].slot);
  }

  /** An admitted client holds the numbered lock of its slot, in slot one the retired lock as well, and
      no other. */
  lemma AdmittedLocks(h: seq<State>, moves: seq<(Client, Action)>, i: nat, c: Client, l: Lock)
    requires Run(h, moves) && i < |h| && c in h[i].pcs && Admitted(h[i].pcs[c])
    ensures l in h[i].locks && h[i].locks[l] == c
      <==> l == Numbered(h[i].pcs[c].slot) || (l == Legacy && h[i].pcs[c].slot == 1)
  {
    RunKeepsInv(h, moves, i);
    AdmittedHoldsGroup(h[i], c);
    var slot := h[i].pcs[c].slot;
    assert l in LockGroup(slot) <==> l == Numbered(slot) || (l == Legacy && slot == 1);
  }

  /** A closer that reports the shelf closed holds the retired lock and every numbered lock up to its
      capacity, and no other. */
  lemma CloserLocks(h: seq<State>, moves: seq<(Client, Action)>, i: nat, c: Client, l: Lock)
    requires Run(h, moves) && i < |h| && c in h[i].pcs && h[i].pcs[c].CloserBody? && h[i].pcs[c].available
    ensures l in h[i].locks && h[i].locks[l] == c
      <==> l == Legacy || (l.Numbered? && 1 <= l.slot <= h[i].pcs[c].capacity)
  {
    RunKeepsInv(h, moves, i);
    assert ClientOk(h[i], c);
    var capacity := h[i].pcs[c].capacity;
    var all := ClosingLocks(capacity);
    assert all[..h[i].pcs[c].held] == all;
    assert all[0] == Legacy && forall k | 0 < k <= capacity :: all[k] == Numbered(k);
    assert l in all <==> l == Legacy || (l.Numbered? && 1 <= l.slot <= capacity) by {
      if l.Numbered? && 1 <= l.slot <= capacity {
        assert all[l.slot] == l;
      }
    }
  }

  /** No two admitted clients hold the same slot. */
  lemma SlotsAreExclusive(h: seq<State>, moves: seq<(Client, Action)>, i: nat, c: Client, d: Client)
    requires Run(h, moves) && i < |h| && c in h[i].pcs && d in h[i].pcs
    requires Admitted(h[i].pcs[c]) && Admitted(h[i].pcs[d]) && h[i].pcs[c].slot == h[i].pcs[d].slot
    ensures c == d
  {
    RunKeepsInv(h, moves, i);
    AdmittedHoldsGroup(h[i], c);
    AdmittedHoldsGroup(h[i], d);
  }

  /** While a client of the retired generation holds `admission.lock`, nobody is in slot one. */
  lemma LegacyExcludesSlotOne(h: seq<State>, moves: seq<(Client, Action)>, i: nat, c: Client, d: Client)
    requires Run(h, moves) && i < |h| && c in h[i].pcs && d in h[i].pcs
    requires h[i].pcs[c].LegacyHolding? && Admitted(h[i].pcs[d])
    ensures h[i].pcs[d].slot != 1
  {
    RunKeepsInv(h, moves, i);
    assert ClientOk(h[i], c);
    AdmittedHoldsGroup(h[i], d);
    assert Legacy in LockGroup(1) && Legacy in [Legacy];
  }

  /** A successful closer leaves neither a legacy holder nor anyone in a slot up to its capacity. */
  lemma CloserExcludes(h: seq<State>, moves: seq<(Client, Action)>, i: nat, c: Client, d: Client)
    requires Run(h, moves) && i < |h| && c in h[i].pcs && d in h[i].pcs
    requires h[i].pcs[c].CloserBody? && h[i].pcs[c].available
    ensures !h[i].pcs[d].LegacyHolding?
    ensures Admitted(h[i].pcs[d]) ==> h[i].pcs[d].slot > h[i].pcs[c].capacity
  {
    var s := h[i];
    RunKeepsInv(h, moves, i);
    assert ClientOk(s, c) && ClientOk(s, d);
    var all := ClosingLocks(s.pcs[c].capacity);
    assert all[..s.pcs[c].held] == all;
    assert all[0] == Legacy && all[0] in all && Legacy in [Legacy];
    forall slot: nat | 1 <= slot <= s.pcs[c].capacity ensures Numbered(slot) in all {
      assert all[slot] == Numbered(slot);
    }
    if Admitted(s.pcs[d]) {
      AdmittedHoldsGroup(s, d);
    }
  }

  function AdmittedClients(s: State): set<Client> {
    set c | c in s.pcs && Admitted(s.pcs[c])
  }

  /** Admissions at one time never outnumber the largest capacity among the admitted. */
  lemma AdmissionsAreBounded(h: seq<State>, moves: seq<(Client, Action)>, i: nat, capacity: nat)
    requires Run(h, moves) && i < |h|
    requires forall c | c in AdmittedClients(h[i]) :: h[i].pcs[c].capacity <= capacity
    ensures |AdmittedClients(h[i])| <= capacity
  {
    hide Run, HoldsExactly;
    var s := h[i];
    RunKeepsInv(h, moves, i);
    var slots := SlotsOf(s);
    forall c | c in slots ensures 1 <= slots[c] <= capacity {
      AdmittedHoldsGroup(s, c);
    }
    forall c, d | c in slots && d in slots && slots[c] == slots[d] ensures c == d {
      SlotsAreExclusive(h, moves, i, c, d);
    }
    DistinctSlotsBound(slots, capacity);
  }

  function SlotsOf(s: State): (slots: map<Client, nat>)
    ensures slots.Keys == AdmittedClients(s)
  {
    map c | c in AdmittedClients(s) :: s.pcs[c].slot
  }

  lemma {:induction false} DistinctSlotsBound(slots: map<Client, nat>, capacity: nat)
    requires forall c | c in slots :: 1 <= slots[c] <= capacity
    requires forall c, d | c in slots && d in slots && slots[c] == slots[d] :: c == d
    ensures |slots.Keys| <= capacity
    decreases capacity
  {
    if exists c :: c in slots && slots[c] == capacity {
      var c :| c in slots && slots[c] == capacity;
      var rest := slots - {c};
      DistinctSlotsBound(rest, capacity - 1);
      assert slots.Keys == rest.Keys + {c};
    } else if capacity > 0 {
      DistinctSlotsBound(slots, capacity - 1);
    } else {
      assert slots.Keys == {};
    }
  }

  /** The owner file of a slot names its admitted attempt in every state of the body, whatever
      other attempts write and clear meanwhile. */
  lemma BodyOwnsItsFile(h: seq<State>, moves: seq<(Client, Action)>, i: nat, c: Client)
    requires Run(h, moves) && i < |h| && c in h[i].pcs && h[i].pcs[c].Body?
    ensures h[i].pcs[c].slot in h[i].owners && h[i].owners[h[i].pcs[c].slot] == c
    ensures forall path | path in h[i].owners && h[i].owners[path] == c :: path == h[i].pcs[c].slot
  {
    RunKeepsInv(h, moves, i);
    assert ClientOk(h[i], c);
    GroupEndsNumbered(h[i].pcs[c].slot);
  }

  predicate IsAttempt(pc: Pc) {
    && !pc.LegacyStart? && !pc.LegacyHolding? && !pc.Gone?
    && !pc.CloserLocking? && !pc.CloserBody? && !pc.CloserReleasing?
  }

  /** An attempt that holds any lock, even one left open by an exception, has its demand record on disk. */
  lemma DemandCoversLocks(h: seq<State>, moves: seq<(Client, Action)>, i: nat, c: Client, l: Lock)
    requires Run(h, moves) && i < |h| && c in h[i].pcs && IsAttempt(h[i].pcs[c])
    requires l in h[i].locks && h[i].locks[l] == c
    ensures c in h[i].demands
  {
    hide Enabled, Apply;
    RunKeepsInv(h, moves, i);
    assert ClientOk(h[i], c);
    assert HoldsExactly(h[i], c, []) ==> l in [];
    if h[i].pcs[c].Exited? {
      LeftOpenKeepsDemand(h, moves, i, c);
    }
  }

  /** Lock files are left open only by an exception that also keeps the demand record. */
  lemma {:induction false} LeftOpenKeepsDemand(h: seq<State>, moves: seq<(Client, Action)>, i: nat, c: Client)
    requires Run(h, moves) && i < |h| && c in h[i].pcs && h[i].pcs[c].Exited? && h[i].pcs[c].open
    ensures h[i].pcs[c].demand
  {
    assert i > 0;
    var s, m := h[i - 1], moves[i - 1];
    assert h[i] == Apply(s, m.0, m.1);
    if c in s.pcs && s.pcs[c].Exited? && s.pcs[c].open {
      LeftOpenKeepsDemand(h, moves, i - 1, c);
    }
  }
}
