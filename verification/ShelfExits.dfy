/** What an admission attempt leaves on the shelf when it is out: over all interleavings, the exact
    exceptions that leave its owner file, its demand record or its locks behind. */
module ShelfExits {
  import opened Shelf

  /** Past every point at which the attempt writes or removes an owner file. */
  predicate Leaving(pc: Pc) {
    pc.Closing? || pc.ClearingDemand? || pc.Exited?
  }

  predicate OwnsAt(s: State, c: Client, path: nat) {
    path in s.owners && s.owners[path] == c
  }

  /** This step puts another attempt's owner file at the path. */
  predicate WritesPath(s: State, m: (Client, Action), path: nat) {
    && m.0 in s.pcs && s.pcs[m.0].Acquired? && m.1.WriteOwner? && m.1.took
    && OwnerPath(s.pcs[m.0].slot) == path
  }

  ghost predicate NotWrittenOver(h: seq<State>, moves: seq<(Client, Action)>, j: nat, i: nat, path: nat)
    requires |h| == |moves| + 1 && i <= |moves|
  {
    forall m | j < m < i :: !WritesPath(h[m], moves[m], path)
  }

  /** Step `j` cut the attempt's cleanup short while its owner file was there. */
  predicate CutShort(s: State, m: (Client, Action), c: Client, path: nat) {
    m == (c, Raise) && OwnsAt(s, c, path)
  }

  /** One step of anybody, seen from a client that is leaving. */
  lemma LeavingStep(s: State, m: (Client, Action), c: Client, path: nat)
    requires Inv(s) && Enabled(s, m.0, m.1) && c in s.pcs && Leaving(s.pcs[c])
    ensures var t := Apply(s, m.0, m.1);
      OwnsAt(t, c, path) <==> OwnsAt(s, c, path) && !WritesPath(s, m, path)
  {
    var t := Apply(s, m.0, m.1);
    assert ClientOk(s, m.0);
    if !m.1.WriteOwner? && !m.1.UnlinkPath? {
      FilesTouched(s, m.0, m.1);
    }
  }

  /** Entering the leaving states with an owner file on disk takes an exception in the cleanup. */
  lemma EnterLeaving(s: State, m: (Client, Action), c: Client, path: nat)
    requires Inv(s) && Enabled(s, m.0, m.1) && c in s.pcs && !Leaving(s.pcs[c])
    requires var t := Apply(s, m.0, m.1); c in t.pcs && Leaving(t.pcs[c]) && OwnsAt(t, c, path)
    ensures CutShort(s, m, c, path)
  {
    assert ClientOk(s, c);
    if m.0 != c {
      StepMovesOne(s, m.0, m.1);
    } else {
      FilesTouched(s, c, m.1);
    }
  }

  lemma RaiseLeaves(s: State, c: Client, path: nat)
    requires Inv(s) && Enabled(s, c, Raise) && OwnsAt(s, c, path)
    ensures var t := Apply(s, c, Raise); Leaving(t.pcs[c]) && OwnsAt(t, c, path)
  {
    assert ClientOk(s, c) && OwnsFile(s, c);
  }

  lemma LeavingStays(s: State, m: (Client, Action), c: Client)
    requires Enabled(s, m.0, m.1) && c in s.pcs && Leaving(s.pcs[c])
    ensures var t := Apply(s, m.0, m.1); c in t.pcs && (Leaving(t.pcs[c]) || t.pcs[c].Crashed?)
  {
    StepMovesOne(s, m.0, m.1);
  }

  lemma OutIsLeaving(pc: Pc)
    ensures pc.Exited? ==> Leaving(pc)
  {
  }

  lemma StartsOutside(h: seq<State>, moves: seq<(Client, Action)>, i: nat, c: Client)
    requires Run(h, moves) && i < |h| && c in h[i].pcs && Leaving(h[i].pcs[c])
    ensures i > 0
  {
  }

  lemma RunStep(h: seq<State>, moves: seq<(Client, Action)>, i: nat)
    requires Run(h, moves) && 0 < i < |h|
    ensures |h| == |moves| + 1
    ensures var s, m := h[i - 1], moves[i - 1];
      Inv(s) && Enabled(s, m.0, m.1) && h[i] == Apply(s, m.0, m.1) && h[i].pcs.Keys == s.pcs.Keys
  {
    RunKeepsInv(h, moves, i - 1);
    StepMovesOne(h[i - 1], moves[i - 1].0, moves[i - 1].1);
    hide Inv, Enabled, Apply;
  }

  lemma {:induction false} RaisedIsLeaving(h: seq<State>, moves: seq<(Client, Action)>, j: nat, k: nat, c: Client, path: nat)
    requires Run(h, moves) && j < k < |h| && CutShort(h[j], moves[j], c, path)
    ensures c in h[k].pcs && (Leaving(h[k].pcs[c]) || h[k].pcs[c].Crashed?)
  {
    hide Inv, Apply, OwnsAt, Run;
    RunStep(h, moves, k);
    if j + 1 == k {
      RaiseLeaves(h[j], c, path);
    } else {
      RaisedIsLeaving(h, moves, j, k - 1, c, path);
      if Leaving(h[k - 1].pcs[c]) {
        LeavingStays(h[k - 1], moves[k - 1], c);
      } else {
        CrashedStays(h[k - 1], moves[k - 1], c);
      }
    }
  }

  ghost predicate Survives(h: seq<State>, moves: seq<(Client, Action)>, i: nat, c: Client, path: nat)
    requires |h| == |moves| + 1 && i <= |moves|
  {
    exists j: nat :: j < i && CutShort(h[j], moves[j], c, path) && NotWrittenOver(h, moves, j, i, path)
  }

  lemma SurvivesStep(h: seq<State>, moves: seq<(Client, Action)>, i: nat, c: Client, path: nat)
    requires |h| == |moves| + 1 && 0 < i <= |moves|
    ensures Survives(h, moves, i, c, path) <==>
      CutShort(h[i - 1], moves[i - 1], c, path)
      || (Survives(h, moves, i - 1, c, path) && !WritesPath(h[i - 1], moves[i - 1], path))
  {
    hide CutShort, WritesPath;
    if Survives(h, moves, i, c, path) {
      var j: nat :| j < i && CutShort(h[j], moves[j], c, path) && NotWrittenOver(h, moves, j, i, path);
      assert NotWrittenOver(h, moves, j, i - 1, path);
    }
    if CutShort(h[i - 1], moves[i - 1], c, path) {
      assert NotWrittenOver(h, moves, i - 1, i, path);
    } else if Survives(h, moves, i - 1, c, path) && !WritesPath(h[i - 1], moves[i - 1], path) {
      var j: nat :| j < i - 1 && CutShort(h[j], moves[j], c, path) && NotWrittenOver(h, moves, j, i - 1, path);
      assert NotWrittenOver(h, moves, j, i, path);
    }
  }

  lemma OwnerFileStep(s: State, m: (Client, Action), c: Client, path: nat)
    requires Inv(s) && Enabled(s, m.0, m.1) && c in s.pcs
    requires var t := Apply(s, m.0, m.1); c in t.pcs && Leaving(t.pcs[c])
    ensures OwnsAt(Apply(s, m.0, m.1), c, path) <==>
      CutShort(s, m, c, path) || (Leaving(s.pcs[c]) && OwnsAt(s, c, path) && !WritesPath(s, m, path))
  {
    hide WritesPath, OwnsAt, Inv, Enabled, Apply;
    if CutShort(s, m, c, path) {
      RaiseLeaves(s, c, path);
    } else if Leaving(s.pcs[c]) {
      LeavingStep(s, m, c, path);
    } else if OwnsAt(Apply(s, m.0, m.1), c, path) {
      EnterLeaving(s, m, c, path);
    }
  }

  /** The owner file of an attempt on its way out, or out, is on disk exactly if an exception cut its
      cleanup short while the file was there and nobody has been admitted over it since. */
  lemma {:induction false} OwnerFileSurvives(h: seq<State>, moves: seq<(Client, Action)>, i: nat, c: Client, path: nat)
    requires Run(h, moves) && i < |h| && c in h[i].pcs && Leaving(h[i].pcs[c])
    ensures OwnsAt(h[i], c, path) <==> Survives(h, moves, i, c, path)
  {
    hide *;
    StartsOutside(h, moves, i, c);
    RunStep(h, moves, i);
    SurvivesStep(h, moves, i, c, path);
    OwnerFileStep(h[i - 1], moves[i - 1], c, path);
    if Leaving(h[i - 1].pcs[c]) {
      OwnerFileSurvives(h, moves, i - 1, c, path);
    } else if Survives(h, moves, i - 1, c, path) {
      EarlierRaise(h, moves, i, c, path);
    }
  }

  lemma EarlierRaise(h: seq<State>, moves: seq<(Client, Action)>, i: nat, c: Client, path: nat)
    requires Run(h, moves) && 0 < i < |h| && Survives(h, moves, i - 1, c, path)
    requires c in h[i].pcs && Leaving(h[i].pcs[c])
    ensures c in h[i - 1].pcs && Leaving(h[i - 1].pcs[c])
  {
    var j: nat :| j < i - 1 && CutShort(h[j], moves[j], c, path) && NotWrittenOver(h, moves, j, i - 1, path);
    hide CutShort, NotWrittenOver, Inv, Apply, Run;
    RunStep(h, moves, i);
    RaisedIsLeaving(h, moves, j, i - 1, c, path);
    CrashedStays(h[i - 1], moves[i - 1], c);
  }

  lemma CrashedStays(s: State, m: (Client, Action), c: Client)
    requires Enabled(s, m.0, m.1) && c in s.pcs
    ensures c in Apply(s, m.0, m.1).pcs && (s.pcs[c].Crashed? ==> Apply(s, m.0, m.1).pcs[c].Crashed?)
  {
    StepMovesOne(s, m.0, m.1);
  }

  /** The exceptions that strand the demand record: out of its write, between that and the region
      whose handlers clear it, or inside the closing suite. */
  predicate StrandsDemand(s: State, m: (Client, Action), c: Client) {
    && m.0 == c && c in s.pcs
    && (m.1 == WriteDemand(true, true) || m.1 == RaiseBeforeLocks(false)
        || (m.1 == Raise && (s.pcs[c].Closing? || s.pcs[c].ClearingDemand?)))
  }

  lemma ExitStep(s: State, m: (Client, Action), c: Client)
    requires Enabled(s, m.0, m.1) && c in s.pcs
    ensures c in Apply(s, m.0, m.1).pcs
    ensures var was, now := s.pcs[c], Apply(s, m.0, m.1).pcs[c];
      && (was.Exited? ==> now.Exited? && now.demand == was.demand && !StrandsDemand(s, m, c))
      && (!was.Exited? && now.Exited? ==> (now.demand <==> StrandsDemand(s, m, c)))
      && (StrandsDemand(s, m, c) ==> now.Exited?)
  {
    StepMovesOne(s, m.0, m.1);
  }

  ghost predicate Stranded(h: seq<State>, moves: seq<(Client, Action)>, i: nat, c: Client)
    requires |h| == |moves| + 1 && i <= |moves|
  {
    exists j: nat :: j < i && StrandsDemand(h[j], moves[j], c)
  }

  lemma StrandedStep(h: seq<State>, moves: seq<(Client, Action)>, i: nat, c: Client)
    requires |h| == |moves| + 1 && 0 < i <= |moves|
    ensures Stranded(h, moves, i, c) <==>
      StrandsDemand(h[i - 1], moves[i - 1], c) || Stranded(h, moves, i - 1, c)
  {
    hide StrandsDemand;
  }

  lemma {:induction false} StrandedIsOut(h: seq<State>, moves: seq<(Client, Action)>, i: nat, c: Client)
    requires Run(h, moves) && i < |h| && Stranded(h, moves, i, c)
    ensures c in h[i].pcs && h[i].pcs[c].Exited?
  {
    assert i > 0;
    RunStep(h, moves, i);
    StrandedStep(h, moves, i, c);
    hide Inv, Enabled, Apply, Run, Stranded;
    if Stranded(h, moves, i - 1, c) {
      StrandedIsOut(h, moves, i - 1, c);
    }
    hide StrandsDemand;
    ExitStep(h[i - 1], moves[i - 1], c);
  }

  lemma {:induction false} DemandFlag(h: seq<State>, moves: seq<(Client, Action)>, i: nat, c: Client)
    requires Run(h, moves) && i < |h| && c in h[i].pcs && h[i].pcs[c].Exited?
    ensures h[i].pcs[c].demand <==> Stranded(h, moves, i, c)
  {
    hide *;
    OutIsLeaving(h[i].pcs[c]);
    StartsOutside(h, moves, i, c);
    RunStep(h, moves, i);
    StrandedStep(h, moves, i, c);
    ExitStep(h[i - 1], moves[i - 1], c);
    if h[i - 1].pcs[c].Exited? {
      DemandFlag(h, moves, i - 1, c);
    } else if Stranded(h, moves, i - 1, c) {
      StrandedIsOut(h, moves, i - 1, c);
    }
  }

  /** The demand record of an attempt that is out is on disk exactly if one of those exceptions did it. */
  lemma DemandSurvives(h: seq<State>, moves: seq<(Client, Action)>, i: nat, c: Client)
    requires Run(h, moves) && i < |h| && c in h[i].pcs && h[i].pcs[c].Exited?
    ensures c in h[i].demands <==> Stranded(h, moves, i, c)
  {
    RunKeepsInv(h, moves, i);
    assert ClientOk(h[i], c);
    hide ClientOk, Inv, Stranded;
    DemandFlag(h, moves, i, c);
  }

  /** An exception inside the closing loop, while this lock had not been given up yet. */
  predicate LeavesOpen(s: State, m: (Client, Action), c: Client, l: Lock) {
    m == (c, Raise) && c in s.pcs && s.pcs[c].Closing? && l in s.locks && s.locks[l] == c
  }

  ghost predicate NotFinalized(moves: seq<(Client, Action)>, j: nat, i: nat, c: Client)
    requires i <= |moves|
  {
    forall m | j < m < i :: moves[m] != (c, Finalize)
  }

  ghost predicate StaysOpen(h: seq<State>, moves: seq<(Client, Action)>, i: nat, c: Client, l: Lock)
    requires |h| == |moves| + 1 && i <= |moves|
  {
    exists j: nat :: j < i && LeavesOpen(h[j], moves[j], c, l) && NotFinalized(moves, j, i, c)
  }

  lemma StaysOpenStep(h: seq<State>, moves: seq<(Client, Action)>, i: nat, c: Client, l: Lock)
    requires |h| == |moves| + 1 && 0 < i <= |moves|
    ensures StaysOpen(h, moves, i, c, l) <==>
      LeavesOpen(h[i - 1], moves[i - 1], c, l)
      || (StaysOpen(h, moves, i - 1, c, l) && moves[i - 1] != (c, Finalize))
  {
    hide LeavesOpen;
    if StaysOpen(h, moves, i, c, l) {
      var j: nat :| j < i && LeavesOpen(h[j], moves[j], c, l) && NotFinalized(moves, j, i, c);
      assert NotFinalized(moves, j, i - 1, c);
    }
    if LeavesOpen(h[i - 1], moves[i - 1], c, l) {
      assert NotFinalized(moves, i - 1, i, c);
    } else if StaysOpen(h, moves, i - 1, c, l) && moves[i - 1] != (c, Finalize) {
      var j: nat :| j < i - 1 && LeavesOpen(h[j], moves[j], c, l) && NotFinalized(moves, j, i - 1, c);
      assert NotFinalized(moves, j, i, c);
    }
  }

  /** One step of anybody, seen from a client that is out. */
  lemma OutsideStep(s: State, m: (Client, Action), c: Client, l: Lock)
    requires Inv(s) && Enabled(s, m.0, m.1) && c in s.pcs
    ensures c in Apply(s, m.0, m.1).pcs
    ensures var t := Apply(s, m.0, m.1);
      && (s.pcs[c].Exited? ==> (HoldsLock(t, c, l) <==> HoldsLock(s, c, l) && m != (c, Finalize)))
      && (!s.pcs[c].Exited? && t.pcs[c].Exited? ==> (HoldsLock(t, c, l) <==> LeavesOpen(s, m, c, l)))
      && (LeavesOpen(s, m, c, l) ==> !s.pcs[c].Exited? && t.pcs[c].Exited?)
  {
    if m.0 != c {
      StepMovesOne(s, m.0, m.1);
      FreeLockStays(s, m, c, l);
      hide Inv, Enabled, Apply, HoldsLock;
    } else {
      OwnOutsideStep(s, m.1, c, l);
    }
  }

  lemma OwnOutsideStep(s: State, a: Action, c: Client, l: Lock)
    requires Inv(s) && Enabled(s, c, a)
    ensures c in Apply(s, c, a).pcs
    ensures var t := Apply(s, c, a);
      && (s.pcs[c].Exited? ==> (HoldsLock(t, c, l) <==> HoldsLock(s, c, l) && a != Finalize))
      && (!s.pcs[c].Exited? && t.pcs[c].Exited? ==> (HoldsLock(t, c, l) <==> LeavesOpen(s, (c, a), c, l)))
      && (LeavesOpen(s, (c, a), c, l) ==> !s.pcs[c].Exited? && t.pcs[c].Exited?)
  {
    hide *;
    if a.Raise? {
      RaiseLeavesOpen(s, c, l);
    } else {
      OtherStepLeavesShut(s, a, c, l);
    }
  }

  lemma RaiseLeavesOpen(s: State, c: Client, l: Lock)
    requires Inv(s) && Enabled(s, c, Raise)
    ensures c in s.pcs && c in Apply(s, c, Raise).pcs && !s.pcs[c].Exited?
    ensures var t := Apply(s, c, Raise);
      && (t.pcs[c].Exited? ==> (HoldsLock(t, c, l) <==> LeavesOpen(s, (c, Raise), c, l)))
      && (LeavesOpen(s, (c, Raise), c, l) ==> t.pcs[c].Exited?)
  {
    assert ClientOk(s, c);
    assert HoldsExactly(s, c, []) ==> !HoldsLock(s, c, l);
    hide Inv, HoldsExactly, OwnerOk, DemandOk, OwnsFile, LockGroup, ClosingLocks;
  }

  lemma OtherStepLeavesShut(s: State, a: Action, c: Client, l: Lock)
    requires Inv(s) && Enabled(s, c, a) && !a.Raise?
    ensures c in s.pcs && c in Apply(s, c, a).pcs && !LeavesOpen(s, (c, a), c, l)
    ensures var t := Apply(s, c, a);
      && (s.pcs[c].Exited? ==> (HoldsLock(t, c, l) <==> HoldsLock(s, c, l) && a != Finalize))
      && (!s.pcs[c].Exited? && t.pcs[c].Exited? ==> !HoldsLock(t, c, l))
  {
    hide HoldsExactly, ClientOk, OwnerOk, DemandOk, Unflocked, Flocked, Unlocked, LocksOk;
    ShutOnExit(s, a, c);
    StepKeepsOwn(s, c, a);
    if Apply(s, c, a).pcs[c].Exited? {
      ExitedShut(Apply(s, c, a), c, l);
    }
    hide Inv;
  }

  lemma ShutOnExit(s: State, a: Action, c: Client)
    requires Enabled(s, c, a) && !a.Raise?
    ensures c in s.pcs && c in Apply(s, c, a).pcs
    ensures var pc := Apply(s, c, a).pcs[c]; pc.Exited? ==> !pc.open
    ensures s.pcs[c].Exited? ==> a == Finalize
  {
    hide LockGroup, ClosingLocks, OwnerPaths, Unlocked;
  }

  lemma ExitedShut(s: State, c: Client, l: Lock)
    requires ClientOk(s, c) && s.pcs[c].Exited? && !s.pcs[c].open
    ensures !HoldsLock(s, c, l)
  {
    assert HoldsExactly(s, c, []) ==> !HoldsLock(s, c, l);
  }

  lemma FreeLockStays(s: State, m: (Client, Action), c: Client, l: Lock)
    requires Inv(s) && Enabled(s, m.0, m.1) && m.0 != c
    ensures HoldsLock(Apply(s, m.0, m.1), c, l) <==> HoldsLock(s, c, l)
  {
    StepConfinesLocks(s, m.0, m.1);
  }

  /** An attempt that is out still holds a lock exactly if an exception inside the closing loop left
      that lock's file open and it has not been finalized since. */
  lemma {:induction false} LockSurvives(h: seq<State>, moves: seq<(Client, Action)>, i: nat, c: Client, l: Lock)
    requires Run(h, moves) && i < |h| && c in h[i].pcs && h[i].pcs[c].Exited?
    ensures HoldsLock(h[i], c, l) <==> StaysOpen(h, moves, i, c, l)
  {
    hide *;
    OutIsLeaving(h[i].pcs[c]);
    StartsOutside(h, moves, i, c);
    RunStep(h, moves, i);
    StaysOpenStep(h, moves, i, c, l);
    OutsideStep(h[i - 1], moves[i - 1], c, l);
    if h[i - 1].pcs[c].Exited? {
      LockSurvives(h, moves, i - 1, c, l);
    } else if StaysOpen(h, moves, i - 1, c, l) {
      OutSince(h, moves, i - 1, c, l);
    }
  }

  lemma {:induction false} OutSince(h: seq<State>, moves: seq<(Client, Action)>, i: nat, c: Client, l: Lock)
    requires Run(h, moves) && i < |h| && StaysOpen(h, moves, i, c, l)
    ensures c in h[i].pcs && h[i].pcs[c].Exited?
  {
    hide Inv, Enabled, Apply, Run, HoldsLock;
    assert i > 0;
    RunStep(h, moves, i);
    StaysOpenStep(h, moves, i, c, l);
    hide StaysOpen;
    if StaysOpen(h, moves, i - 1, c, l) {
      OutSince(h, moves, i - 1, c, l);
      ExitStep(h[i - 1], moves[i - 1], c);
    } else {
      OutsideStep(h[i - 1], moves[i - 1], c, l);
    }
  }

  /** No exception of these kinds, nothing left: neither locks nor records. */
  lemma CleanExit(h: seq<State>, moves: seq<(Client, Action)>, i: nat, c: Client)
    requires Run(h, moves) && i < |h| && c in h[i].pcs && h[i].pcs[c].Exited?
    requires forall j | 0 <= j < i && moves[j].0 == c ::
      !moves[j].1.Raise? && moves[j].1 != WriteDemand(true, true) && moves[j].1 != RaiseBeforeLocks(false)
    ensures HoldsExactly(h[i], c, []) && !OwnsFile(h[i], c) && c !in h[i].demands
  {
    hide Inv, Enabled, Apply, Initial, Run;
    OutIsLeaving(h[i].pcs[c]);
    assert |h| == |moves| + 1 by { if i > 0 { RunStep(h, moves, i); } else { StartsOutside(h, moves, i, c); } }
    DemandSurvives(h, moves, i, c);
    forall l | HoldsLock(h[i], c, l) ensures false {
      LockSurvives(h, moves, i, c, l);
    }
    if OwnsFile(h[i], c) {
      var path :| path in h[i].owners && h[i].owners[path] == c;
      OwnerFileSurvives(h, moves, i, c, path);
    }
    assert forall l | l in h[i].locks :: h[i].locks[l] == c ==> HoldsLock(h[i], c, l);
  }

  // ---------------------------------------------------------------- runs that leave something

  function Last(h: seq<State>): State
    requires h != []
  {
    h[|h| - 1]
  }

  lemma Then(h: seq<State>, moves: seq<(Client, Action)>, c: Client, a: Action)
    returns (g: seq<State>, n: seq<(Client, Action)>)
    requires Run(h, moves) && Enabled(Last(h), c, a)
    ensures Run(g, n) && Last(g) == Apply(Last(h), c, a)
  {
    hide Enabled, Apply, Initial;
    g, n := h + [Apply(Last(h), c, a)], moves + [(c, a)];
  }

  function Alone(c: Client): State {
    State(map[], map[], {}, map[c := Start])
  }

  lemma AloneRuns(c: Client)
    ensures Run([Alone(c)], [])
  {
  }

  /** The demand record is renamed into place and the write then raises, or an exception arrives
      between the write and the region whose handlers clear it. */
  lemma DemandCanLeak(c: Client, inWrite: bool) returns (h: seq<State>, moves: seq<(Client, Action)>)
    ensures Run(h, moves) && c in Last(h).pcs && Last(h).pcs[c].Exited? && c in Last(h).demands
  {
    AloneRuns(c);
    h, moves := Then([Alone(c)], [], c, WriteDemand(true, inWrite));
    if !inWrite {
      h, moves := Then(h, moves, c, RaiseBeforeLocks(false));
    }
  }

  /** An attempt that has slot one of a shelf of its own. */
  lemma AcquiresAlone(c: Client) returns (h: seq<State>, moves: seq<(Client, Action)>)
    ensures Run(h, moves)
    ensures Last(h) == State(map[Legacy := c, Numbered(1) := c], map[], {c}, map[c := Acquired(1, 1)])
  {
    AloneRuns(c);
    h, moves := Then([Alone(c)], [], c, WriteDemand(true, false));
    h, moves := Then(h, moves, c, Expand(1));
    assert Last(h) == State(map[], map[], {c}, map[c := Probing(1, 1, 0)]);
    h, moves := Then(h, moves, c, TryLock);
    assert Last(h) == State(map[Legacy := c], map[], {c}, map[c := Probing(1, 1, 1)]);
    h, moves := Then(h, moves, c, TryLock);
  }

  lemma LeavesBodyAlone(c: Client) returns (h: seq<State>, moves: seq<(Client, Action)>)
    ensures Run(h, moves)
    ensures Last(h) == State(map[Legacy := c, Numbered(1) := c], map[1 := c], {c}, map[c := Scanning(1, 1, {1})])
  {
    h, moves := AcquiresAlone(c);
    h, moves := Then(h, moves, c, WriteOwner(true, false));
    assert Last(h) == State(map[Legacy := c, Numbered(1) := c], map[1 := c], {c}, map[c := Body(1, 1)]);
    assert OwnerPaths(Last(h)) == {1};
    h, moves := Then(h, moves, c, LeaveBody);
  }

  function ClosingAlone(c: Client, locks: map<Lock, Client>): State {
    State(locks, map[1 := c], {c}, map[c := Closing(true)])
  }

  lemma ClosesOne(c: Client, l: Lock, locks: map<Lock, Client>, rest: map<Lock, Client>)
    requires l in locks && locks[l] == c && rest == locks - {l}
    ensures Enabled(ClosingAlone(c, locks), c, CloseFile(l))
    ensures Apply(ClosingAlone(c, locks), c, CloseFile(l)) == ClosingAlone(c, rest)
  {
  }

  lemma ClosesAlone(h: seq<State>, moves: seq<(Client, Action)>, c: Client) returns (g: seq<State>, n: seq<(Client, Action)>)
    requires Run(h, moves) && Last(h) == ClosingAlone(c, map[Legacy := c, Numbered(1) := c])
    ensures Run(g, n) && Last(g) == State(map[], map[1 := c], {}, map[c := Exited(true, false, false)])
  {
    hide Run;
    ClosesOne(c, Legacy, map[Legacy := c, Numbered(1) := c], map[Numbered(1) := c]);
    g, n := Then(h, moves, c, CloseFile(Legacy));
    ClosesOne(c, Numbered(1), map[Numbered(1) := c], map[]);
    g, n := Then(g, n, c, CloseFile(Numbered(1)));
    g, n := ClearsAlone(g, n, c);
  }

  lemma ClearsAlone(h: seq<State>, moves: seq<(Client, Action)>, c: Client) returns (g: seq<State>, n: seq<(Client, Action)>)
    requires Run(h, moves) && Last(h) == ClosingAlone(c, map[])
    ensures Run(g, n) && Last(g) == State(map[], map[1 := c], {}, map[c := Exited(true, false, false)])
  {
    hide Run;
    g, n := Then(h, moves, c, ClosedAll);
    g, n := Then(g, n, c, ClearDemand);
  }

  /** An exception while the owner file is being looked for skips its removal; the closing suite runs
      to its end, so only the owner file is left. */
  lemma OwnerCanLeak(c: Client) returns (h: seq<State>, moves: seq<(Client, Action)>)
    ensures Run(h, moves) && c in Last(h).pcs && Last(h).pcs[c].Exited?
    ensures OwnsAt(Last(h), c, 1) && c !in Last(h).demands && HoldsExactly(Last(h), c, [])
  {
    h, moves := LeavesBodyAlone(c);
    h, moves := Then(h, moves, c, Raise);
    assert Last(h).pcs[c] == Closing(true) by { assert OwnsAt(Last(h), c, 1); }
    h, moves := ClosesAlone(h, moves, c);
  }

  /** An exception in the closing loop leaves the lock files open behind it, and the demand record. */
  lemma LocksCanStayOpen(c: Client) returns (h: seq<State>, moves: seq<(Client, Action)>)
    ensures Run(h, moves) && c in Last(h).pcs && Last(h).pcs[c].Exited?
    ensures HoldsLock(Last(h), c, Legacy) && HoldsLock(Last(h), c, Numbered(1)) && c in Last(h).demands
  {
    h, moves := AcquiresAlone(c);
    h, moves := Then(h, moves, c, Interrupt);
    h, moves := Then(h, moves, c, Raise);
  }
}
