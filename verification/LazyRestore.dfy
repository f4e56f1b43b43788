/** The owned lazy-pages restore: launch, restore, and exactly one settlement of the owner. */
module LazyRestore {
  import opened Options
  import opened Births
  import opened LazyWorld
  import opened LazyMachine
  import opened LazyDisk
  import opened LazyOwner
  import opened LazyLifecycle
  import opened LazyRecovery
  import opened LazyLauncher

  /** A raised error; `Interrupt` is a BaseException that is not an Exception. */
  datatype Fault = Error | Interrupt

  datatype Outcome = Returned(code: int) | Raised(fault: Fault)

  /** The calls whose order matters. */
  datatype Call = CheckInterrupted | OwnerAcquired | ExecuteRestore | Settle | WriteReceipt

  datatype Settlement = Settlement(verified: bool, artifactsCleared: bool)

  /** The transaction's locals when it ends. */
  datatype Account = Account(
    record: Option<Owner>,
    restoreResult: Option<int>,
    operationError: Option<Fault>,     // of the launch or the restore
    cleanupInterrupt: Option<Fault>,
    lateFault: Option<Fault>,          // of the last checkpoint
    receiptError: Option<Fault>,
    artifactsCleared: bool)

  /** The calls made, in order, and the owners that were settled. */
  class Ledger {
    var settled: seq<Owner>
    var calls: seq<Call>

    constructor ()
      ensures settled == [] && calls == []
    {
      settled, calls := [], [];
    }
  }

  /** A call into code outside this model: it may raise. */
  method Checkpoint(m: Machine, ledger: Ledger, call: Call) returns (fault: Option<Fault>)
    requires m.Valid()
    modifies m`mishaps, ledger`calls
    ensures ledger.calls == old(ledger.calls) + [call]
    ensures m.Valid() && m.mishaps >= old(m.mishaps) && (fault.Some? ==> m.mishaps > old(m.mishaps))
  {
    ledger.calls := ledger.calls + [call];
    var interrupted: bool := *;
    var answered := m.Answers();
    fault := if answered then None else Some(if interrupted then Interrupt else Error);
  }

  /** Settle one owner, returning any interrupt so the caller can receipt and re-raise it. */
  method SettleOwner(m: Machine, ledger: Ledger, o: Owner) returns (s: Settlement, interrupt: Option<Fault>)
    requires m.Valid() && m.now.disk.owner == Some(o)
    modifies m, ledger
    ensures m.Valid() && old(m.history) <= m.history
    ensures ledger.settled == old(ledger.settled) + [o] && ledger.calls == old(ledger.calls) + [Settle]
    ensures SentOnly(old(m.now), m.now, o.daemon)
    ensures m.mishaps == old(m.mishaps) ==> |m.now.deliveries| <= |old(m.now.deliveries)| + 1
    ensures s.verified ==> Dead(m.now.table, o.daemon)
    ensures s.artifactsCleared ==> s.verified && Retired(m.now, o)
    ensures !s.verified ==> m.now.disk.owner == old(m.now.disk.owner)
    ensures interrupt.Some? ==> interrupt == Some(Interrupt) && !s.artifactsCleared
    ensures m.mishaps >= old(m.mishaps) && (!s.artifactsCleared ==> m.mishaps > old(m.mishaps))
  {
    hide Inv, Rely, Safe, Lawful, Tends, NoneActive, Narrowed;
    ledger.settled, ledger.calls := ledger.settled + [o], ledger.calls + [Settle];
    ghost var s0 := m.now;
    OwnerNamesCurrent(s0, o);
    var cleanup := Terminate(m, o.daemon);
    TendsEvolves(s0, m.now);
    if cleanup.None? {
      var interrupted: bool := *;
      return Settlement(false, false), if interrupted then Some(Interrupt) else None;
    }
    if !cleanup.value.verified {
      return Settlement(false, false), None;
    }
    var retired := RetirePriorOwner(m, o, cleanup);
    if retired.None? {
      var interrupted: bool := *;
      return Settlement(true, false), if interrupted then Some(Interrupt) else None;
    }
    s, interrupt := Settlement(true, true), None;
  }

  /** The `try` body: launch, hand over the owner, restore, with a checkpoint between them. */
  method LaunchAndRestore(m: Machine, ledger: Ledger, paths: Paths)
    returns (record: Option<Owner>, restoreResult: Option<int>, fault: Option<Fault>)
    requires m.Valid()
    modifies m, ledger`calls
    // The calls go in this order and stop at the first that raises.
    ensures old(ledger.calls) <= ledger.calls
    ensures ledger.calls[|old(ledger.calls)|..] <= [OwnerAcquired, CheckInterrupted, ExecuteRestore, CheckInterrupted]
    ensures fault.None? ==> |ledger.calls| == |old(ledger.calls)| + 4
    ensures restoreResult.Some? ==> |ledger.calls| == |old(ledger.calls)| + 4
    ensures record.None? ==> ledger.calls == old(ledger.calls)
    ensures m.Valid() && old(m.history) <= m.history
    ensures record.Some? ==> m.now.disk.owner == record
    ensures record.None? ==> fault.Some? && restoreResult.None?
    ensures fault.None? ==> restoreResult.Some?
    ensures m.mishaps >= old(m.mishaps) && (record.Some? && fault.Some? ==> m.mishaps > old(m.mishaps))
    ensures m.mishaps == old(m.mishaps) && record.None? ==>
      old(m.now.disk.pending).Some?
      || (m.now.current.Some? && m.now.current.value !in old(m.now.gates) && NoneActive(m.now))
  {
    hide Inv, Rely, Safe, Lawful, NoneActive;
    restoreResult, fault := None, None;
    ghost var started;
    record, started := LaunchLazyPagesInternal(m, paths);
    if record.None? {
      var interrupted: bool := *;
      fault := Some(if interrupted then Interrupt else Error);
      return;
    }
    fault := Checkpoint(m, ledger, OwnerAcquired);
    if fault.Some? {
      return;
    }
    fault := Checkpoint(m, ledger, CheckInterrupted);
    if fault.Some? {
      return;
    }
    m.Interfere();
    fault := Checkpoint(m, ledger, ExecuteRestore);
    if fault.Some? {
      return;
    }
    var isInteger := m.Answers();
    if !isInteger {
      fault := Some(Error);
      return;
    }
    var status: int := *;
    restoreResult := Some(status);
    fault := Checkpoint(m, ledger, CheckInterrupted);
  }

  /** The failure receipt; writing it may raise. */
  method WriteFailureReceipt(m: Machine, ledger: Ledger) returns (fault: Option<Fault>)
    requires m.Valid()
    modifies m`mishaps, ledger`calls
    ensures m.Valid() && m.mishaps >= old(m.mishaps) && (fault.Some? ==> m.mishaps > old(m.mishaps))
    ensures ledger.calls == old(ledger.calls) + [WriteReceipt]
  {
    fault := Checkpoint(m, ledger, WriteReceipt);
  }

  /** The calls of an owned restore: a checkpoint, as much of the operation as went through, the
      settlement, a checkpoint, and the receipt. */
  predicate InOrder(made: seq<Call>, receipted: bool) {
    var tail := [Settle, CheckInterrupted] + if receipted then [WriteReceipt] else [];
    && |made| > |tail| && made[0] == CheckInterrupted && made[|made| - |tail|..] == tail
    && made[1..|made| - |tail|] <= [OwnerAcquired, CheckInterrupted, ExecuteRestore, CheckInterrupted]
  }

  lemma CallsMade(before: seq<Call>, operation: seq<Call>, calls: seq<Call>, receipted: bool)
    requires operation <= [OwnerAcquired, CheckInterrupted, ExecuteRestore, CheckInterrupted]
    requires calls == before + [CheckInterrupted] + operation + [Settle] + [CheckInterrupted]
      + if receipted then [WriteReceipt] else []
    ensures before <= calls && |calls[|before|..]| == |operation| + if receipted then 4 else 3
    ensures InOrder(calls[|before|..], receipted)
  {
    var made := calls[|before|..];
    assert made == [CheckInterrupted] + operation + ([Settle, CheckInterrupted] + if receipted then [WriteReceipt] else []);
    assert made[1..|operation| + 1] == operation;
  }

  lemma Suffix(a: seq<Call>, b: seq<Call>)
    requires a <= b
    ensures b == a + b[|a|..]
  {
  }

  /** How an owned restore ends. An interrupt of the receipt comes first, then the cleanup's, then the
      operation's own error, then the last checkpoint's; only then do a lost receipt and artifacts left
      behind count. */
  predicate Concludes(a: Account, outcome: Outcome) {
    && (outcome == Returned(0) <==>
          && a.restoreResult == Some(0) && a.artifactsCleared
          && a.operationError.None? && a.cleanupInterrupt.None? && a.lateFault.None?)
    && (outcome.Returned? ==> a.restoreResult == Some(outcome.code))
    && (a.receiptError == Some(Interrupt) || a.cleanupInterrupt.Some? ==> outcome == Raised(Interrupt))
    && (a.receiptError != Some(Interrupt) && a.cleanupInterrupt.None? && a.operationError.Some? ==>
          outcome == Raised(a.operationError.value))
    && (a.receiptError != Some(Interrupt) && a.cleanupInterrupt.None? && a.operationError.None? && a.lateFault.Some? ==>
          outcome == Raised(a.lateFault.value))
    && (outcome == Raised(Interrupt) ==>
          Some(Interrupt) in {a.receiptError, a.cleanupInterrupt, a.operationError, a.lateFault})
    && (a.receiptError.Some? ==> outcome.Raised?)
    && (a.operationError.None? && a.cleanupInterrupt.None? && a.lateFault.None? && a.receiptError.None? ==>
          a.restoreResult.Some? && outcome ==
            if a.restoreResult.value == 0 && !a.artifactsCleared then Raised(Error) else Returned(a.restoreResult.value))
  }

  /** What follows the settlement: success, or a receipt and the first of the errors. */
  method Conclude(m: Machine, ledger: Ledger, a: Account) returns (outcome: Outcome, receiptError: Option<Fault>)
    requires m.Valid() && a.receiptError.None? && (a.operationError.None? ==> a.restoreResult.Some?)
    requires a.cleanupInterrupt.Some? ==> a.cleanupInterrupt == Some(Interrupt)
    modifies m`mishaps, ledger`calls
    ensures m.Valid() && m.mishaps >= old(m.mishaps) && (receiptError.Some? ==> m.mishaps > old(m.mishaps))
    ensures ledger.calls == old(ledger.calls) + if outcome == Returned(0) then [] else [WriteReceipt]
    ensures Concludes(a.(receiptError := receiptError), outcome)
  {
    receiptError := None;
    var operationError := a.operationError;
    if a.lateFault.Some? && operationError.None? && a.cleanupInterrupt.None? {
      operationError := a.lateFault;
    }
    if operationError.None? && a.cleanupInterrupt.None? && a.restoreResult == Some(0) && a.artifactsCleared {
      return Returned(0), None;
    }
    var finalError := if a.cleanupInterrupt.Some? then a.cleanupInterrupt else operationError;
    receiptError := WriteFailureReceipt(m, ledger);
    if receiptError.Some? {
      if receiptError.value == Interrupt {
        return Raised(Interrupt), receiptError;
      }
      return Raised(if finalError.Some? then finalError.value else Error), receiptError;
    }
    if finalError.Some? {
      return Raised(finalError.value), None;
    }
    if a.restoreResult.value != 0 {
      return Returned(a.restoreResult.value), None;
    }
    outcome := Raised(Error);
  }

  method RunOwnedLazyPagesRestore(m: Machine, ledger: Ledger, paths: Paths) returns (outcome: Outcome, a: Account)
    requires m.Valid()
    modifies m, ledger
    ensures m.Valid() && old(m.history) <= m.history
    // Once launch has returned an owner, that owner is settled exactly once.
    ensures ledger.settled == old(ledger.settled) + if a.record.Some? then [a.record.value] else []
    ensures a.record.None? ==>
      outcome.Raised? && !a.artifactsCleared && (a.operationError.Some? ==> outcome == Raised(a.operationError.value))
    // Success means what it should, and then the daemon and its reusable artifacts are gone.
    ensures a.record.Some? ==> Concludes(a, outcome)
    ensures outcome == Returned(0) ==> a.record.Some? && Retired(m.now, a.record.value)
    // The calls come in order, and every other way out of an owned restore has attempted one receipt.
    ensures old(ledger.calls) <= ledger.calls
    ensures var made := ledger.calls[|old(ledger.calls)|..];
      if a.record.None? then made <= [CheckInterrupted]
      else InOrder(made, outcome != Returned(0)) && (a.operationError.None? ==> |made| == if outcome == Returned(0) then 7 else 8)
    // When every step gives an answer, the result is the restore's own and nothing is left behind;
    // there is no owner only after an unbound intent, or if the new daemon died before it was bound.
    ensures m.mishaps >= old(m.mishaps)
    ensures m.mishaps == old(m.mishaps) && a.record.Some? ==>
      a.restoreResult.Some? && outcome == Returned(a.restoreResult.value) && Retired(m.now, a.record.value)
    ensures m.mishaps == old(m.mishaps) && a.record.None? ==>
      Unbound(old(m.now))
      || (m.now.current.Some? && m.now.current.value !in old(m.now.gates) && NoneActive(m.now))
  {
    hide Inv, Rely, Safe, Lawful, NoneActive, InOrder, Quiet, Unbound, AllowsLaunch, ReceiptFits, SentOnly, Tends;
    a := Account(None, None, None, None, None, None, false);
    ghost var before := ledger.calls;
    var recovery, _ := RecoverLazyPagesLaunch(m);
    if recovery.None? || !AllowsLaunch(recovery.value) {
      var interrupted: bool := *;
      return Raised(if interrupted then Interrupt else Error), a;
    }
    var fault := Checkpoint(m, ledger, CheckInterrupted);
    if fault.Some? {
      return Raised(fault.value), a;
    }
    var record, restoreResult, operationError := LaunchAndRestore(m, ledger, paths);
    if record.None? {
      return Raised(operationError.value), a.(operationError := operationError);
    }
    ghost var operation := ledger.calls[|before + [CheckInterrupted]|..];
    Suffix(before + [CheckInterrupted], ledger.calls);
    var cleanup, cleanupInterrupt := SettleOwner(m, ledger, record.value);
    var late := Checkpoint(m, ledger, CheckInterrupted);
    a := Account(record, restoreResult, operationError, cleanupInterrupt, late, None, cleanup.artifactsCleared);
    var receiptError;
    outcome, receiptError := Conclude(m, ledger, a);
    CallsMade(before, operation, ledger.calls, outcome != Returned(0));
    a := a.(receiptError := receiptError);
  }
}
