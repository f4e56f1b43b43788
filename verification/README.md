# Durable ownership, restore and provenance protocols of the HOL workbench

A Dafny model, with proofs, of the parts of the HOL workbench that must stay right when processes
die, pids are reused, controllers crash between two writes and several clients share one shelf.
`dafny verify dfyconfig.toml` checks everything.

## What is modelled

**Lazy-pages ownership** (`Births`, `LazyWorld`, `LazyMachine`, `OwnedSignal`, `LazyOwner`,
`LazyDisk`, `LazyProtocol`, `LazyLifecycle`, `LazyRecovery`, `LazyLauncher`, `LazyRestore`,
`LazyRuns`). The shared state is the process table, the gates of all launchers ever started, and the
files of one image directory. The controller is imperative code over a `Machine`: before every
primitive step the kernel and CRIU may take any number of steps, a write may fail with or without
taking effect, and every state passed through is kept in `history`. Each procedure keeps the
invariant in each of those states, so a crash is a cut of the history, and `LazyRuns` reads the
safety theorems off the histories of arbitrary runs. `mishaps` counts the steps that gave no
conclusive answer (a failed read or write, a lost helper report, a deadline, an interrupt, a pid
given out again between two steps); the clock is the one the deadlines are read on. Contracts say
both what holds whatever fails, and what the outcome must be when nothing does.

**Pool restore** (`Kernels`, `ProcessGroups`, `RestoreTree`, `RestoredGroups`, `PoolDirectory`,
`PoolRestore`, `PoolDemotion`, `PoolSeats`, `PoolTransaction`, `PoolRuns`). The process table with
groups and states moves on before every read and every signal. On it: waiting, termination and
continuation of process groups, capture and validation of the stopped tree. Beside it the pool
directory, whose history has one moment per file write: begin, launcher ownership, staging,
publishing, rollback, condemnation and demotion, the checkouts and releases of a ready pool, whole
restore transactions with signals at any point, and arbitrary runs of all of them. `failures` counts
writes that raised and outside calls that failed.

**Shelf admission** (`Shelf`, `ShelfExits`, `ShelfAdmission`). A state machine in which each flock,
file write and unlink of each client is one step, exceptions arrive anywhere, inside the cleanups
too, and all clients interleave; what an exit leaves behind; and the admission code run against it.
`mishaps` counts the exceptions the admission code met.

**Controller closure** (`ImportClosure`, `ClosureMeaning`, `RuntimeBundle`). The import worklist with
its inventory of process starts; what the closure is, said of files, imports and calls without the
worklist's own functions; the manifest, the read-only bundle made from it and its recomputation
inside the bundle.

**Scanners and codecs** (`PythonText`, `PhraseScanner`, `PhraseGrammar`, `TypeVars`,
`TypeVarMeaning`, `LoaderExport`, `LoadedProvenance`, `BrokerFrames`). The fake-HOL masker and phrase
splitter, and the grammar of nested comments, strings and backquoted terms they follow; matching of
statements up to type variables, and what it means at the positions of the text; the loader export
parser with its closure resolver and validator; and the broker's framing.

## Where the code does not do what one might expect

- An exit from `criu_shelf_admission` can leave records. The demand record is written before the
  region whose handlers clear it (criu_shelf_admission.py:128-139), and an exception or interrupt in
  one cleanup skips the rest of its suite (191-201): in the inner one the owner file stays although
  locks and demand go, in the outer one the demand record stays and locks may be left open.
  `ShelfExits.OwnerFileSurvives`, `DemandSurvives` and `LockSurvives` give the exact conditions over
  all interleavings; `OwnerCanLeak`, `DemandCanLeak` and `LocksCanStayOpen` are runs. None of them
  breaks exclusivity, the bound or the ownership of a later admission's file.
- `split_ocaml_phrases` steps over the character after a backslash inside a string, so a newline
  there is not counted. `PhraseScanner.LinesAreTrue` gives the exact condition,
  `PhraseScanner.ContinuedStringShiftsLines` the family of texts that shift.
- `publish_restored_pool_ready` looks at statuses only. `PoolRestore.PublishNeedsStaging` shows that
  what it opens is admissible exactly when staging came before, `PoolRestore.UnstagedCanOpen` a pool
  it should not open. Its one caller stages first, so no run opens such a pool (`PoolRuns.AnyRun`).
- The failure handler of a restore condemns the pool whatever failed, a refused begin included
  (cli/orbstack_criu_restore.py:1533-1549). Only a failed write can leave the pool as it was
  (`PoolTransaction.ExecuteRestoreTransaction`); a signal after the last check leaves a restored,
  open pool behind an interrupted controller.
- A ready pool is tried again after its preflight: if its process dies between the two looks, the
  restore goes on from the ready pool, begin refuses it, and the handler condemns it
  (cli/orbstack_criu_restore.py:1623-1650). `PoolTransaction.RestorePool` names this case.
- A recovery without a bound daemon identity never unblocks the directory by itself
  (`LazyRecovery.RecoverLazyPagesLaunch`): a pid in a pidfile is no authority
  (criu_lazy_pages_lifecycle.py:350-371).

## Assumptions

- One controller at a time works on an image directory: the caller holds the pool lock
  (criu_lazy_pages_dispatch.py:31); settling an owner takes no image lock of its own.
- A birth, (pid, start ticks), does not come back once its process is gone; `/proc` entries are
  either unreadable or true at the moment they are read; a zombie occupies its entry.
- A released launcher pid forks at most one daemon, and only while it is alive. Where CRIU runs
  through sudo (criu_invocation.py:17) that pid is sudo's: it stands for sudo with the CRIU process
  under it, which sudo is taken to outlive.
- `kill` and `killpg` fail for a missing target or for lack of permission only. A process group that
  is gone comes back only under a process with its number.
- CRIU holds a restored tree stopped until it is continued, so the reads of one capture show one
  moment.
- Whoever changes a pool directory holds the pool's locks; seats, children and restores do not
  interleave within one operation.
- Nobody but CRIU processes of the protocol and the controller writes in the image directory.
- Atomic file writes and durable unlinks are one step each, and an unlink of a missing file succeeds.

## Model

| member | source | states |
|---|---|---|
| LazyWorld.EnvRunIsRely | hol-workbench/hol_workbench/criu_lazy_pages_owner.py:283-393 | Any number of exits, pid reuses, daemon forks and CRIU file writes fit between two controller steps |
| LazyWorld.RelyKeepsInv | hol-workbench/hol_workbench/criu_lazy_pages_launcher.py:107-191 | No move of the kernel or of CRIU breaks the protocol invariant, and every such move is a safe step |
| LazyWorld.CrashKeepsInv | hol-workbench/hol_workbench/criu_lazy_pages_protocol.py:132-195 | A controller that dies after any step, its gate pipe closing with it, leaves a state in which the invariant holds |
| LazyWorld.DeliverKeepsInv | hol-workbench/hol_workbench/criu_owned_process_signal.py:21-47 | A signal to a bound, live birth is a safe step |
| LazyWorld.NarrowedTends | hol-workbench/hol_workbench/criu_lazy_pages_owner.py:66-98 | Once a launch has been narrowed to one daemon birth it stays narrowed while the controller only looks, binds and signals |
| LazyMachine.Machine.CrashAfter | hol-workbench/hol_workbench/criu_lazy_pages_launcher.py:107-191 | Cutting a controller short after any step of its history leaves a lawful history |
| OwnedSignal.SignalExactProcess | hol-workbench/hol_workbench/criu_owned_process_signal.py:21-47 | Between pidfd open, tick check and send anything may happen, and the signal reaches exactly the expected (pid, start ticks) or nobody; a refusal as quiescent or mismatched means that birth is dead |
| OwnedSignal.PrivilegedPidfdSignal | hol-workbench/hol_workbench/criu_lazy_pages_owner.py:227-280 | The same through the helper, whose report may be lost: a reported signal was delivered, a lost or incoherent report reads as a failure and claims nothing |
| LazyOwner.DaemonLiveness | hol-workbench/hol_workbench/criu_lazy_pages_owner.py:206-224 | Gone or replaced means the bound birth is dead for good, exact means it is alive, and an inconclusive answer needs a failed read or a reused pid |
| LazyOwner.WaitForQuiescence | hol-workbench/hol_workbench/criu_lazy_pages_owner.py:358-369 | Waiting reports quiescent only when the bound birth is dead; giving up means that the timeout has passed and a look after the deadline did not find it dead |
| LazyOwner.SignalAndClassify | hol-workbench/hol_workbench/criu_lazy_pages_owner.py:318-356 | A helper refusal becomes a verified quiescence only after the parent has seen the birth dead itself |
| LazyOwner.TerminateOwnedDaemon | hol-workbench/hol_workbench/criu_lazy_pages_owner.py:283-393 | Sends nothing, TERM, or TERM then KILL, all to the one bound birth, a KILL no sooner than 1000 ms after its TERM; when every step answers at most one signal is sent; verified means that birth is dead; unless some step failed to answer the result is verified |
| LazyOwner.KillAndWait | hol-workbench/hol_workbench/criu_lazy_pages_owner.py:371-393 | The escalation, due only when the wait after TERM has run out, sends at most one KILL to the bound birth and claims quiescence only when it is dead |
| LazyOwner.BindDaemonIdentity | hol-workbench/hol_workbench/criu_lazy_pages_owner.py:66-98 | A bound identity narrows the launch whose pidfile was read to that birth: if its daemon lives, it is that one; without a binding and without a failed step CRIU is gone |
| LazyOwner.BindingNarrows | hol-workbench/hol_workbench/criu_lazy_pages_owner.py:66-98 | A pidfile read, a stable identity read and a second pidfile read name the daemon itself unless the daemon is dead |
| LazyOwner.PidfileIsFixed | hol-workbench/hol_workbench/criu_lazy_pages_owner.py:66-98 | Two readings of one launch's pidfile cannot differ |
| LazyProtocol.StartGatedLazyPages | hol-workbench/hol_workbench/criu_lazy_pages_protocol.py:132-173 | A started launcher is new, has its gate closed, and changes no record; one that is given up on never gets past its gate |
| LazyProtocol.OpenOk | hol-workbench/hol_workbench/criu_lazy_pages_protocol.py:185-195 | Opening the gate under a durable pending record that names the launcher keeps the invariant; the record is what makes it safe |
| LazyProtocol.ReleaseGatedLazyPages | hol-workbench/hol_workbench/criu_lazy_pages_protocol.py:185-195 | The gate opens only under the authorized pending record and its write end is closed whatever happens |
| LazyProtocol.CloseGate | hol-workbench/hol_workbench/criu_lazy_pages_protocol.py:176-182 | Closing an unreleased gate for good starts no CRIU |
| LazyProtocol.WaitLauncher | hol-workbench/hol_workbench/criu_lazy_pages_protocol.py:237-240 | A settled launcher is dead |
| LazyDisk.UnlinkSocket | hol-workbench/hol_workbench/criu_lazy_pages_lifecycle.py:31-48 | The socket is removed only with CRIU gone, and a success is lasting |
| LazyDisk.UnlinkOwner | hol-workbench/hol_workbench/criu_lazy_pages_lifecycle.py:31-48 | The owner record goes only beside a pending record or as the very last file |
| LazyDisk.UnlinkPending | hol-workbench/hol_workbench/criu_lazy_pages_launcher.py:172-191 | The pending record goes only beside an owner record or as the very last file |
| LazyDisk.QuietStaysQuiet | hol-workbench/hol_workbench/criu_lazy_pages_lifecycle.py:168-172 | Once CRIU is gone nobody else creates its socket, pidfile or log again |
| LazyDisk.NarrowedAndDead | hol-workbench/hol_workbench/criu_lazy_pages_lifecycle.py:110-165 | A narrowed launch whose bound daemon is dead is over |
| LazyLifecycle.RetirePriorOwner | hol-workbench/hol_workbench/criu_lazy_pages_lifecycle.py:31-48 | A retirement that returns has removed every reusable artifact, the owner record last, of a daemon that is dead; it signals only that daemon |
| LazyLifecycle.UnlinkOwned | hol-workbench/hol_workbench/criu_lazy_pages_lifecycle.py:39-48 | If any unlink fails the owner record is still there |
| LazyLifecycle.OwnerNamesCurrent | hol-workbench/hol_workbench/criu_lazy_pages_owner.py:193-203 | An owner record always describes the last released launch, whose launcher is gone and whose pidfile is the only one |
| LazyLifecycle.PrepareLaunch | hol-workbench/hol_workbench/criu_lazy_pages_lifecycle.py:51-75 | Refuses for a pending launch exactly when one is on disk, never meets an orphaned socket or a stale pidfile, and when it admits no record is left; without a failed step it always admits when nothing is pending |
| LazyLifecycle.UnrecordedIsQuiet | hol-workbench/hol_workbench/criu_lazy_pages_owner.py:429-444 | Without a record there is no socket, no pidfile and no CRIU: the preflight refusals are unreachable from the protocol's own runs |
| LazyLifecycle.AbortLauncher | hol-workbench/hol_workbench/criu_lazy_pages_lifecycle.py:78-107 | Closes both pipes, never yields a verified quiescence, and reports the launcher verified only when it is dead |
| LazyLifecycle.CleanupFailedLaunch | hol-workbench/hol_workbench/criu_lazy_pages_lifecycle.py:110-165 | Signals nobody without a daemon bound in memory, closes both pipes; verified means daemon and launcher are both dead and CRIU is gone; the identity is reported missing exactly for a released launcher without a bound daemon |
| LazyLifecycle.ClearVerifiedDaemonArtifacts | hol-workbench/hol_workbench/criu_lazy_pages_lifecycle.py:168-172 | Whenever the pending record is gone, socket, owner and pidfile were gone before it |
| LazyRecovery.RecoverLazyPagesLaunch | hol-workbench/hol_workbench/criu_lazy_pages_lifecycle.py:195-233 | Never reports an owner mismatch, allows a launch only with pending gone, signals only the recorded daemon, verified means daemon and launcher dead; whenever it returns from a pending intent its receipt is written and fits the outcome; without a failed step it unblocks the directory exactly unless no daemon identity was bound |
| LazyRecovery.RecoverWithOwner | hol-workbench/hol_workbench/criu_lazy_pages_lifecycle.py:236-328 | The mismatch branch is unreachable, and clearing a stale owner without asking about the launcher is sound: the launcher is already dead |
| LazyRecovery.RecoverWithoutOwner | hol-workbench/hol_workbench/criu_lazy_pages_lifecycle.py:331-428 | An unbound intent is always left in place; a bound one is cleared when daemon and launcher are verified dead, and without a failed step always |
| LazyRecovery.PendingIsKnown | hol-workbench/hol_workbench/criu_lazy_pages_records.py:151-180 | A pending record names the only pidfile and, once bound, the one identity its launch was narrowed to |
| LazyLauncher.WritePendingLaunch | hol-workbench/hol_workbench/criu_lazy_pages_records.py:44-81 | The intent is durable before the gate can open |
| LazyLauncher.WriteBoundPending | hol-workbench/hol_workbench/criu_lazy_pages_records.py:84-95 | The upgrade names a daemon the launch was narrowed to |
| LazyLauncher.WriteOwner | hol-workbench/hol_workbench/criu_lazy_pages_owner.py:159-164 | An owner record appears only beside a pending record naming the same daemon and paths |
| LazyLauncher.AuthorizeLaunch | hol-workbench/hol_workbench/criu_lazy_pages_launcher.py:107-133 | An opened gate means a durable pending record for this new launcher; the phase names the step not got past; without a failed step it opens exactly when nothing was pending |
| LazyLauncher.AwaitAndPublish | hol-workbench/hol_workbench/criu_lazy_pages_launcher.py:134-150 | A published owner is the bound daemon of this launch; not publishing without a failed step means CRIU died |
| LazyLauncher.LaunchLazyPagesInternal | hol-workbench/hol_workbench/criu_lazy_pages_launcher.py:81-191 | A returned record is on disk and its daemon bound; no pipe end stays open in any outcome; without a failed step a launch refuses for an older intent, publishes and removes its intent, or its new daemon died |
| LazyLauncher.FailLaunch | hol-workbench/hol_workbench/criu_lazy_pages_launcher.py:151-171 | A failed launch gives up its pending record only when daemon and launcher are dead, its failure receipt is written and nothing else is left |
| LazyRestore.SettleOwner | hol-workbench/hol_workbench/criu_lazy_pages_restore.py:43-72 | Signals only the owner's daemon; cleared artifacts mean it is dead and everything reusable is gone; unless it was verified dead its record stays |
| LazyRestore.LaunchAndRestore | hol-workbench/hol_workbench/criu_lazy_pages_restore.py:123-136 | Whatever raises after the launch, the owner it returned is still the record on disk; the calls go in order and stop at the first that raises |
| LazyRestore.RunOwnedLazyPagesRestore | hol-workbench/hol_workbench/criu_lazy_pages_restore.py:93-195 | A returned owner is settled exactly once; checkpoints, hand-over, restore, settlement and receipt come in this order, the operation stopping at the first that raises, and every owned outcome but 0 has attempted one receipt; 0 exactly when the restore returned 0, nothing is pending and the artifacts are cleared; otherwise an interrupt of the receipt or cleanup comes out first, then the operation's error, then the last checkpoint's, then the restore's own status |
| LazyRestore.Conclude | hol-workbench/hol_workbench/criu_lazy_pages_restore.py:155-195 | After the settlement: success without a receipt, or one receipt and then the first of the pending errors in that order |
| LazyRuns.AnyRun | hol-workbench/hol_workbench/criu_lazy_pages_launcher.py:107-191 | Launches, recoveries and owned restores in any order, each cut short anywhere, have only lawful histories |
| LazyRuns.RecoverThenPrepare | hol-workbench/hol_workbench/criu_lazy_pages_restore.py:28-40 | When a recovery's result lets a launch go on, the pending, orphan-socket and stale-pidfile refusals cannot fire |
| LazyRuns.StatesAreSafe | hol-workbench/hol_workbench/criu_lazy_pages_launcher.py:136-150 | In every reachable state one released daemon lives at most, whatever may live is on record, and pending and owner together name the same daemon, the same paths and a dead launcher |
| LazyRuns.DeadForGood | hol-workbench/hol_workbench/criu_lazy_pages_owner.py:206-224 | A birth verified dead once is dead in every later state of the run |
| LazyRuns.SignalsWereAuthorized | hol-workbench/hol_workbench/criu_owned_process_signal.py:21-47 | Every signal of every run reached a live birth that had been bound before |
| LazyRuns.KillsWaitForTerm | hol-workbench/hol_workbench/criu_lazy_pages_owner.py:369-372 | Every KILL of every run follows a TERM to the same birth by at least 1000 ms |
| LazyRuns.GatesOpenedUnderRecord | hol-workbench/hol_workbench/criu_lazy_pages_launcher.py:107-133 | Every gate that is open opened under a durable pending record for its launcher, with no other launch active |
| LazyRuns.LastRecordGoesLast | hol-workbench/hol_workbench/criu_lazy_pages_lifecycle.py:168-172 | When the last record disappears CRIU, socket and pidfiles were already gone |
| RestoreTree.CaptureAuthoritativeTree | hol-workbench/hol_workbench/criu_restore_transaction.py:108-145 | For every child relation, cycles included, records exactly the pids reachable from the root, once each |
| RestoreTree.RecordChecks | hol-workbench/hol_workbench/criu_restore_transaction.py:148-195 | No problem is reported exactly when every record is complete and no pid occurs twice |
| RestoreTree.TreeCaptureProblems | hol-workbench/hol_workbench/criu_restore_transaction.py:148-195 | No problem is reported exactly for a complete capture: closed under children, with the root and both roles in it |
| RestoreTree.ValidateRestoredTree | hol-workbench/hol_workbench/criu_restore_transaction.py:198-250 | Accepts exactly the complete captures in which every process is stopped and in the worker or basis group, roles in their own; a rejection names the root, the roles, the groups and the states exactly when they are wrong |
| RestoreTree.AcceptedIsOwned | hol-workbench/hol_workbench/criu_restore_transaction.py:198-250 | The checks on the two role records and on the whole tree together decide ownership of the tree |
| RestoreTree.CaptureAndValidate | hol-workbench/hol_workbench/criu_restore_transaction.py:108-310 | After acceptance, everything reachable from the CRIU root is stopped, had its children read, and is in a group about to be continued |
| RestoreTree.GroupRepresentatives | hol-workbench/hol_workbench/criu_restore_transaction.py:313-328 | Each captured group is guarded by a captured member of it, by its leader whenever the leader was captured |
| RestoreTree.RootGroup | hol-workbench/hol_workbench/criu_restore_transaction.py:323-326 | The root's group is that of the first record with its pid and a group, if there is one |
| Kernels.VacantMeansDead | hol-workbench/hol_workbench/criu_pool_restore.py:364-379 | Once a pid has been seen free, every process that had it is dead, then and in every later kernel, whoever gets the pid next |
| Kernels.IdentityNames | hol-workbench/hol_workbench/process_groups.py:104-116 | A birth identity text names one start tick |
| ProcessGroups.WaitForQuiescence | hol-workbench/hol_workbench/process_groups.py:134-167 | Quiescent means that every pid was seen free and every group empty in the course of the wait; survivors that the timeout has passed and one of them was seen there |
| ProcessGroups.CheckIdentity | hol-workbench/hol_workbench/process_groups.py:210-252 | Matching means the recorded process is under its pid in that kernel; mismatch that another one is; unavailable, unless a read failed, that the pid is free or nothing was recorded to compare |
| ProcessGroups.TerminateProcessGroup | hol-workbench/hol_workbench/process_groups.py:183-297 | Sends at most one TERM and then, no sooner than the grace after it and after a look that found the group still there, one KILL, to this group only, each after a look that found the recorded process alive under its pid; quiescent means the group was seen empty, survivors that it outlasted the KILL by its grace or was seen; every refusal has its reason |
| RestoredGroups.CaptureRestoredTree | hol-workbench/hol_workbench/criu_restore_transaction.py:108-250 | Every process of an accepted tree was alive, stopped, in an owned group and named by its record in the kernel of the capture |
| RestoredGroups.ContinueRole | hol-workbench/hol_workbench/criu_restore_transaction.py:284-292 | A SIGCONT follows a look that found the recorded process under its pid and one that found the pid in the recorded group; a refusal without a failed read means one of these did not hold |
| RestoredGroups.PollRole | hol-workbench/hol_workbench/criu_restore_transaction.py:293-305 | State and identity are read one after the other, and still a role reported running was running itself: the process seen before and again after the state read had the pid in between |
| RestoredGroups.ResumeRestoredProcesses | hol-workbench/hol_workbench/criu_restore_transaction.py:281-310 | Basis first, then worker; success means both groups were continued and both recorded processes ran after the second SIGCONT; failure after both means that a role was seen dead or dying or 500 ms passed; without a failed read, that one was seen gone, out of its group or not running |
| RestoredGroups.TerminateRestoredTree | hol-workbench/hol_workbench/criu_restore_transaction.py:313-353 | Group by group, the root's own last, with guarded TERM and KILL only; verified means that whatever held a captured pid is dead and every captured group was seen empty; unverified that something was still seen when a second had passed |
| PoolDirectory.PoolDirectory.CrashAfter | hol-workbench/hol_workbench/criu_pool_restore.py:494-557 | A crash between any two file writes leaves a directory whose whole history still keeps to the allowed steps |
| PoolDirectory.CollectUpdates | hol-workbench/hol_workbench/criu_pool_restore.py:528-546 | Exactly the existing session files some row points at are prepared |
| PoolDirectory.WriteSessions | hol-workbench/hol_workbench/criu_pool_restore.py:553-556 | After a failure each file is old or new; after success all listed files are new |
| PoolRestore.BeginRestoredPoolTransaction | hol-workbench/hol_workbench/criu_pool_restore.py:494-557 | Admission closes in pool.json only with every listed session file closed before: the pool and every seat then read restoring and unleased under a prelaunch transaction of this stamp and these paths, the rest is kept; succeeds exactly on a stopped pool, unless a write fails |
| PoolRestore.RecordRestoredPoolLauncher | hol-workbench/hol_workbench/criu_pool_restore.py:629-653 | Owns the launcher exactly in the prelaunch state of a restoring pool |
| PoolRestore.WaitRestoreLauncher | hol-workbench/hol_workbench/criu_restore_launcher.py:146-157 | Settles the launcher whatever signals arrive; the first one that ever arrived stays the latched one |
| PoolRestore.RunRestoreLauncher | hol-workbench/hol_workbench/criu_restore_launcher.py:160-188 | The gate opens only once ownership is durable, a started launcher has exited on every path, a launch counts only when nothing failed, and the first signal that arrived decides the outcome |
| PoolRestore.StageRestoredPoolMetadata | hol-workbench/hol_workbench/criu_pool_restore.py:656-708 | Pool, rows and session files then name the observed worker and basis, still closed; pool.json is last |
| PoolRestore.StagedDirIs | hol-workbench/hol_workbench/criu_pool_restore.py:656-708 | Field by field: pool, every seat and every listed file name the observed worker and basis, nothing else of them changes |
| PoolRestore.PublishRestoredPoolReady | hol-workbench/hol_workbench/criu_pool_restore.py:711-751 | Opens the pool exactly when it and every session file are restoring, as the last write: the pool then reads ready, every seat and file idle with its stop no longer verified; what it opens is admissible exactly when it was staged |
| PoolRestore.PublishedIs | hol-workbench/hol_workbench/criu_pool_restore.py:735-751 | Field by field: what the publication writes in pool.json, the rows and the listed files |
| PoolRestore.PublishNeedsStaging | hol-workbench/hol_workbench/criu_pool_restore.py:711-751 | A published pool is admissible exactly when the identities were staged before: the caller's order is necessary |
| PoolRestore.UnstagedCanOpen | hol-workbench/hol_workbench/criu_pool_restore.py:717-743 | A restoring pool whose seat names the births of the generation before passes every check of the publication and is opened inadmissible |
| PoolRestore.ResetRootCollisionRestore | hol-workbench/hol_workbench/criu_pool_restore.py:560-626 | Rolls back exactly the matching launcher-owned transaction with all stop receipts verified, pool.json last: the pool, every seat and every listed file then read stopped and unleased, all else is kept, and the preflight of the next restore accepts them |
| PoolRestore.RolledBackIs | hol-workbench/hol_workbench/criu_pool_restore.py:594-626 | Field by field: what the rollback writes, and that pool.json is then restorable |
| PoolRestore.ResetAfterBegin | hol-workbench/hol_workbench/criu_pool_restore.py:560-626 | After begin and launcher ownership, the rollback is open exactly for that stamp and those paths and exactly when the receipts were retained |
| PoolRestore.RollbackUndoesBegin | hol-workbench/hol_workbench/criu_pool_restore.py:494-653 | Begin, own, reset leaves a stopped, unleased, transaction-free pool with process records unchanged, every seat and listed file reading stopped, on which begin is enabled |
| PoolRestore.MarkPoolRestoreFailed | hol-workbench/hol_workbench/cli/orbstack_criu_restore.py:757-796 | Condemns pool.json first, then every listed session file past the ones that cannot be written; the pool, its seats and files then read restore_failed and unleased, all else is kept |
| PoolRestore.MarkedIs | hol-workbench/hol_workbench/cli/orbstack_criu_restore.py:757-796 | Field by field: what the condemnation writes in the seats and in the listed files |
| PoolDemotion.LookForRole | hol-workbench/hol_workbench/criu_pool_restore.py:450-461 | The three reads about one recorded process, anything happening between them: gone means the pid was free and then the group empty |
| PoolDemotion.DemoteStaleReadyPool | hol-workbench/hol_workbench/criu_pool_restore.py:382-491 | On any ready pool, leased, busy and dead seats included: demoted means quiescent metadata, no lease, no child, every process that ever had a recorded pid dead at return, begin enabled, every seat stopped and the preflight of a restore satisfied; unless a read or write fails it demotes exactly when the metadata is quiescent and the six looks find both roles gone |
| PoolDemotion.DemotedIs | hol-workbench/hol_workbench/criu_pool_restore.py:479-491 | Field by field: what the demotion writes, and that pool.json is then restorable |
| PoolDemotion.QuiescentMeans | hol-workbench/hol_workbench/criu_pool_restore.py:382-447 | The metadata is quiescent exactly when the transaction is absent or published, no child is active, and every seat is idle, ready or dead, unleased, with its stop verified and names the recorded worker and basis |
| PoolSeats.CheckoutPoolSeat | hol-workbench/hol_workbench/pools/leases.py:101-152 | Only a ready pool hands out a seat: one at most, idle before, dirty if the caller allows it, or reclaimed from an owner that is gone, with nobody else newly leased and every seat's identity kept |
| PoolSeats.ReclaimStaleLeases | hol-workbench/hol_workbench/pools/leases.py:49-98 | Exactly the leased seats whose owners are gone become free again, the others stay |
| PoolSeats.ScanSeats | hol-workbench/hol_workbench/pools/leases.py:128-149 | The first seat in the wanted status whose session answers is taken; the seats passed over in that status are marked dead |
| PoolSeats.CheckoutIsFair | hol-workbench/hol_workbench/pools/leases.py:101-152 | Exactly one seat is newly leased, if any, and no seat is taken from an owner that is not gone |
| PoolSeats.LimitIsKept | hol-workbench/hol_workbench/pools/leases.py:115-121 | A checkout that hands out a seat leaves no more seats in use than the attempt limit |
| PoolSeats.ReleasePoolSeat | hol-workbench/hol_workbench/pools/leases.py:155-192 | Only the first seat of the session changes, to the released status without a lease; a pool that is not ready keeps its seats |
| PoolSeats.QuarantineForkBasis | hol-workbench/hol_workbench/pools/leases.py:195-229 | Closes the whole generation; siblings in use keep their seats and leases |
| PoolTransaction.ExecuteRestoreTransaction | hol-workbench/hol_workbench/cli/orbstack_criu_restore.py:1373-1557 | Signals may arrive anywhere and are looked at between the phases; a restored pool is open and admissible and names, everywhere, the worker and basis of an accepted tree whose processes were all seen stopped in owned groups, both seen running after SIGCONT; a second attempt is made exactly after a pid collision; a failed one is condemned unless a write failed; without a failure it succeeds exactly on a stopped pool with no signal |
| PoolTransaction.TryRestore | hol-workbench/hol_workbench/cli/orbstack_criu_restore.py:1395-1458 | One attempt: success means that nothing failed in it and that the signals were looked at all eight times without one having arrived |
| PoolTransaction.RestorePool | hol-workbench/hol_workbench/cli/orbstack_criu_restore.py:1574-1671 | The same after the preflight and an optional demotion, with the recorded pids and groups of the pool as found; a restore is attempted only out of a verified stop, out of a dead generation that was demoted, or on a pool whose two processes were seen live and then not |
| PoolTransaction.RestorePreflight | hol-workbench/hol_workbench/cli/orbstack_criu_restore.py:694-711 | Accepts a stopped pool exactly when it has seats and every seat is stopped with its stop verified; an open one when both recorded processes are seen live |
| PoolTransaction.PoolIsLive | hol-workbench/hol_workbench/cli/orbstack_criu_restore.py:663-691 | Live means both recorded processes were seen, with their births and in their groups |
| PoolTransaction.LivePublished | hol-workbench/hol_workbench/criu_restore_preflight.py:54-91 | A live open pool is left as it is, a dead one goes on, and otherwise only a stopped pool without live processes does |
| PoolRuns.AnyRun | hol-workbench/hol_workbench/criu_pool_restore.py:382-751 | Restores with demotion, retry and failure handling, rollbacks, checkouts, releases, quarantines and child registrations in any order, each cut short between any two writes, with processes coming and going: every write keeps to its allowed step and only admissible pools are opened |
| PoolRuns.OpenPoolsWereOpened | hol-workbench/hol_workbench/criu_pool_restore.py:747-751 | A ready pool was ready from the start or was opened as an admissible one, and since then only its users have changed it |
| PoolRuns.OpenedPoolsStayStaged | hol-workbench/hol_workbench/pools/leases.py:101-192 | Whatever checkouts, releases and dead seats did to it, a pool opened in the run names one worker and one basis in pool.json, rows and session files |
| PoolRuns.DemotedIsDead | hol-workbench/hol_workbench/criu_pool_restore.py:382-491 | A ready pool that became stopped had no lease and no child, and every process that ever had a recorded pid is dead from then on |
| PoolRuns.DemotedGroupIsGone | hol-workbench/hol_workbench/criu_pool_restore.py:460-461 | The recorded group of such a pool can be live again only under a process born since with that pid |
| PoolRuns.ExecsOnlyWhenOwned | hol-workbench/hol_workbench/criu_restore_launcher.py:160-188 | CRIU of a launcher could exec only because pool.json durably owned that launcher at some write before |
| Shelf.StepIsConfined | hol-workbench/hol_workbench/criu_shelf_admission.py:55-73 | A client's step takes only free locks, drops only its own, and touches an owner path of another only under that slot's lock |
| Shelf.StepKeepsInv | hol-workbench/hol_workbench/criu_shelf_admission.py:107-201 | Every flock, file write, unlink, crash and exception of any client, exceptions inside the cleanups included, keeps the shelf invariant |
| Shelf.RunKeepsInv | hol-workbench/hol_workbench/criu_shelf_admission.py:107-201 | So does every interleaving of clients of any generations and capacities |
| Shelf.SlotsAreExclusive | hol-workbench/hol_workbench/criu_shelf_admission.py:140-200 | No two admitted clients hold the same slot |
| Shelf.LegacyExcludesSlotOne | hol-workbench/hol_workbench/criu_shelf_admission.py:43-52 | While a client of the retired generation holds admission.lock nobody is in slot one |
| Shelf.AdmittedLocks | hol-workbench/hol_workbench/criu_shelf_admission.py:43-52 | An admitted client holds exactly its slot's lock, and admission.lock with slot one |
| Shelf.CloserLocks | hol-workbench/hol_workbench/criu_shelf_admission.py:77-99 | A closer that was told True holds exactly admission.lock and the slots one to its capacity |
| Shelf.CloserExcludes | hol-workbench/hol_workbench/criu_shelf_admission.py:77-103 | A closer that was told True excludes legacy holders and every slot up to its capacity |
| Shelf.AdmissionsAreBounded | hol-workbench/hol_workbench/criu_shelf_admission.py:107-201 | Admissions at one time never exceed the largest capacity among the admitted |
| Shelf.BodyOwnsItsFile | hol-workbench/hol_workbench/criu_shelf_owner.py:57-75 | For the whole body the slot's owner file, and no other, is the attempt's own, whatever others write, clear or have left behind |
| Shelf.DemandCoversLocks | hol-workbench/hol_workbench/criu_shelf_demand.py:72-92 | An attempt that holds any lock, even one left open by an exception, has its demand record on disk |
| ShelfExits.OwnerFileSurvives | hol-workbench/hol_workbench/criu_shelf_admission.py:186-201 | The owner file of an attempt that is out is on disk exactly if an exception cut its cleanup short while the file was there and nobody has been admitted over it since |
| ShelfExits.DemandSurvives | hol-workbench/hol_workbench/criu_shelf_admission.py:128-201 | The demand record of an attempt that is out is on disk exactly if its write raised after taking effect, an exception came before the region whose handlers clear it, or one came inside the closing suite |
| ShelfExits.LockSurvives | hol-workbench/hol_workbench/criu_shelf_admission.py:196-201 | An attempt that is out holds a lock exactly if an exception in the closing loop left that file open and it has not been finalized since |
| ShelfExits.CleanExit | hol-workbench/hol_workbench/criu_shelf_admission.py:107-201 | Without these exceptions an exit leaves no lock, no owner file and no demand record |
| ShelfExits.DemandCanLeak | hol-workbench/hol_workbench/criu_shelf_admission.py:128-139 | The demand record does survive: a run in which its write raises, and one in which the exception comes right after it |
| ShelfExits.OwnerCanLeak | hol-workbench/hol_workbench/criu_shelf_admission.py:191-201 | The owner file does survive alone: a run from the first step to an exit that closed every lock and cleared the demand |
| ShelfExits.LocksCanStayOpen | hol-workbench/hol_workbench/criu_shelf_admission.py:196-201 | Locks do stay held after an exit, with the demand record: a run |
| ShelfAdmission.OthersCoverRuns | hol-workbench/hol_workbench/criu_shelf_admission.py:107-201 | Whatever sequence of steps the other clients take is allowed for between two steps of the admission code |
| ShelfAdmission.TryLockGroup | hol-workbench/hol_workbench/criu_shelf_admission.py:55-68 | All locks of the slot, or none, and then another client was seen holding one of them |
| ShelfAdmission.ProbeSlots | hol-workbench/hol_workbench/criu_shelf_admission.py:158-166 | Takes a slot all of whose predecessors were seen busy in this round, or, holding nothing, has seen every slot busy |
| ShelfAdmission.AcquireSlot | hol-workbench/hol_workbench/criu_shelf_admission.py:154-175 | A waiting caller leaves the loop without a slot only through an exception, one that does not wait never probes a second round; every slot below the one taken was seen busy |
| ShelfAdmission.ClearShelfOwner | hol-workbench/hol_workbench/criu_shelf_owner.py:71-75 | Every owner path was looked at and the own file removed, or one call raised and the closing suite comes next |
| ShelfAdmission.CloseFiles | hol-workbench/hol_workbench/criu_shelf_admission.py:197-199 | Closing every file gives up every lock still held; a close that raises skips the demand record |
| ShelfAdmission.CloseAndClear | hol-workbench/hol_workbench/criu_shelf_admission.py:196-201 | The demand record goes after the last lock, and stays exactly if a call here raised |
| ShelfAdmission.LeaveSlot | hol-workbench/hol_workbench/criu_shelf_admission.py:191-201 | Both cleanup suites: the attempt ends outside whatever raises, and with nothing left if nothing raised |
| ShelfAdmission.ServeSlot | hol-workbench/hol_workbench/criu_shelf_admission.py:183-201 | Owner write, body and cleanup end outside the shelf; a served attempt was in its body and has left nothing, and not being served takes an exception |
| ShelfAdmission.Demand | hol-workbench/hol_workbench/criu_shelf_admission.py:126-139 | Either the slots of a positive capacity are probed next, or something raised and the attempt is over |
| ShelfAdmission.CriuShelfAdmission | hol-workbench/hol_workbench/criu_shelf_admission.py:107-201 | A whole admission ends outside the shelf, with nothing left there if nothing raised; a slot that is returned had its body, all lower slots seen busy; without an exception only a caller that does not wait is turned away, having seen every slot busy |
| ShelfAdmission.TryExclusive | hol-workbench/hol_workbench/criu_shelf_admission.py:77-103 | True exactly when every lock of both generations was taken; false means that one of them was seen held by another client |
| ShelfAdmission.ReleaseExclusive | hol-workbench/hol_workbench/criu_shelf_admission.py:100-103 | The closer gives up every lock it took, unless a call raises |
| ImportClosure.SourceClosure | hol-workbench/hol_workbench/controller_runtime_bundle.py:226-357 | Finds the least set of good files that holds the roots and is closed under imports and initializers, with its standard-library imports, late imports and process starts; fails exactly when no closed set exists |
| ImportClosure.PushInitializers | hol-workbench/hol_workbench/controller_runtime_bundle.py:317-322 | Every package initializer above the file is pushed |
| ImportClosure.CollectModules | hol-workbench/hol_workbench/controller_runtime_bundle.py:292-306 | The modules an import statement names, imported names that are modules included |
| ImportClosure.RelativeImportModule | hol-workbench/hol_workbench/controller_runtime_bundle.py:160-170 | Level 0 is the name as written; each further dot climbs one directory, and climbing out of the package fails |
| ImportClosure.TakeModule | hol-workbench/hol_workbench/controller_runtime_bundle.py:307-333 | A module is skipped, pushed with its initializers, or accounted to the standard library; anything else fails the closure |
| ImportClosure.CollectNames | hol-workbench/hol_workbench/controller_runtime_bundle.py:247-260 | One pass over the imports says what each name of the file stands for, the last import that binds it deciding |
| ImportClosure.TakeCalls | hol-workbench/hol_workbench/controller_runtime_bundle.py:261-284 | Every process start is recorded; an undeclared dynamic import or an unclassified use of subprocess fails the closure |
| ImportClosure.ClosureListsProcesses | hol-workbench/hol_workbench/controller_runtime_bundle.py:173-284 | Every call in a closure that reaches a tracked module or a builtin escape is the declared dynamic import, is harmless, or starts a process and is listed with its place |
| ImportClosure.ClosureHoldsImports | hol-workbench/hol_workbench/controller_runtime_bundle.py:226-333 | Every module imported anywhere in the closure is the standard library's and accounted for, or is in the closure with its package initializers |
| ImportClosure.ClosureIsLocal | hol-workbench/hol_workbench/controller_runtime_bundle.py:135-148 | Every part of the tree that holds the closure has the same closure |
| ImportClosure.ClosureIsUnique | hol-workbench/hol_workbench/controller_runtime_bundle.py:226-357 | A tree has at most one closure |
| ClosureMeaning.ClosureMeans | hol-workbench/hol_workbench/controller_runtime_bundle.py:226-357 | Said of files, imports and calls only: a set is the closure exactly when it is the least set that holds the roots, every import of whose files runs files in it or is the standard library's, and no call of whose files is forbidden; external names, late imports and process starts are exactly those of its files |
| ClosureMeaning.ClosedIs | hol-workbench/hol_workbench/controller_runtime_bundle.py:226-357 | A set of files is closed under the scan exactly when it is self-contained in terms of its imports and calls |
| ClosureMeaning.FileScanned | hol-workbench/hol_workbench/controller_runtime_bundle.py:236-333 | A file can be scanned exactly when it is admissible, and the scan adds what its imports run, name and start |
| ClosureMeaning.ImportedAre | hol-workbench/hol_workbench/controller_runtime_bundle.py:292-306 | The modules an import asks for are the ones it names, the one it takes names from, and each taken name other than * that is itself a module of the package |
| ClosureMeaning.ModuleScanned | hol-workbench/hol_workbench/controller_runtime_bundle.py:307-333 | A module adds its module file or else its package initializer, with every initializer above it that exists, or its name to the external ones |
| ClosureMeaning.TakenModuleIsHeld | hol-workbench/hol_workbench/controller_runtime_bundle.py:292-322 | If a file of the closure takes a name from a package and a module of that name is in the tree, that module's file and the initializers above it are in the closure |
| ClosureMeaning.AskedModuleIsHeld | hol-workbench/hol_workbench/controller_runtime_bundle.py:292-322 | Importing a module of the package in any form, absolute or relative, puts its file and the initializers above it in the closure |
| ClosureMeaning.NamesBound | hol-workbench/hol_workbench/controller_runtime_bundle.py:247-260 | A name stands for what the last import that binds it gives it |
| ClosureMeaning.CallScanned | hol-workbench/hol_workbench/controller_runtime_bundle.py:173-284 | A call is refused exactly when it is a forbidden one, and is listed exactly when it starts a process of subprocess or os |
| RuntimeBundle.ControllerManifest | hol-workbench/hol_workbench/controller_runtime_bundle.py:370-415 | The manifest of the closure, its process starts and the resources, or nothing exactly when there is none |
| RuntimeBundle.ManifestIsUnique | hol-workbench/hol_workbench/controller_runtime_bundle.py:370-415 | A directory has at most one manifest |
| RuntimeBundle.FilesListed | hol-workbench/hol_workbench/controller_runtime_bundle.py:370-403 | The manifest lists exactly the closure's files and the broker files outside it, each a regular file of the package with its contents |
| RuntimeBundle.ResourcesListed | hol-workbench/hol_workbench/controller_runtime_bundle.py:126-132 | The resources are exactly the four declared paths, each with the contents of its file; only the OCaml probe may come from the repository instead of the workbench |
| RuntimeBundle.IndirectListed | hol-workbench/hol_workbench/controller_runtime_bundle.py:53-72 | The declared indirect process starts are listed exactly for the files in the closure |
| RuntimeBundle.ManifestIsLocal | hol-workbench/hol_workbench/controller_runtime_bundle.py:370-415 | Any directory holding the manifest's files and resources unchanged, and of the package nothing else than the original has, has the same manifest |
| RuntimeBundle.MaterializeBundle | hol-workbench/hol_workbench/controller_runtime_bundle.py:443-487 | A fresh bundle holds exactly the listed files, read-only, beside a genuine record, and its verification never fails |
| RuntimeBundle.FreshModes | hol-workbench/hol_workbench/controller_runtime_bundle.py:471-475 | In a fresh bundle exactly the listed files have modes, 0555 below bin and 0444 elsewhere |
| RuntimeBundle.WritableDigits | hol-workbench/hol_workbench/controller_runtime_bundle.py:511-514 | A mode is refused exactly when owner, group or others may write |
| RuntimeBundle.VerifyBundle | hol-workbench/hol_workbench/controller_runtime_bundle.py:490-521 | Accepts exactly an intact, expected record that is the recomputed manifest of the directory, whose files have the modes they were given |
| PhraseScanner.MaskCommentsAndStrings | hol-workbench/fake_hol/runtime.py:1097-1152 | The in-place automaton computes the specified mask of the whole text |
| PhraseScanner.MaskToken | hol-workbench/fake_hol/runtime.py:1103-1151 | One round of the loop, in every state, blanks and advances as the token says |
| PhraseScanner.SplitPhrases | hol-workbench/fake_hol/runtime.py:1155-1216 | The splitting automaton returns exactly the top-level phrases with their lines |
| PhraseScanner.PhrasesAre | hol-workbench/fake_hol/runtime.py:1213-1216 | Every piece is a phrase, the last one only if it is not blank |
| PhraseScanner.MaskIsIdempotent | hol-workbench/fake_hol/runtime.py:1097-1152 | Masking twice is masking once, from every scanner state |
| PhraseScanner.MaskOnlyBlanks | hol-workbench/fake_hol/runtime.py:1097-1152 | Masking only blanks characters out |
| PhraseScanner.MaskKeepsPlainText | hol-workbench/fake_hol/runtime.py:1097-1152 | Text in which no string or comment can begin is not touched |
| PhraseScanner.ScannersAgree | hol-workbench/fake_hol/runtime.py:1097-1216 | From every state both automata find the same separators, and masking a piece gives the slice of the masked text |
| PhraseScanner.MaskedPhrases | hol-workbench/fake_hol/runtime.py:1097-1216 | The split of the masked text is the masked split |
| PhraseScanner.SplitRejoins | hol-workbench/fake_hol/runtime.py:1155-1216 | Joining the pieces with the separator gives the text back |
| PhraseScanner.SplitCharacterized | hol-workbench/fake_hol/runtime.py:1155-1216 | The split is the only way to cut the text into separator-free pieces, all but the last closed |
| PhraseScanner.PhrasesRestoreText | hol-workbench/fake_hol/runtime.py:1213-1216 | Only a blank tail and the separator before it can be lost |
| PhraseScanner.LineFormula | hol-workbench/fake_hol/runtime.py:1166-1208 | A reported line is the starting line plus the newlines before the phrase, less those a backslash in a string hides |
| PhraseScanner.LinesAreTrue | hol-workbench/fake_hol/runtime.py:1166-1208 | A reported line is the true one exactly when no string before it escapes a newline |
| PhraseScanner.ContinuedStringShiftsLines | hol-workbench/fake_hol/runtime.py:1174-1177 | After a string continued over a line end every later phrase is reported too early |
| PhraseGrammar.BodyThrough | hol-workbench/fake_hol/runtime.py:1126-1137 | A comment, nested to any depth, given by what is printed, is blanked as a whole, hides its separators and its lines count |
| PhraseGrammar.LexemeThrough | hol-workbench/fake_hol/runtime.py:1097-1212 | Strings with escapes and comments are blanked, backquoted terms and other characters kept, and the splitter takes each whole with its newlines; a separator outside them cuts |
| PhraseGrammar.GrammarDecides | hol-workbench/fake_hol/runtime.py:1097-1216 | For any text given as lexemes, the mask is the lexemes' masks in a row, the pieces are what stands between its separators, and the lines are counted over them |
| PhraseGrammar.EveryTextHasLexemes | hol-workbench/fake_hol/runtime.py:1097-1216 | Every text is such a row of lexemes, the last one possibly open |
| PhraseGrammar.OpenBody | hol-workbench/fake_hol/runtime.py:1126-1137 | A comment that is never closed is blanked to the end of the text and hides everything in it |
| TypeVars.CanonicalizeVisibleTypevars | hol-workbench/fake_hol/runtime.py:1064-1074 | One scan with a dictionary computes the canonical text |
| TypeVars.MatchIsAlphaEquivalence | hol-workbench/fake_hol/runtime.py:1077-1080 | Statements match exactly when their normalized texts differ by a bijective renaming of their visible type variables |
| TypeVars.AlphaIsEquivalence | hol-workbench/fake_hol/runtime.py:1077-1080 | The relation matching decides is reflexive, symmetric and transitive |
| TypeVars.CanonicalDecides | hol-workbench/fake_hol/runtime.py:1064-1074 | Canonical texts are equal exactly when the same places hold variables and equal ones at the same places |
| TypeVars.ReadsBack | hol-workbench/fake_hol/runtime.py:46 | The canonical text is cut into exactly the renamed tokens |
| TypeVars.CanonicalIsIdempotent | hol-workbench/fake_hol/runtime.py:1058-1080 | Canonicalizing twice is canonicalizing once, and a statement matches its canonical text |
| TypeVarMeaning.PieceAt | hol-workbench/fake_hol/runtime.py:46 | By position: a variable begins exactly at a capital right after a colon, a hash sign or an arrow and ends with its run of letters, digits, underscores and primes; every other character stands for itself |
| TypeVarMeaning.MatchMeans | hol-workbench/fake_hol/runtime.py:1077-1080 | Statements match exactly when one is the other with the variables at these positions renamed, different ones differently |
| TypeVarMeaning.PlainStatementsMatch | hol-workbench/fake_hol/runtime.py:1077-1080 | A statement without colon, hash sign and arrow matches exactly those equal to it up to whitespace |
| TypeVarMeaning.CanonicalMeans | hol-workbench/fake_hol/runtime.py:1064-1074 | The canonical text renames each variable to the tag numbered by the variables that occur before it |
| PythonText.TidyIsJoined | hol-workbench/fake_hol/runtime.py:1058-1061 | A text with single spaces between words is its own normalization |
| PythonText.WordsAre | hol-workbench/fake_hol/runtime.py:1058-1061 | A text that begins with a gap, a word and then a blank has that word first and then the words of the rest |
| PythonText.StripIs | hol-workbench/fake_hol/runtime.py:1213-1216 | Stripping removes exactly the blanks at both ends |
| PythonText.SplitLinesAre | hol-workbench/hol_workbench/criu_loaded_provenance.py:86 | A text written as lines without breaks in them, each followed by its break and the last possibly by none, is cut into those lines |
| PythonText.TextHasBreaks | hol-workbench/hol_workbench/criu_loaded_provenance.py:86 | Every text is its lines with the breaks they ended in |
| LoaderExport.DecodeIsInverse | hol-workbench/hol_workbench/criu_loaded_provenance.py:26-44 | A line decodes to a record exactly when the record is valid and the line is its printed form |
| LoaderExport.ValidRecordMeans | hol-workbench/hol_workbench/criu_loaded_provenance.py:31-40 | A record is valid exactly when its name is not empty, not a dot and has no slash, and its digest is 32 lower-case hexadecimal digits |
| LoaderExport.MarkersMean | hol-workbench/hol_workbench/criu_loaded_provenance.py:24-27 | Up to blanks around it, a line begins the export exactly when it is the begin marker, is tagged exactly when it starts with the prefix, and ends it exactly when it starts with the end marker |
| LoaderExport.CountMeans | hol-workbench/hol_workbench/criu_loaded_provenance.py:109-119 | The count after the end marker is read in decimal, or refused exactly when it is empty or has another character |
| LoaderExport.ParseLoaderExport | hol-workbench/hol_workbench/criu_loaded_provenance.py:83-120 | Returns the records of the export in the text, or refuses exactly when there is no export |
| LoaderExport.ExportIsUnique | hol-workbench/hol_workbench/criu_loaded_provenance.py:83-120 | A text holds at most one export |
| LoaderExport.ExportCharacterized | hol-workbench/hol_workbench/criu_loaded_provenance.py:83-120 | An export is one begin line, one later end line with the count, and between them the records in order amid chatter |
| LoaderExport.ExportParses | hol-workbench/hol_workbench/criu_loaded_provenance.py:83-120 | Chatter before, between and after the record lines changes nothing |
| LoaderExport.PrintedExportParses | hol-workbench/hol_workbench/criu_loaded_provenance.py:56-80 | Parsing inverts printing for every list of valid records, whatever breaks the lines end in and whether or not the last has one |
| LoaderExport.WrongCountIsRefused | hol-workbench/hol_workbench/criu_loaded_provenance.py:117-119 | Losing or repeating any record line makes the parser refuse |
| LoadedProvenance.CandidateMap | hol-workbench/hol_workbench/criu_loaded_provenance.py:138-160 | Exactly the wanted paths some source reaches without following directory links, each with the roles of all sources that reach it |
| LoadedProvenance.CandidateMeans | hol-workbench/hol_workbench/criu_loaded_provenance.py:138-160 | A path is a candidate exactly when a source holds a regular file of a wanted name there, reached without following a directory link |
| LoadedProvenance.WalkIsRecursive | hol-workbench/hol_workbench/criu_loaded_provenance.py:138-160 | A walk reaches a file in the directory itself or below one of its directories, and no link |
| LoadedProvenance.RolesMean | hol-workbench/hol_workbench/criu_loaded_provenance.py:138-160 | The roles of a path are exactly those of the semantic inputs that reach it, and holdir if HOLDIR does |
| LoadedProvenance.MatchRecord | hol-workbench/hol_workbench/criu_loaded_provenance.py:201-219 | A path is returned exactly when it is the only readable candidate with the name and digest and no candidate is unreadable |
| LoadedProvenance.ResolveLoadedClosure | hol-workbench/hol_workbench/criu_loaded_provenance.py:176-266 | Resolves exactly when every distinct record has exactly one match |
| LoadedProvenance.ResolvesMeans | hol-workbench/hol_workbench/criu_loaded_provenance.py:176-266 | A record resolves to a path exactly when every offered file of its name can be read and this is the only one of them with its digest |
| LoadedProvenance.ResolvedEntryMeans | hol-workbench/hol_workbench/criu_loaded_provenance.py:220-262 | Each entry, in strict order, carries a record that resolves to its file, the number of its occurrences, the file's digest, size, real location, roles, and its path below HOLDIR exactly where it is below it |
| LoadedProvenance.EntryPathMeans | hol-workbench/hol_workbench/criu_loaded_provenance.py:303-313 | A stored path stands for a file exactly when it is that path, or a relative one without parent steps below HOLDIR |
| LoadedProvenance.StoredPathReturns | hol-workbench/hol_workbench/criu_loaded_provenance.py:163-168 | A stored path leads back to the file it was made from |
| LoadedProvenance.ValidateLoadedClosure | hol-workbench/hol_workbench/criu_loaded_provenance.py:316-392 | Reports no failure exactly for a consistent closure whose files hold |
| LoadedProvenance.CheckEntry | hol-workbench/hol_workbench/criu_loaded_provenance.py:343-367 | An entry passes exactly when its file is there with name, both digests and real location as recorded |
| LoadedProvenance.ResolvedIsValid | hol-workbench/hol_workbench/criu_loaded_provenance.py:176-392 | While the files stay as they are, a resolved closure validates without failures |
| LoadedProvenance.ResolvedAccounts | hol-workbench/hol_workbench/criu_loaded_provenance.py:176-266 | Occurrences sum to the record count, every record has its entry, no two entries share a file |
| LoadedProvenance.ResolutionIgnoresOrder | hol-workbench/hol_workbench/criu_loaded_provenance.py:196-205 | Exports that are permutations of one another resolve to the same closure |
| LoadedProvenance.ValidityIsLocal | hol-workbench/hol_workbench/criu_loaded_provenance.py:316-392 | Changes outside the stored paths do not matter |
| LoadedProvenance.ValidPinsContents | hol-workbench/hol_workbench/criu_loaded_provenance.py:316-392 | A closure that still validates names its original files unchanged, if the digest separates contents |
| BrokerFrames.RecvExact | hol-workbench/hol_workbench/fork_broker_protocol.py:38-47 | Returns exactly the next bytes however the socket splits them, or end of file exactly when too few remain |
| BrokerFrames.ReceiveFrame | hol-workbench/hol_workbench/fork_broker_protocol.py:59-66 | Reads one frame, or the first reason there is none, and leaves the stream where the source does: kind 1 up to 1048576 bytes, kind 2 up to 4194304, the length in bytes two to five, most significant first |
| BrokerFrames.SendFrame | hol-workbench/hol_workbench/fork_broker_protocol.py:50-56 | Sends exactly kind 1 up to 1048576 bytes and kind 2 up to 4194304: one kind byte, four length bytes, most significant first, and the payload |
| BrokerFrames.PackLength | hol-workbench/hol_workbench/fork_broker_protocol.py:50-56 | The four bytes are the length in base 256, most significant first |
| BrokerFrames.UnpackLength | hol-workbench/hol_workbench/fork_broker_protocol.py:59-63 | And are read so |
| BrokerFrames.ReceivesWholeFrames | hol-workbench/hol_workbench/fork_broker_protocol.py:38-66 | Of any prefix of the bytes of any sendable frames, exactly the whole frames are received and then end of file |
| BrokerFrames.ReceivedFramesArePrefix | hol-workbench/hol_workbench/fork_broker_protocol.py:59-66 | On any bytes at all, what was received is sendable and re-encodes to the bytes consumed |
| BrokerFrames.Drain | hol-workbench/hol_workbench/fork_broker_protocol.py:59-66 | Receiving until something else than a frame comes yields exactly the stream's frames |

## Left out

- LazyProtocol.ObserveStatusNul: the ready byte on the status pipe and its deadline are one free outcome.
- LazyRecovery.RecoverLazyPagesLaunch: malformed or unreadable records are one failed read; `_pending_launcher_liveness` is the three reads of DaemonLiveness.
- LazyRestore.RunOwnedLazyPagesRestore: the restore callback's work, whether a checkpoint raises, and the receipt's contents are free outcomes; the operation stamp check comes before everything and is not modelled.
- LazyOwner.DaemonLiveness: the birth identity string is the start ticks; the `ps` fallback for systems without `/proc` is not modelled.
- ProcessGroups.TerminateProcessGroup: the mode that accepts a dead leader's live group, and calls without a required identity, are not modelled; the clock is in milliseconds.
- PoolTransaction.HandleFailure: which records the handler captures again, merges or falls back to is any list; the failure receipt is not modelled.
- PoolTransaction.RestorePool: the recovery of an incomplete restore (cli/orbstack_criu_restore.py:1147-1290) and the already-live-only mode are not modelled; before a restore without demotion that recovery is taken to have nothing to do.
- PoolSeats.CheckoutPoolSeat: preloads, session liveness, lease owners and the broker's limits are inputs; the contents of leases and the list of reclaimed ones are not modelled.
- PoolRuns.AnyRun: the ordinary stop of a ready pool and the rebuild of a pool are not among the operations.
- ShelfAdmission.CriuShelfAdmission: an attempt without an owner record, which neither caller makes, `update_shelf_owner` and cancellation are not modelled; an interrupt while probing is one after the round.
- ImportClosure.SourceClosure: parsing is a given list of imports and calls per file; which of several errors is raised first is not modelled.
- RuntimeBundle.VerifyBundle: compares contents where the program compares digests and sizes; the manifest's digests are one parameter; the modes of directories are not modelled.
- LoaderExport.ParseLoaderExport: the count is read as ASCII digits, where `str.isdigit` also admits other digits.
- LoadedProvenance.ResolveLoadedClosure: the order of records is any total order; digests are parameters.
- LoadedProvenance.ValidateLoadedClosure: entries have all fields with their types; entries that are not objects are not modelled.
- Image locks, directory descriptors, symbolic links and file modes around pool and image directories.
- Receipts, timestamps, reason texts, progress output and JSON encoding.
- The OCaml runtime closure (criu_loaded_provenance.py:269-300 and 395-434), which repeats the checks of the loaded closure for two fixed files.
- Shelf capacity policy, restore residue pruning, snapshot environment checks and the command-line tools, which would only add single-branch members.
- Fake-HOL directives, role play and scenario output.
