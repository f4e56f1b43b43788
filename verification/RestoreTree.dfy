/** The stopped process tree of one CRIU restore: capture, ownership validation, and which groups
    are resumed or killed because of it. */
module RestoreTree {
  import opened Options

  /** What `/proc` answers for one pid while CRIU holds the tree stopped; `None` is a failed read. */
  datatype Entry = Entry(
    pgid: Option<int>,
    startTicks: Option<int>,
    identity: Option<string>,
    state: Option<char>,
    children: Option<seq<int>>)

  /** The stopped system; a pid outside the map fails every read. */
  type Proc = map<int, Entry>

  datatype Record = Record(
    pid: int,
    pgid: Option<int>,
    startTicks: Option<int>,
    identity: Option<string>,
    state: Option<char>,
    children: seq<int>,
    childrenError: bool)

  /** A pid and process group the stopped pool recorded for one role. */
  datatype Recorded = Recorded(pid: int, pgid: int)

  datatype Owned = Owned(worker: Recorded, basis: Recorded)

  datatype Role = Worker | Basis

  // ---------------------------------------------------------------- capture

  function Children(proc: Proc, pid: int): seq<int> {
    if pid in proc && proc[pid].children.Some? then proc[pid].children.value else []
  }

  function Observe(proc: Proc, pid: int): Record {
    if pid !in proc then Record(pid, None, None, None, None, [], true)
    else
      var e := proc[pid];
      Record(pid, e.pgid, e.startTicks, e.identity, e.state, Children(proc, pid), e.children.None?)
  }

  ghost predicate Path(proc: Proc, p: seq<int>) {
    |p| > 0 && forall i | 0 < i < |p| :: p[i] in Children(proc, p[i - 1])
  }

  ghost predicate PathFrom(proc: Proc, root: int, x: int, p: seq<int>) {
    Path(proc, p) && p[0] == root && p[|p| - 1] == x
  }

  ghost predicate Reachable(proc: Proc, root: int, x: int) {
    exists p :: PathFrom(proc, root, x, p)
  }

  function Pids(records: seq<Record>): set<int> {
    set r | r in records :: r.pid
  }

  ghost predicate DistinctPids(records: seq<Record>) {
    forall i, j | 0 <= i < j < |records| :: records[i].pid != records[j].pid
  }

  /** Every pid a traversal can meet. */
  ghost function Universe(proc: Proc, root: int): set<int> {
    {root} + set pid, c | pid in proc && c in Children(proc, pid) :: c
  }

  /** Where a traversal stands: everything on the stack or seen is reachable, each seen pid has
      one record, and the children of seen pids are seen or on the stack. */
  ghost predicate Traversal(proc: Proc, root: int, pending: seq<int>, seen: set<int>, records: seq<Record>) {
    && (forall x | x in pending :: x in Universe(proc, root) && Reachable(proc, root, x))
    && (forall x | x in seen :: x in Universe(proc, root) && Reachable(proc, root, x))
    && seen == Pids(records) && DistinctPids(records)
    && (forall r | r in records :: r == Observe(proc, r.pid))
    && (forall x, c | x in seen && c in Children(proc, x) :: c in seen || c in pending)
    && (if records == [] then pending == [root] else records[0].pid == root)
  }

  /** Depth-first from the root with an explicit stack. */
  method CaptureAuthoritativeTree(proc: Proc, root: int) returns (records: seq<Record>)
    ensures forall x :: x in Pids(records) <==> Reachable(proc, root, x)
    ensures DistinctPids(records)
    ensures forall r | r in records :: r == Observe(proc, r.pid)
    ensures |records| > 0 && records[0].pid == root
  {
    hide Traversal, Universe, Reachable;
    var pending := [root];
    var seen: set<int> := {};
    records := [];
    TraversalStarts(proc, root);
    while pending != []
      invariant Traversal(proc, root, pending, seen, records)
      decreases Universe(proc, root) - seen, |pending|
    {
      var pid := pending[|pending| - 1];
      assert pending == pending[..|pending| - 1] + [pid];
      pending := pending[..|pending| - 1];
      TraversalSteps(proc, root, pending, pid, seen, records);
      if pid in seen {
        continue;
      }
      seen := seen + {pid};
      var record := Observe(proc, pid);
      records := records + [record];
      pending := pending + record.children;
    }
    TraversalEnds(proc, root, seen, records);
  }

  lemma TraversalStarts(proc: Proc, root: int)
    ensures Traversal(proc, root, [root], {}, [])
  {
    RootReachable(proc, root);
  }

  lemma TraversalSteps(proc: Proc, root: int, rest: seq<int>, pid: int, seen: set<int>, records: seq<Record>)
    requires Traversal(proc, root, rest + [pid], seen, records)
    ensures pid in Universe(proc, root)
    ensures if pid in seen then Traversal(proc, root, rest, seen, records)
            else Traversal(proc, root, rest + Children(proc, pid), seen + {pid}, records + [Observe(proc, pid)])
  {
    hide Reachable, Universe, Observe;
    var pending := rest + [pid];
    assert pid in pending && forall x | x in rest :: x in pending;
    if pid in seen {
      return;
    }
    ChildrenReachable(proc, root, pid);
    ExtendDistinct(records, Observe(proc, pid));
    PidsExtend(records, Observe(proc, pid));
    if records == [] {
      assert rest == [] by { assert |pending| == 1; }
    }
  }

  lemma ChildrenReachable(proc: Proc, root: int, pid: int)
    requires Reachable(proc, root, pid)
    ensures forall c | c in Children(proc, pid) :: c in Universe(proc, root) && Reachable(proc, root, c)
    ensures Observe(proc, pid).pid == pid
  {
    forall c | c in Children(proc, pid) ensures Reachable(proc, root, c) {
      StepReachable(proc, root, pid, c);
    }
  }

  lemma TraversalEnds(proc: Proc, root: int, seen: set<int>, records: seq<Record>)
    requires Traversal(proc, root, [], seen, records)
    ensures forall x :: x in Pids(records) <==> Reachable(proc, root, x)
    ensures DistinctPids(records) && forall r | r in records :: r == Observe(proc, r.pid)
    ensures |records| > 0 && records[0].pid == root
  {
    assert records[0] in records;
    forall x | Reachable(proc, root, x) ensures x in seen {
      var p :| PathFrom(proc, root, x, p);
      ClosedContainsPath(proc, seen, p, |p| - 1);
    }
  }

  lemma PidsExtend(records: seq<Record>, r: Record)
    ensures Pids(records + [r]) == Pids(records) + {r.pid}
  {
  }

  lemma RootReachable(proc: Proc, root: int)
    ensures Reachable(proc, root, root)
  {
    assert PathFrom(proc, root, root, [root]);
  }

  lemma StepReachable(proc: Proc, root: int, x: int, c: int)
    requires Reachable(proc, root, x) && c in Children(proc, x)
    ensures Reachable(proc, root, c)
  {
    var p :| PathFrom(proc, root, x, p);
    assert PathFrom(proc, root, c, p + [c]);
  }

  lemma {:induction false} ClosedContainsPath(proc: Proc, closed: set<int>, p: seq<int>, i: nat)
    requires Path(proc, p) && p[0] in closed && i < |p|
    requires forall x, c | x in closed && c in Children(proc, x) :: c in closed
    ensures p[i] in closed
  {
    if i > 0 {
      ClosedContainsPath(proc, closed, p, i - 1);
    }
  }

  // ---------------------------------------------------------------- validation

  datatype Problem =
    | RootUnavailable
    | EmptyTree
    | InvalidPid
    | CapturedTwice(pid: int)
    | NoGroup(pid: int)
    | NoStartTicks(pid: int)
    | NoIdentity(pid: int)
    | NoState(pid: int)
    | ChildrenUnavailable(pid: int)
    | InvalidChildren(pid: int)
    | RootAbsent
    | RoleAbsent(role: Role)
    | ChildrenMissing
    | RootNotWorker
    | WorkerGroupNotRoot
    | CaptureIncomplete(problems: seq<Problem>)
    | RoleOutsideTree(role: Role)
    | RoleGroupDiffers(role: Role)
    | RoleIdentityUnavailable(role: Role)
    | RoleNotStopped(role: Role)
    | RoleChildrenUnavailable(role: Role)
    | UnrecordedGroups
    | Unstopped

  predicate Stopped(state: Option<char>) {
    state == Some('T') || state == Some('t')
  }

  /** One record says all that ownership needs. */
  predicate Complete(r: Record) {
    && r.pid > 0
    && r.pgid.Some? && r.pgid.value > 0
    && r.startTicks.Some? && r.startTicks.value > 0
    && r.identity.Some? && r.identity.value != ""
    && r.state.Some?
    && !r.childrenError
    && forall c | c in r.children :: c > 0
  }

  /** The capture supports an exact ownership claim. */
  ghost predicate CompleteCapture(root: int, recorded: Owned, tree: seq<Record>) {
    && (forall r | r in tree :: Complete(r))
    && DistinctPids(tree)
    && root in Pids(tree)
    && recorded.worker.pid in Pids(tree) && recorded.basis.pid in Pids(tree)
    && (forall r, c | r in tree && c in r.children :: c in Pids(tree))
  }

  function RecordProblems(r: Record): (ps: seq<Problem>)
    requires r.pid > 0
    ensures ps == [] <==> Complete(r)
  {
    (if r.pgid.None? || r.pgid.value <= 0 then [NoGroup(r.pid)] else [])
    + (if r.startTicks.None? || r.startTicks.value <= 0 then [NoStartTicks(r.pid)] else [])
    + (if r.identity.None? || r.identity.value == "" then [NoIdentity(r.pid)] else [])
    + (if r.state.None? then [NoState(r.pid)] else [])
    + (if r.childrenError then [ChildrenUnavailable(r.pid)] else [])
    + (if exists c | c in r.children :: c <= 0 then [InvalidChildren(r.pid)] else [])
  }

  /** `by_pid`: one record for each positive pid of the tree. */
  ghost predicate IndexOf(tree: seq<Record>, index: map<int, Record>) {
    && (forall pid | pid in index :: index[pid] in tree && index[pid].pid == pid && pid > 0)
    && (forall r | r in tree && r.pid > 0 :: r.pid in index)
  }

  ghost predicate AllComplete(tree: seq<Record>) {
    forall r | r in tree :: Complete(r)
  }

  /** Check every record on its own and index the tree. */
  method RecordChecks(tree: seq<Record>) returns (problems: seq<Problem>, byPid: map<int, Record>)
    ensures IndexOf(tree, byPid)
    ensures problems == [] <==> AllComplete(tree) && DistinctPids(tree)
  {
    problems := [];
    byPid := map[];
    for i := 0 to |tree|
      invariant IndexOf(tree[..i], byPid)
      invariant problems == [] <==> AllComplete(tree[..i]) && DistinctPids(tree[..i])
    {
      var item := tree[i];
      assert tree[..i + 1] == tree[..i] + [item];
      CheckOneMore(tree[..i], byPid, item);
      if item.pid <= 0 {
        problems := problems + [InvalidPid];
        continue;
      }
      if item.pid in byPid {
        problems := problems + [CapturedTwice(item.pid)];
      }
      byPid := byPid[item.pid := item];
      problems := problems + RecordProblems(item);
    }
    assert tree[..|tree|] == tree;
  }

  lemma CheckOneMore(done: seq<Record>, byPid: map<int, Record>, item: Record)
    requires IndexOf(done, byPid)
    ensures AllComplete(done + [item]) <==> AllComplete(done) && Complete(item)
    ensures item.pid > 0 ==> (DistinctPids(done + [item]) <==> DistinctPids(done) && item.pid !in byPid)
    ensures IndexOf(done + [item], if item.pid <= 0 then byPid else byPid[item.pid := item])
  {
    ExtendDistinct(done, item);
    assert item in done + [item];
    assert forall r :: r in done + [item] <==> r in done || r == item;
  }

  method TreeCaptureProblems(root: Option<int>, recorded: Owned, tree: seq<Record>)
    returns (problems: seq<Problem>)
    ensures problems == [] <==> root.Some? && CompleteCapture(root.value, recorded, tree)
  {
    if root.None? {
      return [RootUnavailable];
    }
    if tree == [] {
      return [EmptyTree];
    }
    var byPid: map<int, Record>;
    problems, byPid := RecordChecks(tree);
    var referenced := set pid, c | pid in byPid && c in byPid[pid].children && c > 0 :: c;
    IndexedCapture(root.value, recorded, tree, byPid, referenced);
    if root.value !in byPid {
      problems := problems + [RootAbsent];
    }
    if recorded.worker.pid !in byPid {
      problems := problems + [RoleAbsent(Worker)];
    }
    if recorded.basis.pid !in byPid {
      problems := problems + [RoleAbsent(Basis)];
    }
    if referenced - byPid.Keys != {} {
      problems := problems + [ChildrenMissing];
    }
  }

  /** Over complete, distinct records the index decides the remaining questions. */
  lemma IndexedCapture(root: int, recorded: Owned, tree: seq<Record>,
                       byPid: map<int, Record>, referenced: set<int>)
    requires IndexOf(tree, byPid)
    requires referenced == set pid, c | pid in byPid && c in byPid[pid].children && c > 0 :: c
    ensures CompleteCapture(root, recorded, tree) <==>
      && AllComplete(tree) && DistinctPids(tree)
      && root in byPid
      && recorded.worker.pid in byPid && recorded.basis.pid in byPid
      && referenced - byPid.Keys == {}
  {
    if AllComplete(tree) && DistinctPids(tree) {
      assert forall pid | pid in byPid :: byPid[pid] in tree && byPid[pid].pid == pid;
      assert forall r | r in tree :: Complete(r) && r.pid in byPid;
      assert byPid.Keys == Pids(tree);
      forall r | r in tree ensures byPid[r.pid] == r {
        DistinctIndex(tree, r, byPid[r.pid]);
      }
      assert forall r, c | r in tree && c in r.children :: c in referenced;
      assert forall c | c in referenced && c !in byPid :: c in referenced - byPid.Keys;
    }
  }

  lemma ExtendDistinct(tree: seq<Record>, item: Record)
    ensures DistinctPids(tree + [item]) <==> DistinctPids(tree) && item.pid !in Pids(tree)
  {
    var all := tree + [item];
    assert forall i | 0 <= i < |tree| :: all[i] == tree[i];
    assert all[|tree|] == item;
    if item.pid in Pids(tree) {
      var r :| r in tree && r.pid == item.pid;
      var i :| 0 <= i < |tree| && tree[i] == r;
      assert all[i].pid == all[|tree|].pid;
    }
  }

  lemma DistinctIndex(tree: seq<Record>, r: Record, s: Record)
    requires DistinctPids(tree) && r in tree && s in tree && r.pid == s.pid
    ensures r == s
  {
  }

  /** The record belongs to a recorded group: its own, when it is a recorded leader. */
  predicate OwnedGroup(recorded: Owned, r: Record) {
    && (r.pgid == Some(recorded.worker.pgid) || r.pgid == Some(recorded.basis.pgid))
    && (r.pid == recorded.worker.pid ==> r.pgid == Some(recorded.worker.pgid))
    && (r.pid == recorded.basis.pid ==> r.pgid == Some(recorded.basis.pgid))
  }

  predicate UnrecordedGroup(recorded: Owned, r: Record) {
    r.pgid.Some? && r.pgid.value != recorded.worker.pgid && r.pgid.value != recorded.basis.pgid
  }

  /** What `validate_restored_tree` accepts. */
  ghost predicate OwnedStoppedTree(root: int, recorded: Owned, tree: seq<Record>)
  {
    && root == recorded.worker.pid == recorded.worker.pgid
    && CompleteCapture(root, recorded, tree)
    && (forall r | r in tree :: (r.state == Some('T') || r.state == Some('t')) && OwnedGroup(recorded, r))
  }

  datatype Validation = Accepted(worker: Record, basis: Record) | Rejected(errors: seq<Problem>)

  function RoleErrors(role: Role, expected: Recorded, observed: Record): (es: seq<Problem>)
    ensures es == [] <==>
      && observed.pgid == Some(expected.pgid) && observed.startTicks.Some? && observed.identity.Some?
      && Stopped(observed.state) && !observed.childrenError
    ensures forall e | e in es :: e.RoleGroupDiffers? || e.RoleIdentityUnavailable? || e.RoleNotStopped? || e.RoleChildrenUnavailable?
  {
    (if observed.pgid != Some(expected.pgid) then [RoleGroupDiffers(role)] else [])
    + (if observed.startTicks.None? || observed.identity.None? then [RoleIdentityUnavailable(role)] else [])
    + (if !Stopped(observed.state) then [RoleNotStopped(role)] else [])
    + (if observed.childrenError then [RoleChildrenUnavailable(role)] else [])
  }

  method IndexByPid(tree: seq<Record>) returns (byPid: map<int, Record>)
    ensures byPid.Keys == Pids(tree)
    ensures forall pid | pid in byPid :: byPid[pid] in tree && byPid[pid].pid == pid
  {
    byPid := map[];
    for i := 0 to |tree|
      invariant byPid.Keys == Pids(tree[..i])
      invariant forall pid | pid in byPid :: byPid[pid] in tree[..i] && byPid[pid].pid == pid
    {
      assert tree[..i + 1] == tree[..i] + [tree[i]];
      PidsExtend(tree[..i], tree[i]);
      byPid := byPid[tree[i].pid := tree[i]];
    }
    assert tree[..|tree|] == tree;
  }

  /** What a rejection names about the root, the roles and the tree as a whole. */
  ghost predicate Names(es: seq<Problem>, root: int, recorded: Owned, tree: seq<Record>) {
    && (RootNotWorker in es <==> root != recorded.worker.pid)
    && (WorkerGroupNotRoot in es <==> recorded.worker.pgid != root)
    && (RoleOutsideTree(Worker) in es <==> forall r | r in tree :: r.pid != recorded.worker.pid)
    && (RoleOutsideTree(Basis) in es <==> forall r | r in tree :: r.pid != recorded.basis.pid)
    && (UnrecordedGroups in es <==>
          exists r | r in tree :: r.pgid.Some? && r.pgid != Some(recorded.worker.pgid) && r.pgid != Some(recorded.basis.pgid))
    && (Unstopped in es <==> exists r | r in tree :: r.state != Some('T') && r.state != Some('t'))
  }

  function One(c: bool, e: Problem): (es: seq<Problem>)
    ensures forall x :: x in es <==> c && x == e
  {
    if c then [e] else []
  }

  /** The errors about one role. */
  function RoleReport(role: Role, expected: Recorded, byPid: map<int, Record>): (es: seq<Problem>)
    ensures RoleOutsideTree(role) in es <==> expected.pid !in byPid
    ensures forall e | e in es ::
      (e == RoleOutsideTree(role)
       || e.RoleGroupDiffers? || e.RoleIdentityUnavailable? || e.RoleNotStopped? || e.RoleChildrenUnavailable?)
    ensures es == [] <==> expected.pid in byPid && RoleErrors(role, expected, byPid[expected.pid]) == []
  {
    if expected.pid in byPid then RoleErrors(role, expected, byPid[expected.pid]) else [RoleOutsideTree(role)]
  }

  /** The errors in the order of the checks. */
  ghost function AllErrors(root: int, recorded: Owned, tree: seq<Record>, byPid: map<int, Record>, capture: seq<Problem>)
    : seq<Problem>
  {
    One(root != recorded.worker.pid, RootNotWorker)
    + One(recorded.worker.pgid != root, WorkerGroupNotRoot)
    + One(capture != [], CaptureIncomplete(capture))
    + RoleReport(Worker, recorded.worker, byPid)
    + RoleReport(Basis, recorded.basis, byPid)
    + One(exists r | r in tree :: UnrecordedGroup(recorded, r), UnrecordedGroups)
    + One(exists r | r in tree :: !Stopped(r.state), Unstopped)
  }

  lemma AnyOf(a: seq<Problem>, b: seq<Problem>, c: seq<Problem>, d: seq<Problem>, e: seq<Problem>, f: seq<Problem>,
              g: seq<Problem>, x: Problem)
    ensures x in a + b + c + d + e + f + g <==> x in a || x in b || x in c || x in d || x in e || x in f || x in g
    ensures a + b + c + d + e + f + g == [] <==> a == [] && b == [] && c == [] && d == [] && e == [] && f == [] && g == []
  {
  }

  lemma InErrors(root: int, recorded: Owned, tree: seq<Record>, byPid: map<int, Record>, capture: seq<Problem>, x: Problem)
    requires x in {RootNotWorker, WorkerGroupNotRoot, RoleOutsideTree(Worker), RoleOutsideTree(Basis), UnrecordedGroups, Unstopped}
    ensures x in AllErrors(root, recorded, tree, byPid, capture) <==>
      || (root != recorded.worker.pid && x == RootNotWorker)
      || (recorded.worker.pgid != root && x == WorkerGroupNotRoot)
      || (recorded.worker.pid !in byPid && x == RoleOutsideTree(Worker))
      || (recorded.basis.pid !in byPid && x == RoleOutsideTree(Basis))
      || ((exists r | r in tree :: UnrecordedGroup(recorded, r)) && x == UnrecordedGroups)
      || ((exists r | r in tree :: !Stopped(r.state)) && x == Unstopped)
  {
    hide One, RoleReport, RoleErrors, Stopped, UnrecordedGroup;
    AnyOf(One(root != recorded.worker.pid, RootNotWorker), One(recorded.worker.pgid != root, WorkerGroupNotRoot),
      One(capture != [], CaptureIncomplete(capture)), RoleReport(Worker, recorded.worker, byPid),
      RoleReport(Basis, recorded.basis, byPid), One(exists r | r in tree :: UnrecordedGroup(recorded, r), UnrecordedGroups),
      One(exists r | r in tree :: !Stopped(r.state), Unstopped), x);
  }

  lemma ErrorsName(root: int, recorded: Owned, tree: seq<Record>, byPid: map<int, Record>, capture: seq<Problem>)
    requires byPid.Keys == Pids(tree)
    ensures Names(AllErrors(root, recorded, tree, byPid, capture), root, recorded, tree)
  {
    hide RoleErrors, AllErrors;
    assert recorded.worker.pid in byPid <==> exists r | r in tree :: r.pid == recorded.worker.pid;
    assert recorded.basis.pid in byPid <==> exists r | r in tree :: r.pid == recorded.basis.pid;
    InErrors(root, recorded, tree, byPid, capture, RootNotWorker);
    InErrors(root, recorded, tree, byPid, capture, WorkerGroupNotRoot);
    InErrors(root, recorded, tree, byPid, capture, RoleOutsideTree(Worker));
    InErrors(root, recorded, tree, byPid, capture, RoleOutsideTree(Basis));
    InErrors(root, recorded, tree, byPid, capture, UnrecordedGroups);
    InErrors(root, recorded, tree, byPid, capture, Unstopped);
  }

  lemma NoErrors(root: int, recorded: Owned, tree: seq<Record>, byPid: map<int, Record>, capture: seq<Problem>)
    requires byPid.Keys == Pids(tree)
    requires forall pid | pid in byPid :: byPid[pid] in tree && byPid[pid].pid == pid
    requires capture == [] <==> CompleteCapture(root, recorded, tree)
    ensures AllErrors(root, recorded, tree, byPid, capture) == [] <==> OwnedStoppedTree(root, recorded, tree)
    ensures OwnedStoppedTree(root, recorded, tree) ==> recorded.worker.pid in byPid && recorded.basis.pid in byPid
  {
    hide RoleReport, RoleErrors, CompleteCapture, OwnedStoppedTree, Stopped, UnrecordedGroup;
    AcceptedIsOwned(root, recorded, tree, byPid);
    AnyOf(One(root != recorded.worker.pid, RootNotWorker), One(recorded.worker.pgid != root, WorkerGroupNotRoot),
      One(capture != [], CaptureIncomplete(capture)), RoleReport(Worker, recorded.worker, byPid),
      RoleReport(Basis, recorded.basis, byPid), One(exists r | r in tree :: UnrecordedGroup(recorded, r), UnrecordedGroups),
      One(exists r | r in tree :: !Stopped(r.state), Unstopped), Unstopped);
  }

  method ValidateRestoredTree(root: int, recorded: Owned, tree: seq<Record>)
    returns (v: Validation)
    ensures v.Accepted? <==> OwnedStoppedTree(root, recorded, tree)
    ensures v.Accepted? ==>
      && v.worker in tree && v.worker.pid == recorded.worker.pid
      && v.basis in tree && v.basis.pid == recorded.basis.pid
    ensures v.Rejected? ==> Names(v.errors, root, recorded, tree)
  {
    hide RoleReport, RoleErrors, One, CompleteCapture, OwnedStoppedTree, Stopped, UnrecordedGroup, Names, Pids;
    var errors := One(root != recorded.worker.pid, RootNotWorker);
    errors := errors + One(recorded.worker.pgid != root, WorkerGroupNotRoot);
    var byPid := IndexByPid(tree);
    var capture := TreeCaptureProblems(Some(root), recorded, tree);
    errors := errors + One(capture != [], CaptureIncomplete(capture));
    errors := errors + RoleReport(Worker, recorded.worker, byPid);
    errors := errors + RoleReport(Basis, recorded.basis, byPid);
    errors := errors + One(exists r | r in tree :: UnrecordedGroup(recorded, r), UnrecordedGroups);
    errors := errors + One(exists r | r in tree :: !Stopped(r.state), Unstopped);
    NoErrors(root, recorded, tree, byPid, capture);
    ErrorsName(root, recorded, tree, byPid, capture);
    v := if errors == [] then Accepted(byPid[recorded.worker.pid], byPid[recorded.basis.pid]) else Rejected(errors);
  }

  /** The checks on the indexed role records decide ownership of the whole tree. */
  lemma AcceptedIsOwned(root: int, recorded: Owned, tree: seq<Record>, byPid: map<int, Record>)
    requires byPid.Keys == Pids(tree)
    requires forall pid | pid in byPid :: byPid[pid] in tree && byPid[pid].pid == pid
    ensures OwnedStoppedTree(root, recorded, tree) <==>
      && root == recorded.worker.pid == recorded.worker.pgid && CompleteCapture(root, recorded, tree)
      && recorded.worker.pid in byPid && RoleErrors(Worker, recorded.worker, byPid[recorded.worker.pid]) == []
      && recorded.basis.pid in byPid && RoleErrors(Basis, recorded.basis, byPid[recorded.basis.pid]) == []
      && (forall r | r in tree :: Stopped(r.state))
      && (forall r | r in tree :: !UnrecordedGroup(recorded, r))
  {
    if CompleteCapture(root, recorded, tree) {
      forall r | r in tree ensures byPid[r.pid] == r && Complete(r) {
        assert r.pid in Pids(tree);
        DistinctIndex(tree, r, byPid[r.pid]);
      }
    }
  }

  // ---------------------------------------------------------------- resume

  /** The groups continued after validation, in order. */
  function ResumedGroups(worker: Record, basis: Record): seq<int>
    requires worker.pgid.Some? && basis.pgid.Some?
  {
    [basis.pgid.value, worker.pgid.value]
  }

  /** The process is stopped, its children could be read, and one of these groups is its own. */
  predicate HeldForResume(proc: Proc, x: int, groups: seq<int>) {
    && x in proc && (proc[x].state == Some('T') || proc[x].state == Some('t'))
    && proc[x].pgid.Some? && proc[x].pgid.value in groups && proc[x].children.Some?
  }

  /** Capture, validate and resume cover the same processes: everything reachable from the CRIU
      root is held stopped and belongs to a group that is about to be continued. */
  method CaptureAndValidate(proc: Proc, root: int, recorded: Owned)
    returns (tree: seq<Record>, v: Validation)
    ensures forall x :: x in Pids(tree) <==> Reachable(proc, root, x)
    ensures forall r | r in tree :: r == Observe(proc, r.pid)
    ensures v.Accepted? <==> OwnedStoppedTree(root, recorded, tree)
    ensures v.Accepted? ==>
      && v.worker in tree && v.worker.pid == recorded.worker.pid
      && v.basis in tree && v.basis.pid == recorded.basis.pid
      && v.worker.pgid.Some? && v.basis.pgid.Some? && root == v.worker.pid
      && forall x | Reachable(proc, root, x) ::
        HeldForResume(proc, x, ResumedGroups(v.worker, v.basis))
  {
    tree := CaptureAuthoritativeTree(proc, root);
    v := ValidateRestoredTree(root, recorded, tree);
    if v.Accepted? {
      forall x | Reachable(proc, root, x) ensures HeldForResume(proc, x, ResumedGroups(v.worker, v.basis)) {
        assert x in Pids(tree);
        var r :| r in tree && r.pid == x;
        assert r == Observe(proc, x) && Stopped(r.state) && OwnedGroup(recorded, r) && Complete(r);
      }
    }
  }

  // ---------------------------------------------------------------- termination

  /** A record that may stand for its whole group. */
  predicate InGroup(r: Record, pgid: int) {
    r.pgid == Some(pgid) && pgid > 0
  }

  /** Each group of the tree has one representative in it: its leader whenever the leader was
      captured, so that the identity check of the kill guards the group by its leader. */
  ghost predicate Represents(tree: seq<Record>, reps: map<int, Record>) {
    && (forall g :: g in reps <==> exists r | r in tree :: InGroup(r, g))
    && (forall g | g in reps :: reps[g] in tree && InGroup(reps[g], g))
    && (forall g, r | g in reps && r in tree && InGroup(r, g) && r.pid == g :: reps[g].pid == g)
  }

  predicate NoRepeats(s: seq<int>) {
    forall i, j | 0 <= i < j < |s| :: s[i] != s[j]
  }

  /** `groups` are the keys in the order they were first met. */
  method GroupRepresentatives(tree: seq<Record>) returns (reps: map<int, Record>, groups: seq<int>)
    ensures Represents(tree, reps)
    ensures NoRepeats(groups) && forall g :: g in groups <==> g in reps
  {
    reps, groups := map[], [];
    for i := 0 to |tree|
      invariant Represents(tree[..i], reps)
      invariant NoRepeats(groups) && forall g :: g in groups <==> g in reps
    {
      var record := tree[i];
      assert tree[..i + 1] == tree[..i] + [record];
      RepresentOneMore(tree[..i], reps, record);
      if record.pgid.None? || record.pgid.value <= 0 {
        continue;
      }
      var pgid := record.pgid.value;
      if pgid !in reps {
        groups := groups + [pgid];
      }
      if pgid !in reps || record.pid == pgid {
        reps := reps[pgid := record];
      }
    }
    assert tree[..|tree|] == tree;
  }

  lemma RepresentOneMore(done: seq<Record>, reps: map<int, Record>, record: Record)
    requires Represents(done, reps)
    ensures Represents(done + [record],
              if record.pgid.None? || record.pgid.value <= 0 then reps
              else if record.pgid.value !in reps || record.pid == record.pgid.value then reps[record.pgid.value := record]
              else reps)
  {
    assert forall r :: r in done + [record] <==> r in done || r == record;
    if record.pgid.Some? && record.pgid.value > 0 {
      assert InGroup(record, record.pgid.value);
    }
  }

  function RootGroup(tree: seq<Record>, rootPid: Option<int>): (g: Option<int>)
    ensures g.None? <==> forall k | 0 <= k < |tree| :: Some(tree[k].pid) != rootPid || tree[k].pgid.None?
    ensures g.Some? ==> exists k | 0 <= k < |tree| ::
      (Some(tree[k].pid) == rootPid && tree[k].pgid == g
       && forall j | 0 <= j < k :: Some(tree[j].pid) != rootPid || tree[j].pgid.None?)
  {
    if tree == [] then None
    else if Some(tree[0].pid) == rootPid && tree[0].pgid.Some? then tree[0].pgid
    else RootGroup(tree[1..], rootPid)
  }

  lemma SameCounts(order: seq<int>, groups: seq<int>)
    requires multiset(order) == multiset(groups) && NoRepeats(groups)
    ensures NoRepeats(order) && forall g :: g in order <==> g in groups
  {
    assert forall g :: g in order <==> g in multiset(order);
    assert forall g :: g in groups <==> g in multiset(groups);
    NoRepeatsIsCounted(groups);
    CountedIsNoRepeats(order);
  }

  lemma {:induction false} NoRepeatsIsCounted(s: seq<int>)
    requires NoRepeats(s)
    ensures forall x :: multiset(s)[x] <= 1
  {
    if s != [] {
      NoRepeatsIsCounted(s[1..]);
      assert s == [s[0]] + s[1..];
      assert s[0] !in multiset(s[1..]);
    }
  }

  lemma {:induction false} CountedIsNoRepeats(s: seq<int>)
    requires forall x :: multiset(s)[x] <= 1
    ensures NoRepeats(s)
  {
    if s != [] {
      assert s == [s[0]] + s[1..];
      assert forall x :: multiset(s)[x] == multiset([s[0]])[x] + multiset(s[1..])[x];
      CountedIsNoRepeats(s[1..]);
      assert s[0] !in s[1..];
      assert forall j | 0 < j < |s| :: s[j] == s[1..][j - 1];
    }
  }

  /** Kill order: every other group first, the root's group last. */
  function KillOrder(groups: seq<int>, rootGroup: Option<int>): (order: seq<int>)
    ensures multiset(order) == multiset(groups)
    ensures forall i, j | 0 <= i < j < |order| && Some(order[i]) == rootGroup :: order[j] == order[i]
  {
    FilterSplits(groups, rootGroup);
    var roots := InRootGroup(groups, rootGroup, true);
    assert forall j | 0 <= j < |roots| :: roots[j] in roots;
    InRootGroup(groups, rootGroup, false) + roots
  }

  function InRootGroup(s: seq<int>, rootGroup: Option<int>, inRoot: bool): (t: seq<int>)
    ensures forall x | x in t :: (Some(x) == rootGroup) == inRoot
  {
    if s == [] then []
    else if (Some(s[0]) == rootGroup) == inRoot then [s[0]] + InRootGroup(s[1..], rootGroup, inRoot)
    else InRootGroup(s[1..], rootGroup, inRoot)
  }

  lemma {:induction false} FilterSplits(s: seq<int>, rootGroup: Option<int>)
    ensures multiset(InRootGroup(s, rootGroup, false)) + multiset(InRootGroup(s, rootGroup, true)) == multiset(s)
  {
    if s != [] {
      var others, roots := InRootGroup(s[1..], rootGroup, false), InRootGroup(s[1..], rootGroup, true);
      FilterSplits(s[1..], rootGroup);
      assert multiset(s) == multiset([s[0]]) + multiset(s[1..]) by { assert s == [s[0]] + s[1..]; }
      assert multiset([s[0]] + (if Some(s[0]) == rootGroup then roots else others))
          == multiset([s[0]]) + multiset(if Some(s[0]) == rootGroup then roots else others);
    }
  }
}
