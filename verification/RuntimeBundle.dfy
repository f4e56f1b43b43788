/** The controller's manifest, the read-only bundle made from it, and its recomputation inside the
    bundle. */
module RuntimeBundle {
  import opened Options
  import opened ImportClosure

  datatype Path = InPackage(file: File) | InWorkbench(name: string)

  /** The directories the manifest reads: the package, the workbench around it, the repository around
      that; and the permission bits of the files there. */
  datatype World = World(
    package: Tree, workbench: map<string, Content>, repository: map<string, Content>, modes: map<Path, nat>)

  const SEMANTIC_RESOURCES: seq<string> := [
    "warmup-profiles.json", "bin/phase-zero-runtime", "bin/workbench-python",
    "research/jane-street-probes/compact_after_preload.ml"]
  const REPOSITORY_RESOURCES: set<string> := {"research/jane-street-probes/compact_after_preload.ml"}
  const OPENED: seq<File> := [
    File([], INIT), File([], "fork_broker_protocol"), File([], "proof_run_fork_basis_safety"),
    File([], "proof_run_fork_broker_children"), File([], "proof_run_fork_broker")]

  /** Process starts that no call shows. */
  datatype Indirect = Indirect(file: File, scope: string, operation: string)

  const INDIRECT: set<Indirect> := {
    Indirect(File([], "process_groups"), "process_birth_identity", "injected subprocess.run"),
    Indirect(File([], "process_groups"), "OwnedProcessSet.spawn", "injected subprocess.Popen"),
    Indirect(File(["cli"], "filter_hol_output"), "main", "OwnedProcessSet.spawn")}

  function IndirectIn(files: set<File>): set<Indirect> {
    set i | i in INDIRECT && i.file in files
  }

  /** Rows keep the bytes where the program keeps their digest and size. */
  datatype Manifest = Manifest(
    files: map<File, Content>, resources: map<string, Content>, broker: map<File, Content>,
    external: set<string>, late: set<Late>, entries: set<Entry>, indirect: set<Indirect>)

  function ClosureOf(m: Manifest): Closure {
    Closure(m.files.Keys, m.external, m.late, m.entries)
  }

  /** The workbench's own copy of a resource wins over the repository's. */
  function ResourceBytes(w: World, name: string): Option<Content> {
    if name !in REPOSITORY_RESOURCES || name in w.workbench then
      if name in w.workbench then Some(w.workbench[name]) else None
    else if name in w.repository then Some(w.repository[name])
    else None
  }

  function FileBytes(tree: Tree, f: File): Option<Content> {
    if f in tree && !tree[f].Irregular? then Some(tree[f].content) else None
  }

  ghost predicate IsManifest(w: World, stdlib: set<string>, m: Manifest) {
    && IsClosure(w.package, stdlib, ClosureOf(m)) && m.indirect == IndirectIn(m.files.Keys)
    && (forall f | f in m.files :: FileBytes(w.package, f) == Some(m.files[f]))
    && m.resources.Keys == Elements(SEMANTIC_RESOURCES)
    && (forall r | r in m.resources :: ResourceBytes(w, r) == Some(m.resources[r]))
    && m.broker.Keys == Elements(OPENED) - m.files.Keys
    && forall f | f in m.broker :: FileBytes(w.package, f) == Some(m.broker[f])
  }

  lemma ManifestIsUnique(w: World, stdlib: set<string>, m: Manifest, n: Manifest)
    requires IsManifest(w, stdlib, m) && IsManifest(w, stdlib, n)
    ensures m == n
  {
    hide IsClosure;
    ClosureIsUnique(w.package, stdlib, ClosureOf(m), ClosureOf(n));
    assert m.files == n.files by {
      forall f | f in m.files ensures m.files[f] == n.files[f] {
        assert Some(m.files[f]) == Some(n.files[f]);
      }
    }
    assert m.resources == n.resources by {
      forall r | r in m.resources ensures m.resources[r] == n.resources[r] {
        assert Some(m.resources[r]) == Some(n.resources[r]);
      }
    }
    assert m.broker == n.broker by {
      forall f | f in m.broker ensures m.broker[f] == n.broker[f] {
        assert Some(m.broker[f]) == Some(n.broker[f]);
      }
    }
  }

  /** The resources a manifest lists, and whose bytes they are: the workbench's, and for the probe the
      repository's when the workbench has none. */
  lemma ResourcesListed(w: World, stdlib: set<string>, m: Manifest)
    requires IsManifest(w, stdlib, m)
    ensures m.resources.Keys == {"warmup-profiles.json", "bin/phase-zero-runtime", "bin/workbench-python",
      "research/jane-street-probes/compact_after_preload.ml"}
    ensures forall r | r in m.resources && r in w.workbench :: m.resources[r] == w.workbench[r]
    ensures forall r | r in m.resources && r !in w.workbench ::
      r == "research/jane-street-probes/compact_after_preload.ml" && r in w.repository && m.resources[r] == w.repository[r]
  {
    hide IsClosure, IndirectIn, FileBytes;
    ResourceNames();
    forall r | r in m.resources ensures ResourceBytes(w, r) == Some(m.resources[r]) { }
    hide IsManifest;
  }

  lemma ResourceNames()
    ensures Elements(SEMANTIC_RESOURCES) == {"warmup-profiles.json", "bin/phase-zero-runtime", "bin/workbench-python",
      "research/jane-street-probes/compact_after_preload.ml"}
  {
    FourElements("warmup-profiles.json", "bin/phase-zero-runtime", "bin/workbench-python",
                 "research/jane-street-probes/compact_after_preload.ml");
  }

  lemma FourElements<T>(a: T, b: T, c: T, d: T)
    ensures Elements([a, b, c, d]) == {a, b, c, d}
  {
    var s := [a, b, c, d];
    assert s[0] in s && s[1] in s && s[2] in s && s[3] in s;
  }

  /** The package files a manifest lists: those of its closure, the broker's five, and their bytes. */
  lemma FilesListed(w: World, stdlib: set<string>, m: Manifest)
    requires IsManifest(w, stdlib, m)
    ensures m.broker.Keys == {File([], "__init__"), File([], "fork_broker_protocol"),
      File([], "proof_run_fork_basis_safety"), File([], "proof_run_fork_broker_children"), File([], "proof_run_fork_broker")}
      - m.files.Keys
    ensures forall f | f in m.files.Keys + m.broker.Keys ::
      && f in w.package && !w.package[f].Irregular?
      && w.package[f].content == if f in m.files then m.files[f] else m.broker[f]
  {
    hide IsClosure, IndirectIn, ResourceBytes;
    assert OPENED[0] in OPENED && OPENED[1] in OPENED && OPENED[2] in OPENED && OPENED[3] in OPENED && OPENED[4] in OPENED;
    forall f | f in m.files.Keys + m.broker.Keys
      ensures FileBytes(w.package, f) == Some(if f in m.files then m.files[f] else m.broker[f]) { }
  }

  /** The process starts a manifest lists though no call shows them. */
  lemma IndirectListed(w: World, stdlib: set<string>, m: Manifest, i: Indirect)
    requires IsManifest(w, stdlib, m)
    ensures i in m.indirect <==> i.file in m.files && i in {
      Indirect(File([], "process_groups"), "process_birth_identity", "injected subprocess.run"),
      Indirect(File([], "process_groups"), "OwnedProcessSet.spawn", "injected subprocess.Popen"),
      Indirect(File(["cli"], "filter_hol_output"), "main", "OwnedProcessSet.spawn")}
  {
    hide IsClosure;
  }

  method ReadResources(w: World) returns (resources: Option<map<string, Content>>)
    ensures resources.None? <==> exists r :: r in Elements(SEMANTIC_RESOURCES) && ResourceBytes(w, r).None?
    ensures resources.Some? ==> resources.value.Keys == Elements(SEMANTIC_RESOURCES)
    ensures resources.Some? ==> forall r | r in resources.value :: ResourceBytes(w, r) == Some(resources.value[r])
  {
    hide ResourceBytes;
    var found, k := map[], 0;
    while k < |SEMANTIC_RESOURCES|
      invariant 0 <= k <= |SEMANTIC_RESOURCES| && found.Keys == Elements(SEMANTIC_RESOURCES[..k])
      invariant forall r | r in found :: ResourceBytes(w, r) == Some(found[r])
    {
      var r := SEMANTIC_RESOURCES[k];
      var bytes := ResourceBytes(w, r);
      if bytes.None? {
        assert r in Elements(SEMANTIC_RESOURCES);
        return None;
      }
      assert SEMANTIC_RESOURCES[..k + 1] == SEMANTIC_RESOURCES[..k] + [r];
      ElementsPlus(SEMANTIC_RESOURCES[..k], r);
      found := found[r := bytes.value];
      k := k + 1;
    }
    assert SEMANTIC_RESOURCES[..k] == SEMANTIC_RESOURCES;
    resources := Some(found);
  }

  /** The files the broker opens by name that the closure does not hold already. */
  method ReadBrokerFiles(tree: Tree, files: set<File>) returns (broker: Option<map<File, Content>>)
    ensures broker.None? <==> exists f :: f in Elements(OPENED) - files && FileBytes(tree, f).None?
    ensures broker.Some? ==> broker.value.Keys == Elements(OPENED) - files
    ensures broker.Some? ==> forall f | f in broker.value :: FileBytes(tree, f) == Some(broker.value[f])
  {
    hide FileBytes;
    var found, k := map[], 0;
    while k < |OPENED|
      invariant 0 <= k <= |OPENED| && found.Keys == Elements(OPENED[..k]) - files
      invariant forall f | f in found :: FileBytes(tree, f) == Some(found[f])
    {
      var f := OPENED[k];
      assert OPENED[..k + 1] == OPENED[..k] + [f];
      ElementsPlus(OPENED[..k], f);
      if f !in files {
        var bytes := FileBytes(tree, f);
        if bytes.None? {
          assert f in Elements(OPENED) - files;
          return None;
        }
        found := found[f := bytes.value];
      }
      k := k + 1;
    }
    assert OPENED[..k] == OPENED;
    broker := Some(found);
  }

  /** The manifest, or nothing when there is none. */
  method ControllerManifest(w: World, stdlib: set<string>) returns (m: Option<Manifest>)
    ensures m.Some? ==> IsManifest(w, stdlib, m.value)
    ensures m.None? ==> forall n :: !IsManifest(w, stdlib, n)
  {
    hide IsClosure, Closed, ResourceBytes;
    var closure := SourceClosure(w.package, stdlib);
    if closure.None? {
      NoManifest(w, stdlib);
      return None;
    }
    var c := closure.value;
    ClosureIsReadable(w.package, stdlib, c);
    var files := map f | f in c.files && f in w.package && !w.package[f].Irregular? :: w.package[f].content;
    assert files.Keys == c.files;
    var resources := ReadResources(w);
    if resources.None? {
      return None;
    }
    var broker := ReadBrokerFiles(w.package, c.files);
    if broker.None? {
      var f :| f in Elements(OPENED) - c.files && FileBytes(w.package, f).None?;
      Unreadable(w, stdlib, c, f);
      return None;
    }
    m := Some(Manifest(files, resources.value, broker.value, c.external, c.late, c.entries, IndirectIn(files.Keys)));
    assert ClosureOf(m.value) == c;
  }

  lemma NoManifest(w: World, stdlib: set<string>)
    requires forall s :: !Closed(w.package, stdlib, s)
    ensures forall n :: !IsManifest(w, stdlib, n)
  {
    hide Closed;
    forall n ensures !IsManifest(w, stdlib, n) {
      assert !Closed(w.package, stdlib, n.files.Keys);
    }
  }

  lemma ClosureIsReadable(tree: Tree, stdlib: set<string>, c: Closure)
    requires IsClosure(tree, stdlib, c)
    ensures forall f | f in c.files :: f in tree && tree[f].Parsed?
  {
  }

  lemma Unreadable(w: World, stdlib: set<string>, c: Closure, f: File)
    requires IsClosure(w.package, stdlib, c) && f in OPENED && f !in c.files && FileBytes(w.package, f).None?
    ensures forall n :: !IsManifest(w, stdlib, n)
  {
    hide IsClosure;
    assert f in Elements(OPENED);
    forall n ensures !IsManifest(w, stdlib, n) {
      if IsManifest(w, stdlib, n) {
        ClosureIsUnique(w.package, stdlib, c, ClosureOf(n));
      }
    }
  }

  /** The tree a bundle holds. */
  function Bundled(tree: Tree, files: set<File>): Tree {
    map f | f in files && f in tree :: tree[f]
  }

  lemma BundledPlus(tree: Tree, files: set<File>, f: File)
    requires f in tree
    ensures Bundled(tree, files + {f}) == Bundled(tree, files)[f := tree[f]]
  {
  }

  function BundleOf(w: World, m: Manifest): World {
    World(Bundled(w.package, m.files.Keys + m.broker.Keys), m.resources, map[], ReadOnlyModes(m))
  }

  // ---------------------------------------------------------------- permission bits

  const READ_ONLY := 292           // 0o444
  const EXECUTABLE := 365          // 0o555

  /** Some bit of 0o222 is set. */
  predicate Writable(mode: nat) {
    mode / 2 % 2 == 1 || mode / 16 % 2 == 1 || mode / 128 % 2 == 1
  }

  function ExpectedMode(resource: string): nat {
    if StartsWith(resource, "bin/") then EXECUTABLE else READ_ONLY
  }

  function PathsOf(m: Manifest): set<Path> {
    (set f | f in m.files :: InPackage(f)) + (set f | f in m.broker :: InPackage(f))
      + (set r | r in m.resources :: InWorkbench(r))
  }

  function FinalMode(p: Path): nat {
    match p
    case InPackage(_) => READ_ONLY
    case InWorkbench(name) => ExpectedMode(name)
  }

  function ReadOnlyModes(m: Manifest): map<Path, nat> {
    map p | p in PathsOf(m) :: FinalMode(p)
  }

  /** Runtime files cannot be written; resources have exactly their mode. */
  predicate ModesOk(w: World, m: Manifest) {
    && (forall f | f in m.files :: InPackage(f) in w.modes && !Writable(w.modes[InPackage(f)]))
    && (forall f | f in m.broker :: InPackage(f) in w.modes && w.modes[InPackage(f)] == READ_ONLY)
    && (forall r | r in m.resources :: InWorkbench(r) in w.modes && w.modes[InWorkbench(r)] == ExpectedMode(r))
  }

  datatype Digit = Digit(read: bool, write: bool, execute: bool)

  function Octal(d: Digit): nat {
    (if d.read then 4 else 0) + (if d.write then 2 else 0) + if d.execute then 1 else 0
  }

  /** A mode can be written to exactly when its owner, its group or the others may write. */
  lemma WritableDigits(special: nat, owner: Digit, group: Digit, others: Digit)
    ensures Writable(special * 512 + Octal(owner) * 64 + Octal(group) * 8 + Octal(others))
      <==> owner.write || group.write || others.write
  {
    var mode := special * 512 + Octal(owner) * 64 + Octal(group) * 8 + Octal(others);
    Bits(mode, special * 128 + Octal(owner) * 16 + Octal(group) * 2 + High(others), others.write, Low(others));
    Bits16(mode, special * 16 + Octal(owner) * 2 + High(group), group.write, Low(group) * 8 + Octal(others));
    Bits128(mode, special * 2 + High(owner), owner.write, Low(owner) * 64 + Octal(group) * 8 + Octal(others));
  }

  function High(d: Digit): nat { if d.read then 1 else 0 }

  function Low(d: Digit): nat { if d.execute then 1 else 0 }

  lemma Bits(mode: nat, high: nat, write: bool, low: nat)
    requires low < 2 && mode == high * 4 + (if write then 2 else 0) + low
    ensures mode / 2 % 2 == 1 <==> write
  {
    assert mode / 2 == high * 2 + if write then 1 else 0;
  }

  lemma Bits16(mode: nat, high: nat, write: bool, low: nat)
    requires low < 16 && mode == high * 32 + (if write then 16 else 0) + low
    ensures mode / 16 % 2 == 1 <==> write
  {
    assert mode / 16 == high * 2 + if write then 1 else 0;
  }

  lemma Bits128(mode: nat, high: nat, write: bool, low: nat)
    requires low < 128 && mode == high * 256 + (if write then 128 else 0) + low
    ensures mode / 128 % 2 == 1 <==> write
  {
    assert mode / 128 == high * 2 + if write then 1 else 0;
  }

  /** A fresh bundle: the programs of `bin` can be read and run, everything else only read. */
  lemma FreshModes(w: World, m: Manifest, p: Path)
    ensures p in BundleOf(w, m).modes
      <==> if p.InPackage? then p.file in m.files || p.file in m.broker else p.name in m.resources
    ensures p in BundleOf(w, m).modes ==>
      if p.InWorkbench? && |p.name| >= 4 && p.name[..4] == "bin/"
      then BundleOf(w, m).modes[p] == 5 * 64 + 5 * 8 + 5
      else BundleOf(w, m).modes[p] == 4 * 64 + 4 * 8 + 4
  {
    hide IsManifest;
  }

  lemma FreshModesOk(w: World, m: Manifest)
    ensures ModesOk(BundleOf(w, m), m)
  {
  }

  // ---------------------------------------------------------------- the bundle

  /** Any directory that holds the manifest's files and resources unchanged, and of the package
      nothing the original lacks, has the same manifest. */
  lemma ManifestIsLocal(w: World, stdlib: set<string>, m: Manifest, part: World)
    requires IsManifest(w, stdlib, m) && Within(part.package, w.package)
    requires m.files.Keys + m.broker.Keys <= part.package.Keys
    requires forall r | r in m.resources :: ResourceBytes(part, r) == Some(m.resources[r])
    ensures IsManifest(part, stdlib, m)
  {
    hide IsClosure;
    ClosureIsLocal(part.package, w.package, stdlib, ClosureOf(m));
  }

  lemma ReadableInTree(w: World, stdlib: set<string>, m: Manifest)
    requires IsManifest(w, stdlib, m)
    ensures m.files.Keys + m.broker.Keys <= w.package.Keys
  {
    hide IsClosure;
    forall f | f in m.files.Keys + m.broker.Keys ensures f in w.package {
      assert FileBytes(w.package, f).Some?;
    }
  }

  lemma BundleIsLocal(w: World, stdlib: set<string>, m: Manifest)
    requires IsManifest(w, stdlib, m)
    ensures IsManifest(BundleOf(w, m), stdlib, m)
  {
    hide IsClosure;
    var bundle := BundleOf(w, m);
    ReadableInTree(w, stdlib, m);
    ManifestIsLocal(w, stdlib, m, bundle);
  }

  /** controller-runtime-bundle.json; the digest is a parameter. */
  datatype Recorded = Recorded(manifest: Manifest, sha256: string)

  /** The record is intact and is the expected one. */
  predicate Genuine(record: Recorded, expected: Option<string>, sha: Manifest -> string) {
    record.sha256 == sha(record.manifest) && (expected.Some? ==> expected.value == record.sha256)
  }

  /** Check the record, recompute the manifest of the bundle and compare, and check the modes. `None`
      is a record that cannot be read or has another schema. */
  method VerifyBundle(bundle: World, stdlib: set<string>, record: Option<Recorded>, expected: Option<string>,
                      sha: Manifest -> string)
    returns (ok: bool)
    ensures ok <==>
      && record.Some? && Genuine(record.value, expected, sha)
      && IsManifest(bundle, stdlib, record.value.manifest) && ModesOk(bundle, record.value.manifest)
  {
    hide IsManifest, ModesOk;
    if record.None? {
      return false;
    }
    if record.value.sha256 != sha(record.value.manifest) {
      return false;
    }
    if expected.Some? && expected.value != record.value.sha256 {
      return false;
    }
    var observed := ControllerManifest(bundle, stdlib);
    if IsManifest(bundle, stdlib, record.value.manifest) {
      ManifestIsUnique(bundle, stdlib, observed.value, record.value.manifest);
    }
    if observed != Some(record.value.manifest) {
      return false;
    }
    ok := ModesOk(bundle, record.value.manifest);
  }

  /** Copy the closure, the opened broker files and the semantic resources, record the manifest, take
      the write permission away, and verify the copy. The verification of a fresh bundle never fails. */
  method MaterializeBundle(w: World, stdlib: set<string>, present: bool, sha: Manifest -> string)
    returns (bundle: Option<World>, record: Option<Recorded>, ok: bool)
    ensures record.Some? ==>
      && ok && !present && IsManifest(w, stdlib, record.value.manifest) && Genuine(record.value, None, sha)
      && bundle == Some(BundleOf(w, record.value.manifest))
    ensures record.None? ==> bundle.None? && !ok && (present || forall n :: !IsManifest(w, stdlib, n))
  {
    if present {
      return None, None, false;
    }
    var manifest := ControllerManifest(w, stdlib);
    if manifest.None? {
      return None, None, false;
    }
    var m := manifest.value;
    BundleIsLocal(w, stdlib, m);
    ReadableInTree(w, stdlib, m);
    FreshModesOk(w, m);
    hide IsManifest, ModesOk;
    var package := CopyFiles(w.package, m.files.Keys + m.broker.Keys);
    var modes := TakeWriteAway(m);
    bundle, record := Some(World(package, m.resources, map[], modes)), Some(Recorded(m, sha(m)));
    ok := VerifyBundle(bundle.value, stdlib, record, None, sha);
  }

  method CopyFiles(tree: Tree, all: set<File>) returns (package: Tree)
    requires all <= tree.Keys
    ensures package == Bundled(tree, all)
  {
    var rest := all;
    package := map[];
    while rest != {}
      invariant rest <= all && package == Bundled(tree, all - rest)
    {
      hide Bundled;
      var f :| f in rest;
      BundledPlus(tree, all - rest, f);
      package := package[f := tree[f]];
      assert all - (rest - {f}) == all - rest + {f};
      rest := rest - {f};
    }
    assert all - rest == all;
  }

  /** One chmod after the other. */
  method TakeWriteAway(m: Manifest) returns (modes: map<Path, nat>)
    ensures modes == ReadOnlyModes(m)
  {
    var rest := PathsOf(m);
    modes := map[];
    while rest != {}
      invariant rest <= PathsOf(m) && modes.Keys == PathsOf(m) - rest
      invariant forall p | p in modes :: modes[p] == FinalMode(p)
    {
      hide PathsOf, FinalMode;
      var p :| p in rest;
      modes, rest := modes[p := FinalMode(p)], rest - {p};
    }
  }
}
