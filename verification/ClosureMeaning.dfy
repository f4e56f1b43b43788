/** What the closure is in terms of files: the scan's functions are absent from every definition here. */
module ClosureMeaning {
  import opened Options
  import opened ImportClosure

  // ---------------------------------------------------------------- modules and files

  /** `g` is the file Python runs for the dotted path below the package: the package's initializer for
      the empty path, a module file before a package of the same name. */
  predicate Stands(tree: Tree, path: seq<string>, g: File) {
    && g in tree
    && if path == [] then g == File([], "__init__")
       else
         var moduleFile := File(path[..|path| - 1], path[|path| - 1]);
         g == moduleFile || (g == File(path, "__init__") && moduleFile !in tree)
  }

  /** Name `at` is where a `from` import of `f` starts: as written at level 0, and else below the package
      that `level` dots climb to, the first of them standing for the directory of `f`. */
  predicate StartsAt(f: File, level: nat, base: ModuleName, at: ModuleName) {
    if level == 0 then at == base
    else level - 1 <= |f.dir| && at == ["hol_workbench"] + f.dir[..|f.dir| - (level - 1)] + base
  }

  predicate InPackage(m: ModuleName) { m != [] && m[0] == "hol_workbench" }

  /** The tree has the file of a module of the package. */
  ghost predicate Held(tree: Tree, m: ModuleName) { InPackage(m) && exists g :: Stands(tree, m[1..], g) }

  /** An import statement asks for module `m`: it names it, or takes names from it, or one of the names
      it takes from the project is itself a module. */
  ghost predicate AsksFor(tree: Tree, f: File, i: Import, m: ModuleName) {
    match i
    case Import(names, _, _) => exists k :: 0 <= k < |names| && names[k].name == m
    case ImportFrom(level, base, aliases, _, _) =>
      exists at :: StartsAt(f, level, base, at) && (m == at || TakesModule(tree, at, aliases, m))
  }

  ghost predicate TakesModule(tree: Tree, at: ModuleName, aliases: seq<Member>, m: ModuleName) {
    && InPackage(at) && Held(tree, m)
    && exists k :: 0 <= k < |aliases| && aliases[k].name != "*" && m == at + [aliases[k].name]
  }

  /** An initializer that runs before `h`. */
  predicate RunsBefore(tree: Tree, h: File, g: File) {
    g in tree && g.stem == "__init__" && g.dir != [] && g.dir <= h.dir
  }

  /** Importing `m` runs `g`. */
  ghost predicate Runs(tree: Tree, m: ModuleName, g: File) {
    InPackage(m) && exists h :: Stands(tree, m[1..], h) && (g == h || RunsBefore(tree, h, g))
  }

  ghost predicate Imports(tree: Tree, f: File, g: File) {
    f in tree && tree[f].Parsed? && exists i, m :: i in tree[f].imports && AsksFor(tree, f, i, m) && Runs(tree, m, g)
  }

  /** A module the closure can hold or account for. */
  ghost predicate Importable(tree: Tree, stdlib: set<string>, m: ModuleName) {
    || m == [] || m == ["__future__"] || m == ["hol_workbench"]
    || (if InPackage(m) then Held(tree, m) else m[0] in stdlib)
  }

  // ---------------------------------------------------------------- names and calls

  /** What a name of the file can stand for: a tracked module, or a member of one. */
  datatype Meaning = Whole(owner: string) | Part(owner: string, member: string)

  /** `own as bound` binds `name`. */
  predicate Called(bound: Option<string>, own: string, name: string) {
    match bound
    case None => name == own
    case Some(other) => name == if other == "" then own else other
  }

  /** The `k`th name of import `i` makes `name` mean `v`. */
  predicate Gives(i: Import, k: nat, name: string, v: Meaning) {
    && v.owner in {"importlib", "os", "subprocess"}
    && match v
       case Whole(owner) =>
         && i.Import? && k < |i.names| && i.names[k].name == [owner]
         && Called(i.names[k].bound, owner, name)
       case Part(owner, member) =>
         && i.ImportFrom? && i.level == 0 && i.base == [owner] && k < |i.aliases| && i.aliases[k].name == member
         && Called(i.aliases[k].bound, member, name)
  }

  predicate SameKind(v: Meaning, w: Meaning) { v.Whole? <==> w.Whole? }

  /** No later name of the file gives `name` a meaning of the same kind. */
  ghost predicate LastTo(imports: seq<Import>, j: nat, k: nat, name: string, v: Meaning) {
    forall j': nat, k': nat, w | j' < |imports| && (j < j' || (j == j' && k < k')) && SameKind(v, w) ::
      !Gives(imports[j'], k', name, w)
  }

  /** The last one decides. */
  ghost predicate Means(imports: seq<Import>, name: string, v: Meaning) {
    exists j: nat, k: nat :: j < |imports| && Gives(imports[j], k, name, v) && LastTo(imports, j, k, name, v)
  }

  predicate CallsBuiltin(callee: Callee) {
    callee.Name? && callee.id in {"__import__", "compile", "eval", "exec"}
  }

  /** The call goes to `owner.operation` of a tracked module. */
  ghost predicate CallsMember(imports: seq<Import>, callee: Callee, owner: string, operation: string) {
    match callee
    case Name(id) => !CallsBuiltin(callee) && Means(imports, id, Part(owner, operation))
    case Attribute(o, attr) => Means(imports, o, Whole(owner)) && operation == attr
    case Computed => false
  }

  predicate StartsProcess(owner: string, operation: string) {
    || (owner == "subprocess" && operation in
        {"Popen", "call", "check_call", "check_output", "getoutput", "getstatusoutput", "run"})
    || (owner == "os" && (operation in {"fork", "popen", "system"}
        || "exec" <= operation || "spawn" <= operation || "posix_spawn" <= operation))
  }

  /** An attribute of `subprocess` that neither starts a process nor is one of its exceptions and results. */
  predicate Unknown(operation: string) {
    && !StartsProcess("subprocess", operation)
    && operation !in {"CalledProcessError", "CompletedProcess", "SubprocessError", "TimeoutExpired"}
  }

  /** A call no closure may hold: a builtin that runs text, an undeclared use of `importlib`, an unknown
      use of `subprocess`. */
  ghost predicate Forbidden(f: File, imports: seq<Import>, call: Call) {
    || CallsBuiltin(call.callee)
    || exists owner, operation :: CallsMember(imports, call.callee, owner, operation)
         && ((owner == "importlib" && !(operation == "import_module" && call.scope == "self_check"
                && f == File([], "authoritative_runtime_worker")))
             || (owner == "subprocess" && Unknown(operation)))
  }

  // ---------------------------------------------------------------- the closure

  /** A file a closure may hold. */
  ghost predicate Admissible(tree: Tree, stdlib: set<string>, f: File) {
    && f in tree && tree[f].Parsed?
    && (forall i | i in tree[f].imports :: i.ImportFrom? ==> i.level <= |f.dir| + 1)
    && (forall i, m | i in tree[f].imports && AsksFor(tree, f, i, m) :: Importable(tree, stdlib, m))
    && forall call | call in tree[f].calls :: !Forbidden(f, tree[f].imports, call)
  }

  ghost predicate SelfContained(tree: Tree, stdlib: set<string>, s: set<File>) {
    && File([], "authoritative_runtime_worker") in s && File([], "__init__") in s
    && (forall f | f in s :: Admissible(tree, stdlib, f))
    && forall f, g | f in s && Imports(tree, f, g) :: g in s
  }

  /** Not the project's, and not a promise to the compiler. */
  predicate Outside(m: ModuleName) { m != [] && m != ["__future__"] && !InPackage(m) }

  ghost predicate IsExternal(tree: Tree, f: File, x: string) {
    && f in tree && tree[f].Parsed?
    && exists i, m :: i in tree[f].imports && AsksFor(tree, f, i, m) && Outside(m) && m[0] == x
  }

  ghost predicate IsLate(tree: Tree, f: File, l: Late) {
    && f in tree && tree[f].Parsed? && l.file == f
    && (exists i :: i in tree[f].imports && i.late && i.line == l.line && AsksFor(tree, f, i, l.name))
    && Held(tree, l.name)
  }

  predicate EntryOf(f: File, call: Call, owner: string, operation: string, e: Entry) {
    e == Entry(f, call.line, call.column, call.scope, owner + "." + operation)
  }

  ghost predicate IsEntry(tree: Tree, f: File, e: Entry) {
    && f in tree && tree[f].Parsed?
    && exists call, owner, operation ::
         && call in tree[f].calls && CallsMember(tree[f].imports, call.callee, owner, operation)
         && StartsProcess(owner, operation) && EntryOf(f, call, owner, operation, e)
  }

  // ---------------------------------------------------------------- modules

  lemma SourceStands(tree: Tree, m: ModuleName, g: File)
    requires InPackage(m)
    ensures ModuleSource(tree, m) == Some(g) <==> Stands(tree, m[1..], g)
  {
  }

  lemma SourceExists(tree: Tree, m: ModuleName)
    requires InPackage(m)
    ensures ModuleSource(tree, m).Some? <==> Held(tree, m)
  {
    hide ModuleSource, Stands;
    var source := ModuleSource(tree, m);
    if source.Some? {
      SourceStands(tree, m, source.value);
    }
    forall g | Stands(tree, m[1..], g) ensures source.Some? {
      SourceStands(tree, m, g);
    }
  }

  lemma {:induction false} SubmodulesAre(tree: Tree, at: ModuleName, names: seq<string>, m: ModuleName)
    ensures m in Submodules(tree, at, names)
      <==> exists k :: 0 <= k < |names| && names[k] != "*" && m == at + [names[k]] && ModuleSource(tree, m).Some?
  {
    hide ModuleSource;
    if names != [] {
      SubmodulesAre(tree, at, names[1..], m);
      forall k | 0 <= k < |names| - 1 ensures names[k + 1] == names[1..][k] { }
      forall k | 0 < k < |names| ensures names[k] == names[1..][k - 1] { }
    }
  }

  lemma TakesAre(tree: Tree, at: ModuleName, aliases: seq<Member>, m: ModuleName)
    requires InPackage(at)
    ensures m in Submodules(tree, at, MembersOf(aliases)) <==> TakesModule(tree, at, aliases, m)
  {
    hide ModuleSource, Submodules, Held;
    SubmodulesAre(tree, at, MembersOf(aliases), m);
    if InPackage(m) {
      SourceExists(tree, m);
    }
  }

  /** The names scanned for an import are those it asks for. */
  lemma ImportedAre(tree: Tree, f: File, i: Import, m: ModuleName)
    ensures ImportedModules(tree, f, i).Some? <==> (i.ImportFrom? ==> i.level <= |f.dir| + 1)
    ensures ImportedModules(tree, f, i).Some? ==> (m in ImportedModules(tree, f, i).value <==> AsksFor(tree, f, i, m))
  {
    hide Submodules, TakesModule, RelativeImportModule;
    if i.ImportFrom? && i.level <= |f.dir| + 1 {
      var at := RelativeImportModule(f, i.level, i.base).value;
      assert forall a :: StartsAt(f, i.level, i.base, a) <==> a == at;
      if InPackage(at) {
        TakesAre(tree, at, i.aliases, m);
      } else {
        assert !TakesModule(tree, at, i.aliases, m) by { TakesInPackage(tree, at, i.aliases, m); }
      }
    }
  }

  lemma TakesInPackage(tree: Tree, at: ModuleName, aliases: seq<Member>, m: ModuleName)
    ensures TakesModule(tree, at, aliases, m) ==> InPackage(at)
  {
  }

  // ---------------------------------------------------------------- one file's imports

  /** What `m` alone adds. */
  ghost predicate AddsModule(tree: Tree, f: File, m: ModuleName, late: bool, line: nat, scan: Scan) {
    && (forall g :: g in scan.deps <==> Runs(tree, m, g))
    && (forall x :: x in scan.external <==> Outside(m) && m[0] == x)
    && (forall l :: l in scan.late <==> late && l == Late(f, line, m) && Held(tree, m))
    && scan.entries == {}
  }

  lemma RunsAre(tree: Tree, m: ModuleName, h: File)
    requires InPackage(m) && Stands(tree, m[1..], h)
    ensures forall g :: g in {h} + Initializers(tree, h) <==> Runs(tree, m, g)
  {
    forall g ensures g in Initializers(tree, h) <==> RunsBefore(tree, h, g) {
      if RunsBefore(tree, h, g) {
        assert g == File(h.dir[..|g.dir|], INIT);
      }
    }
    SourceStands(tree, m, h);
    forall h' | Stands(tree, m[1..], h') ensures h' == h {
      SourceStands(tree, m, h');
    }
    hide Initializers, RunsBefore, Stands;
  }

  lemma ModuleScanned(tree: Tree, stdlib: set<string>, f: File, m: ModuleName, late: bool, line: nat)
    ensures ScanModule(tree, stdlib, f, m, late, line).Some? <==> Importable(tree, stdlib, m)
    ensures ScanModule(tree, stdlib, f, m, late, line).Some? ==>
      AddsModule(tree, f, m, late, line, ScanModule(tree, stdlib, f, m, late, line).value)
  {
    hide ModuleSource, Initializers, Stands, RunsBefore;
    if InPackage(m) {
      SourceExists(tree, m);
      var source := ModuleSource(tree, m);
      if source.Some? {
        SourceStands(tree, m, source.value);
        RunsAre(tree, m, source.value);
      }
    }
  }

  /** What the modules of one import statement add. */
  ghost predicate AddsAll(tree: Tree, f: File, ms: seq<ModuleName>, late: bool, line: nat, scan: Scan) {
    && (forall g :: g in scan.deps <==> exists m :: m in ms && Runs(tree, m, g))
    && (forall x :: x in scan.external <==> exists m :: m in ms && Outside(m) && m[0] == x)
    && (forall l :: l in scan.late <==> late && l == Late(f, line, l.name) && l.name in ms && Held(tree, l.name))
    && scan.entries == {}
  }

  lemma {:induction false} ModulesScanned(tree: Tree, stdlib: set<string>, f: File, ms: seq<ModuleName>, late: bool,
                                          line: nat)
    ensures ScanModules(tree, stdlib, f, ms, late, line).Some? <==> forall m | m in ms :: Importable(tree, stdlib, m)
    ensures ScanModules(tree, stdlib, f, ms, late, line).Some? ==>
      AddsAll(tree, f, ms, late, line, ScanModules(tree, stdlib, f, ms, late, line).value)
  {
    hide ScanModule, Importable, Runs, Held, Outside;
    if ms != [] {
      ModuleScanned(tree, stdlib, f, ms[0], late, line);
      ModulesScanned(tree, stdlib, f, ms[1..], late, line);
      assert forall m :: m in ms <==> m == ms[0] || m in ms[1..];
    }
  }

  lemma ImportScanned(tree: Tree, stdlib: set<string>, f: File, i: Import)
    ensures ScanImport(tree, stdlib, f, i).Some? <==>
      && (i.ImportFrom? ==> i.level <= |f.dir| + 1)
      && forall m | AsksFor(tree, f, i, m) :: Importable(tree, stdlib, m)
    ensures ScanImport(tree, stdlib, f, i).Some? ==> AddsImport(tree, f, i, ScanImport(tree, stdlib, f, i).value)
  {
    ImportedAre(tree, f, i, []);
    hide ImportedModules, ScanModules, AsksFor, Runs, Held, Outside, Importable;
    forall m
      ensures ImportedModules(tree, f, i).Some? <==> (i.ImportFrom? ==> i.level <= |f.dir| + 1)
      ensures ImportedModules(tree, f, i).Some? ==> (m in ImportedModules(tree, f, i).value <==> AsksFor(tree, f, i, m))
    {
      ImportedAre(tree, f, i, m);
    }
    var ms := ImportedModules(tree, f, i);
    if ms.Some? {
      ModulesScanned(tree, stdlib, f, ms.value, i.late, i.line);
    }
  }

  ghost predicate AddsImport(tree: Tree, f: File, i: Import, scan: Scan) {
    && (forall g :: g in scan.deps <==> exists m :: AsksFor(tree, f, i, m) && Runs(tree, m, g))
    && (forall x :: x in scan.external <==> exists m :: AsksFor(tree, f, i, m) && Outside(m) && m[0] == x)
    && (forall l :: l in scan.late <==>
         i.late && l == Late(f, i.line, l.name) && AsksFor(tree, f, i, l.name) && Held(tree, l.name))
    && scan.entries == {}
  }

  ghost predicate AddsImports(tree: Tree, f: File, imports: seq<Import>, scan: Scan) {
    && (forall g :: g in scan.deps <==> exists i, m :: i in imports && AsksFor(tree, f, i, m) && Runs(tree, m, g))
    && (forall x :: x in scan.external
         <==> exists i, m :: i in imports && AsksFor(tree, f, i, m) && Outside(m) && m[0] == x)
    && (forall l :: l in scan.late
         <==> l.file == f && Held(tree, l.name)
              && exists i :: i in imports && i.late && i.line == l.line && AsksFor(tree, f, i, l.name))
    && scan.entries == {}
  }

  lemma {:induction false} ImportsScanned(tree: Tree, stdlib: set<string>, f: File, imports: seq<Import>)
    ensures ScanImports(tree, stdlib, f, imports).Some? <==>
      && (forall i | i in imports :: i.ImportFrom? ==> i.level <= |f.dir| + 1)
      && forall i, m | i in imports && AsksFor(tree, f, i, m) :: Importable(tree, stdlib, m)
    ensures ScanImports(tree, stdlib, f, imports).Some? ==>
      AddsImports(tree, f, imports, ScanImports(tree, stdlib, f, imports).value)
  {
    hide ScanImport, AsksFor, Importable, Runs, Held, Outside;
    if imports != [] {
      ImportScanned(tree, stdlib, f, imports[0]);
      ImportsScanned(tree, stdlib, f, imports[1..]);
      assert forall i :: i in imports <==> i == imports[0] || i in imports[1..];
    }
  }

  // ---------------------------------------------------------------- what names mean

  predicate Found(names: Names, name: string, v: Meaning) {
    match v
    case Whole(owner) => name in names.modules && names.modules[name] == owner
    case Part(owner, member) => name in names.members && names.members[name] == (owner, member)
  }

  ghost predicate Unbound(imports: seq<Import>, name: string, v: Meaning) {
    forall j: nat, k: nat, w | j < |imports| && SameKind(v, w) :: !Gives(imports[j], k, name, w)
  }

  /** The dictionaries after the imports, in terms of those before. */
  ghost predicate Bound(imports: seq<Import>, before: Names, after: Names, name: string, v: Meaning) {
    Found(after, name, v) <==> Means(imports, name, v) || (Unbound(imports, name, v) && Found(before, name, v))
  }

  ghost predicate UnboundHere(i: Import, name: string, v: Meaning) {
    forall k: nat, w | SameKind(v, w) :: !Gives(i, k, name, w)
  }

  ghost predicate MeansHere(i: Import, name: string, v: Meaning) {
    exists k: nat :: Gives(i, k, name, v) && forall k': nat, w | k < k' && SameKind(v, w) :: !Gives(i, k', name, w)
  }

  ghost predicate BoundHere(i: Import, before: Names, after: Names, name: string, v: Meaning) {
    Found(after, name, v) <==> MeansHere(i, name, v) || (UnboundHere(i, name, v) && Found(before, name, v))
  }

  /** An import without its first name. */
  function Shorter(i: Import): Import {
    match i
    case Import(names, late, line) => Import(if names == [] then [] else names[1..], late, line)
    case ImportFrom(level, base, aliases, late, line) =>
      ImportFrom(level, base, if aliases == [] then [] else aliases[1..], late, line)
  }

  lemma GivesShift(i: Import, k: nat, name: string, v: Meaning)
    ensures Gives(Shorter(i), k, name, v) <==> Gives(i, k + 1, name, v)
  {
  }

  lemma HereSplit(i: Import, name: string, v: Meaning)
    ensures UnboundHere(i, name, v) <==>
      UnboundHere(Shorter(i), name, v) && forall w | SameKind(v, w) :: !Gives(i, 0, name, w)
    ensures MeansHere(i, name, v) <==>
      MeansHere(Shorter(i), name, v) || (UnboundHere(Shorter(i), name, v) && Gives(i, 0, name, v))
  {
    hide Gives, SameKind;
    forall k: nat, w ensures Gives(Shorter(i), k, name, w) <==> Gives(i, k + 1, name, w) {
      GivesShift(i, k, name, w);
    }
    forall k: nat, w | k > 0 ensures Gives(i, k, name, w) <==> Gives(Shorter(i), k - 1, name, w) {
      GivesShift(i, k - 1, name, w);
    }
  }

  ghost predicate FirstGives(i: Import, before: Names, after: Names, name: string, v: Meaning) {
    Found(after, name, v) <==>
      Gives(i, 0, name, v) || ((forall w | SameKind(v, w) :: !Gives(i, 0, name, w)) && Found(before, name, v))
  }

  lemma FirstAlias(i: Import, into: Names, name: string, v: Meaning)
    requires i.Import? && i.names != []
    ensures var a := i.names[0];
      var next := if |a.name| == 1 && a.name[0] in TRACKED
                  then into.(modules := into.modules[Bind(a.bound, a.name[0]) := a.name[0]]) else into;
      FirstGives(i, into, next, name, v)
  {
    var a := i.names[0];
    if v.Whole? && |a.name| == 1 && a.name[0] in TRACKED && name == Bind(a.bound, a.name[0]) {
      assert Gives(i, 0, name, Whole(a.name[0]));
    }
  }

  lemma FirstMember(i: Import, into: Names, name: string, v: Meaning)
    requires i.ImportFrom? && i.level == 0 && |i.base| == 1 && i.base[0] in TRACKED && i.aliases != []
    ensures var a := i.aliases[0];
      FirstGives(i, into, into.(members := into.members[Bind(a.bound, a.name) := (i.base[0], a.name)]), name, v)
  {
    var a := i.aliases[0];
    if v.Part? && name == Bind(a.bound, a.name) {
      assert Gives(i, 0, name, Part(i.base[0], a.name));
    }
  }

  lemma NothingHere(i: Import, into: Names, name: string, v: Meaning)
    requires match i
             case Import(names, _, _) => names == []
             case ImportFrom(level, base, aliases, _, _) =>
               aliases == [] || level != 0 || |base| != 1 || base[0] !in TRACKED
    ensures BoundHere(i, into, into, name, v)
  {
  }

  lemma {:induction false} AliasesBound(i: Import, into: Names, name: string, v: Meaning)
    requires i.Import?
    ensures BoundHere(i, into, AliasBinds(i.names, into), name, v)
    decreases |i.names|
  {
    if i.names == [] {
      NothingHere(i, into, name, v);
    } else {
      var a := i.names[0];
      var next := if |a.name| == 1 && a.name[0] in TRACKED
                  then into.(modules := into.modules[Bind(a.bound, a.name[0]) := a.name[0]]) else into;
      FirstAlias(i, into, name, v);
      HereSplit(i, name, v);
      AliasesBound(Shorter(i), next, name, v);
      hide Gives, SameKind, Bind, Found;
    }
  }

  lemma {:induction false} MembersBound(i: Import, into: Names, name: string, v: Meaning)
    requires i.ImportFrom? && i.level == 0 && |i.base| == 1 && i.base[0] in TRACKED
    ensures BoundHere(i, into, MemberBinds(i.base[0], i.aliases, into), name, v)
    decreases |i.aliases|
  {
    if i.aliases == [] {
      NothingHere(i, into, name, v);
    } else {
      var a := i.aliases[0];
      var next := into.(members := into.members[Bind(a.bound, a.name) := (i.base[0], a.name)]);
      FirstMember(i, into, name, v);
      HereSplit(i, name, v);
      MembersBound(Shorter(i), next, name, v);
      hide Gives, SameKind, Bind, Found;
    }
  }

  lemma MeansSplit(imports: seq<Import>, name: string, v: Meaning)
    requires imports != []
    ensures Unbound(imports, name, v) <==> UnboundHere(imports[0], name, v) && Unbound(imports[1..], name, v)
    ensures Means(imports, name, v) <==>
      Means(imports[1..], name, v) || (Unbound(imports[1..], name, v) && MeansHere(imports[0], name, v))
  {
    hide Gives, SameKind;
    assert forall j: nat | 0 < j < |imports| :: imports[j] == imports[1..][j - 1];
    assert forall j: nat | j < |imports| - 1 :: imports[1..][j] == imports[j + 1];
  }

  /** The dictionaries say what the last import of a name says. */
  lemma {:induction false} NamesBound(imports: seq<Import>, into: Names, name: string, v: Meaning)
    ensures Bound(imports, into, Binds(imports, into), name, v)
  {
    if imports != [] {
      var i := imports[0];
      var next := match i
                  case Import(names, _, _) => AliasBinds(names, into)
                  case ImportFrom(level, base, aliases, _, _) =>
                    if level == 0 && |base| == 1 && base[0] in TRACKED then MemberBinds(base[0], aliases, into) else into;
      if i.Import? {
        AliasesBound(i, into, name, v);
      } else if i.level == 0 && |i.base| == 1 && i.base[0] in TRACKED {
        MembersBound(i, into, name, v);
      } else {
        NothingHere(i, into, name, v);
      }
      MeansSplit(imports, name, v);
      NamesBound(imports[1..], next, name, v);
      hide AliasBinds, MemberBinds, MeansHere, UnboundHere, Means, Unbound, Found;
    }
  }

  // ---------------------------------------------------------------- one file's calls

  lemma TargetIs(imports: seq<Import>, callee: Callee, owner: string, operation: string)
    ensures CallTarget(Binds(imports, NO_NAMES), callee) == Some(Of(owner, operation))
      <==> CallsMember(imports, callee, owner, operation)
  {
    hide Binds, Means, Unbound;
    match callee
    case Name(id) => NamesBound(imports, NO_NAMES, id, Part(owner, operation));
    case Attribute(o, attr) => NamesBound(imports, NO_NAMES, o, Whole(owner));
    case Computed =>
  }

  lemma BuiltinIs(imports: seq<Import>, callee: Callee)
    ensures CallsBuiltin(callee) <==>
      CallTarget(Binds(imports, NO_NAMES), callee).Some? && CallTarget(Binds(imports, NO_NAMES), callee).value.Builtin?
    ensures CallsBuiltin(callee) ==>
      callee.Name? && CallTarget(Binds(imports, NO_NAMES), callee) == Some(Builtin(callee.id))
  {
    hide Binds;
  }

  lemma EscapeIs(owner: string, operation: string)
    requires owner in {"importlib", "os", "subprocess"}
    ensures var escape := EscapeOf(Of(owner, operation));
      && (escape == Dynamic <==> owner == "importlib")
      && (escape == Process <==> StartsProcess(owner, operation))
      && (escape == Unclassified <==> owner == "subprocess" && Unknown(operation))
  {
  }

  lemma DeclaredIs(f: File, scope: string, operation: string)
    ensures Declared(f, scope, "importlib" + "." + operation)
      <==> f == File([], "authoritative_runtime_worker") && scope == "self_check" && operation == "import_module"
  {
    var text := "importlib" + "." + operation;
    assert text[10..] == operation;
    if text == "importlib.import_module" {
      assert operation == "importlib.import_module"[10..] == "import_module";
    }
  }

  lemma OwnerIsTracked(imports: seq<Import>, callee: Callee, owner: string, operation: string)
    requires CallsMember(imports, callee, owner, operation)
    ensures owner in {"importlib", "os", "subprocess"}
  {
  }

  ghost predicate AddsCall(f: File, imports: seq<Import>, call: Call, scan: Scan) {
    && scan.deps == {} && scan.external == {} && scan.late == {}
    && forall e :: e in scan.entries <==> exists owner, operation ::
         CallsMember(imports, call.callee, owner, operation) && StartsProcess(owner, operation)
         && EntryOf(f, call, owner, operation, e)
  }

  lemma CallScanned(f: File, imports: seq<Import>, call: Call)
    ensures var scan := ScanCall(f, Binds(imports, NO_NAMES), call);
      && (scan.Some? <==> !Forbidden(f, imports, call))
      && (scan.Some? ==> AddsCall(f, imports, call, scan.value))
  {
    hide Binds, CallTarget, CallsMember, EscapeOf, StartsProcess, Declared, CallsBuiltin;
    BuiltinIs(imports, call.callee);
    var target := CallTarget(Binds(imports, NO_NAMES), call.callee);
    forall owner, operation
      ensures CallsMember(imports, call.callee, owner, operation) <==> target == Some(Of(owner, operation))
    {
      TargetIs(imports, call.callee, owner, operation);
    }
    if target.Some? {
      match target.value
      case Builtin(id) => BuiltinIsDynamic(f, call.scope, id, call.callee);
      case Of(owner, operation) =>
        OwnerIsTracked(imports, call.callee, owner, operation);
        EscapeIs(owner, operation);
        DeclaredIs(f, call.scope, operation);
    }
  }

  lemma BuiltinIsDynamic(f: File, scope: string, id: string, callee: Callee)
    requires CallsBuiltin(callee) && callee.Name? && callee.id == id
    ensures EscapeOf(Builtin(id)) == Dynamic && !Declared(f, scope, OperationText(Builtin(id)))
  {
  }

  ghost predicate AddsCalls(f: File, imports: seq<Import>, calls: seq<Call>, scan: Scan) {
    && scan.deps == {} && scan.external == {} && scan.late == {}
    && forall e :: e in scan.entries <==> exists call, owner, operation ::
         call in calls && CallsMember(imports, call.callee, owner, operation) && StartsProcess(owner, operation)
         && EntryOf(f, call, owner, operation, e)
  }

  lemma {:induction false} CallsScanned(f: File, imports: seq<Import>, calls: seq<Call>)
    ensures var scan := ScanCalls(f, Binds(imports, NO_NAMES), calls);
      && (scan.Some? <==> forall call | call in calls :: !Forbidden(f, imports, call))
      && (scan.Some? ==> AddsCalls(f, imports, calls, scan.value))
  {
    hide Binds, ScanCall, CallsMember, StartsProcess, EntryOf, Forbidden;
    if calls != [] {
      CallScanned(f, imports, calls[0]);
      CallsScanned(f, imports, calls[1..]);
      assert forall call :: call in calls <==> call == calls[0] || call in calls[1..];
    }
  }

  // ---------------------------------------------------------------- files and closures

  /** Scanning a file finds exactly the files it imports and what it is to account for, and fails
      exactly on a file no closure may hold. */
  lemma FileScanned(tree: Tree, stdlib: set<string>, f: File)
    ensures ScanFile(tree, stdlib, f).Some? <==> Admissible(tree, stdlib, f)
    ensures var scan := ScanOf(tree, stdlib, f); ScanFile(tree, stdlib, f).Some? ==>
      && (forall g :: g in scan.deps <==> Imports(tree, f, g))
      && (forall x :: x in scan.external <==> IsExternal(tree, f, x))
      && (forall l :: l in scan.late <==> IsLate(tree, f, l))
      && (forall e :: e in scan.entries <==> IsEntry(tree, f, e))
  {
    if f in tree && tree[f].Parsed? {
      var imports, calls := tree[f].imports, tree[f].calls;
      ImportsScanned(tree, stdlib, f, imports);
      CallsScanned(f, imports, calls);
      hide ScanImports, ScanCalls, Binds, AsksFor, Importable, Runs, Held, Outside, CallsMember, StartsProcess, EntryOf,
        Forbidden;
    }
  }

  lemma ClosedIs(tree: Tree, stdlib: set<string>, s: set<File>)
    ensures Closed(tree, stdlib, s) <==> SelfContained(tree, stdlib, s)
  {
    assert ROOTS[0] in ROOTS && ROOTS[1] in ROOTS;
    hide ScanFile, Admissible, Imports;
    forall f
      ensures ScanFile(tree, stdlib, f).Some? <==> Admissible(tree, stdlib, f)
      ensures ScanFile(tree, stdlib, f).Some? ==>
        && ScanOf(tree, stdlib, f) == ScanFile(tree, stdlib, f).value
        && forall g :: g in ScanOf(tree, stdlib, f).deps <==> Imports(tree, f, g)
    {
      FileScanned(tree, stdlib, f);
    }
  }

  /** The closure is the least set of admissible files that holds the worker, the package's initializer
      and every file one of its files imports; and it accounts for exactly what they ask for. */
  lemma ClosureMeans(tree: Tree, stdlib: set<string>, c: Closure)
    ensures IsClosure(tree, stdlib, c) <==>
      && SelfContained(tree, stdlib, c.files) && (forall t | SelfContained(tree, stdlib, t) :: c.files <= t)
      && (forall x :: x in c.external <==> exists f :: f in c.files && IsExternal(tree, f, x))
      && (forall l :: l in c.late <==> exists f :: f in c.files && IsLate(tree, f, l))
      && (forall e :: e in c.entries <==> exists f :: f in c.files && IsEntry(tree, f, e))
  {
    hide ScanFile, ScanOf, Closed, SelfContained, IsExternal, IsLate, IsEntry;
    forall t ensures Closed(tree, stdlib, t) <==> SelfContained(tree, stdlib, t) {
      ClosedIs(tree, stdlib, t);
    }
    if Closed(tree, stdlib, c.files) {
      forall f | f in c.files
        ensures forall x :: x in ScanOf(tree, stdlib, f).external <==> IsExternal(tree, f, x)
        ensures forall l :: l in ScanOf(tree, stdlib, f).late <==> IsLate(tree, f, l)
        ensures forall e :: e in ScanOf(tree, stdlib, f).entries <==> IsEntry(tree, f, e)
      {
        FileScanned(tree, stdlib, f);
        ClosedScans(tree, stdlib, c.files, f);
      }
    }
  }

  lemma ClosedScans(tree: Tree, stdlib: set<string>, s: set<File>, f: File)
    requires Closed(tree, stdlib, s) && f in s
    ensures ScanFile(tree, stdlib, f).Some?
  {
  }

  /** A module a `from` import takes from a package of the project. */
  predicate Takes(tree: Tree, f: File, i: Import, b: seq<string>, n: string, g: File) {
    && i.ImportFrom? && StartsAt(f, i.level, i.base, ["hol_workbench"] + b)
    && n != "*" && (exists k :: 0 <= k < |i.aliases| && i.aliases[k].name == n)
    && g in tree && (g == File(b, n) || (g == File(b + [n], "__init__") && File(b, n) !in tree))
  }

  lemma TakenIsAskedFor(tree: Tree, f: File, i: Import, b: seq<string>, n: string, g: File)
    requires Takes(tree, f, i, b, n, g)
    ensures var m := ["hol_workbench"] + b + [n]; AsksFor(tree, f, i, m) && InPackage(m) && Stands(tree, m[1..], g)
  {
    var at := ["hol_workbench"] + b;
    var m := at + [n];
    var path := m[1..];
    assert path == b + [n] && path[..|path| - 1] == b && path[|path| - 1] == n;
    assert Stands(tree, path, g);
    hide Stands;
    assert TakesModule(tree, at, i.aliases, m);
  }

  /** Importing a module of the package from a file in the closure, by its full name, in whole or for
      its members, at any level: its file is in the closure, and so is every initializer of the
      directories it lies in. */
  lemma AskedModuleIsHeld(tree: Tree, stdlib: set<string>, c: Closure, f: File, i: Import, path: seq<string>, g: File)
    requires IsClosure(tree, stdlib, c) && f in c.files && f in tree && tree[f].Parsed? && i in tree[f].imports
    requires AsksFor(tree, f, i, ["hol_workbench"] + path) && Stands(tree, path, g)
    ensures g in c.files
    ensures forall d | 0 < d <= |g.dir| && File(g.dir[..d], "__init__") in tree :: File(g.dir[..d], "__init__") in c.files
  {
    hide IsClosure, AsksFor, Stands, Admissible, IsExternal, IsLate, IsEntry;
    ClosureMeans(tree, stdlib, c);
    var m := ["hol_workbench"] + path;
    assert m[1..] == path;
    assert Runs(tree, m, g) && Imports(tree, f, g);
    forall d | 0 < d <= |g.dir| && File(g.dir[..d], "__init__") in tree
      ensures File(g.dir[..d], "__init__") in c.files
    {
      assert RunsBefore(tree, g, File(g.dir[..d], "__init__"));
      assert Runs(tree, m, File(g.dir[..d], "__init__"));
      assert Imports(tree, f, File(g.dir[..d], "__init__"));
    }
  }

  /** `from b import n` in the closure, where `n` is a module of package `b`. */
  lemma TakenModuleIsHeld(tree: Tree, stdlib: set<string>, c: Closure, f: File, i: Import, b: seq<string>, n: string,
                          g: File)
    requires IsClosure(tree, stdlib, c) && f in c.files && f in tree && tree[f].Parsed? && i in tree[f].imports
    requires Takes(tree, f, i, b, n, g)
    ensures g in c.files
    ensures forall d | 0 < d <= |g.dir| && File(g.dir[..d], "__init__") in tree :: File(g.dir[..d], "__init__") in c.files
  {
    hide IsClosure, Takes, AsksFor, Stands;
    TakenIsAskedFor(tree, f, i, b, n, g);
    assert ["hol_workbench"] + b + [n] == ["hol_workbench"] + (b + [n]);
    assert (["hol_workbench"] + (b + [n]))[1..] == b + [n];
    AskedModuleIsHeld(tree, stdlib, c, f, i, b + [n], g);
  }
}
