/** The controller's import closure: the least set of files closed under imports, and what it asks of
    the standard library and of the process table. */
module ImportClosure {
  import opened Options

  /** Dotted names as their parts; files as the directory below the package root and the stem of the
      `.py` name. */
  type ModuleName = seq<string>

  datatype File = File(dir: seq<string>, stem: string)

  /** `import MODULE as BOUND` and `from … import NAME as BOUND`. */
  datatype Alias = Alias(name: ModuleName, bound: Option<string>)

  datatype Member = Member(name: string, bound: Option<string>)

  datatype Import =
    | Import(names: seq<Alias>, late: bool, line: nat)
    | ImportFrom(level: nat, base: ModuleName, aliases: seq<Member>, late: bool, line: nat)

  /** What a call calls, as far as its text tells: a name, an attribute of a name, or something else. */
  datatype Callee = Name(id: string) | Attribute(owner: string, attr: string) | Computed

  datatype Call = Call(callee: Callee, scope: string, line: nat, column: nat)

  type Content = string

  /** What stands at a path: not a regular file, not Python, or Python with these imports and calls. */
  datatype Source = Irregular | Unparsable(content: Content)
    | Parsed(content: Content, imports: seq<Import>, calls: seq<Call>)

  type Tree = map<File, Source>

  const PACKAGE := "hol_workbench"
  const INIT := "__init__"
  const ROOTS: seq<File> := [File([], "authoritative_runtime_worker"), File([], INIT)]

  // ---------------------------------------------------------------- names

  predicate Project(m: ModuleName) { m != [] && m[0] == PACKAGE }

  /** A module file is preferred to a package of the same name. */
  function ModuleSource(tree: Tree, m: ModuleName): (f: Option<File>)
    ensures f.Some? ==> f.value in tree
  {
    if !Project(m) then None
    else if |m| == 1 then Present(tree, File([], INIT))
    else
      var parts := m[1..];
      var moduleFile := Present(tree, File(parts[..|parts| - 1], parts[|parts| - 1]));
      if moduleFile.Some? then moduleFile else Present(tree, File(parts, INIT))
  }

  function Present(tree: Tree, f: File): Option<File> {
    if f in tree then Some(f) else None
  }

  function NameOf(f: File): ModuleName {
    [PACKAGE] + f.dir + if f.stem == INIT then [] else [f.stem]
  }

  /** Where a `from` import starts; nothing when it climbs out of the package. */
  function RelativeImportModule(f: File, level: nat, base: ModuleName): (m: Option<ModuleName>)
    ensures m.Some? <==> level <= |f.dir| + 1
    ensures level == 0 ==> m == Some(base)
    ensures m.Some? && level > 0 ==> m.value == [PACKAGE] + f.dir[..|f.dir| + 1 - level] + base
  {
    if level == 0 then Some(base)
    else
      var current := NameOf(f);
      var parts := if f.stem == INIT then current else current[..|current| - 1];
      var ascend := level - 1;
      if ascend >= |parts| then None else Some(parts[..|parts| - ascend] + base)
  }

  // ---------------------------------------------------------------- one file

  datatype Late = Late(file: File, line: nat, name: ModuleName)

  /** A place that starts a process. */
  datatype Entry = Entry(file: File, line: nat, column: nat, scope: string, operation: string)

  /** What scanning a file adds. */
  datatype Scan = Scan(deps: set<File>, external: set<string>, late: set<Late>, entries: set<Entry>)

  const NOTHING := Scan({}, {}, {}, {})

  function Plus(a: Scan, b: Scan): Scan {
    Scan(a.deps + b.deps, a.external + b.external, a.late + b.late, a.entries + b.entries)
  }

  function Both(a: Option<Scan>, b: Option<Scan>): Option<Scan> {
    if a.Some? && b.Some? then Some(Plus(a.value, b.value)) else None
  }

  /** The initializers of the packages a file lies in. */
  function Initializers(tree: Tree, f: File): set<File> {
    set k | 0 < k <= |f.dir| && File(f.dir[..k], INIT) in tree :: File(f.dir[..k], INIT)
  }

  function ScanModule(tree: Tree, stdlib: set<string>, f: File, m: ModuleName, late: bool, line: nat): Option<Scan> {
    if m == [] || m == ["__future__"] then Some(NOTHING)
    else if Project(m) then
      match ModuleSource(tree, m)
      case None => if m == [PACKAGE] then Some(NOTHING) else None
      case Some(g) => Some(Scan({g} + Initializers(tree, g), {}, if late then {Late(f, line, m)} else {}, {}))
    else if m[0] in stdlib then Some(Scan({}, {m[0]}, {}, {}))
    else None
  }

  function ScanModules(tree: Tree, stdlib: set<string>, f: File, ms: seq<ModuleName>, late: bool, line: nat)
    : Option<Scan>
  {
    if ms == [] then Some(NOTHING)
    else Both(ScanModule(tree, stdlib, f, ms[0], late, line), ScanModules(tree, stdlib, f, ms[1..], late, line))
  }

  /** The names a `from` import binds that are modules themselves. */
  function Submodules(tree: Tree, base: ModuleName, names: seq<string>): seq<ModuleName> {
    if names == [] then []
    else
      (if names[0] != "*" && ModuleSource(tree, base + [names[0]]).Some? then [base + [names[0]]] else [])
        + Submodules(tree, base, names[1..])
  }

  function ImportedModules(tree: Tree, f: File, i: Import): Option<seq<ModuleName>> {
    match i
    case Import(names, _, _) => Some(NamesOf(names))
    case ImportFrom(level, base, aliases, _, _) =>
      match RelativeImportModule(f, level, base)
      case None => None
      case Some(m) => Some([m] + if Project(m) then Submodules(tree, m, MembersOf(aliases)) else [])
  }

  function NamesOf(names: seq<Alias>): (ms: seq<ModuleName>)
    ensures |ms| == |names| && forall i | 0 <= i < |names| :: ms[i] == names[i].name
  {
    seq(|names|, i requires 0 <= i < |names| => names[i].name)
  }

  function MembersOf(aliases: seq<Member>): (names: seq<string>)
    ensures |names| == |aliases| && forall i | 0 <= i < |aliases| :: names[i] == aliases[i].name
  {
    seq(|aliases|, i requires 0 <= i < |aliases| => aliases[i].name)
  }

  function ScanImport(tree: Tree, stdlib: set<string>, f: File, i: Import): Option<Scan> {
    match ImportedModules(tree, f, i)
    case None => None
    case Some(ms) => ScanModules(tree, stdlib, f, ms, i.late, i.line)
  }

  function ScanImports(tree: Tree, stdlib: set<string>, f: File, imports: seq<Import>): Option<Scan> {
    if imports == [] then Some(NOTHING)
    else Both(ScanImport(tree, stdlib, f, imports[0]), ScanImports(tree, stdlib, f, imports[1..]))
  }

  // ---------------------------------------------------------------- calls

  const TRACKED: set<string> := {"importlib", "os", "subprocess"}
  const BUILTIN_ESCAPES: set<string> := {"__import__", "compile", "eval", "exec"}
  const LAUNCHES: set<string> := {"Popen", "call", "check_call", "check_output", "getoutput", "getstatusoutput", "run"}
  const NON_LAUNCHES: set<string> := {"CalledProcessError", "CompletedProcess", "SubprocessError", "TimeoutExpired"}

  /** What a name of the file stands for: a tracked module, or a member of one. */
  datatype Names = Names(modules: map<string, string>, members: map<string, (string, string)>)

  function Bind(bound: Option<string>, name: string): string {
    if bound.Some? && bound.value != "" then bound.value else name
  }

  function AliasBinds(names: seq<Alias>, into: Names): Names {
    if names == [] then into
    else
      var a := names[0];
      var next := if |a.name| == 1 && a.name[0] in TRACKED
                  then into.(modules := into.modules[Bind(a.bound, a.name[0]) := a.name[0]]) else into;
      AliasBinds(names[1..], next)
  }

  function MemberBinds(base: string, aliases: seq<Member>, into: Names): Names {
    if aliases == [] then into
    else
      var a := aliases[0];
      MemberBinds(base, aliases[1..], into.(members := into.members[Bind(a.bound, a.name) := (base, a.name)]))
  }

  /** The last import that binds a name decides. */
  function Binds(imports: seq<Import>, into: Names): Names {
    if imports == [] then into
    else
      var next := match imports[0]
                  case Import(names, _, _) => AliasBinds(names, into)
                  case ImportFrom(level, base, aliases, _, _) =>
                    if level == 0 && |base| == 1 && base[0] in TRACKED then MemberBinds(base[0], aliases, into) else into;
      Binds(imports[1..], next)
  }

  datatype Target = Builtin(id: string) | Of(owner: string, operation: string)

  function CallTarget(names: Names, callee: Callee): Option<Target> {
    match callee
    case Name(id) =>
      if id in BUILTIN_ESCAPES then Some(Builtin(id))
      else if id in names.members then Some(Of(names.members[id].0, names.members[id].1))
      else None
    case Attribute(owner, attr) => if owner in names.modules then Some(Of(names.modules[owner], attr)) else None
    case Computed => None
  }

  datatype Escape = Dynamic | Process | Unclassified | Harmless

  predicate StartsWith(s: string, prefix: string) { prefix <= s }

  predicate OsLaunch(operation: string) {
    || operation in {"fork", "popen", "system"}
    || StartsWith(operation, "exec") || StartsWith(operation, "spawn") || StartsWith(operation, "posix_spawn")
  }

  function EscapeOf(t: Target): Escape {
    match t
    case Builtin(_) => Dynamic
    case Of(owner, operation) =>
      if owner == "importlib" then Dynamic
      else if owner == "subprocess" then
        if operation in LAUNCHES then Process else if operation in NON_LAUNCHES then Harmless else Unclassified
      else if owner == "os" && OsLaunch(operation) then Process
      else Harmless
  }

  function OperationText(t: Target): string {
    match t
    case Builtin(id) => id
    case Of(owner, operation) => owner + "." + operation
  }

  /** The one dynamic import the closure may have. */
  predicate Declared(f: File, scope: string, operation: string) {
    f == File([], "authoritative_runtime_worker") && scope == "self_check" && operation == "importlib.import_module"
  }

  function ScanCall(f: File, names: Names, call: Call): Option<Scan> {
    match CallTarget(names, call.callee)
    case None => Some(NOTHING)
    case Some(t) =>
      match EscapeOf(t)
      case Dynamic => if Declared(f, call.scope, OperationText(t)) then Some(NOTHING) else None
      case Unclassified => None
      case Harmless => Some(NOTHING)
      case Process => Some(NOTHING.(entries := {Entry(f, call.line, call.column, call.scope, OperationText(t))}))
  }

  function ScanCalls(f: File, names: Names, calls: seq<Call>): Option<Scan> {
    if calls == [] then Some(NOTHING) else Both(ScanCall(f, names, calls[0]), ScanCalls(f, names, calls[1..]))
  }

  function ScanSource(tree: Tree, stdlib: set<string>, f: File, imports: seq<Import>, calls: seq<Call>): Option<Scan> {
    Both(ScanImports(tree, stdlib, f, imports), ScanCalls(f, Binds(imports, NO_NAMES), calls))
  }

  const NO_NAMES := Names(map[], map[])

  /** Nothing when the file is missing, irregular, not Python, imports what the closure cannot hold, or
      calls what it cannot account for. */
  function ScanFile(tree: Tree, stdlib: set<string>, f: File): Option<Scan> {
    if f in tree && tree[f].Parsed? then ScanSource(tree, stdlib, f, tree[f].imports, tree[f].calls) else None
  }

  // ---------------------------------------------------------------- closed sets

  /** Good files, the roots among them, that import only one another. */
  ghost predicate Closed(tree: Tree, stdlib: set<string>, s: set<File>) {
    && (forall r | r in ROOTS :: r in s)
    && forall f | f in s :: ScanFile(tree, stdlib, f).Some? && ScanFile(tree, stdlib, f).value.deps <= s
  }

  ghost predicate Least(tree: Tree, stdlib: set<string>, s: set<File>) {
    Closed(tree, stdlib, s) && forall t | Closed(tree, stdlib, t) :: s <= t
  }

  function ScanOf(tree: Tree, stdlib: set<string>, f: File): Scan {
    var scan := ScanFile(tree, stdlib, f);
    if scan.Some? then scan.value else NOTHING
  }

  /** The standard library modules, late project imports and process starts a set of files accounts for. */
  ghost predicate Accounts(tree: Tree, stdlib: set<string>, s: set<File>, external: set<string>, late: set<Late>,
                           entries: set<Entry>) {
    && (forall x :: x in external <==> exists f :: f in s && x in ScanOf(tree, stdlib, f).external)
    && (forall l :: l in late <==> exists f :: f in s && l in ScanOf(tree, stdlib, f).late)
    && (forall e :: e in entries <==> exists f :: f in s && e in ScanOf(tree, stdlib, f).entries)
  }

  datatype Closure = Closure(files: set<File>, external: set<string>, late: set<Late>, entries: set<Entry>)

  ghost predicate IsClosure(tree: Tree, stdlib: set<string>, c: Closure) {
    Least(tree, stdlib, c.files) && Accounts(tree, stdlib, c.files, c.external, c.late, c.entries)
  }

  // ---------------------------------------------------------------- the worklist

  function Elements<T(==)>(s: seq<T>): set<T> { set x | x in s }

  lemma ElementsPlus<T>(s: seq<T>, x: T)
    ensures Elements(s + [x]) == Elements(s) + {x}
  {
  }

  function InitializersBeyond(tree: Tree, f: File, k: nat): set<File> {
    set j | k < j <= |f.dir| && File(f.dir[..j], INIT) in tree :: File(f.dir[..j], INIT)
  }

  lemma OneMoreInitializer(tree: Tree, f: File, k: nat)
    requires 0 < k <= |f.dir|
    ensures var init := File(f.dir[..k], INIT);
      InitializersBeyond(tree, f, k - 1) == InitializersBeyond(tree, f, k) + if init in tree then {init} else {}
  {
  }

  /** Push the initializers from the file's directory up to the root. */
  method PushInitializers(tree: Tree, f: File, pending: seq<File>) returns (pending': seq<File>)
    ensures Elements(pending') == Elements(pending) + Initializers(tree, f)
  {
    pending' := pending;
    var k := |f.dir|;
    assert InitializersBeyond(tree, f, k) == {};
    while k > 0
      invariant 0 <= k <= |f.dir|
      invariant Elements(pending') == Elements(pending) + InitializersBeyond(tree, f, k)
    {
      hide Elements, InitializersBeyond;
      var init := File(f.dir[..k], INIT);
      OneMoreInitializer(tree, f, k);
      if init in tree {
        ElementsPlus(pending', init);
        pending' := pending' + [init];
      }
      k := k - 1;
    }
  }

  method CollectModules(tree: Tree, f: File, i: Import) returns (modules: Option<seq<ModuleName>>)
    ensures modules == ImportedModules(tree, f, i)
  {
    match i
    case Import(names, _, _) => modules := Some(NamesOf(names));
    case ImportFrom(level, base, aliases, _, _) =>
      var imported := RelativeImportModule(f, level, base);
      if imported.None? {
        return None;
      }
      var found := [imported.value];
      if Project(imported.value) {
        var names, n := MembersOf(aliases), 0;
        assert names[0..] == names;
        while n < |names|
          invariant 0 <= n <= |names|
          invariant found + Submodules(tree, imported.value, names[n..])
            == [imported.value] + Submodules(tree, imported.value, names)
        {
          var candidate := imported.value + [names[n]];
          assert names[n..][1..] == names[n + 1..];
          ghost var later := Submodules(tree, imported.value, names[n + 1..]);
          if names[n] != "*" && ModuleSource(tree, candidate).Some? {
            assert found + ([candidate] + later) == found + [candidate] + later;
            found := found + [candidate];
          } else {
            assert [] + later == later;
          }
          n := n + 1;
        }
        assert names[n..] == [] && found + [] == found;
      } else {
        assert found + [] == found;
      }
      modules := Some(found);
  }

  lemma PlusLaws(a: Scan, b: Scan, c: Scan)
    ensures Plus(Plus(a, b), c) == Plus(a, Plus(b, c)) && Plus(NOTHING, a) == a == Plus(a, NOTHING)
  {
  }

  lemma BothLaws(a: Option<Scan>, b: Option<Scan>, c: Option<Scan>)
    ensures Both(Both(a, b), c) == Both(a, Both(b, c)) && Both(Some(NOTHING), a) == a
  {
    if a.Some? && b.Some? && c.Some? { PlusLaws(a.value, b.value, c.value); }
    if a.Some? { PlusLaws(a.value, NOTHING, NOTHING); }
  }

  /** What one round of the scan has pushed and recorded, over what was there before. */
  datatype Work = Work(pending: seq<File>, external: set<string>, late: set<Late>, entries: set<Entry>)

  predicate Added(before: Work, after: Work, scan: Scan) {
    && Elements(after.pending) == Elements(before.pending) + scan.deps
    && after.external == before.external + scan.external
    && after.late == before.late + scan.late
    && after.entries == before.entries + scan.entries
  }

  lemma AddedTwice(w0: Work, w1: Work, w2: Work, a: Scan, b: Scan)
    requires Added(w0, w1, a) && Added(w1, w2, b)
    ensures Added(w0, w2, Plus(a, b))
  {
  }

  method TakeModule(tree: Tree, stdlib: set<string>, f: File, m: ModuleName, late: bool, line: nat, work: Work)
    returns (after: Option<Work>)
    ensures after.Some? <==> ScanModule(tree, stdlib, f, m, late, line).Some?
    ensures after.Some? ==> Added(work, after.value, ScanModule(tree, stdlib, f, m, late, line).value)
  {
    if m == [] || m == ["__future__"] {
      return Some(work);
    }
    if Project(m) {
      var dependency := ModuleSource(tree, m);
      if dependency.None? {
        return if m == [PACKAGE] then Some(work) else None;
      }
      var pending := work.pending + [dependency.value];
      pending := PushInitializers(tree, dependency.value, pending);
      after := Some(Work(pending, work.external, work.late + if late then {Late(f, line, m)} else {}, work.entries));
    } else {
      after := if m[0] in stdlib then Some(work.(external := work.external + {m[0]})) else None;
    }
  }

  method TakeImport(tree: Tree, stdlib: set<string>, f: File, i: Import, work: Work) returns (after: Option<Work>)
    ensures after.Some? <==> ScanImport(tree, stdlib, f, i).Some?
    ensures after.Some? ==> Added(work, after.value, ScanImport(tree, stdlib, f, i).value)
  {
    hide ScanModule, ImportedModules;
    var modules := CollectModules(tree, f, i);
    if modules.None? {
      return None;
    }
    var ms, current, n := modules.value, work, 0;
    ghost var scan := NOTHING;
    BothLaws(ScanModules(tree, stdlib, f, ms, i.late, i.line), None, None);
    assert ms[0..] == ms;
    while n < |ms|
      invariant 0 <= n <= |ms| && Added(work, current, scan)
      invariant Both(Some(scan), ScanModules(tree, stdlib, f, ms[n..], i.late, i.line))
        == ScanModules(tree, stdlib, f, ms, i.late, i.line)
    {
      ghost var one := ScanModule(tree, stdlib, f, ms[n], i.late, i.line);
      assert ms[n..][1..] == ms[n + 1..];
      BothLaws(Some(scan), one, ScanModules(tree, stdlib, f, ms[n + 1..], i.late, i.line));
      var next := TakeModule(tree, stdlib, f, ms[n], i.late, i.line, current);
      if next.None? {
        return None;
      }
      AddedTwice(work, current, next.value, scan, one.value);
      current, scan := next.value, Plus(scan, one.value);
      n := n + 1;
    }
    PlusLaws(scan, scan, scan);
    after := Some(current);
  }

  method TakeImports(tree: Tree, stdlib: set<string>, f: File, imports: seq<Import>, work: Work)
    returns (after: Option<Work>)
    ensures after.Some? <==> ScanImports(tree, stdlib, f, imports).Some?
    ensures after.Some? ==> Added(work, after.value, ScanImports(tree, stdlib, f, imports).value)
  {
    hide ScanImport;
    var current, n := work, 0;
    ghost var scan := NOTHING;
    BothLaws(ScanImports(tree, stdlib, f, imports), None, None);
    assert imports[0..] == imports;
    while n < |imports|
      invariant 0 <= n <= |imports| && Added(work, current, scan)
      invariant Both(Some(scan), ScanImports(tree, stdlib, f, imports[n..])) == ScanImports(tree, stdlib, f, imports)
    {
      ghost var one := ScanImport(tree, stdlib, f, imports[n]);
      assert imports[n..][1..] == imports[n + 1..];
      BothLaws(Some(scan), one, ScanImports(tree, stdlib, f, imports[n + 1..]));
      var next := TakeImport(tree, stdlib, f, imports[n], current);
      if next.None? {
        return None;
      }
      AddedTwice(work, current, next.value, scan, one.value);
      current, scan := next.value, Plus(scan, one.value);
      n := n + 1;
    }
    PlusLaws(scan, scan, scan);
    after := Some(current);
  }

  /** The two dictionaries of names, in one pass over the imports. */
  method CollectNames(imports: seq<Import>) returns (names: Names)
    ensures names == Binds(imports, NO_NAMES)
  {
    names := NO_NAMES;
    assert imports[0..] == imports;
    for i := 0 to |imports|
      invariant Binds(imports[i..], names) == Binds(imports, NO_NAMES)
    {
      assert imports[i..][1..] == imports[i + 1..];
      match imports[i] {
        case Import(aliases, _, _) =>
          assert aliases[0..] == aliases;
          ghost var before := names;
          for k := 0 to |aliases|
            invariant AliasBinds(aliases[k..], names) == AliasBinds(aliases, before)
          {
            assert aliases[k..][1..] == aliases[k + 1..];
            var a := aliases[k];
            if |a.name| == 1 && a.name[0] in TRACKED {
              names := names.(modules := names.modules[Bind(a.bound, a.name[0]) := a.name[0]]);
            }
          }
        case ImportFrom(level, base, aliases, _, _) =>
          if level == 0 && |base| == 1 && base[0] in TRACKED {
            assert aliases[0..] == aliases;
            ghost var before := names;
            for k := 0 to |aliases|
              invariant MemberBinds(base[0], aliases[k..], names) == MemberBinds(base[0], aliases, before)
            {
              assert aliases[k..][1..] == aliases[k + 1..];
              var a := aliases[k];
              names := names.(members := names.members[Bind(a.bound, a.name) := (base[0], a.name)]);
            }
          }
      }
    }
    assert imports[|imports|..] == [];
  }

  /** Look at every call; an undeclared dynamic one or an unknown use of `subprocess` fails the closure. */
  method TakeCalls(f: File, names: Names, calls: seq<Call>, work: Work) returns (after: Option<Work>)
    ensures after.Some? <==> ScanCalls(f, names, calls).Some?
    ensures after.Some? ==> Added(work, after.value, ScanCalls(f, names, calls).value)
  {
    hide ScanCall;
    var current, n := work, 0;
    ghost var scan := NOTHING;
    BothLaws(ScanCalls(f, names, calls), None, None);
    assert calls[0..] == calls;
    while n < |calls|
      invariant 0 <= n <= |calls| && Added(work, current, scan)
      invariant Both(Some(scan), ScanCalls(f, names, calls[n..])) == ScanCalls(f, names, calls)
    {
      ghost var one := ScanCall(f, names, calls[n]);
      assert calls[n..][1..] == calls[n + 1..];
      BothLaws(Some(scan), one, ScanCalls(f, names, calls[n + 1..]));
      var next := TakeCall(f, names, calls[n], current);
      if next.None? {
        return None;
      }
      AddedTwice(work, current, next.value, scan, one.value);
      current, scan := next.value, Plus(scan, one.value);
      n := n + 1;
    }
    PlusLaws(scan, scan, scan);
    after := Some(current);
  }

  method TakeCall(f: File, names: Names, call: Call, work: Work) returns (after: Option<Work>)
    ensures after.Some? <==> ScanCall(f, names, call).Some?
    ensures after.Some? ==> Added(work, after.value, ScanCall(f, names, call).value)
  {
    hide CallTarget, EscapeOf, OperationText;
    var target := CallTarget(names, call.callee);
    if target.None? {
      return Some(work);
    }
    var escape, operation := EscapeOf(target.value), OperationText(target.value);
    if escape == Dynamic {
      return if Declared(f, call.scope, operation) then Some(work) else None;
    }
    if escape == Unclassified {
      return None;
    }
    after := Some(if escape == Harmless then work
                  else work.(entries := work.entries + {Entry(f, call.line, call.column, call.scope, operation)}));
  }

  /** Everything a file asks for. */
  method TakeSource(tree: Tree, stdlib: set<string>, f: File, imports: seq<Import>, calls: seq<Call>, work: Work)
    returns (after: Option<Work>)
    ensures after.Some? <==> ScanSource(tree, stdlib, f, imports, calls).Some?
    ensures after.Some? ==> Added(work, after.value, ScanSource(tree, stdlib, f, imports, calls).value)
  {
    hide ScanImports, ScanCalls, Binds, Added;
    var names := CollectNames(imports);
    after := TakeImports(tree, stdlib, f, imports, work);
    if after.None? {
      return;
    }
    ghost var between := after.value;
    after := TakeCalls(f, names, calls, after.value);
    if after.Some? {
      AddedTwice(work, between, after.value, ScanImports(tree, stdlib, f, imports).value, ScanCalls(f, names, calls).value);
    }
  }

  /** Everything discovered is good, and what it needs is discovered or pending. */
  ghost predicate Covered(tree: Tree, stdlib: set<string>, done: set<File>, work: Work) {
    && done <= tree.Keys
    && (forall r | r in ROOTS :: r in done || r in work.pending)
    && (forall f | f in done :: ScanFile(tree, stdlib, f).Some?)
    && (forall f | f in done :: ScanOf(tree, stdlib, f).deps <= done + Elements(work.pending))
    && Accounts(tree, stdlib, done, work.external, work.late, work.entries)
  }

  /** No set could do with less. */
  ghost predicate Needed(tree: Tree, stdlib: set<string>, s: set<File>) {
    forall t | Closed(tree, stdlib, t) :: s <= t
  }

  lemma TakeFile(tree: Tree, stdlib: set<string>, done: set<File>, before: Work, popped: Work, after: Work, f: File)
    requires Covered(tree, stdlib, done, before) && Needed(tree, stdlib, done + Elements(before.pending))
    requires before.pending == popped.pending + [f] && popped == before.(pending := popped.pending)
    requires f in tree && f !in done && ScanFile(tree, stdlib, f).Some?
    requires Added(popped, after, ScanOf(tree, stdlib, f))
    ensures Covered(tree, stdlib, done + {f}, after)
    ensures Needed(tree, stdlib, done + {f} + Elements(after.pending))
  {
    hide ScanFile;
    ElementsPlus(popped.pending, f);
    assert done + Elements(before.pending) + ScanOf(tree, stdlib, f).deps == done + {f} + Elements(after.pending);
    forall t | Closed(tree, stdlib, t) ensures done + {f} + Elements(after.pending) <= t {
      assert f in Elements(before.pending) && f in t;
      assert ScanFile(tree, stdlib, f).value.deps <= t;
    }
    forall r | r in ROOTS ensures r in done + {f} || r in after.pending {
      assert r in before.pending ==> r in Elements(before.pending);
      assert r in after.pending <==> r in Elements(after.pending);
    }
    AccountsPlus(tree, stdlib, done, before, f);
  }

  lemma AccountsPlus(tree: Tree, stdlib: set<string>, done: set<File>, work: Work, f: File)
    requires Accounts(tree, stdlib, done, work.external, work.late, work.entries)
    ensures var scan := ScanOf(tree, stdlib, f);
      Accounts(tree, stdlib, done + {f}, work.external + scan.external, work.late + scan.late, work.entries + scan.entries)
  {
    hide ScanOf;
  }

  lemma SkipFile(tree: Tree, stdlib: set<string>, done: set<File>, before: Work, popped: Work, f: File)
    requires Covered(tree, stdlib, done, before) && Needed(tree, stdlib, done + Elements(before.pending))
    requires before.pending == popped.pending + [f] && popped == before.(pending := popped.pending) && f in done
    ensures Covered(tree, stdlib, done, popped)
    ensures Needed(tree, stdlib, done + Elements(popped.pending))
  {
    hide ScanOf, ScanFile, Accounts, Closed;
    ElementsPlus(popped.pending, f);
    assert done + Elements(popped.pending) == done + Elements(before.pending);
  }

  lemma ScanParsed(tree: Tree, stdlib: set<string>, f: File)
    requires f in tree && tree[f].Parsed?
    ensures ScanFile(tree, stdlib, f) == ScanSource(tree, stdlib, f, tree[f].imports, tree[f].calls)
    ensures ScanFile(tree, stdlib, f).Some? ==> ScanOf(tree, stdlib, f) == ScanFile(tree, stdlib, f).value
  {
  }

  /** A needed file that cannot be scanned rules out every closed set. */
  lemma RefutedBy(tree: Tree, stdlib: set<string>, done: set<File>, before: Work, popped: Work, f: File)
    requires Needed(tree, stdlib, done + Elements(before.pending)) && before.pending == popped.pending + [f]
    requires f in tree && tree[f].Parsed? ==> ScanSource(tree, stdlib, f, tree[f].imports, tree[f].calls).None?
    ensures forall t :: !Closed(tree, stdlib, t)
  {
    ElementsPlus(popped.pending, f);
    assert f in done + Elements(before.pending) && ScanFile(tree, stdlib, f).None?;
    hide ScanFile;
  }

  lemma Finished(tree: Tree, stdlib: set<string>, done: set<File>, work: Work)
    requires Covered(tree, stdlib, done, work) && Needed(tree, stdlib, done + Elements(work.pending))
    requires work.pending == []
    ensures IsClosure(tree, stdlib, Closure(done, work.external, work.late, work.entries))
  {
    hide ScanFile, Accounts;
    assert done + Elements([]) == done;
  }

  lemma FewerLeft(all: set<File>, done: set<File>, f: File)
    requires f in all && f !in done
    ensures |all - (done + {f})| < |all - done|
  {
    assert all - (done + {f}) == all - done - {f};
  }

  /** The least closed set of files, or nothing when there is no closed set at all. */
  method SourceClosure(tree: Tree, stdlib: set<string>) returns (c: Option<Closure>)
    ensures c.Some? ==> IsClosure(tree, stdlib, c.value)
    ensures c.None? ==> forall s :: !Closed(tree, stdlib, s)
  {
    hide *;
    var work, discovered := Work(ROOTS, {}, {}, {}), {};
    StartClosure(tree, stdlib);
    while work.pending != []
      invariant Covered(tree, stdlib, discovered, work)
      invariant Needed(tree, stdlib, discovered + Elements(work.pending))
      decreases |tree.Keys - discovered|, |work.pending|
    {
      var last := |work.pending| - 1;
      var f := work.pending[last];
      var popped := work.(pending := work.pending[..last]);
      assert work.pending == popped.pending + [f];
      if f in discovered {
        SkipFile(tree, stdlib, discovered, work, popped, f);
        work := popped;
      } else {
        if f !in tree || !tree[f].Parsed? {
          RefutedBy(tree, stdlib, discovered, work, popped, f);
          return None;
        }
        ScanParsed(tree, stdlib, f);
        var after := TakeSource(tree, stdlib, f, tree[f].imports, tree[f].calls, popped);
        if after.None? {
          RefutedBy(tree, stdlib, discovered, work, popped, f);
          return None;
        }
        TakeFile(tree, stdlib, discovered, work, popped, after.value, f);
        FewerLeft(tree.Keys, discovered, f);
        discovered, work := discovered + {f}, after.value;
      }
    }
    Finished(tree, stdlib, discovered, work);
    c := Some(Closure(discovered, work.external, work.late, work.entries));
  }

  lemma StartClosure(tree: Tree, stdlib: set<string>)
    ensures Covered(tree, stdlib, {}, Work(ROOTS, {}, {}, {})) && Needed(tree, stdlib, {} + Elements(ROOTS))
  {
    hide ScanFile;
  }

  // ---------------------------------------------------------------- locality

  /** `sub` is part of `tree`, with the same contents. */
  predicate Within(sub: Tree, tree: Tree) {
    sub.Keys <= tree.Keys && forall f | f in sub :: sub[f] == tree[f]
  }

  lemma SourceWithin(sub: Tree, tree: Tree, m: ModuleName)
    requires Within(sub, tree)
    requires ModuleSource(tree, m).Some? ==> ModuleSource(tree, m).value in sub
    ensures ModuleSource(sub, m) == ModuleSource(tree, m)
  {
  }

  lemma ModuleWithin(sub: Tree, tree: Tree, stdlib: set<string>, f: File, m: ModuleName, late: bool, line: nat)
    requires Within(sub, tree)
    requires var scan := ScanModule(tree, stdlib, f, m, late, line); scan.Some? && scan.value.deps <= sub.Keys
    ensures ScanModule(sub, stdlib, f, m, late, line) == ScanModule(tree, stdlib, f, m, late, line)
  {
    if Project(m) {
      var g := ModuleSource(tree, m);
      if g.Some? {
        assert g.value in ScanModule(tree, stdlib, f, m, late, line).value.deps;
        assert Initializers(sub, g.value) == Initializers(tree, g.value);
      }
      SourceWithin(sub, tree, m);
    }
  }

  lemma {:induction false} ModulesWithin(sub: Tree, tree: Tree, stdlib: set<string>, f: File, ms: seq<ModuleName>,
                                         late: bool, line: nat)
    requires Within(sub, tree)
    requires var scan := ScanModules(tree, stdlib, f, ms, late, line); scan.Some? && scan.value.deps <= sub.Keys
    ensures ScanModules(sub, stdlib, f, ms, late, line) == ScanModules(tree, stdlib, f, ms, late, line)
  {
    hide ScanModule;
    if ms != [] {
      ModuleWithin(sub, tree, stdlib, f, ms[0], late, line);
      ModulesWithin(sub, tree, stdlib, f, ms[1..], late, line);
    }
  }

  /** A module in the list that the tree has was a dependency. */
  lemma {:induction false} NamedModuleIsDependency(tree: Tree, stdlib: set<string>, f: File, ms: seq<ModuleName>,
                                                   late: bool, line: nat, m: ModuleName)
    requires m in ms && Project(m) && ModuleSource(tree, m).Some?
    requires ScanModules(tree, stdlib, f, ms, late, line).Some?
    ensures ModuleSource(tree, m).value in ScanModules(tree, stdlib, f, ms, late, line).value.deps
  {
    if m != ms[0] {
      NamedModuleIsDependency(tree, stdlib, f, ms[1..], late, line, m);
    }
  }

  lemma {:induction false} SubmodulesWithin(sub: Tree, tree: Tree, base: ModuleName, aliases: seq<string>)
    requires Within(sub, tree)
    requires forall m | m in Submodules(tree, base, aliases) && ModuleSource(tree, m).Some? ::
      ModuleSource(tree, m).value in sub
    ensures Submodules(sub, base, aliases) == Submodules(tree, base, aliases)
  {
    if aliases != [] {
      SubmodulesWithin(sub, tree, base, aliases[1..]);
      var m := base + [aliases[0]];
      if aliases[0] != "*" {
        assert ModuleSource(tree, m).Some? ==> m in Submodules(tree, base, aliases);
        SourceWithin(sub, tree, m);
      }
    }
  }

  lemma ImportWithin(sub: Tree, tree: Tree, stdlib: set<string>, f: File, i: Import)
    requires Within(sub, tree)
    requires var scan := ScanImport(tree, stdlib, f, i); scan.Some? && scan.value.deps <= sub.Keys
    ensures ScanImport(sub, stdlib, f, i) == ScanImport(tree, stdlib, f, i)
  {
    var ms := ImportedModules(tree, f, i).value;
    hide ScanModules, ModuleSource;
    if i.ImportFrom? && Project(RelativeImportModule(f, i.level, i.base).value) {
      var base := RelativeImportModule(f, i.level, i.base).value;
      forall m | m in Submodules(tree, base, MembersOf(i.aliases)) && ModuleSource(tree, m).Some?
        ensures ModuleSource(tree, m).value in sub
      {
        SubmoduleIsProject(tree, base, MembersOf(i.aliases), m);
        NamedModuleIsDependency(tree, stdlib, f, ms, i.late, i.line, m);
      }
      SubmodulesWithin(sub, tree, base, MembersOf(i.aliases));
    }
    ModulesWithin(sub, tree, stdlib, f, ms, i.late, i.line);
  }

  lemma {:induction false} SubmoduleIsProject(tree: Tree, base: ModuleName, aliases: seq<string>, m: ModuleName)
    requires Project(base) && m in Submodules(tree, base, aliases)
    ensures Project(m)
  {
    if aliases != [] && m in Submodules(tree, base, aliases[1..]) {
      SubmoduleIsProject(tree, base, aliases[1..], m);
    }
  }

  lemma {:induction false} ImportsWithin(sub: Tree, tree: Tree, stdlib: set<string>, f: File, imports: seq<Import>)
    requires Within(sub, tree)
    requires var scan := ScanImports(tree, stdlib, f, imports); scan.Some? && scan.value.deps <= sub.Keys
    ensures ScanImports(sub, stdlib, f, imports) == ScanImports(tree, stdlib, f, imports)
  {
    hide ScanImport;
    if imports != [] {
      ImportWithin(sub, tree, stdlib, f, imports[0]);
      ImportsWithin(sub, tree, stdlib, f, imports[1..]);
    }
  }

  lemma FileWithin(sub: Tree, tree: Tree, stdlib: set<string>, f: File)
    requires Within(sub, tree) && f in sub
    requires var scan := ScanFile(tree, stdlib, f); scan.Some? && scan.value.deps <= sub.Keys
    ensures ScanFile(sub, stdlib, f) == ScanFile(tree, stdlib, f)
  {
    ImportsWithin(sub, tree, stdlib, f, tree[f].imports);
  }

  /** Any part of the tree that holds the closure has the same closure. */
  lemma ClosureIsLocal(sub: Tree, tree: Tree, stdlib: set<string>, c: Closure)
    requires IsClosure(tree, stdlib, c) && Within(sub, tree) && c.files <= sub.Keys
    ensures IsClosure(sub, stdlib, c)
  {
    hide ScanFile;
    forall f | f in c.files ensures ScanFile(sub, stdlib, f) == ScanFile(tree, stdlib, f) {
      FileWithin(sub, tree, stdlib, f);
    }
    forall t | Closed(sub, stdlib, t) ensures c.files <= t {
      var both := t * c.files;
      assert Closed(tree, stdlib, both);
      assert both <= t;
    }
    assert forall f | f in c.files :: ScanOf(sub, stdlib, f) == ScanOf(tree, stdlib, f);
  }

  lemma ClosureIsUnique(tree: Tree, stdlib: set<string>, c: Closure, d: Closure)
    requires IsClosure(tree, stdlib, c) && IsClosure(tree, stdlib, d)
    ensures c == d
  {
    hide ScanFile, ScanOf;
    assert c.files == d.files;
    assert c.external == d.external by {
      forall x ensures x in c.external <==> x in d.external { }
    }
    assert c.late == d.late by {
      forall l ensures l in c.late <==> l in d.late { }
    }
    assert c.entries == d.entries by {
      forall e ensures e in c.entries <==> e in d.entries { }
    }
  }

  lemma {:induction false} ImportIsScanned(tree: Tree, stdlib: set<string>, f: File, imports: seq<Import>, i: Import)
    requires i in imports && ScanImports(tree, stdlib, f, imports).Some?
    ensures ScanImport(tree, stdlib, f, i).Some?
    ensures ScanImport(tree, stdlib, f, i).value.deps <= ScanImports(tree, stdlib, f, imports).value.deps
    ensures ScanImport(tree, stdlib, f, i).value.external <= ScanImports(tree, stdlib, f, imports).value.external
  {
    hide ScanImport;
    if i != imports[0] {
      ImportIsScanned(tree, stdlib, f, imports[1..], i);
    }
  }

  lemma {:induction false} ModuleIsScanned(tree: Tree, stdlib: set<string>, f: File, ms: seq<ModuleName>, late: bool,
                                           line: nat, m: ModuleName)
    requires m in ms && ScanModules(tree, stdlib, f, ms, late, line).Some?
    ensures ScanModule(tree, stdlib, f, m, late, line).Some?
    ensures ScanModule(tree, stdlib, f, m, late, line).value.deps
      <= ScanModules(tree, stdlib, f, ms, late, line).value.deps
    ensures ScanModule(tree, stdlib, f, m, late, line).value.external
      <= ScanModules(tree, stdlib, f, ms, late, line).value.external
  {
    hide ScanModule;
    if m != ms[0] {
      ModuleIsScanned(tree, stdlib, f, ms[1..], late, line, m);
    }
  }

  /** What a closure means for Python: every module any of its files imports is the standard
      library's and accounted for, or is in it together with the initializers of its packages. */
  lemma ClosureHoldsImports(tree: Tree, stdlib: set<string>, c: Closure, f: File, i: Import, m: ModuleName)
    requires IsClosure(tree, stdlib, c) && f in c.files
    requires f in tree && tree[f].Parsed? && i in tree[f].imports
    requires ImportedModules(tree, f, i).Some? && m in ImportedModules(tree, f, i).value
    requires m != [] && m != ["__future__"]
    ensures !Project(m) ==> m[0] in stdlib && m[0] in c.external
    ensures Project(m) && m != [PACKAGE] ==> ModuleSource(tree, m).Some?
    ensures Project(m) && ModuleSource(tree, m).Some? ==>
      ModuleSource(tree, m).value in c.files && Initializers(tree, ModuleSource(tree, m).value) <= c.files
  {
    ImportIsScanned(tree, stdlib, f, tree[f].imports, i);
    ModuleIsScanned(tree, stdlib, f, ImportedModules(tree, f, i).value, i.late, i.line, m);
    hide ScanImports, ScanModules, ImportedModules, ModuleSource, Initializers;
    assert ScanOf(tree, stdlib, f) == ScanFile(tree, stdlib, f).value;
    assert ScanOf(tree, stdlib, f).deps <= c.files;
  }

  lemma {:induction false} CallIsScanned(f: File, names: Names, calls: seq<Call>, call: Call)
    requires call in calls && ScanCalls(f, names, calls).Some?
    ensures ScanCall(f, names, call).Some?
    ensures ScanCall(f, names, call).value.entries <= ScanCalls(f, names, calls).value.entries
  {
    hide ScanCall;
    if call != calls[0] {
      CallIsScanned(f, names, calls[1..], call);
    }
  }

  /** And what it means for processes: every call in the closure that reaches a tracked module or a
      builtin escape is the declared dynamic import, is harmless, or starts a process and is listed. */
  lemma ClosureListsProcesses(tree: Tree, stdlib: set<string>, c: Closure, f: File, call: Call, t: Target)
    requires IsClosure(tree, stdlib, c) && f in c.files
    requires f in tree && tree[f].Parsed? && call in tree[f].calls
    requires CallTarget(Binds(tree[f].imports, NO_NAMES), call.callee) == Some(t)
    ensures EscapeOf(t) != Unclassified
    ensures EscapeOf(t) == Dynamic ==> Declared(f, call.scope, OperationText(t))
    ensures EscapeOf(t) == Process ==> Entry(f, call.line, call.column, call.scope, OperationText(t)) in c.entries
  {
    hide ScanImports, ScanCalls, Binds, CallTarget, EscapeOf, OperationText;
    CallIsScanned(f, Binds(tree[f].imports, NO_NAMES), tree[f].calls, call);
    assert ScanOf(tree, stdlib, f) == ScanFile(tree, stdlib, f).value;
  }
}
