/** Resolving loader records to files, and validating the stored closure later. */
module LoadedProvenance {
  import opened Options
  import opened LoaderExport

  type Path = seq<Name>
  type Content = seq<byte>

  /** What stands at a path. A regular file may be unreadable, and may really lie elsewhere. */
  datatype Node = Directory | DirectoryLink | Regular(content: Option<Content>, resolved: Path) | Other

  type Files = map<Path, Node>

  const DOTDOT: Name := ['.' as int as byte, '.' as int as byte]

  /** The digests are parameters; `strict` is the digest of the entries' canonical form. */
  datatype Hashes = Hashes(md5: Content -> string, sha256: Content -> string, strict: seq<Strict> -> string)

  datatype SemanticInput = SemanticInput(path: Path, role: string)

  datatype Stored = HoldirRelative(parts: Path) | Absolute(parts: Path) | Unknown

  datatype Strict = Strict(
    basename: Name, md5: string, occurrences: int, path: Stored, resolved: Path, roles: set<string>, sha256: string)

  datatype Entry = Entry(strict: Strict, size: nat)

  const SCHEMA := "hol-workbench.loaded-closure.v1"

  datatype Closure = Closure(schema: string, recordCount: int, uniqueCount: int, entries: seq<Entry>, strict: string)

  // ---------------------------------------------------------------- the filesystem

  predicate IsFile(fs: Files, p: Path) { p in fs && fs[p].Regular? }

  predicate IsDirectory(fs: Files, p: Path) { p in fs && (fs[p].Directory? || fs[p].DirectoryLink?) }

  function LastName(p: Path): Name { if p == [] then [] else p[|p| - 1] }

  /** A walk from `root` that does not follow directory links lists `p` among the files. */
  predicate Walked(fs: Files, root: Path, p: Path) {
    && root < p && p in fs && !IsDirectory(fs, p)
    && forall n :: |root| < n < |p| ==> p[..n] in fs && fs[p[..n]].Directory?
  }

  predicate Reached(fs: Files, source: SemanticInput, p: Path) {
    if IsDirectory(fs, source.path) then Walked(fs, source.path, p) else p == source.path
  }

  function RolesAt(fs: Files, sources: seq<SemanticInput>, p: Path): set<string> {
    set s | s in sources && Reached(fs, s, p) :: s.role
  }

  // ---------------------------------------------------------------- candidates

  type Candidates = map<Path, set<string>>

  function AddRole(c: Candidates, p: Path, role: string): Candidates {
    c[p := (if p in c then c[p] else {}) + {role}]
  }

  /** Every wanted path with the roles of the sources that reach it. */
  ghost predicate Gathered(fs: Files, wanted: set<Name>, sources: seq<SemanticInput>, c: Candidates) {
    && (forall p :: p in c ==> LastName(p) in wanted && c[p] == RolesAt(fs, sources, p) && c[p] != {})
    && forall s, p | s in sources && Reached(fs, s, p) && LastName(p) in wanted :: p in c
  }

  /** One source's contribution, after the paths in `rest` have still to be listed. */
  ghost predicate Listing(fs: Files, wanted: set<Name>, source: SemanticInput, rest: set<Path>,
                          before: Candidates, c: Candidates)
  {
    forall p ::
      var adds := LastName(p) in wanted && Reached(fs, source, p) && p !in rest;
      && (p in c <==> p in before || adds)
      && (p in c ==> c[p] == (if p in before then before[p] else {}) + if adds then {source.role} else {})
  }

  method AddSource(fs: Files, wanted: set<Name>, source: SemanticInput, before: Candidates) returns (c: Candidates)
    ensures Listing(fs, wanted, source, {}, before, c)
  {
    c := before;
    if IsDirectory(fs, source.path) {
      var rest := fs.Keys;
      while rest != {}
        invariant rest <= fs.Keys && Listing(fs, wanted, source, rest, before, c)
      {
        var p :| p in rest;
        if Walked(fs, source.path, p) && LastName(p) in wanted {
          c := AddRole(c, p, source.role);
        }
        rest := rest - {p};
      }
    } else if LastName(source.path) in wanted {
      c := AddRole(c, source.path, source.role);
    }
  }

  lemma ListingGathers(fs: Files, wanted: set<Name>, done: seq<SemanticInput>, source: SemanticInput,
                       before: Candidates, c: Candidates)
    requires Gathered(fs, wanted, done, before) && Listing(fs, wanted, source, {}, before, c)
    ensures Gathered(fs, wanted, done + [source], c)
  {
    hide Reached;
    forall p | p in c ensures LastName(p) in wanted && c[p] == RolesAt(fs, done + [source], p) && c[p] != {} {
      assert RolesAt(fs, done + [source], p)
        == RolesAt(fs, done, p) + if Reached(fs, source, p) then {source.role} else {};
      assert p !in before && LastName(p) in wanted ==> RolesAt(fs, done, p) == {};
    }
  }

  method CandidateMap(fs: Files, wanted: set<Name>, sources: seq<SemanticInput>) returns (c: Candidates)
    ensures Gathered(fs, wanted, sources, c)
  {
    c := map[];
    var k := 0;
    while k < |sources|
      invariant 0 <= k <= |sources| && Gathered(fs, wanted, sources[..k], c)
    {
      hide Gathered, Listing;
      var next := AddSource(fs, wanted, sources[k], c);
      ListingGathers(fs, wanted, sources[..k], sources[k], c, next);
      assert sources[..k + 1] == sources[..k] + [sources[k]];
      c := next;
      k := k + 1;
    }
    assert sources[..k] == sources;
  }

  // ---------------------------------------------------------------- order

  type Order = (Record, Record) -> bool

  ghost predicate TotalOrder(le: Order) {
    && (forall a, b :: le(a, b) || le(b, a))
    && (forall a, b :: le(a, b) && le(b, a) ==> a == b)
    && forall a, b, c :: le(a, b) && le(b, c) ==> le(a, c)
  }

  predicate Sorted(le: Order, s: seq<Record>) {
    forall j, k :: 0 <= j < k < |s| ==> le(s[j], s[k]) && s[j] != s[k]
  }

  function Insert(le: Order, r: Record, s: seq<Record>): seq<Record> {
    if s == [] then [r]
    else if s[0] == r then s
    else if le(r, s[0]) then [r] + s
    else [s[0]] + Insert(le, r, s[1..])
  }

  /** The distinct records in order. */
  function SortedDistinct(le: Order, records: seq<Record>): seq<Record> {
    if records == [] then [] else Insert(le, records[0], SortedDistinct(le, records[1..]))
  }

  lemma {:induction false} InsertSorts(le: Order, r: Record, s: seq<Record>)
    requires TotalOrder(le) && Sorted(le, s)
    ensures Sorted(le, Insert(le, r, s)) && forall x :: x in Insert(le, r, s) <==> x == r || x in s
  {
    if s != [] {
      var first, rest := s[0], s[1..];
      assert s == [first] + rest;
      assert forall x | x in rest :: le(first, x) && first != x;
      if first == r {
      } else if le(r, first) {
        SortedCons(le, r, s);
      } else {
        InsertSorts(le, r, rest);
        SortedCons(le, first, Insert(le, r, rest));
      }
    } else {
      assert Insert(le, r, s) == [r];
    }
  }

  lemma SortedCons(le: Order, r: Record, s: seq<Record>)
    requires Sorted(le, s) && forall x | x in s :: le(r, x) && r != x
    ensures Sorted(le, [r] + s)
  {
  }

  lemma SomeElement<T>(s: seq<T>)
    ensures s != [] ==> exists x :: x in s
  {
    if s != [] {
      assert s[0] in s;
    }
  }

  lemma {:induction false} SortedDistinctSorts(le: Order, records: seq<Record>)
    requires TotalOrder(le)
    ensures Sorted(le, SortedDistinct(le, records)) && forall x :: x in SortedDistinct(le, records) <==> x in records
  {
    if records != [] {
      SortedDistinctSorts(le, records[1..]);
      InsertSorts(le, records[0], SortedDistinct(le, records[1..]));
      assert records == [records[0]] + records[1..];
    }
  }

  /** An ordered list without repetition is determined by its elements. */
  lemma {:induction false} SortedIsUnique(le: Order, s: seq<Record>, t: seq<Record>)
    requires TotalOrder(le) && Sorted(le, s) && Sorted(le, t) && forall x :: x in s <==> x in t
    ensures s == t
  {
    SomeElement(t);
    if s != [] {
      assert s[0] in t;
      assert t[0] in s;
      assert s[0] == t[0];
      assert forall x :: x in s <==> x == s[0] || x in s[1..];
      assert forall x :: x in t <==> x == t[0] || x in t[1..];
      assert s[0] !in s[1..] && t[0] !in t[1..];
      SortedIsUnique(le, s[1..], t[1..]);
      assert s == [s[0]] + s[1..] && t == [t[0]] + t[1..];
    }
  }

  // ---------------------------------------------------------------- stored paths

  function StoredPath(p: Path, holdir: Path): Stored {
    if holdir <= p then HoldirRelative(p[|holdir|..]) else Absolute(p)
  }

  /** Where an entry says its file is; nothing for a path that is no identity or climbs out of HOLDIR. */
  function EntryPath(stored: Stored, holdir: Path): Option<Path> {
    match stored
    case HoldirRelative(parts) => if parts == [] || DOTDOT in parts then None else Some(holdir + parts)
    case Absolute(parts) => Some(parts)
    case Unknown => None
  }

  predicate Plain(p: Path) { DOTDOT !in p }

  lemma StoredPathReturns(p: Path, holdir: Path)
    requires Plain(p) && p != holdir
    ensures EntryPath(StoredPath(p, holdir), holdir) == Some(p)
  {
    if holdir <= p {
      assert p == holdir + p[|holdir|..];
      assert forall c | c in p[|holdir|..] :: c in p;
    }
  }

  // ---------------------------------------------------------------- resolving

  /** What a resolution reads. */
  datatype Setting = Setting(fs: Files, holdir: Path, inputs: seq<SemanticInput>, hashes: Hashes)

  function Sources(s: Setting): seq<SemanticInput> {
    [SemanticInput(s.holdir, "holdir")] + s.inputs
  }

  predicate Candidate(s: Setting, name: Name, p: Path) {
    LastName(p) == name && IsFile(s.fs, p) && exists i :: i in Sources(s) && Reached(s.fs, i, p)
  }

  predicate Matches(s: Setting, r: Record, p: Path) {
    && Candidate(s, r.basename, p)
    && s.fs[p].content.Some? && s.hashes.md5(s.fs[p].content.value) == r.md5
  }

  function EntryFor(s: Setting, occurrences: nat, r: Record, p: Path): Entry
    requires Matches(s, r, p)
  {
    var node := s.fs[p];
    Entry(Strict(r.basename, r.md5, occurrences, StoredPath(p, s.holdir), node.resolved, RolesAt(s.fs, Sources(s), p),
                 s.hashes.sha256(node.content.value)), |node.content.value|)
  }

  /** Every candidate of the record's name can be read, and `p` is the one that has its digest. */
  ghost predicate Resolves(s: Setting, r: Record, p: Path) {
    && (forall q | Candidate(s, r.basename, q) :: s.fs[q].content.Some?)
    && forall q :: Matches(s, r, q) <==> q == p
  }

  function StrictEntries(entries: seq<Entry>): (r: seq<Strict>)
    ensures |r| == |entries|
  {
    seq(|entries|, k requires 0 <= k < |entries| => entries[k].strict)
  }

  ghost predicate EntriesResolve(s: Setting, counts: multiset<Record>, order: seq<Record>, paths: seq<Path>,
                                 entries: seq<Entry>)
  {
    && |paths| == |entries| == |order|
    && forall k :: 0 <= k < |order| ==>
        Resolves(s, order[k], paths[k]) && entries[k] == EntryFor(s, counts[order[k]], order[k], paths[k])
  }

  /** `paths` are the files found, entry by entry. */
  ghost predicate ResolvedAt(s: Setting, le: Order, records: seq<Record>, c: Closure, paths: seq<Path>) {
    && records != [] && IsDirectory(s.fs, s.holdir)
    && EntriesResolve(s, multiset(records), SortedDistinct(le, records), paths, c.entries)
    && c == Closure(SCHEMA, |records|, |c.entries|, c.entries, s.hashes.strict(StrictEntries(c.entries)))
  }

  ghost predicate IsResolved(s: Setting, le: Order, records: seq<Record>, c: Closure) {
    exists paths :: ResolvedAt(s, le, records, c, paths)
  }

  /** The candidates not in `rest` have been looked at. */
  predicate Looking(s: Setting, r: Record, candidates: Candidates, rest: set<Path>, matching: seq<Path>) {
    && rest <= candidates.Keys
    && (forall q :: q in matching ==> q in candidates && q !in rest && Matches(s, r, q))
    && (forall q :: q in candidates && q !in rest && Matches(s, r, q) ==> q in matching)
    && (forall j, k :: 0 <= j < k < |matching| ==> matching[j] != matching[k])
    && forall q :: q in candidates && q !in rest && Candidate(s, r.basename, q) ==> s.fs[q].content.Some?
  }

  lemma LookAt(s: Setting, r: Record, candidates: Candidates, rest: set<Path>, matching: seq<Path>, p: Path)
    requires Looking(s, r, candidates, rest, matching) && p in rest
    requires Candidate(s, r.basename, p) ==> s.fs[p].content.Some?
    ensures Looking(s, r, candidates, rest - {p}, if Matches(s, r, p) then matching + [p] else matching)
  {
    hide Matches, Candidate;
    assert p !in matching;
  }

  /** The one path that matches a record, if there is exactly one and all candidates can be read. */
  method MatchRecord(s: Setting, r: Record, candidates: Candidates, ghost wanted: set<Name>)
    returns (path: Option<Path>)
    requires Gathered(s.fs, wanted, Sources(s), candidates) && r.basename in wanted
    ensures path.Some? ==> Resolves(s, r, path.value)
    ensures path.None? ==> forall p :: !Resolves(s, r, p)
  {
    CandidatesAreKeys(s, r.basename, candidates, wanted);
    hide Gathered, Candidate;
    var matching, rest := [], candidates.Keys;
    while rest != {}
      invariant Looking(s, r, candidates, rest, matching)
    {
      hide Looking;
      var p :| p in rest;
      assert p in candidates by { assert rest <= candidates.Keys by { LookingRest(s, r, candidates, rest, matching); } }
      var found := false;
      if LastName(p) == r.basename && IsFile(s.fs, p) {
        var content := s.fs[p].content;
        if content.None? {
          return None;
        }
        found := s.hashes.md5(content.value) == r.md5;
      }
      LookAt(s, r, candidates, rest, matching, p);
      if found {
        matching := matching + [p];
      }
      rest := rest - {p};
    }
    MatchesAreKeys(s, r, candidates);
    if |matching| != 1 {
      NotOneMatch(s, r, matching);
      return None;
    }
    hide Matches;
    path := Some(matching[0]);
  }

  lemma LookingRest(s: Setting, r: Record, candidates: Candidates, rest: set<Path>, matching: seq<Path>)
    requires Looking(s, r, candidates, rest, matching)
    ensures rest <= candidates.Keys
  {
  }

  lemma MatchesAreKeys(s: Setting, r: Record, candidates: Candidates)
    requires forall p :: Candidate(s, r.basename, p) ==> p in candidates
    ensures forall p :: Matches(s, r, p) ==> p in candidates
  {
    hide Candidate;
  }

  lemma CandidatesAreKeys(s: Setting, name: Name, candidates: Candidates, wanted: set<Name>)
    requires Gathered(s.fs, wanted, Sources(s), candidates) && name in wanted
    ensures forall p :: Candidate(s, name, p) <==> p in candidates && LastName(p) == name && IsFile(s.fs, p)
  {
    hide Reached;
    forall p | p in candidates ensures exists i :: i in Sources(s) && Reached(s.fs, i, p) {
      var role :| role in RolesAt(s.fs, Sources(s), p);
    }
  }

  lemma NotOneMatch(s: Setting, r: Record, matching: seq<Path>)
    requires |matching| != 1 && forall q :: q in matching <==> Matches(s, r, q)
    requires forall j, k :: 0 <= j < k < |matching| ==> matching[j] != matching[k]
    ensures forall p :: !Resolves(s, r, p)
  {
    hide Matches, Candidate;
    assert |matching| > 1 ==> matching[0] in matching && matching[1] in matching && matching[0] != matching[1];
    forall p ensures !Resolves(s, r, p) {
      if Resolves(s, r, p) {
        ResolvesMatches(s, r, p);
      }
    }
  }

  /** The closure, or nothing: no records, no HOL directory, or a record with no match, several
      matches or an unreadable candidate. */
  method ResolveLoadedClosure(s: Setting, le: Order, records: seq<Record>) returns (c: Option<Closure>)
    requires TotalOrder(le)
    ensures c.Some? ==> IsResolved(s, le, records, c.value)
    ensures c.None? ==> forall d :: !IsResolved(s, le, records, d)
  {
    hide TotalOrder, Resolves, Matches, Gathered;
    if records == [] || !IsDirectory(s.fs, s.holdir) {
      return None;
    }
    var wanted := set r | r in records :: r.basename;
    var candidates := CandidateMap(s.fs, wanted, Sources(s));
    var order, counts := SortedDistinct(le, records), multiset(records);
    SortedDistinctSorts(le, records);
    var entries, k := [], 0;
    ghost var paths := [];
    while k < |order|
      invariant 0 <= k <= |order| && EntriesResolve(s, counts, order[..k], paths, entries)
    {
      assert order[k] in order;
      var path := MatchRecord(s, order[k], candidates, wanted);
      if path.None? {
        NotResolved(s, le, records, k);
        return None;
      }
      assert Matches(s, order[k], path.value) by { ResolvesMatches(s, order[k], path.value); }
      entries := entries + [EntryFor(s, counts[order[k]], order[k], path.value)];
      paths := paths + [path.value];
      k := k + 1;
    }
    assert order[..k] == order;
    c := Some(Closure(SCHEMA, |records|, |entries|, entries, s.hashes.strict(StrictEntries(entries))));
    assert ResolvedAt(s, le, records, c.value, paths);
  }

  lemma ResolvesMatches(s: Setting, r: Record, p: Path)
    requires Resolves(s, r, p)
    ensures Matches(s, r, p)
  {
  }

  lemma EachResolves(s: Setting, counts: multiset<Record>, order: seq<Record>, paths: seq<Path>,
                     entries: seq<Entry>, k: nat)
    requires EntriesResolve(s, counts, order, paths, entries) && k < |order|
    ensures Resolves(s, order[k], paths[k]) && entries[k] == EntryFor(s, counts[order[k]], order[k], paths[k])
  {
    hide Resolves;
  }

  lemma NotResolved(s: Setting, le: Order, records: seq<Record>, k: nat)
    requires k < |SortedDistinct(le, records)| && forall p :: !Resolves(s, SortedDistinct(le, records)[k], p)
    ensures forall d :: !IsResolved(s, le, records, d)
  {
    hide Resolves, SortedDistinct;
    forall d ensures !IsResolved(s, le, records, d) {
      if IsResolved(s, le, records, d) {
        var paths :| ResolvedAt(s, le, records, d, paths);
        EachResolves(s, multiset(records), SortedDistinct(le, records), paths, d.entries, k);
      }
    }
  }

  // ---------------------------------------------------------------- validating

  datatype Failure = BadSchema | NoEntries | Duplicate(k: nat) | BadOccurrences(k: nat) | BadPath(k: nat)
                   | WrongName(k: nat) | Missing(k: nat) | Unhashable(k: nat) | WrongMd5(k: nat) | WrongSha256(k: nat)
                   | WrongResolvedPath(k: nat) | WrongRecordCount | WrongUniqueCount | WrongStrictDigest

  /** The entry's file is where it says, with the recorded digests and real location. */
  predicate EntryHolds(fs: Files, holdir: Path, h: Hashes, e: Strict) {
    var path := EntryPath(e.path, holdir);
    && path.Some? && LastName(path.value) == e.basename && IsFile(fs, path.value)
    && var node := fs[path.value];
       node.content.Some? && h.md5(node.content.value) == e.md5 && h.sha256(node.content.value) == e.sha256
       && node.resolved == e.resolved
  }

  function Total(entries: seq<Entry>): int {
    if entries == [] then 0 else entries[0].strict.occurrences + Total(entries[1..])
  }

  predicate DistinctKeys(entries: seq<Entry>) {
    forall j, k :: 0 <= j < k < |entries| ==> Key(entries[j]) != Key(entries[k])
  }

  function Key(e: Entry): Record { Record(e.strict.basename, e.strict.md5) }

  predicate Valid(fs: Files, holdir: Path, h: Hashes, c: Closure) {
    && c.schema == SCHEMA && c.entries != [] && DistinctKeys(c.entries)
    && (forall k :: 0 <= k < |c.entries| ==> c.entries[k].strict.occurrences >= 1)
    && (forall k :: 0 <= k < |c.entries| ==> EntryHolds(fs, holdir, h, c.entries[k].strict))
    && c.recordCount == Total(c.entries) && c.uniqueCount == |c.entries|
    && c.strict == h.strict(StrictEntries(c.entries))
  }

  /** One entry's failures; nothing is checked beyond a path that is no identity. */
  method CheckEntry(fs: Files, holdir: Path, h: Hashes, e: Strict, k: nat) returns (failures: seq<Failure>)
    ensures failures == [] <==> EntryHolds(fs, holdir, h, e)
    ensures EntryPath(e.path, holdir).None? ==> failures == [BadPath(k)]
  {
    var path := EntryPath(e.path, holdir);
    if path.None? {
      return [BadPath(k)];
    }
    failures := if LastName(path.value) != e.basename then [WrongName(k)] else [];
    if !IsFile(fs, path.value) {
      failures := failures + [Missing(k)];
    } else {
      var node := fs[path.value];
      if node.content.None? {
        failures := failures + [Unhashable(k), WrongSha256(k)];
      } else {
        if h.md5(node.content.value) != e.md5 {
          failures := failures + [WrongMd5(k)];
        }
        if h.sha256(node.content.value) != e.sha256 {
          failures := failures + [WrongSha256(k)];
        }
      }
      if node.resolved != e.resolved {
        failures := failures + [WrongResolvedPath(k)];
      }
    }
  }

  /** The first `n` entries raised no failure. */
  predicate CleanSoFar(fs: Files, holdir: Path, h: Hashes, entries: seq<Entry>, n: nat) {
    && n <= |entries| && DistinctKeys(entries[..n])
    && (forall k :: 0 <= k < n ==> entries[k].strict.occurrences >= 1)
    && forall k :: 0 <= k < n ==> EntryHolds(fs, holdir, h, entries[k].strict)
  }

  lemma TotalOfMore(entries: seq<Entry>, n: nat)
    requires n < |entries|
    ensures Total(entries[..n + 1]) == Total(entries[..n]) + entries[n].strict.occurrences
  {
    assert entries[..n + 1] == entries[..n] + [entries[n]];
    TotalSum(entries[..n], [entries[n]]);
  }

  lemma {:induction false} TotalSum(a: seq<Entry>, b: seq<Entry>)
    ensures Total(a + b) == Total(a) + Total(b)
  {
    if a == [] {
      assert a + b == b;
    } else {
      assert (a + b)[1..] == a[1..] + b;
      TotalSum(a[1..], b);
    }
  }

  lemma CleanStep(fs: Files, holdir: Path, h: Hashes, entries: seq<Entry>, n: nat)
    requires n < |entries|
    ensures CleanSoFar(fs, holdir, h, entries, n + 1) <==>
      (&& CleanSoFar(fs, holdir, h, entries, n)
       && (forall k :: 0 <= k < n ==> Key(entries[k]) != Key(entries[n]))
       && entries[n].strict.occurrences >= 1 && EntryHolds(fs, holdir, h, entries[n].strict))
  {
    hide EntryHolds, Key;
    var less, more := entries[..n], entries[..n + 1];
    assert forall k :: 0 <= k < n ==> less[k] == more[k] == entries[k];
    assert more[n] == entries[n];
  }

  /** Only the stored closure and the files it names are looked at. */
  method ValidateLoadedClosure(fs: Files, holdir: Path, h: Hashes, c: Closure) returns (failures: seq<Failure>)
    ensures failures == [] <==> Valid(fs, holdir, h, c)
  {
    hide EntryHolds, Key;
    if c.schema != SCHEMA {
      return [BadSchema];
    }
    if c.entries == [] {
      return [NoEntries];
    }
    failures := [];
    var keys: set<Record>, total, strict, k := {}, 0, [], 0;
    while k < |c.entries|
      invariant 0 <= k <= |c.entries|
      invariant forall x :: x in keys <==> exists j :: 0 <= j < k && x == Key(c.entries[j])
      invariant failures == [] <==> CleanSoFar(fs, holdir, h, c.entries, k)
      invariant failures == [] ==> total == Total(c.entries[..k]) && strict == StrictEntries(c.entries[..k])
    {
      hide CleanSoFar, Total;
      var e, before := c.entries[k], failures;
      CleanStep(fs, holdir, h, c.entries, k);
      TotalOfMore(c.entries, k);
      if Key(e) in keys {
        failures := failures + [Duplicate(k)];
      }
      keys := keys + {Key(e)};
      if e.strict.occurrences < 1 {
        failures := failures + [BadOccurrences(k)];
      } else {
        total := total + e.strict.occurrences;
      }
      var found := CheckEntry(fs, holdir, h, e.strict, k);
      failures := failures + found;
      if EntryPath(e.strict.path, holdir).Some? {
        strict := strict + [e.strict];
      }
      assert StrictEntries(c.entries[..k + 1]) == StrictEntries(c.entries[..k]) + [e.strict];
      k := k + 1;
    }
    assert c.entries[..k] == c.entries;
    if c.recordCount != total {
      failures := failures + [WrongRecordCount];
    }
    if c.uniqueCount != |c.entries| {
      failures := failures + [WrongUniqueCount];
    }
    if c.strict != h.strict(strict) {
      failures := failures + [WrongStrictDigest];
    }
  }

  // ---------------------------------------------------------------- main results

  lemma EntryForHolds(s: Setting, n: nat, r: Record, p: Path)
    requires Matches(s, r, p) && Plain(p) && IsDirectory(s.fs, s.holdir)
    ensures EntryHolds(s.fs, s.holdir, s.hashes, EntryFor(s, n, r, p).strict)
  {
    StoredPathReturns(p, s.holdir);
  }

  lemma ResolvedEntry(s: Setting, le: Order, records: seq<Record>, c: Closure, paths: seq<Path>, k: nat)
    requires TotalOrder(le) && ResolvedAt(s, le, records, c, paths) && k < |c.entries|
    ensures var order := SortedDistinct(le, records);
      && |paths| == |order| == |c.entries| && Matches(s, order[k], paths[k]) && order[k] in records
      && Key(c.entries[k]) == order[k] && c.entries[k].strict.occurrences == multiset(records)[order[k]]
      && c.entries[k] == EntryFor(s, multiset(records)[order[k]], order[k], paths[k])
  {
    var order := SortedDistinct(le, records);
    EachResolves(s, multiset(records), order, paths, c.entries, k);
    ResolvesMatches(s, order[k], paths[k]);
    SortedDistinctSorts(le, records);
    assert order[k] in order;
  }

  /** The number of records a list of distinct ones accounts for. */
  function Occurrences(counts: multiset<Record>, order: seq<Record>): nat {
    if order == [] then 0 else counts[order[0]] + Occurrences(counts, order[1..])
  }

  lemma {:induction false} OccurrencesCount(counts: multiset<Record>, order: seq<Record>)
    requires forall j, k :: 0 <= j < k < |order| ==> order[j] != order[k]
    requires forall x :: x in counts ==> x in order
    ensures Occurrences(counts, order) == |counts|
  {
    if order == [] {
      assert counts == multiset{};
    } else {
      var rest := counts[order[0] := 0];
      assert order == [order[0]] + order[1..];
      OccurrencesCount(rest, order[1..]);
      OccurrencesFrame(counts, rest, order[1..]);
      assert counts == rest + multiset{}[order[0] := counts[order[0]]];
    }
  }

  lemma {:induction false} OccurrencesFrame(m: multiset<Record>, n: multiset<Record>, order: seq<Record>)
    requires forall x | x in order :: m[x] == n[x]
    ensures Occurrences(m, order) == Occurrences(n, order)
  {
    if order != [] {
      assert order[0] in order;
      OccurrencesFrame(m, n, order[1..]);
    }
  }

  lemma {:induction false} TotalIsOccurrences(entries: seq<Entry>, counts: multiset<Record>, order: seq<Record>)
    requires |entries| == |order| && forall k :: 0 <= k < |order| ==> entries[k].strict.occurrences == counts[order[k]]
    ensures Total(entries) == Occurrences(counts, order)
  {
    if order != [] {
      TotalIsOccurrences(entries[1..], counts, order[1..]);
    }
  }

  /** While the files stay as they are, a resolved closure raises no failure. */
  lemma ResolvedIsValid(s: Setting, le: Order, records: seq<Record>, c: Closure)
    requires TotalOrder(le) && IsResolved(s, le, records, c) && forall p | p in s.fs :: Plain(p)
    ensures Valid(s.fs, s.holdir, s.hashes, c)
  {
    hide EntryHolds, Matches, EntryFor;
    var paths :| ResolvedAt(s, le, records, c, paths);
    var order, counts := SortedDistinct(le, records), multiset(records);
    SortedDistinctSorts(le, records);
    forall k | 0 <= k < |c.entries|
      ensures EntryHolds(s.fs, s.holdir, s.hashes, c.entries[k].strict)
      ensures Key(c.entries[k]) == order[k] && c.entries[k].strict.occurrences == counts[order[k]] >= 1
    {
      ResolvedEntry(s, le, records, c, paths, k);
      MatchesInFiles(s, order[k], paths[k]);
      EntryForHolds(s, counts[order[k]], order[k], paths[k]);
    }
    TotalIsOccurrences(c.entries, counts, order);
    OccurrencesCount(counts, order);
    SomeElement(records);
  }

  lemma MatchesInFiles(s: Setting, r: Record, p: Path)
    requires Matches(s, r, p)
    ensures p in s.fs && s.fs[p].Regular? && s.fs[p].content.Some? && s.hashes.md5(s.fs[p].content.value) == r.md5
    ensures LastName(p) == r.basename
  {
  }

  /** Every record is accounted for, and no two entries share a file. */
  lemma ResolvedAccounts(s: Setting, le: Order, records: seq<Record>, c: Closure) returns (paths: seq<Path>)
    requires TotalOrder(le) && IsResolved(s, le, records, c)
    ensures ResolvedAt(s, le, records, c, paths) && |paths| == |c.entries|
    ensures Total(c.entries) == |records|
    ensures forall r | r in records :: exists k :: 0 <= k < |c.entries| && Key(c.entries[k]) == r
    ensures forall j, k :: 0 <= j < k < |paths| ==> paths[j] != paths[k] && Key(c.entries[j]) != Key(c.entries[k])
  {
    hide EntryHolds, Matches, EntryFor;
    paths :| ResolvedAt(s, le, records, c, paths);
    var order, counts := SortedDistinct(le, records), multiset(records);
    SortedDistinctSorts(le, records);
    forall k | 0 <= k < |c.entries|
      ensures Key(c.entries[k]) == order[k] && c.entries[k].strict.occurrences == counts[order[k]]
      ensures paths[k] in s.fs && s.fs[paths[k]].Regular? && s.fs[paths[k]].content.Some?
        && order[k] == Record(LastName(paths[k]), s.hashes.md5(s.fs[paths[k]].content.value))
    {
      ResolvedEntry(s, le, records, c, paths, k);
      MatchesInFiles(s, order[k], paths[k]);
    }
    TotalIsOccurrences(c.entries, counts, order);
    OccurrencesCount(counts, order);
    forall r | r in records ensures exists k :: 0 <= k < |c.entries| && Key(c.entries[k]) == r {
      var k :| 0 <= k < |order| && order[k] == r;
      assert Key(c.entries[k]) == r;
    }
  }

  /** The order in which the loader lists its files does not matter. */
  lemma ResolutionIgnoresOrder(s: Setting, le: Order, records: seq<Record>, others: seq<Record>, c: Closure)
    requires TotalOrder(le) && multiset(records) == multiset(others)
    ensures IsResolved(s, le, records, c) <==> IsResolved(s, le, others, c)
  {
    SortedDistinctSorts(le, records);
    SortedDistinctSorts(le, others);
    assert forall x :: x in records <==> x in multiset(records);
    assert forall x :: x in others <==> x in multiset(others);
    SortedIsUnique(le, SortedDistinct(le, records), SortedDistinct(le, others));
    assert |records| == |multiset(records)| == |others|;
    hide EntriesResolve, TotalOrder, SortedDistinct;
    if IsResolved(s, le, records, c) {
      var paths :| ResolvedAt(s, le, records, c, paths);
      assert ResolvedAt(s, le, others, c, paths);
    }
    if IsResolved(s, le, others, c) {
      var paths :| ResolvedAt(s, le, others, c, paths);
      assert ResolvedAt(s, le, records, c, paths);
    }
  }

  /** Files the closure does not name may change, appear or vanish. */
  lemma ValidityIsLocal(fs: Files, now: Files, holdir: Path, h: Hashes, c: Closure)
    requires forall k :: 0 <= k < |c.entries| ==>
      var p := EntryPath(c.entries[k].strict.path, holdir);
      p.Some? ==> (p.value in fs <==> p.value in now) && (p.value in fs ==> fs[p.value] == now[p.value])
    ensures Valid(fs, holdir, h, c) <==> Valid(now, holdir, h, c)
  {
    forall k | 0 <= k < |c.entries|
      ensures EntryHolds(fs, holdir, h, c.entries[k].strict) <==> EntryHolds(now, holdir, h, c.entries[k].strict)
    {
      var p := EntryPath(c.entries[k].strict.path, holdir);
    }
    hide EntryHolds;
  }

  /** A closure that still validates names the files it was made from, unchanged, as far as the
      digest tells contents apart. */
  lemma ValidPinsContents(s: Setting, le: Order, records: seq<Record>, c: Closure, paths: seq<Path>, now: Files, k: nat)
    requires TotalOrder(le) && ResolvedAt(s, le, records, c, paths) && forall p | p in s.fs :: Plain(p)
    requires Valid(now, s.holdir, s.hashes, c) && k < |c.entries|
    requires forall x, y :: s.hashes.sha256(x) == s.hashes.sha256(y) ==> x == y
    ensures |paths| == |c.entries| && paths[k] in s.fs && paths[k] in now && now[paths[k]] == s.fs[paths[k]]
  {
    ResolvedEntry(s, le, records, c, paths, k);
    var order := SortedDistinct(le, records);
    StoredPathReturns(paths[k], s.holdir) by { MatchesInFiles(s, order[k], paths[k]); }
    assert EntryHolds(now, s.holdir, s.hashes, c.entries[k].strict);
  }

  // ---------------------------------------------------------------- in plain terms

  /** `os.walk`: the files directly in a directory, and those below each real directory in it. */
  lemma WalkIsRecursive(fs: Files, root: Path, name: Name, below: Path)
    ensures Walked(fs, root, root + [name] + below) <==>
      var at := root + [name];
      at in fs && if below == [] then !fs[at].Directory? && !fs[at].DirectoryLink?
                  else fs[at].Directory? && Walked(fs, at, at + below)
    ensures !Walked(fs, root, root)
  {
    var at := root + [name];
    var p := at + below;
    assert p[..|root|] == root && p[..|at|] == at && |at| == |root| + 1;
    if below == [] {
      assert p == at;
    } else {
      forall n | |root| < n < |p| ensures p[..n] == at || |at| < n { }
    }
  }

  lemma WalksBelow(fs: Files, root: Path, p: Path)
    requires Walked(fs, root, p)
    ensures |p| > |root| && p == root + [p[|root|]] + p[|root| + 1..]
  {
  }

  /** A path that a source leads to: the source itself when it is no directory, and else what a walk
      lists there. */
  predicate LeadsTo(fs: Files, source: Path, p: Path) {
    if source in fs && (fs[source].Directory? || fs[source].DirectoryLink?) then Walked(fs, source, p) else p == source
  }

  /** A regular file of this name that the HOL directory or a semantic input leads to. */
  ghost predicate Offered(s: Setting, name: Name, p: Path) {
    && p in s.fs && s.fs[p].Regular?
    && (if p == [] then name == [] else name == p[|p| - 1])
    && (LeadsTo(s.fs, s.holdir, p) || exists i :: i in s.inputs && LeadsTo(s.fs, i.path, p))
  }

  lemma SourcesAre(s: Setting, i: SemanticInput)
    ensures i in Sources(s) <==> i == SemanticInput(s.holdir, "holdir") || i in s.inputs
  {
  }

  lemma CandidateMeans(s: Setting, name: Name, p: Path)
    ensures Candidate(s, name, p) <==> Offered(s, name, p)
  {
    hide Walked;
    var home := SemanticInput(s.holdir, "holdir");
    SourcesAre(s, home);
    forall i ensures i in Sources(s) <==> i == home || i in s.inputs {
      SourcesAre(s, i);
    }
    forall i ensures Reached(s.fs, i, p) <==> LeadsTo(s.fs, i.path, p) { }
    hide Sources, Reached, LeadsTo;
  }

  /** A record is resolved by the one readable file of its name that has its digest, provided that
      every file of its name can be read. */
  lemma ResolvesMeans(s: Setting, r: Record, p: Path)
    ensures Resolves(s, r, p) <==>
      && (forall q | Offered(s, r.basename, q) :: s.fs[q].content.Some?)
      && Offered(s, r.basename, p) && s.hashes.md5(s.fs[p].content.value) == r.md5
      && forall q | Offered(s, r.basename, q) && q != p :: s.hashes.md5(s.fs[q].content.value) != r.md5
  {
    forall q ensures Candidate(s, r.basename, q) <==> Offered(s, r.basename, q) {
      CandidateMeans(s, r.basename, q);
    }
    hide Candidate, Offered;
    assert forall q :: Matches(s, r, q) <==>
      Candidate(s, r.basename, q) && s.fs[q].content.Some? && s.hashes.md5(s.fs[q].content.value) == r.md5;
  }

  lemma RolesMean(s: Setting, p: Path, role: string)
    ensures role in RolesAt(s.fs, Sources(s), p) <==>
      || (role == "holdir" && LeadsTo(s.fs, s.holdir, p))
      || exists i :: i in s.inputs && i.role == role && LeadsTo(s.fs, i.path, p)
  {
    hide Walked;
    var home := SemanticInput(s.holdir, "holdir");
    SourcesAre(s, home);
    forall i ensures i in Sources(s) <==> i == home || i in s.inputs {
      SourcesAre(s, i);
    }
    forall i ensures Reached(s.fs, i, p) <==> LeadsTo(s.fs, i.path, p) { }
    hide Sources, Reached, LeadsTo;
  }

  /** What a resolved closure says in each entry. */
  lemma ResolvedEntryMeans(s: Setting, le: Order, records: seq<Record>, c: Closure, k: nat) returns (p: Path, content: Content)
    requires TotalOrder(le) && IsResolved(s, le, records, c) && k < |c.entries|
    ensures c.schema == "hol-workbench.loaded-closure.v1" && c.recordCount == |records| && c.uniqueCount == |c.entries|
    ensures var e := c.entries[k].strict; var r := Record(e.basename, e.md5);
      && r in records && e.occurrences == multiset(records)[r] && Resolves(s, r, p)
      && p in s.fs && s.fs[p] == Regular(Some(content), e.resolved)
      && e.sha256 == s.hashes.sha256(content) && c.entries[k].size == |content|
      && (forall role :: role in e.roles <==> role in RolesAt(s.fs, Sources(s), p))
      && (s.holdir <= p ==> e.path.HoldirRelative? && s.holdir + e.path.parts == p)
      && (!(s.holdir <= p) ==> e.path == Absolute(p))
    ensures forall j | 0 <= j < k :: le(Key(c.entries[j]), Key(c.entries[k])) && Key(c.entries[j]) != Key(c.entries[k])
  {
    var paths :| ResolvedAt(s, le, records, c, paths);
    var order := SortedDistinct(le, records);
    ResolvedEntry(s, le, records, c, paths, k);
    EachResolves(s, multiset(records), order, paths, c.entries, k);
    MatchesInFiles(s, order[k], paths[k]);
    SortedDistinctSorts(le, records);
    p, content := paths[k], s.fs[paths[k]].content.value;
    forall j | 0 <= j < k ensures Key(c.entries[j]) == order[j] {
      ResolvedEntry(s, le, records, c, paths, j);
    }
    hide SortedDistinct, Resolves, Matches, RolesAt, EntriesResolve, TotalOrder;
  }

  /** Where a stored path leads: below the HOL directory by a path that neither is empty nor climbs, or
      to an absolute path. */
  lemma EntryPathMeans(stored: Stored, holdir: Path, p: Path)
    ensures EntryPath(stored, holdir) == Some(p) <==>
      || (stored.HoldirRelative? && p == holdir + stored.parts && |stored.parts| > 0
          && forall i | 0 <= i < |stored.parts| :: stored.parts[i] != [46, 46])
      || stored == Absolute(p)
  {
    assert DOTDOT == [46, 46];
  }
}
