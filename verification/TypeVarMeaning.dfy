/** Which stretches of a statement are type variables, and what matching means, by positions of the text. */
module TypeVarMeaning {
  import opened Options
  import opened PythonText
  import opened TypeVars

  // ---------------------------------------------------------------- positions

  /** A variable begins at `i`: a capital right after a colon, a hash sign or an arrow. */
  predicate Begins(s: string, i: nat) {
    && i < |s| && 'A' <= s[i] <= 'Z'
    && ((i >= 1 && s[i - 1] == ':') || (i >= 1 && s[i - 1] == '#') || (i >= 2 && s[i - 2] == '-' && s[i - 1] == '>'))
  }

  predicate NameChar(c: char) {
    'A' <= c <= 'Z' || 'a' <= c <= 'z' || '0' <= c <= '9' || c == '_' || c == '\''
  }

  /** It ends with the run of letters, digits, underscores and primes it begins. */
  function EndOf(s: string, i: nat): (j: nat)
    requires i <= |s|
    ensures i <= j <= |s| && (forall k :: i <= k < j ==> NameChar(s[k])) && (j < |s| ==> !NameChar(s[j]))
    decreases |s| - i
  {
    if i < |s| && NameChar(s[i]) then EndOf(s, i + 1) else i
  }

  predicate VariableName(x: string) {
    x != [] && 'A' <= x[0] <= 'Z' && forall k :: 0 <= k < |x| ==> NameChar(x[k])
  }

  function NamesIn(s: string): set<string> {
    set i | 0 <= i < |s| && Begins(s, i) :: s[i..EndOf(s, i)]
  }

  /** The text from `i` on, with its variables renamed. */
  function Renamed(s: string, i: nat, f: map<string, string>): string
    requires i <= |s| && NamesIn(s) <= f.Keys
    decreases |s| - i
  {
    if i == |s| then []
    else if Begins(s, i) then f[s[i..EndOf(s, i)]] + Renamed(s, EndOf(s, i), f)
    else [s[i]] + Renamed(s, i + 1, f)
  }

  /** `t` is `s` with its variables renamed, different ones differently. */
  ghost predicate RenamedBy(f: map<string, string>, s: string, t: string) {
    && f.Keys == NamesIn(s) && Injective(f) && (forall x | x in f :: VariableName(f[x]))
    && t == Renamed(s, 0, f)
  }

  // ---------------------------------------------------------------- the pieces by position

  lemma LookbehindIs(s: string, i: nat)
    requires i < |s|
    ensures Lookbehind(s[..i]) && Upper(s[i]) <==> Begins(s, i)
  {
    if i > 0 {
      assert s[..i] == s[..i - 1] + [s[i - 1]];
      LookbehindAfter(s[..i - 1], s[i - 1]);
      if i > 1 {
        assert s[..i - 1] == s[..i - 2] + [s[i - 2]];
        LookbehindAfter(s[..i - 2], s[i - 2]);
      }
    }
  }

  lemma {:induction false} EndIs(s: string, i: nat)
    requires i <= |s|
    ensures EndOf(s, i) == i + WordLength(s[i..])
    decreases |s| - i
  {
    if i < |s| && NameChar(s[i]) {
      assert s[i..][1..] == s[i + 1..];
      EndIs(s, i + 1);
    }
  }

  /** The pieces of a text are its variables and its other characters, each where it stands. */
  lemma PieceAt(s: string, i: nat)
    requires i < |s|
    ensures Pieces(s[..i], s[i..]) ==
      if Begins(s, i) then [Variable(s[i..EndOf(s, i)])] + Pieces(s[..EndOf(s, i)], s[EndOf(s, i)..])
      else [Letter(s[i])] + Pieces(s[..i + 1], s[i + 1..])
  {
    LookbehindIs(s, i);
    EndIs(s, i);
    hide *;
    PiecesUnfold(s[..i], s[i..]);
    Slices(s, i, EndOf(s, i) - i);
    Slices(s, i, 1);
  }

  lemma Slices(s: string, i: nat, n: nat)
    requires i < |s| && i + n <= |s|
    ensures s[i..][0] == s[i] && s[i..][..n] == s[i..i + n] && s[i..][n..] == s[i + n..]
    ensures s[..i] + s[i..i + n] == s[..i + n] && s[i..i + 1] == [s[i]]
  {
  }

  lemma PiecesUnfold(b: string, s: string)
    requires s != []
    ensures Pieces(b, s) ==
      if Lookbehind(b) && Upper(s[0]) then [Variable(s[..WordLength(s)])] + Pieces(b + s[..WordLength(s)], s[WordLength(s)..])
      else [Letter(s[0])] + Pieces(b + [s[0]], s[1..])
  {
  }

  lemma PiecesEnd(s: string)
    ensures Pieces(s[..|s|], s[|s|..]) == []
  {
  }

  function Substitute(f: map<string, string>, ps: seq<Piece>): (qs: seq<Piece>)
    requires Variables(ps) <= f.Keys
    ensures |qs| == |ps|
  {
    seq(|ps|, i requires 0 <= i < |ps| =>
      match ps[i] case Letter(_) => ps[i] case Variable(x) => assert x in Variables(ps); Variable(f[x]))
  }

  lemma VariablesCons(p: Piece, ps: seq<Piece>)
    ensures Variables([p] + ps) == (if p.Variable? then {p.name} else {}) + Variables(ps)
  {
    assert ([p] + ps)[0] == p;
    forall x ensures x in Variables([p] + ps) <==> (p.Variable? && x == p.name) || x in Variables(ps) {
      if x in Variables(ps) {
        var i :| 0 <= i < |ps| && ps[i].Variable? && ps[i].name == x;
        assert ([p] + ps)[i + 1] == ps[i];
      }
    }
  }

  lemma SubstituteCons(f: map<string, string>, p: Piece, ps: seq<Piece>)
    requires Variables([p] + ps) <= f.Keys
    ensures Variables(ps) <= f.Keys && (p.Variable? ==> p.name in f)
    ensures Substitute(f, [p] + ps)
      == [match p case Letter(_) => p case Variable(x) => Variable(f[x])] + Substitute(f, ps)
  {
    VariablesCons(p, ps);
  }

  lemma {:induction false} RenamingIsSubstitution(s: string, i: nat, f: map<string, string>)
    requires i <= |s| && NamesIn(s) <= f.Keys
    ensures Variables(Pieces(s[..i], s[i..])) <= f.Keys
    ensures Renamed(s, i, f) == Render(Substitute(f, Pieces(s[..i], s[i..])))
    decreases |s| - i
  {
    hide Pieces, Substitute, Begins, EndOf, Variables;
    if i == |s| {
      PiecesEnd(s);
      NoPieces(f);
    } else {
      PieceAt(s, i);
      var e := if Begins(s, i) then EndOf(s, i) else i + 1;
      var p := if Begins(s, i) then Variable(s[i..e]) else Letter(s[i]);
      var ps := Pieces(s[..e], s[e..]);
      RenamingIsSubstitution(s, e, f);
      VariablesCons(p, ps);
      SubstituteCons(f, p, ps);
    }
  }

  lemma NoPieces(f: map<string, string>)
    ensures Variables([]) == {} && Substitute(f, []) == []
  {
  }

  lemma {:induction false} NamesFrom(s: string, i: nat)
    requires i <= |s|
    ensures forall x :: x in Variables(Pieces(s[..i], s[i..])) <==>
      exists k :: i <= k < |s| && Begins(s, k) && x == s[k..EndOf(s, k)]
    decreases |s| - i
  {
    hide Pieces, Variables;
    if i == |s| {
      PiecesEnd(s);
      NoPieces(map[]);
    } else {
      PieceAt(s, i);
      var e := if Begins(s, i) then EndOf(s, i) else i + 1;
      var p := if Begins(s, i) then Variable(s[i..e]) else Letter(s[i]);
      NamesFrom(s, e);
      VariablesCons(p, Pieces(s[..e], s[e..]));
      assert forall k | i < k < e :: !Begins(s, k);
    }
  }

  lemma NamesAre(s: string)
    ensures Variables(Pieces([], s)) == NamesIn(s)
  {
    NamesFrom(s, 0);
    assert s[..0] == [] && s[0..] == s;
    hide Pieces, Variables, Begins, EndOf;
    forall x ensures x in Variables(Pieces([], s)) <==> x in NamesIn(s) { }
  }

  // ---------------------------------------------------------------- reading a renamed text

  /** Pieces as some text has them: variables are names, and no name runs on. */
  predicate Readable(ps: seq<Piece>) {
    && (forall k :: 0 <= k < |ps| && ps[k].Variable? ==> VariableName(ps[k].name))
    && forall k :: 0 <= k < |ps| - 1 && ps[k].Variable? ==> ps[k + 1].Letter? && !NameChar(ps[k + 1].c)
  }

  lemma FrontVariable(b: string, x: string, rest: string)
    requires Lookbehind(b) && VariableName(x) && (rest != [] ==> !NameChar(rest[0]))
    ensures Pieces(b, x + rest) == [Variable(x)] + Pieces(b + x, rest)
  {
    WordLengthOf(x, rest);
    Cut(x, rest);
    assert (x + rest)[0] == x[0];
    hide Lookbehind, WordLength;
  }

  lemma FrontLetter(b: string, c: char, rest: string)
    requires !(Lookbehind(b) && Upper(c))
    ensures Pieces(b, [c] + rest) == [Letter(c)] + Pieces(b + [c], rest)
  {
    Cut([c], rest);
  }

  lemma Cut(a: string, b: string)
    ensures (a + b)[..|a|] == a && (a + b)[|a|..] == b
  {
  }

  lemma ReadableCons(p: Piece, ps: seq<Piece>)
    requires Readable(ps)
    requires p.Variable? ==> VariableName(p.name) && (ps != [] ==> ps[0].Letter? && !NameChar(ps[0].c))
    ensures Readable([p] + ps)
  {
  }

  lemma ReadableTail(p: Piece, ps: seq<Piece>)
    requires Readable([p] + ps)
    ensures Readable(ps)
    ensures p.Variable? ==> VariableName(p.name) && (ps != [] ==> ps[0].Letter? && !NameChar(ps[0].c))
  {
    assert ([p] + ps)[0] == p && (ps != [] ==> ([p] + ps)[1] == ps[0]);
    forall k | 0 <= k < |ps| ensures ps[k] == ([p] + ps)[k + 1] { }
  }

  /** How a text begins: with a variable, or with another character. */
  lemma Front(b: string, s: string) returns (p: Piece, rest: string)
    requires s != []
    ensures p.Variable? ==> Lookbehind(b) && VariableName(p.name) && (rest != [] ==> !NameChar(rest[0]))
    ensures p.Letter? ==> !(Lookbehind(b) && Upper(p.c))
    ensures s == TypeVars.Text(p) + rest && |rest| < |s| && Pieces(b, s) == [p] + Pieces(b + TypeVars.Text(p), rest)
  {
    if Lookbehind(b) && Upper(s[0]) {
      var n := WordLength(s);
      p, rest := Variable(s[..n]), s[n..];
    } else {
      p, rest := Letter(s[0]), s[1..];
    }
    assert s == TypeVars.Text(p) + rest;
  }

  lemma RenderCons(p: Piece, ps: seq<Piece>)
    ensures Render([p] + ps) == TypeVars.Text(p) + Render(ps)
  {
    assert ([p] + ps)[1..] == ps;
  }

  lemma {:induction false} PiecesAreReadable(b: string, s: string)
    ensures Readable(Pieces(b, s)) && Render(Pieces(b, s)) == s
    ensures s != [] && !NameChar(s[0]) ==> Pieces(b, s) != [] && Pieces(b, s)[0] == Letter(s[0])
    decreases |s|
  {
    if s != [] {
      hide Pieces, Readable, Render, Lookbehind;
      var p, rest := Front(b, s);
      PiecesAreReadable(b + TypeVars.Text(p), rest);
      RenderCons(p, Pieces(b + TypeVars.Text(p), rest));
      ReadableCons(p, Pieces(b + TypeVars.Text(p), rest)) by {
        if p.Variable? && rest == [] {
          assert Pieces(b + TypeVars.Text(p), []) == [] by { NoText(b + TypeVars.Text(p)); }
        }
      }
    } else {
      NoText(b);
    }
  }

  lemma NoText(b: string)
    ensures Pieces(b, []) == [] && Render([]) == [] && Readable([])
  {
  }

  lemma SkeletonCons(p: Piece, ps: seq<Piece>, qs: seq<Piece>)
    requires SameSkeleton([p] + ps, qs)
    ensures qs != [] && qs == [qs[0]] + qs[1..] && SameKind(p, qs[0]) && SameSkeleton(ps, qs[1..])
  {
    assert SameKind(([p] + ps)[0], qs[0]);
    forall k | 0 <= k < |ps| ensures SameKind(ps[k], qs[1..][k]) {
      assert SameKind(([p] + ps)[k + 1], qs[k + 1]);
    }
  }

  lemma SameContextAfter(b: string, b': string, p: Piece, q: Piece)
    requires SameContext(b, b') && SameKind(p, q)
    requires p.Variable? ==> VariableName(p.name) && VariableName(q.name)
    ensures SameContext(b + TypeVars.Text(p), b' + TypeVars.Text(q))
  {
    hide Lookbehind, EndsWith;
    match p {
      case Letter(c) => ContextAfterLetter(b, b', c);
      case Variable(x) =>
        ContextAfterWord(b, x);
        ContextAfterWord(b', q.name);
    }
  }

  lemma RenderStarts(ps: seq<Piece>)
    requires ps != [] && ps[0].Letter?
    ensures Render(ps) != [] && Render(ps)[0] == ps[0].c
  {
  }

  /** A text made of the same pieces with other names is cut into them. */
  lemma {:induction false} RenamedReadsBack(b: string, s: string, qs: seq<Piece>, b': string)
    requires SameContext(b, b') && SameSkeleton(Pieces(b, s), qs) && Readable(qs)
    ensures Pieces(b', Render(qs)) == qs
    decreases |s|
  {
    if s == [] {
      NoText(b);
      NoText(b');
    } else {
      hide Pieces, Readable, Render, Lookbehind, SameSkeleton, EndsWith;
      var p, rest := Front(b, s);
      var ps := Pieces(b + TypeVars.Text(p), rest);
      SkeletonCons(p, ps, qs);
      var q, later := qs[0], qs[1..];
      ReadableTail(q, later);
      SameContextAfter(b, b', p, q);
      RenamedReadsBack(b + TypeVars.Text(p), rest, later, b' + TypeVars.Text(q));
      RenderCons(q, later);
      if q.Variable? {
        if later != [] {
          RenderStarts(later);
        } else {
          NoText(b');
        }
        FrontVariable(b', q.name, Render(later));
      } else {
        FrontLetter(b', q.c, Render(later));
      }
    }
  }

  // ---------------------------------------------------------------- main results

  lemma SubstituteReadable(f: map<string, string>, ps: seq<Piece>)
    requires Variables(ps) <= f.Keys && Readable(ps) && forall x | x in f :: VariableName(f[x])
    ensures Readable(Substitute(f, ps)) && SameSkeleton(ps, Substitute(f, ps))
  {
  }

  lemma SubstituteRenames(f: map<string, string>, ps: seq<Piece>)
    requires Variables(ps) == f.Keys && Injective(f)
    ensures Renames(f, ps, Substitute(f, ps))
  {
    var qs := Substitute(f, ps);
    forall y ensures y in f.Values <==> y in Variables(qs) {
      if y in f.Values {
        var x :| x in f && f[x] == y;
        var i :| 0 <= i < |ps| && ps[i].Variable? && ps[i].name == x;
        assert qs[i] == Variable(y);
      }
      if y in Variables(qs) {
        var i :| 0 <= i < |qs| && qs[i].Variable? && qs[i].name == y;
        assert ps[i].Variable? && ps[i].name in Variables(ps) && f[ps[i].name] == y;
      }
    }
  }

  lemma RenamesSubstitutes(f: map<string, string>, ps: seq<Piece>, qs: seq<Piece>)
    requires Renames(f, ps, qs)
    ensures Substitute(f, ps) == qs
  {
    forall i | 0 <= i < |ps| ensures Substitute(f, ps)[i] == qs[i] {
      assert SameKind(ps[i], qs[i]);
    }
  }

  lemma NamesOfReadable(qs: seq<Piece>)
    requires Readable(qs)
    ensures forall y | y in Variables(qs) :: VariableName(y)
  {
  }

  lemma RenamedMatches(s: string, t: string, f: map<string, string>)
    requires RenamedBy(f, s, t)
    ensures Renames(f, Pieces([], s), Pieces([], t))
  {
    var ps := Pieces([], s);
    NamesAre(s);
    RenamingIsSubstitution(s, 0, f);
    assert s[..0] == [] && s[0..] == s;
    PiecesAreReadable([], s);
    SubstituteReadable(f, ps);
    RenamedReadsBack([], s, Substitute(f, ps), []);
    SubstituteRenames(f, ps);
  }

  lemma MatchingRenames(s: string, t: string, f: map<string, string>)
    requires Renames(f, Pieces([], s), Pieces([], t))
    ensures RenamedBy(f, s, t)
  {
    var ps, qs := Pieces([], s), Pieces([], t);
    NamesAre(s);
    RenamesSubstitutes(f, ps, qs);
    PiecesAreReadable([], t);
    NamesOfReadable(qs);
    forall x | x in f ensures VariableName(f[x]) {
      assert f[x] in f.Values;
    }
    RenamingIsSubstitution(s, 0, f);
    assert s[..0] == [] && s[0..] == s;
  }

  /** Statements match exactly when one is the other with its variables renamed, different variables
      differently. */
  lemma MatchMeans(a: Option<string>, b: Option<string>)
    ensures StatementsMatch(a, b) <==> exists f :: RenamedBy(f, NormalizeStatement(a), NormalizeStatement(b))
  {
    var s, t := NormalizeStatement(a), NormalizeStatement(b);
    MatchIsAlphaEquivalence(a, b);
    hide *;
    forall f ensures RenamedBy(f, s, t) <==> Renames(f, Pieces([], s), Pieces([], t)) {
      if RenamedBy(f, s, t) {
        RenamedMatches(s, t, f);
      }
      if Renames(f, Pieces([], s), Pieces([], t)) {
        MatchingRenames(s, t, f);
      }
    }
    AlphaIs(Pieces([], s), Pieces([], t));
  }

  lemma AlphaIs(ps: seq<Piece>, qs: seq<Piece>)
    ensures AlphaEquivalent(ps, qs) <==> exists f :: Renames(f, ps, qs)
  {
  }

  lemma {:induction false} NothingRenamed(s: string, i: nat, f: map<string, string>)
    requires i <= |s| && NamesIn(s) <= f.Keys && forall k: nat :: !Begins(s, k)
    ensures Renamed(s, i, f) == s[i..]
    decreases |s| - i
  {
    if i < |s| {
      NothingRenamed(s, i + 1, f);
      assert s[i..] == [s[i]] + s[i + 1..];
    }
  }

  /** A statement with no colon, hash sign or arrow matches those equal to it up to whitespace only. */
  lemma PlainStatementsMatch(a: Option<string>, b: Option<string>)
    requires var s := NormalizeStatement(a);
      ':' !in s && '#' !in s && forall i :: 0 < i < |s| && s[i] == '>' ==> s[i - 1] != '-'
    ensures StatementsMatch(a, b) <==> NormalizeStatement(a) == NormalizeStatement(b)
  {
    var s, t := NormalizeStatement(a), NormalizeStatement(b);
    MatchMeans(a, b);
    forall k: nat ensures !Begins(s, k) {
      if 0 < k < |s| {
        assert s[k - 1] in s;
      }
    }
    hide Begins;
    forall f | RenamedBy(f, s, t) ensures s == t {
      NothingRenamed(s, 0, f);
    }
  }

  // ---------------------------------------------------------------- the canonical text

  /** The variables that begin before position `i`. */
  function NamesBefore(s: string, i: nat): set<string>
    requires i <= |s|
  {
    set k | 0 <= k < i && Begins(s, k) :: s[k..EndOf(s, k)]
  }

  /** A variable's first occurrence is numbered by the variables before it. */
  ghost predicate NumbersFrom(s: string, i: nat, numbers: Numbering)
    requires i <= |s|
  {
    forall k | i <= k < |s| && Begins(s, k) ::
      var x := s[k..EndOf(s, k)];
      x in numbers && (x !in NamesBefore(s, k) ==> numbers[x] == |NamesBefore(s, k)|)
  }

  lemma NamesNext(s: string, i: nat)
    requires i < |s|
    ensures var e := if Begins(s, i) then EndOf(s, i) else i + 1;
      i < e <= |s| && NamesBefore(s, e) == NamesBefore(s, i) + if Begins(s, i) then {s[i..e]} else {}
    ensures forall k | i < k < if Begins(s, i) then EndOf(s, i) else i + 1 :: !Begins(s, k)
  {
    var e := if Begins(s, i) then EndOf(s, i) else i + 1;
    assert forall k | i < k < e :: !Begins(s, k);
    hide Begins;
  }

  lemma FinalCons(p: Piece, ps: seq<Piece>, names: Numbering)
    ensures Final([p] + ps, names) == Final(ps, if p.Variable? then Numbered(names, p.name) else names)
  {
    assert ([p] + ps)[1..] == ps;
  }

  lemma NumberStep(s: string, i: nat, names: Numbering, numbers: Numbering)
    requires i < |s| && names.Keys == NamesBefore(s, i) && Dense(names)
    requires var e := if Begins(s, i) then EndOf(s, i) else i + 1;
      var names' := if Begins(s, i) then Numbered(names, s[i..e]) else names;
      i < e <= |s| && NumbersFrom(s, e, numbers) && forall x | x in names' :: x in numbers && numbers[x] == names'[x]
    ensures NumbersFrom(s, i, numbers) && forall x | x in names :: x in numbers && numbers[x] == names[x]
  {
    NamesNext(s, i);
    hide Begins, EndOf, NamesBefore, Dense;
    assert |names| == |names.Keys|;
    var e := if Begins(s, i) then EndOf(s, i) else i + 1;
    forall k | i <= k < |s| && Begins(s, k)
      ensures var x := s[k..EndOf(s, k)];
        x in numbers && (x !in NamesBefore(s, k) ==> numbers[x] == |NamesBefore(s, k)|)
    {
      assert k == i || k >= e;
    }
  }

  lemma {:induction false} NumberedInOrder(s: string, i: nat, names: Numbering)
    requires i <= |s| && names.Keys == NamesBefore(s, i) && Dense(names)
    ensures var numbers := Final(Pieces(s[..i], s[i..]), names);
      NumbersFrom(s, i, numbers) && forall x | x in names :: x in numbers && numbers[x] == names[x]
    decreases |s| - i
  {
    hide Pieces, Begins, EndOf, NamesBefore, Dense, Final, NumbersFrom, Numbered;
    if i < |s| {
      PieceAt(s, i);
      NamesNext(s, i);
      var e := if Begins(s, i) then EndOf(s, i) else i + 1;
      var p := if Begins(s, i) then Variable(s[i..e]) else Letter(s[i]);
      var names' := if Begins(s, i) then Numbered(names, s[i..e]) else names;
      NumberedIs(names, s[i..e]);
      NumberedInOrder(s, e, names');
      FinalCons(p, Pieces(s[..e], s[e..]), names);
      NumberStep(s, i, names, Final(Pieces(s[..e], s[e..]), names'));
    } else {
      PiecesEnd(s);
      NothingToNumber(s, names);
    }
  }

  lemma NothingToNumber(s: string, names: Numbering)
    ensures NumbersFrom(s, |s|, names) && Final([], names) == names
  {
  }

  lemma NumberedIs(names: Numbering, x: string)
    requires Dense(names)
    ensures Dense(Numbered(names, x)) && Numbered(names, x).Keys == names.Keys + {x}
  {
  }

  /** The canonical text renames each variable to the tag with the number of variables that occur before
      its first occurrence. */
  lemma CanonicalMeans(a: Option<string>) returns (f: map<string, string>)
    ensures var s := NormalizeStatement(a);
      && RenamedBy(f, s, Canonical(a))
      && forall k | 0 <= k < |s| && Begins(s, k) && s[k..EndOf(s, k)] !in NamesBefore(s, k) ::
           f[s[k..EndOf(s, k)]] == "HARNESS_TY_" + Decimal(|NamesBefore(s, k)|)
  {
    var s := NormalizeStatement(a);
    var ps := Pieces([], s);
    f := Tags(s, ps);
    hide *;
    RenamingIsSubstitution(s, 0, f);
    assert s[..0] == [] && s[0..] == s;
    CanonicalIs(a);
    NamedFrom(s, f);
  }

  lemma NamedFrom(s: string, f: map<string, string>)
    requires f.Keys == NamesIn(s) && Injective(f) && forall x | x in f :: VariableName(f[x])
    ensures RenamedBy(f, s, Renamed(s, 0, f))
  {
  }

  lemma CanonicalIs(a: Option<string>)
    ensures Canonical(a) == Render(Relabel(Pieces([], NormalizeStatement(a)), map[]))
  {
  }

  /** The renaming to tags. */
  lemma Tags(s: string, ps: seq<Piece>) returns (f: map<string, string>)
    requires ps == Pieces([], s)
    ensures Variables(ps) == f.Keys == NamesIn(s) && Injective(f) && forall x | x in f :: VariableName(f[x])
    ensures Substitute(f, ps) == Relabel(ps, map[])
    ensures forall k | 0 <= k < |s| && Begins(s, k) && s[k..EndOf(s, k)] !in NamesBefore(s, k) ::
      s[k..EndOf(s, k)] in f && f[s[k..EndOf(s, k)]] == "HARNESS_TY_" + Decimal(|NamesBefore(s, k)|)
  {
    var numbers := Final(ps, map[]);
    assert s[..0] == [] && s[0..] == s;
    NamesAre(s);
    NumberedInOrder(s, 0, map[]);
    RelabelRenames(ps, map[]);
    f := map x | x in Variables(ps) && x in numbers :: Label(numbers[x]);
    hide Pieces, Begins, EndOf, NamesBefore, Final, Relabel, Label, Variables, LabelsBy;
    TagsAre(ps, numbers, f);
    LabelsAreNames(numbers, f);
    LabelIs();
  }

  lemma LabelIs()
    ensures forall k :: Label(k) == "HARNESS_TY_" + Decimal(k)
  {
  }

  lemma TagsAre(ps: seq<Piece>, numbers: Numbering, f: map<string, string>)
    requires LabelsBy(ps, Relabel(ps, map[]), numbers)
    requires f.Keys == Variables(ps) * numbers.Keys && forall x | x in f :: f[x] == Label(numbers[x])
    ensures f.Keys == Variables(ps) && Substitute(f, ps) == Relabel(ps, map[])
  {
    hide Relabel, Label;
    var qs := Relabel(ps, map[]);
    forall x | x in Variables(ps) ensures x in numbers { }
    forall i | 0 <= i < |ps| ensures Substitute(f, ps)[i] == qs[i] {
      assert SameKind(ps[i], qs[i]);
    }
  }

  lemma LabelsAreNames(numbers: Numbering, f: map<string, string>)
    requires Injective(numbers) && forall x | x in f :: x in numbers && f[x] == Label(numbers[x])
    ensures Injective(f) && forall x | x in f :: VariableName(f[x])
  {
    hide Label;
    forall x, y | x in f && y in f && f[x] == f[y] ensures x == y {
      LabelInjective(numbers[x], numbers[y]);
    }
  }
}
