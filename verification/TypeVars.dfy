/** Matching theorem statements up to whitespace and the names of their visible type variables. */
module TypeVars {
  import opened Options
  import opened PythonText

  // ---------------------------------------------------------------- tokens

  predicate Upper(c: char) { 'A' <= c <= 'Z' }

  predicate WordChar(c: char) {
    Upper(c) || 'a' <= c <= 'z' || '0' <= c <= '9' || c == '_' || c == '\''
  }

  function WordLength(s: string): (n: nat)
    ensures n <= |s| && (n < |s| ==> !WordChar(s[n]))
    ensures forall i :: 0 <= i < n ==> WordChar(s[i])
  {
    if s == [] || !WordChar(s[0]) then 0 else 1 + WordLength(s[1..])
  }

  predicate EndsWith(s: string, suffix: string) {
    |suffix| <= |s| && s[|s| - |suffix|..] == suffix
  }

  /** The three lookbehinds of the token pattern. */
  predicate Lookbehind(before: string) {
    EndsWith(before, ":") || EndsWith(before, "->") || EndsWith(before, "#")
  }

  datatype Piece = Letter(c: char) | Variable(name: string)

  /** The text after `before`, cut into the pattern's matches and single characters. */
  function Pieces(before: string, s: string): (ps: seq<Piece>)
    decreases |s|
  {
    if s == [] then []
    else if Lookbehind(before) && Upper(s[0]) then
      var n := WordLength(s);
      [Variable(s[..n])] + Pieces(before + s[..n], s[n..])
    else [Letter(s[0])] + Pieces(before + [s[0]], s[1..])
  }

  function Text(p: Piece): string {
    match p
    case Letter(c) => [c]
    case Variable(name) => name
  }

  function Render(ps: seq<Piece>): string {
    if ps == [] then [] else Text(ps[0]) + Render(ps[1..])
  }

  // ---------------------------------------------------------------- canonical names

  function Label(k: nat): (s: string)
    ensures |s| > 0 && Upper(s[0]) && forall i :: 0 <= i < |s| ==> WordChar(s[i])
  {
    "HARNESS_TY_" + Decimal(k)
  }

  lemma LabelInjective(m: nat, n: nat)
    requires Label(m) == Label(n)
    ensures m == n
  {
    assert Label(m)[11..] == Decimal(m) && Label(n)[11..] == Decimal(n);
    DecimalValue(m);
    DecimalValue(n);
  }

  type Numbering = map<string, nat>

  function Numbered(names: Numbering, x: string): Numbering {
    if x in names then names else names[x := |names|]
  }

  /** The name the dictionary gives `x`, adding it if it is new. */
  function Entry(names: Numbering, x: string): string {
    Label(Numbered(names, x)[x])
  }

  /** Number the variables by first occurrence and rename each to its tag. */
  function Relabel(ps: seq<Piece>, names: Numbering): (qs: seq<Piece>)
    ensures |qs| == |ps|
  {
    if ps == [] then []
    else match ps[0]
      case Letter(c) => [ps[0]] + Relabel(ps[1..], names)
      case Variable(x) =>
        [Variable(Entry(names, x))] + Relabel(ps[1..], Numbered(names, x))
  }

  // ---------------------------------------------------------------- the source's functions

  function NormalizeStatement(statement: Option<string>): string {
    match statement
    case None => ""
    case Some(s) => Join(Words(s))
  }

  function Canonical(statement: Option<string>): string {
    Render(Relabel(Pieces([], NormalizeStatement(statement)), map[]))
  }

  predicate StatementsMatch(actual: Option<string>, expected: Option<string>) {
    || NormalizeStatement(actual) == NormalizeStatement(expected)
    || Canonical(actual) == Canonical(expected)
  }

  /** The canonical text of what follows position `i`, given the numbering so far. */
  function Rest(s: string, i: nat, names: Numbering): string
    requires i <= |s|
  {
    Render(Relabel(Pieces(s[..i], s[i..]), names))
  }

  /** `text` so far, and what follows position `i`, make up `goal`. */
  predicate Towards(goal: string, text: string, s: string, i: nat, names: Numbering)
    requires i <= |s|
  {
    goal == text + Rest(s, i, names)
  }

  lemma TokenStep(goal: string, text: string, s: string, i: nat, names: Numbering, n: nat)
    requires i < |s| && Lookbehind(s[..i]) && Upper(s[i]) && n == WordLength(s[i..])
    requires Towards(goal, text, s, i, names)
    ensures n > 0 && Towards(goal, text + Entry(names, s[i..i + n]), s, i + n, Numbered(names, s[i..i + n]))
  {
    hide Entry, Numbered;
    assert s[i..][..n] == s[i..i + n] && s[..i] + s[i..i + n] == s[..i + n] && s[i..][n..] == s[i + n..];
  }

  lemma CharacterStep(goal: string, text: string, s: string, i: nat, names: Numbering)
    requires i < |s| && !(Lookbehind(s[..i]) && Upper(s[i]))
    requires Towards(goal, text, s, i, names)
    ensures Towards(goal, text + [s[i]], s, i + 1, names)
  {
    assert s[..i] + [s[i]] == s[..i + 1] && s[i..][1..] == s[i + 1..];
  }

  predicate Dictionary(names: map<string, string>, numbers: Numbering) {
    names.Keys == numbers.Keys && |names| == |numbers| && forall x | x in names :: names[x] == Label(numbers[x])
  }

  lemma DictionaryStep(names: map<string, string>, numbers: Numbering, x: string)
    requires Dictionary(names, numbers)
    ensures var names' := if x in names then names else names[x := Label(|names|)];
      Dictionary(names', Numbered(numbers, x)) && names'[x] == Entry(numbers, x)
  {
  }

  /** The substitution as it runs: one scan, a dictionary from variable to canonical name. */
  method CanonicalizeVisibleTypevars(statement: Option<string>) returns (text: string)
    ensures text == Canonical(statement)
  {
    hide Label, Lookbehind, WordLength, Entry, Numbered, NormalizeStatement, Relabel, Pieces;
    var s := NormalizeStatement(statement);
    var names: map<string, string> := map[];
    ghost var goal, numbers: Numbering := Canonical(statement), map[];
    text := "";
    var i := 0;
    assert Towards(goal, text, s, 0, numbers) by {
      assert s[..0] == [] && s[0..] == s;
    }
    while i < |s|
      invariant 0 <= i <= |s| && Dictionary(names, numbers)
      invariant Towards(goal, text, s, i, numbers)
    {
      hide Towards, Dictionary;
      if Lookbehind(s[..i]) && Upper(s[i]) {
        var n := WordLength(s[i..]);
        var name := s[i..i + n];
        TokenStep(goal, text, s, i, numbers, n);
        DictionaryStep(names, numbers, name);
        numbers := Numbered(numbers, name);
        if name !in names {
          names := names[name := Label(|names|)];
        }
        text := text + names[name];
        i := i + n;
      } else {
        CharacterStep(goal, text, s, i, numbers);
        text := text + [s[i]];
        i := i + 1;
      }
    }
    assert Rest(s, i, numbers) == [] by { NothingLeft(s, numbers); }
  }

  lemma NothingLeft(s: string, names: Numbering)
    ensures Rest(s, |s|, names) == []
  {
  }

  // ---------------------------------------------------------------- alpha-equivalence

  predicate SameKind(p: Piece, q: Piece) {
    match p
    case Letter(_) => q == p
    case Variable(_) => q.Variable?
  }

  predicate SameSkeleton(ps: seq<Piece>, qs: seq<Piece>) {
    |ps| == |qs| && forall i :: 0 <= i < |ps| ==> SameKind(ps[i], qs[i])
  }

  predicate Injective<T(==)>(f: map<string, T>) {
    forall x, y :: x in f && y in f && f[x] == f[y] ==> x == y
  }

  function Variables(ps: seq<Piece>): set<string> {
    set i | 0 <= i < |ps| && ps[i].Variable? :: ps[i].name
  }

  /** `f` is a bijection from the variables of `ps` onto those of `qs` and turns `ps` into `qs`. */
  ghost predicate Renames(f: map<string, string>, ps: seq<Piece>, qs: seq<Piece>) {
    && SameSkeleton(ps, qs)
    && f.Keys == Variables(ps) && f.Values == Variables(qs) && Injective(f)
    && forall i :: 0 <= i < |ps| && ps[i].Variable? ==> qs[i].name == f[ps[i].name]
  }

  ghost predicate AlphaEquivalent(ps: seq<Piece>, qs: seq<Piece>) {
    exists f :: Renames(f, ps, qs)
  }

  /** The same without naming the bijection: equal variables stand at the same places. */
  predicate SamePattern(ps: seq<Piece>, qs: seq<Piece>) {
    && SameSkeleton(ps, qs)
    && forall i, j :: 0 <= i < |ps| && 0 <= j < |ps| && ps[i].Variable? && ps[j].Variable? ==>
        (ps[i].name == ps[j].name <==> qs[i].name == qs[j].name)
  }

  lemma PatternIsAlpha(ps: seq<Piece>, qs: seq<Piece>)
    ensures SamePattern(ps, qs) <==> AlphaEquivalent(ps, qs)
  {
    if SamePattern(ps, qs) {
      var f := map x | x in Variables(ps) :: Partner(ps, qs, x);
      assert f.Values == Variables(qs) by {
        forall i | 0 <= i < |ps| && ps[i].Variable? ensures qs[i].name in f.Values {
          assert f[ps[i].name] == qs[i].name;
        }
      }
      assert Renames(f, ps, qs);
    }
  }

  function Partner(ps: seq<Piece>, qs: seq<Piece>, x: string): (y: string)
    requires SamePattern(ps, qs) && x in Variables(ps)
    ensures forall i :: 0 <= i < |ps| && ps[i] == Variable(x) ==> qs[i] == Variable(y)
  {
    var i :| 0 <= i < |ps| && ps[i] == Variable(x);
    assert forall j :: 0 <= j < |ps| && ps[j] == Variable(x) ==> qs[j].name == qs[i].name;
    qs[i].name
  }

  predicate Dense(names: Numbering) {
    Injective(names) && forall x | x in names :: names[x] < |names|
  }

  predicate Agree(m: Numbering, n: Numbering, x: string, y: string) {
    (x in m <==> y in n) && (x in m ==> m[x] == n[y])
  }

  predicate AgreeOn(m: Numbering, n: Numbering, ps: seq<Piece>, qs: seq<Piece>)
    requires SameSkeleton(ps, qs)
  {
    forall i :: 0 <= i < |ps| && ps[i].Variable? ==> Agree(m, n, ps[i].name, qs[i].name)
  }

  lemma ConsEqual<T>(a: T, s: seq<T>, b: T, t: seq<T>)
    ensures [a] + s == [b] + t <==> a == b && s == t
  {
    assert ([a] + s)[1..] == s && ([b] + t)[1..] == t;
    assert ([a] + s)[0] == a && ([b] + t)[0] == b;
  }

  lemma {:induction false} RelabelDecides(ps: seq<Piece>, qs: seq<Piece>, m: Numbering, n: Numbering)
    requires Dense(m) && Dense(n) && |m| == |n|
    ensures Relabel(ps, m) == Relabel(qs, n) <==> SamePattern(ps, qs) && AgreeOn(m, n, ps, qs)
  {
    hide Label;
    if ps != [] && qs != [] {
      var p, q := Relabel(ps, m)[0], Relabel(qs, n)[0];
      if ps[0].Variable? && qs[0].Variable? {
        var x, y := ps[0].name, qs[0].name;
        var m', n' := Numbered(m, x), Numbered(n, y);
        ConsEqual(p, Relabel(ps[1..], m'), q, Relabel(qs[1..], n'));
        if m'[x] == n'[y] {
          RelabelDecides(ps[1..], qs[1..], m', n') by { StillDense(m, x); StillDense(n, y); }
          hide SamePattern, AgreeOn, Relabel;
          VariableStep(ps, qs, m, n);
        } else {
          assert p != q by {
            if p == q { LabelInjective(m'[x], n'[y]); }
          }
          assert !Agree(m, n, x, y);
        }
      } else if SameKind(ps[0], qs[0]) {
        RelabelDecides(ps[1..], qs[1..], m, n);
        ConsEqual(p, Relabel(ps[1..], m), q, Relabel(qs[1..], n));
        hide SamePattern, AgreeOn, Relabel;
        LetterStep(ps, qs, m, n);
      }
    }
  }

  lemma StillDense(names: Numbering, x: string)
    requires Dense(names)
    ensures Dense(Numbered(names, x))
  {
  }

  lemma LetterStep(ps: seq<Piece>, qs: seq<Piece>, m: Numbering, n: Numbering)
    requires ps != [] && qs != [] && ps[0].Letter? && ps[0] == qs[0]
    ensures SamePattern(ps, qs) && AgreeOn(m, n, ps, qs)
      <==> SamePattern(ps[1..], qs[1..]) && AgreeOn(m, n, ps[1..], qs[1..])
  {
    assert ps == [ps[0]] + ps[1..] && qs == [qs[0]] + qs[1..];
  }

  lemma VariableStep(ps: seq<Piece>, qs: seq<Piece>, m: Numbering, n: Numbering)
    requires Dense(m) && Dense(n) && |m| == |n|
    requires ps != [] && qs != [] && ps[0].Variable? && qs[0].Variable?
    requires Numbered(m, ps[0].name)[ps[0].name] == Numbered(n, qs[0].name)[qs[0].name]
    ensures SamePattern(ps, qs) && AgreeOn(m, n, ps, qs)
      <==> SamePattern(ps[1..], qs[1..]) && AgreeOn(Numbered(m, ps[0].name), Numbered(n, qs[0].name), ps[1..], qs[1..])
  {
    var x, y := ps[0].name, qs[0].name;
    var m', n' := Numbered(m, x), Numbered(n, y);
    assert ps == [ps[0]] + ps[1..] && qs == [qs[0]] + qs[1..];
    assert Agree(m, n, x, y);
    assert forall u, v :: Agree(m', n', u, v) <==> Agree(m, n, u, v) && (u == x <==> v == y);
  }

  // ---------------------------------------------------------------- the canonical text reads back

  predicate SameContext(b: string, b': string) {
    && (Lookbehind(b) <==> Lookbehind(b'))
    && (EndsWith(b, "-") <==> EndsWith(b', "-"))
  }

  lemma ContextAfterLetter(b: string, b': string, c: char)
    requires SameContext(b, b')
    ensures SameContext(b + [c], b' + [c])
  {
    LookbehindAfter(b, c);
    LookbehindAfter(b', c);
  }

  lemma LookbehindAfter(b: string, c: char)
    ensures Lookbehind(b + [c]) <==> c == ':' || c == '#' || (c == '>' && EndsWith(b, "-"))
    ensures EndsWith(b + [c], "-") <==> c == '-'
  {
    hide EndsWith;
    EndsWithOne(b, c, ':');
    EndsWithOne(b, c, '#');
    EndsWithOne(b, c, '-');
    EndsWithArrow(b, c);
  }

  lemma EndsWithOne(b: string, c: char, d: char)
    ensures EndsWith(b + [c], [d]) <==> c == d
  {
    assert (b + [c])[|b|..] == [c];
  }

  lemma EndsWithArrow(b: string, c: char)
    ensures EndsWith(b + [c], "->") <==> c == '>' && EndsWith(b, "-")
  {
    if b != [] {
      var last := b[|b| - 1];
      assert b == b[..|b| - 1] + [last];
      EndsWithOne(b[..|b| - 1], last, '-');
      assert (b + [c])[|b| - 1..] == [last, c];
      assert EndsWith(b + [c], "->") <==> [last, c] == ['-', '>'];
      assert [last, c][0] == last && [last, c][1] == c;
    }
  }

  lemma ContextAfterWord(b: string, w: string)
    requires w != [] && forall i :: 0 <= i < |w| ==> WordChar(w[i])
    ensures !Lookbehind(b + w) && !EndsWith(b + w, "-")
  {
    var z := |w| - 1;
    assert b + w == b + w[..z] + [w[z]];
    LookbehindAfter(b + w[..z], w[z]);
  }

  lemma {:induction false} WordLengthOf(w: string, rest: string)
    requires forall i :: 0 <= i < |w| ==> WordChar(w[i])
    requires rest != [] ==> !WordChar(rest[0])
    ensures WordLength(w + rest) == |w|
  {
    if w == [] {
      assert w + rest == rest;
    } else {
      assert (w + rest)[1..] == w[1..] + rest;
      WordLengthOf(w[1..], rest);
    }
  }

  /** Cutting the canonical text into pieces gives the relabelled pieces back. */
  lemma {:induction false} ReadsBack(b: string, s: string, names: Numbering, b': string)
    requires SameContext(b, b')
    ensures var qs := Relabel(Pieces(b, s), names); Pieces(b', Render(qs)) == qs
    decreases |s|
  {
    if s == [] {
    } else if Lookbehind(b) && Upper(s[0]) {
      var n := WordLength(s);
      var x, rest := s[..n], s[n..];
      var tag := Label(Numbered(names, x)[x]);
      var qs := Relabel(Pieces(b + x, rest), Numbered(names, x));
      ContextAfterWord(b, x);
      ContextAfterWord(b', tag);
      ReadsBack(b + x, rest, Numbered(names, x), b' + tag);
      assert rest != [] ==> qs[0] == Letter(rest[0]) && Render(qs)[0] == rest[0];
      assert rest == [] ==> Render(qs) == [];
      WordLengthOf(tag, Render(qs));
      assert (tag + Render(qs))[..|tag|] == tag && (tag + Render(qs))[|tag|..] == Render(qs);
    } else {
      ContextAfterLetter(b, b', s[0]);
      ReadsBack(b + [s[0]], s[1..], names, b' + [s[0]]);
      var tail := Render(Relabel(Pieces(b + [s[0]], s[1..]), names));
      assert ([s[0]] + tail)[1..] == tail;
    }
  }

  // ---------------------------------------------------------------- main results

  lemma CanonicalDecides(a: Option<string>, b: Option<string>)
    ensures var ps, qs := Pieces([], NormalizeStatement(a)), Pieces([], NormalizeStatement(b));
      Canonical(a) == Canonical(b) <==> SamePattern(ps, qs)
  {
    var ps, qs := Pieces([], NormalizeStatement(a)), Pieces([], NormalizeStatement(b));
    ReadsBack([], NormalizeStatement(a), map[], []);
    ReadsBack([], NormalizeStatement(b), map[], []);
    RelabelDecides(ps, qs, map[], map[]);
    assert SamePattern(ps, qs) ==> AgreeOn(map[], map[], ps, qs);
  }

  /** Statements match exactly when, whitespace apart, they differ by a bijective renaming of their
      visible type variables. */
  lemma MatchIsAlphaEquivalence(a: Option<string>, b: Option<string>)
    ensures StatementsMatch(a, b)
      <==> AlphaEquivalent(Pieces([], NormalizeStatement(a)), Pieces([], NormalizeStatement(b)))
  {
    CanonicalDecides(a, b);
    PatternIsAlpha(Pieces([], NormalizeStatement(a)), Pieces([], NormalizeStatement(b)));
  }

  /** So matching is an equivalence, for the relation it is meant to decide. */
  lemma AlphaIsEquivalence(ps: seq<Piece>, qs: seq<Piece>, rs: seq<Piece>)
    ensures AlphaEquivalent(ps, ps)
    ensures AlphaEquivalent(ps, qs) ==> AlphaEquivalent(qs, ps)
    ensures AlphaEquivalent(ps, qs) && AlphaEquivalent(qs, rs) ==> AlphaEquivalent(ps, rs)
  {
    PatternIsAlpha(ps, ps);
    PatternIsAlpha(ps, qs);
    PatternIsAlpha(qs, ps);
    PatternIsAlpha(qs, rs);
    PatternIsAlpha(ps, rs);
  }

  lemma RelabelSamePattern(ps: seq<Piece>)
    ensures SamePattern(ps, Relabel(ps, map[]))
  {
    RelabelRenames(ps, map[]);
    var qs, f := Relabel(ps, map[]), Final(ps, map[]);
    forall i, j | 0 <= i < |ps| && 0 <= j < |ps| && ps[i].Variable? && ps[j].Variable? && qs[i].name == qs[j].name
      ensures ps[i].name == ps[j].name
    {
      LabelInjective(f[ps[i].name], f[ps[j].name]);
    }
  }

  function Final(ps: seq<Piece>, names: Numbering): Numbering {
    if ps == [] then names
    else Final(ps[1..], if ps[0].Variable? then Numbered(names, ps[0].name) else names)
  }

  lemma {:induction false} RelabelRenames(ps: seq<Piece>, names: Numbering)
    requires Dense(names)
    ensures Dense(Final(ps, names)) && forall x | x in names :: x in Final(ps, names) && Final(ps, names)[x] == names[x]
    ensures LabelsBy(ps, Relabel(ps, names), Final(ps, names))
  {
    hide Label;
    if ps != [] {
      var names' := if ps[0].Variable? then Numbered(names, ps[0].name) else names;
      RelabelRenames(ps[1..], names');
      assert ps == [ps[0]] + ps[1..];
    }
  }

  predicate LabelsBy(ps: seq<Piece>, qs: seq<Piece>, f: Numbering) {
    SameSkeleton(ps, qs) && forall i :: 0 <= i < |ps| && ps[i].Variable? ==>
      ps[i].name in f && qs[i].name == Label(f[ps[i].name])
  }

  lemma {:induction false} RelabelStaysTidy(b: string, s: string, names: Numbering, atStart: bool)
    requires Tidy(s, atStart)
    ensures Tidy(Render(Relabel(Pieces(b, s), names)), atStart)
    decreases |s|
  {
    if s == [] {
    } else if Lookbehind(b) && Upper(s[0]) {
      var n := WordLength(s);
      var x, tag := s[..n], Label(Numbered(names, s[..n])[s[..n]]);
      WordIsSolid(x);
      WordIsSolid(tag);
      assert s == x + s[n..];
      TidyAfterWord(x, s[n..], atStart);
      RelabelStaysTidy(b + x, s[n..], Numbered(names, x), false);
      TidyAfterWord(tag, Render(Relabel(Pieces(b + x, s[n..]), Numbered(names, x))), atStart);
    } else {
      RelabelStaysTidy(b + [s[0]], s[1..], names, Blank(s[0]));
      var tail := Render(Relabel(Pieces(b + [s[0]], s[1..]), names));
      assert ([s[0]] + tail)[1..] == tail;
    }
  }

  lemma {:induction false} WordIsSolid(w: string)
    requires forall i :: 0 <= i < |w| ==> WordChar(w[i])
    ensures SolidLength(w) == |w|
  {
    if w != [] {
      WordIsSolid(w[1..]);
    }
  }

  /** Canonicalization is idempotent, and a statement always matches its canonical text. */
  lemma CanonicalIsIdempotent(a: Option<string>)
    ensures Canonical(Some(Canonical(a))) == Canonical(a)
    ensures StatementsMatch(a, Some(Canonical(a)))
  {
    var s, t := NormalizeStatement(a), Canonical(a);
    if s == [] {
      assert Words([]) == [];
    } else {
      assert a.Some?;
      JoinedIsTidy(Words(a.value));
      RelabelStaysTidy([], s, map[], true);
      TidyIsJoined(t);
    }
    assert NormalizeStatement(Some(t)) == t;
    ReadsBack([], s, map[], []);
    RelabelSamePattern(Pieces([], s));
    CanonicalDecides(a, Some(t));
  }
}
