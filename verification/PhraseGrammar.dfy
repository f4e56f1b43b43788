/** The lexical grammar the two scanners follow, given by what is printed rather than by how it is
    scanned. */
module PhraseGrammar {
  import opened Options
  import opened PhraseScanner

  // ---------------------------------------------------------------- the grammar

  /** What follows the `(*` of a comment, up to and including its own `*)`. */
  datatype Body = End | Char(c: char, rest: Body) | Nested(inner: Body, rest: Body)

  function PrintBody(b: Body): (s: string)
    ensures s != []
  {
    match b
    case End => "*)"
    case Char(c, rest) => [c] + PrintBody(rest)
    case Nested(inner, rest) => "(*" + PrintBody(inner) + PrintBody(rest)
  }

  /** No character forms `(*` or `*)` with what follows it. */
  predicate Clear(b: Body) {
    match b
    case End => true
    case Char(c, rest) => [c, PrintBody(rest)[0]] != "(*" && [c, PrintBody(rest)[0]] != "*)" && Clear(rest)
    case Nested(inner, rest) => Clear(inner) && Clear(rest)
  }

  datatype Item = Bare(c: char) | Escaped(c: char)

  function PrintItems(items: seq<Item>): string {
    if items == [] then [] else PrintItem(items[0]) + PrintItems(items[1..])
  }

  function PrintItem(i: Item): string {
    match i
    case Bare(c) => [c]
    case Escaped(c) => ['\\', c]
  }

  predicate ClearItems(items: seq<Item>) {
    forall i | i in items :: i.Bare? ==> i.c != '"' && i.c != '\\'
  }

  /** Text is code characters, separators, comments, strings and backquoted terms; the last of these
      three may be left open at the end. */
  datatype Lexeme =
    | Code1(c: char) | Separator2
    | Remark(body: Body) | Quoted(items: seq<Item>) | Term(text: string)
    | OpenRemark(text: string) | OpenQuoted(items: seq<Item>, slash: bool) | OpenTerm(text: string)

  function Print(l: Lexeme): (s: string)
    ensures s != []
  {
    match l
    case Code1(c) => [c]
    case Separator2 => ";;"
    case Remark(body) => "(*" + PrintBody(body)
    case Quoted(items) => "\"" + PrintItems(items) + "\""
    case Term(text) => "`" + text + "`"
    case OpenRemark(text) => "(*" + text
    case OpenQuoted(items, slash) => "\"" + PrintItems(items) + if slash then "\\" else ""
    case OpenTerm(text) => "`" + text
  }

  function PrintAll(ls: seq<Lexeme>): string {
    if ls == [] then [] else Print(ls[0]) + PrintAll(ls[1..])
  }

  /** `l` stands before `after`: it is what its constructor says, and nothing else could begin here. */
  ghost predicate Fits(l: Lexeme, after: string) {
    match l
    case Code1(c) => c != '"' && c != '`' && !("(*" <= [c] + after) && !(";;" <= [c] + after)
    case Separator2 => true
    case Remark(body) => Clear(body)
    case Quoted(items) => ClearItems(items)
    case Term(text) => '`' !in text
    case OpenRemark(text) => after == [] && forall b | Clear(b) :: !(PrintBody(b) <= text)
    case OpenQuoted(items, _) => after == [] && ClearItems(items)
    case OpenTerm(text) => after == [] && '`' !in text
  }

  ghost predicate Fit(ls: seq<Lexeme>) {
    ls != [] ==> Fits(ls[0], PrintAll(ls[1..])) && Fit(ls[1..])
  }

  // ---------------------------------------------------------------- what the text means

  /** Comments and strings become blanks. */
  function Masked(l: Lexeme): string {
    match l
    case Code1(_) => Print(l)
    case Separator2 => Print(l)
    case Term(_) => Print(l)
    case OpenTerm(_) => Print(l)
    case Remark(_) => Blanks(|Print(l)|)
    case Quoted(_) => Blanks(|Print(l)|)
    case OpenRemark(_) => Blanks(|Print(l)|)
    case OpenQuoted(_, _) => Blanks(|Print(l)|)
  }

  function MaskedAll(ls: seq<Lexeme>): string {
    if ls == [] then [] else Masked(ls[0]) + MaskedAll(ls[1..])
  }

  /** The text between separators. */
  function CutAll(ls: seq<Lexeme>): (pieces: seq<string>)
    ensures pieces != []
  {
    if ls == [] then [[]]
    else if ls[0].Separator2? then [[]] + CutAll(ls[1..])
    else Extend(Print(ls[0]), CutAll(ls[1..]))
  }

  /** The newlines the line counter sees: not those a backslash escapes. */
  function Seen(l: Lexeme): nat {
    match l
    case Quoted(items) => Newlines(BareText(items))
    case OpenQuoted(items, _) => Newlines(BareText(items))
    case _ => Newlines(Print(l))
  }

  function BareText(items: seq<Item>): string {
    if items == [] then [] else (if items[0].Bare? then [items[0].c] else []) + BareText(items[1..])
  }

  /** A line for every separator, that of the text after it. */
  function LinesAll(ls: seq<Lexeme>, line: int): seq<int> {
    if ls == [] then []
    else if ls[0].Separator2? then [line] + LinesAll(ls[1..], line)
    else LinesAll(ls[1..], line + Seen(ls[0]))
  }

  // ---------------------------------------------------------------- scanning a stretch of text

  /** From mode `m` the scanners go through `p` to mode `m'` before `rest`: the masker turns it into `q`,
      the splitter finds no separator in it and counts `n` newlines. */
  predicate Through(m: Mode, p: string, q: string, n: nat, m': Mode, rest: string, line: int) {
    && Mask(m, p + rest) == q + Mask(m', rest)
    && Split(m, p + rest) == Extend(p, Split(m', rest))
    && LaterLines(m, p + rest, line) == LaterLines(m', rest, line + n)
  }

  lemma OneToken(m: Mode, p: string, rest: string, line: int)
    requires p != [] && Advance(m, p + rest).width == |p| && !Separator(m, p + rest)
    ensures var t := Advance(m, p + rest);
      Through(m, p, Kept(t, p), if p[0] == '\n' then 1 else 0, t.mode, rest, line)
  {
    TokenFront(m, p, rest);
    Parts(p, rest);
    hide Advance, Mask, Split, Kept;
  }

  lemma TwoStretches(m: Mode, p1: string, q1: string, n1: nat, m1: Mode, p2: string, q2: string, n2: nat, m2: Mode,
                     rest: string, line: int)
    requires Through(m, p1, q1, n1, m1, p2 + rest, line) && Through(m1, p2, q2, n2, m2, rest, line + n1)
    ensures Through(m, p1 + p2, q1 + q2, n1 + n2, m2, rest, line)
  {
    Assoc(p1, p2, rest);
    Assoc(q1, q2, Mask(m2, rest));
    hide Mask, LaterLines;
    ExtendTwice(p1, p2, Split(m2, rest));
    hide Split, Extend;
  }

  // ---------------------------------------------------------------- comments

  function Outer(depth: nat): Mode
    requires depth > 0
  {
    if depth == 1 then Code else Comment(depth - 1)
  }

  lemma BlanksSum(a: nat, b: nat)
    ensures Blanks(a) + Blanks(b) == Blanks(a + b)
  {
  }

  /** From any depth a comment's body is blanked, holds no separator, and ends one level up. */
  lemma {:induction false} BodyThrough(b: Body, depth: nat, rest: string, line: int)
    requires Clear(b) && depth > 0
    ensures var p := PrintBody(b);
      Through(Comment(depth), p, Blanks(|p|), Newlines(p), Outer(depth), rest, line)
    decreases b
  {
    hide Through, Mask, Split, LaterLines;
    match b
    case End =>
      OneToken(Comment(depth), "*)", rest, line);
    case Char(c, later) =>
      var p := PrintBody(later);
      BodyThrough(later, depth, rest, line + if c == '\n' then 1 else 0);
      CharInBody(c, p, depth, rest, line);
    case Nested(inner, later) =>
      var p1, p2 := PrintBody(inner), PrintBody(later);
      BodyThrough(inner, depth + 1, p2 + rest, line);
      BodyThrough(later, depth, rest, line + Newlines(p1));
      NestedThrough(p1, p2, depth, rest, line);
  }

  lemma CharToken(c: char, t: string, depth: nat, line: int)
    requires t != [] ==> [c, t[0]] != "(*" && [c, t[0]] != "*)"
    ensures Through(Comment(depth), [c], Blanks(1), if c == '\n' then 1 else 0, Comment(depth), t, line)
  {
    assert t != [] ==> [c, t[0]][0] == c && [c, t[0]][1] == t[0];
    OneToken(Comment(depth), [c], t, line);
    hide Mask, Split, LaterLines;
  }

  lemma CharInBody(c: char, p: string, depth: nat, rest: string, line: int)
    requires depth > 0 && p != [] && [c, p[0]] != "(*" && [c, p[0]] != "*)"
    requires Through(Comment(depth), p, Blanks(|p|), Newlines(p), Outer(depth), rest, line + if c == '\n' then 1 else 0)
    ensures Through(Comment(depth), [c] + p, Blanks(|[c] + p|), Newlines([c] + p), Outer(depth), rest, line)
  {
    hide *;
    var n := if c == '\n' then 1 else 0;
    CharToken(c, p + rest, depth, line);
    TwoStretches(Comment(depth), [c], Blanks(1), n, Comment(depth), p, Blanks(|p|), Newlines(p), Outer(depth), rest, line);
    BlanksSum(1, |p|);
    CharNewlines(c, p);
  }

  lemma CharNewlines(c: char, s: string)
    ensures Newlines([c] + s) == (if c == '\n' then 1 else 0) + Newlines(s)
  {
    NewlinesSum([c], s);
  }

  lemma NestedThrough(p1: string, p2: string, depth: nat, rest: string, line: int)
    requires depth > 0
    requires Through(Comment(depth + 1), p1, Blanks(|p1|), Newlines(p1), Comment(depth), p2 + rest, line)
    requires Through(Comment(depth), p2, Blanks(|p2|), Newlines(p2), Outer(depth), rest, line + Newlines(p1))
    ensures var p := "(*" + p1 + p2;
      Through(Comment(depth), p, Blanks(|p|), Newlines(p), Outer(depth), rest, line)
  {
    hide *;
    OpeningToken(p1 + p2 + rest, depth, line);
    TwoStretches(Comment(depth + 1), p1, Blanks(|p1|), Newlines(p1), Comment(depth), p2, Blanks(|p2|), Newlines(p2),
                 Outer(depth), rest, line);
    BlanksSum(|p1|, |p2|);
    NewlinesSum(p1, p2);
    TwoStretches(Comment(depth), "(*", Blanks(2), 0, Comment(depth + 1), p1 + p2, Blanks(|p1 + p2|), Newlines(p1 + p2),
                 Outer(depth), rest, line);
    BlanksSum(2, |p1 + p2|);
    OpeningNewlines(p1 + p2);
    Assoc("(*", p1, p2);
  }

  lemma OpeningNewlines(s: string)
    ensures Newlines("(*" + s) == Newlines(s)
  {
    NewlinesSum("(*", s);
  }

  lemma OpeningToken(t: string, depth: nat, line: int)
    requires depth > 0
    ensures Through(Comment(depth), "(*", Blanks(2), 0, Comment(depth + 1), t, line)
  {
    OneToken(Comment(depth), "(*", t, line);
    hide Mask, Split, LaterLines;
  }

  lemma {:induction false} ItemsThrough(items: seq<Item>, rest: string, line: int)
    requires ClearItems(items)
    ensures var p := PrintItems(items);
      Through(Text, p, Blanks(|p|), Newlines(BareText(items)), Text, rest, line)
  {
    hide Through, Mask, Split, LaterLines;
    if items == [] {
      NothingThrough(Text, rest, line);
    } else {
      var p1, p2, n2 := PrintItem(items[0]), PrintItems(items[1..]), Newlines(BareText(items[1..]));
      var n1 := if items[0] == Bare('\n') then 1 else 0;
      NewlinesSum(if items[0].Bare? then [items[0].c] else [], BareText(items[1..]));
      assert Newlines(BareText(items)) == n1 + n2;
      OneToken(Text, p1, p2 + rest, line);
      ItemsThrough(items[1..], rest, line + n1);
      TwoStretches(Text, p1, Blanks(|p1|), n1, Text, p2, Blanks(|p2|), n2, Text, rest, line);
      BlanksSum(|p1|, |p2|);
      assert PrintItems(items) == p1 + p2;
    }
  }

  lemma NothingThrough(m: Mode, rest: string, line: int)
    ensures Through(m, [], Blanks(0), 0, m, rest, line)
  {
    assert [] + rest == rest && [] + Mask(m, rest) == Mask(m, rest) && Blanks(0) == [];
    hide Mask, Split;
    ExtendNothing(Split(m, rest));
  }

  lemma {:induction false} TermThrough(text: string, rest: string, line: int)
    requires '`' !in text
    ensures Through(Backquote, text, text, Newlines(text), Backquote, rest, line)
  {
    hide Through, Mask, Split, LaterLines;
    if text == [] {
      NothingThrough(Backquote, rest, line);
    } else {
      var p1, p2 := [text[0]], text[1..];
      assert text[0] in text && '`' !in p2 && p1[..1] == p1;
      var n1 := if text[0] == '\n' then 1 else 0;
      OneToken(Backquote, p1, p2 + rest, line);
      TermThrough(p2, rest, line + n1);
      TwoStretches(Backquote, p1, p1, n1, Backquote, p2, p2, Newlines(p2), Backquote, rest, line);
      assert text == p1 + p2;
    }
  }

  // ---------------------------------------------------------------- comments left open

  lemma NestedPrefix(s: string, inner: Body, rest: Body)
    requires |s| >= 2 && s[..2] == "(*" && PrintBody(inner) <= s[2..]
    requires PrintBody(rest) <= s[2 + |PrintBody(inner)|..]
    ensures PrintBody(Nested(inner, rest)) <= s
  {
    var p1, p2 := PrintBody(inner), PrintBody(rest);
    var t := s[2..];
    var u := t[|p1|..];
    assert s == "(*" + t && t == p1 + u && u == s[2 + |p1|..] && u == p2 + u[|p2|..];
    assert s == ("(*" + p1 + p2) + u[|p2|..];
  }

  /** The body of a comment, if the text closes it. */
  function ReadBody(s: string): (b: Option<Body>)
    ensures b.Some? ==> Clear(b.value) && PrintBody(b.value) <= s
    decreases |s|
  {
    if |s| < 2 then None
    else if s[..2] == "*)" then Some(End)
    else if s[..2] == "(*" then
      var inner := ReadBody(s[2..]);
      if inner.None? then None
      else
        var rest := ReadBody(s[2 + |PrintBody(inner.value)|..]);
        if rest.None? then None
        else
          NestedPrefix(s, inner.value, rest.value);
          Some(Nested(inner.value, rest.value))
    else
      var rest := ReadBody(s[1..]);
      if rest.None? then None else Some(Char(s[0], rest.value))
  }

  lemma ReadChar(c: char, t: string)
    requires t != [] && [c, t[0]] != "(*" && [c, t[0]] != "*)"
    ensures ReadBody([c] + t) == var rest := ReadBody(t); if rest.None? then None else Some(Char(c, rest.value))
  {
    var s := [c] + t;
    assert s[..2] == [c, t[0]] && s[1..] == t;
  }

  lemma ReadNested(t: string)
    ensures ReadBody("(*" + t) ==
      var inner := ReadBody(t);
      if inner.None? then None
      else var rest := ReadBody(t[|PrintBody(inner.value)|..]);
        if rest.None? then None else Some(Nested(inner.value, rest.value))
  {
    var s := "(*" + t;
    assert s[..2] == "(*" && s[2..] == t;
    var inner := ReadBody(t);
    if inner.Some? {
      assert s[2 + |PrintBody(inner.value)|..] == t[|PrintBody(inner.value)|..];
    }
  }

  lemma {:induction false} ReadPrinted(b: Body, rest: string)
    requires Clear(b)
    ensures ReadBody(PrintBody(b) + rest) == Some(b)
    decreases b
  {
    hide ReadBody;
    match b
    case End =>
      ReadEnd(rest);
    case Char(c, later) =>
      ReadPrinted(later, rest);
      ReadChar(c, PrintBody(later) + rest);
      Assoc([c], PrintBody(later), rest);
    case Nested(inner, later) =>
      var p1, p2 := PrintBody(inner), PrintBody(later);
      ReadPrinted(inner, p2 + rest);
      ReadPrinted(later, rest);
      ReadNested(p1 + (p2 + rest));
      Parts(p1, p2 + rest);
      assert PrintBody(b) + rest == "(*" + (p1 + (p2 + rest));
  }

  lemma ReadEnd(rest: string)
    ensures ReadBody("*)" + rest) == Some(End)
  {
    assert ("*)" + rest)[..2] == "*)";
  }

  /** To the end of the text the masker blanks everything and the splitter finds no separator. */
  predicate Dead(m: Mode, s: string, line: int) {
    Mask(m, s) == Blanks(|s|) && Split(m, s) == [s] && LaterLines(m, s, line) == []
  }

  lemma DeadAfter(m: Mode, p: string, n: nat, m': Mode, rest: string, line: int)
    requires Through(m, p, Blanks(|p|), n, m', rest, line) && Dead(m', rest, line + n)
    ensures Dead(m, p + rest, line)
  {
    hide Mask, Split, LaterLines;
    BlanksSum(|p|, |rest|);
  }

  lemma UnreadChar(c: char, t: string)
    requires ReadBody([c] + t).None? && (t != [] ==> [c, t[0]] != "(*")
    ensures ReadBody(t).None? && (t != [] ==> [c, t[0]] != "*)")
  {
    EndIsRead(c, t);
    if t != [] {
      ReadChar(c, t);
    }
  }

  lemma EndIsRead(c: char, t: string)
    ensures t != [] && [c, t[0]] == "*)" ==> ReadBody([c] + t).Some?
  {
    assert t != [] ==> ([c] + t)[..2] == [c, t[0]];
  }

  /** A comment that is never closed is blanked to the end, and no phrase ends in it. */
  lemma {:induction false} OpenBody(s: string, depth: nat, line: int)
    requires ReadBody(s).None? && depth > 0
    ensures Dead(Comment(depth), s, line)
    decreases |s|
  {
    var m := Comment(depth);
    if s == [] {
    } else if |s| > 1 && s[..2] == "(*" {
      hide *;
      assert s == "(*" + s[2..];
      OpenNested(s[2..], depth, line);
    } else {
      hide *;
      var c, t := s[0], s[1..];
      assert s == [c] + t && (t != [] ==> s[..2] == [c, t[0]]);
      UnreadChar(c, t);
      var n := if c == '\n' then 1 else 0;
      OpenBody(t, depth, line + n);
      CharToken(c, t, depth, line);
      DeadAfter(m, [c], n, m, t, line);
    }
  }

  lemma {:induction false} OpenNested(t: string, depth: nat, line: int)
    requires ReadBody("(*" + t).None? && depth > 0
    ensures Dead(Comment(depth), "(*" + t, line)
    decreases |t| + 1
  {
    hide ReadBody, Through, Mask, Split, LaterLines, Dead, Newlines, Clear, PrintBody;
    ReadNested(t);
    OpeningToken(t, depth, line);
    var inner := ReadBody(t);
    if inner.None? {
      OpenBody(t, depth + 1, line);
    } else {
      var p := PrintBody(inner.value);
      var later := t[|p|..];
      assert t == p + later;
      OpenBody(later, depth, line + Newlines(p));
      BodyThrough(inner.value, depth + 1, later, line);
      DeadAfter(Comment(depth + 1), p, Newlines(p), Comment(depth), later, line);
    }
    DeadAfter(Comment(depth), "(*", 0, Comment(depth + 1), t, line);
  }

  // ---------------------------------------------------------------- lexemes

  lemma AtEnd(m: Mode, p: string, q: string, n: nat, m': Mode, line: int)
    requires Through(m, p, q, n, m', [], line)
    ensures Through(m, p, q, n, Code, [], line)
  {
  }

  lemma QuoteThrough(m: Mode, rest: string, line: int)
    requires m == Code || m == Text
    ensures Through(m, "\"", Blanks(1), 0, if m == Code then Text else Code, rest, line)
  {
    OneToken(m, "\"", rest, line);
    hide Mask, Split, LaterLines;
  }

  lemma BackquoteThrough(m: Mode, rest: string, line: int)
    requires m == Code || m == Backquote
    ensures Through(m, "`", "`", 0, if m == Code then Backquote else Code, rest, line)
  {
    OneToken(m, "`", rest, line);
    hide Mask, Split, LaterLines;
  }

  /** What `end` makes of an open string: a quote closes it, and a lone backslash may end the text. */
  lemma StringThrough(items: seq<Item>, end: string, m: Mode, rest: string, line: int)
    requires ClearItems(items)
    requires Through(Text, end, Blanks(|end|), 0, m, rest, line + Newlines(BareText(items)))
    ensures var p := "\"" + PrintItems(items) + end; Through(Code, p, Blanks(|p|), Newlines(BareText(items)), m, rest, line)
  {
    hide *;
    var p, n := PrintItems(items), Newlines(BareText(items));
    Assoc(p, end, rest);
    ItemsThrough(items, end + rest, line);
    TwoStretches(Text, p, Blanks(|p|), n, Text, end, Blanks(|end|), 0, m, rest, line);
    BlanksSum(|p|, |end|);
    QuoteThrough(Code, p + end + rest, line);
    TwoStretches(Code, "\"", Blanks(1), 0, Text, p + end, Blanks(|p + end|), n, m, rest, line);
    BlanksSum(1, |p + end|);
    Assoc("\"", p, end);
  }

  lemma TermFrom(text: string, end: string, m: Mode, rest: string, line: int)
    requires '`' !in text && Through(Backquote, end, end, 0, m, rest, line + Newlines(text))
    ensures var p := "`" + text + end; Through(Code, p, p, Newlines(text), m, rest, line)
  {
    hide *;
    Assoc(text, end, rest);
    TermThrough(text, end + rest, line);
    TwoStretches(Backquote, text, text, Newlines(text), Backquote, end, end, 0, m, rest, line);
    BackquoteThrough(Code, text + end + rest, line);
    TwoStretches(Code, "`", "`", 0, Backquote, text + end, text + end, Newlines(text), m, rest, line);
    Assoc("`", text, end);
  }

  lemma RemarkThrough(body: Body, rest: string, line: int)
    requires Clear(body)
    ensures var p := "(*" + PrintBody(body); Through(Code, p, Blanks(|p|), Newlines(p), Code, rest, line)
  {
    hide *;
    var p := PrintBody(body);
    BodyThrough(body, 1, rest, line);
    CommentStarts(p + rest, line);
    OpeningNewlines(p);
    OuterOne();
    TwoStretches(Code, "(*", Blanks(2), 0, Comment(1), p, Blanks(|p|), Newlines(p), Code, rest, line);
    BlanksSum(2, |p|);
  }

  lemma CommentStarts(rest: string, line: int)
    ensures Through(Code, "(*", Blanks(2), 0, Comment(1), rest, line)
  {
    OneToken(Code, "(*", rest, line);
    hide Mask, Split, LaterLines;
  }

  lemma OuterOne()
    ensures Outer(1) == Code
  {
  }

  lemma OpenRemarkThrough(text: string, line: int)
    requires forall b | Clear(b) :: !(PrintBody(b) <= text)
    ensures var p := "(*" + text; Through(Code, p, Blanks(|p|), Newlines(p), Code, [], line)
  {
    var p := "(*" + text;
    OpenBody(text, 1, line);
    OneToken(Code, "(*", text, line);
    BlanksSum(2, |text|);
    assert p + [] == p && Blanks(|p|) + [] == Blanks(|p|);
    hide Newlines;
  }

  lemma CharThrough(c: char, rest: string, line: int)
    requires Fits(Code1(c), rest)
    ensures Through(Code, [c], [c], Newlines([c]), Code, rest, line)
  {
    assert rest != [] ==> ([c] + rest)[..2] == [c, rest[0]];
    assert rest != [] && c == '(' && rest[0] == '*' ==> "(*" <= [c] + rest;
    assert rest != [] && c == ';' && rest[0] == ';' ==> ";;" <= [c] + rest;
    OneToken(Code, [c], rest, line);
    assert [c][..1] == [c];
    hide Mask, Split, LaterLines;
  }

  lemma StartsSeparator(rest: string)
    ensures Separator(Code, ";;" + rest) && (";;" + rest)[2..] == rest
  {
  }

  /** Where a lexeme stands, the masker does to it what `Masked` says, the splitter takes it whole, and
      the line counter sees what `Seen` says; a separator ends a piece. */
  lemma LexemeThrough(l: Lexeme, rest: string, line: int)
    requires Fits(l, rest)
    ensures !l.Separator2? ==> Through(Code, Print(l), Masked(l), Seen(l), Code, rest, line)
    ensures l.Separator2? ==>
      && Mask(Code, ";;" + rest) == ";;" + Mask(Code, rest)
      && Split(Code, ";;" + rest) == [[]] + Split(Code, rest)
      && LaterLines(Code, ";;" + rest, line) == [line] + LaterLines(Code, rest, line)
  {
    hide Through, Newlines, Mask, Split, LaterLines;
    match l
    case Code1(c) => CharThrough(c, rest, line);
    case Separator2 => SeparatorCuts(rest, line);
    case Remark(body) => RemarkThrough(body, rest, line);
    case Quoted(items) =>
      QuoteThrough(Text, rest, line + Newlines(BareText(items)));
      StringThrough(items, "\"", Code, rest, line);
    case Term(text) =>
      BackquoteThrough(Backquote, rest, line + Newlines(text));
      TermFrom(text, "`", Code, rest, line);
      TermNewlines(text);
    case OpenRemark(text) => OpenRemarkThrough(text, line);
    case OpenQuoted(items, slash) =>
      OpenStringThrough(items, slash, line);
    case OpenTerm(text) =>
      NothingThrough(Backquote, [], line + Newlines(text));
      TermFrom(text, [], Backquote, [], line);
      assert "`" + text + [] == "`" + text;
      AtEnd(Code, "`" + text, "`" + text, Newlines(text), Backquote, line);
      OpenTermNewlines(text);
  }

  lemma TermNewlines(text: string)
    ensures Newlines("`" + text + "`") == Newlines(text)
  {
    OpenTermNewlines(text + "`");
    NewlinesSum(text, "`");
    Assoc("`", text, "`");
  }

  lemma OpenTermNewlines(text: string)
    ensures Newlines("`" + text) == Newlines(text)
  {
    NewlinesSum("`", text);
  }

  lemma SeparatorCuts(rest: string, line: int)
    ensures Mask(Code, ";;" + rest) == ";;" + Mask(Code, rest)
    ensures Split(Code, ";;" + rest) == [[]] + Split(Code, rest)
    ensures LaterLines(Code, ";;" + rest, line) == [line] + LaterLines(Code, rest, line)
  {
    StartsSeparator(rest);
    assert ";;" + rest == ";" + (";" + rest);
    TokenFront(Code, ";", rest);
    TokenFront(Code, ";", ";" + rest);
    assert ";" + (";" + Mask(Code, rest)) == ";;" + Mask(Code, rest);
  }

  lemma OpenStringThrough(items: seq<Item>, slash: bool, line: int)
    requires ClearItems(items)
    ensures var p := "\"" + PrintItems(items) + if slash then "\\" else "";
      Through(Code, p, Blanks(|p|), Seen(OpenQuoted(items, slash)), Code, [], line)
  {
    var end := if slash then "\\" else "";
    var n := Newlines(BareText(items));
    if slash {
      OneToken(Text, end, [], line + n);
    } else {
      NothingThrough(Text, [], line + n);
    }
    StringThrough(items, end, Text, [], line);
    hide *;
    var p := "\"" + PrintItems(items) + end;
    AtEnd(Code, p, Blanks(|p|), n, Text, line);
  }

  /** The two scanners and the line counter do what the grammar says, to any text. */
  lemma {:induction false} GrammarDecides(ls: seq<Lexeme>, line: int)
    requires Fit(ls)
    ensures Mask(Code, PrintAll(ls)) == MaskedAll(ls)
    ensures Split(Code, PrintAll(ls)) == CutAll(ls)
    ensures LaterLines(Code, PrintAll(ls), line) == LinesAll(ls, line)
  {
    if ls != [] {
      var rest := PrintAll(ls[1..]);
      LexemeThrough(ls[0], rest, line);
      hide Fits, Mask, Split, LaterLines, Masked, Seen, Print;
      GrammarDecides(ls[1..], if ls[0].Separator2? then line else line + Seen(ls[0]));
      SeparatorPrints(ls[0]);
    }
  }

  lemma SeparatorPrints(l: Lexeme)
    ensures l.Separator2? ==> Print(l) == Masked(l) == ";;"
  {
  }

  // ---------------------------------------------------------------- every text has lexemes

  function TermLength(s: string): (n: nat)
    ensures n <= |s| && '`' !in s[..n] && (n < |s| ==> s[n] == '`')
  {
    if s == [] || s[0] == '`' then 0 else 1 + TermLength(s[1..])
  }

  datatype ReadString = Closed(items: seq<Item>) | Open(items: seq<Item>, slash: bool)

  function PrintString(r: ReadString): string {
    PrintItems(r.items) + match r case Closed(_) => "\"" case Open(_, slash) => if slash then "\\" else ""
  }

  function Prepend(i: Item, r: ReadString): ReadString {
    r.(items := [i] + r.items)
  }

  lemma PrependPrints(i: Item, r: ReadString)
    ensures PrintString(Prepend(i, r)) == PrintItem(i) + PrintString(r)
    ensures ClearItems(r.items) && ClearItems([i]) ==> ClearItems(Prepend(i, r).items)
  {
    assert ([i] + r.items)[1..] == r.items;
  }

  /** What follows the opening quote of a string. */
  lemma {:induction false} StringIsRead(s: string) returns (r: ReadString)
    ensures ClearItems(r.items) && PrintString(r) <= s && (r.Open? ==> PrintString(r) == s)
    decreases |s|
  {
    if s == [] {
      return Open([], false);
    }
    if s[0] == '"' {
      return Closed([]);
    }
    if s == "\\" {
      return Open([], true);
    }
    var i := if s[0] == '\\' then Escaped(s[1]) else Bare(s[0]);
    var w := |PrintItem(i)|;
    assert s == PrintItem(i) + s[w..];
    var later := StringIsRead(s[w..]);
    r := Prepend(i, later);
    assert later.items == [] || forall j | j in later.items :: j in later.items;
    PrependPrints(i, later);
  }

  lemma FirstTerm(t: string) returns (l: Lexeme)
    ensures var s := "`" + t; Print(l) <= s && Fits(l, s[|Print(l)|..])
  {
    var n := TermLength(t);
    l := if n < |t| then Term(t[..n]) else OpenTerm(t);
    assert n == |t| ==> t[..n] == t;
  }

  lemma FirstString(t: string) returns (l: Lexeme)
    ensures var s := "\"" + t; Print(l) <= s && Fits(l, s[|Print(l)|..])
  {
    hide ClearItems;
    var r := StringIsRead(t);
    l := match r case Closed(items) => Quoted(items) case Open(items, slash) => OpenQuoted(items, slash);
    assert Print(l) == "\"" + PrintString(r);
  }

  lemma FirstRemark(t: string) returns (l: Lexeme)
    ensures var s := "(*" + t; Print(l) <= s && Fits(l, s[|Print(l)|..])
  {
    hide ReadBody, PrintBody;
    var body := ReadBody(t);
    l := if body.Some? then Remark(body.value) else OpenRemark(t);
    if body.None? {
      NeverClosed(t);
    }
  }

  lemma FirstLexeme(s: string) returns (l: Lexeme)
    requires s != []
    ensures Print(l) <= s && Fits(l, s[|Print(l)|..])
  {
    hide Clear, ClearItems;
    var t := s[1..];
    assert s == [s[0]] + t;
    if ";;" <= s {
      l := Separator2;
    } else if s[0] == '`' {
      l := FirstTerm(t);
    } else if s[0] == '"' {
      l := FirstString(t);
    } else if "(*" <= s {
      assert s == "(*" + s[2..];
      l := FirstRemark(s[2..]);
    } else {
      l := Code1(s[0]);
    }
  }

  lemma NeverClosed(text: string)
    requires ReadBody(text).None?
    ensures forall b | Clear(b) :: !(PrintBody(b) <= text)
  {
    forall b | Clear(b) ensures PrintBody(b) <= text ==> ReadBody(text).Some? {
      if PrintBody(b) <= text {
        ReadPrefix(b, text);
      }
    }
  }

  lemma ReadPrefix(b: Body, text: string)
    requires Clear(b) && PrintBody(b) <= text
    ensures ReadBody(text) == Some(b)
  {
    var rest := text[|PrintBody(b)|..];
    assert text == PrintBody(b) + rest;
    ReadPrinted(b, rest);
  }

  /** Every text is made of lexemes that fit. */
  lemma {:induction false} EveryTextHasLexemes(s: string) returns (ls: seq<Lexeme>)
    ensures Fit(ls) && PrintAll(ls) == s
    decreases |s|
  {
    if s == [] {
      return [];
    }
    var l := FirstLexeme(s);
    var n := |Print(l)|;
    var later := EveryTextHasLexemes(s[n..]);
    ls := [l] + later;
    assert ls[1..] == later;
    assert s == s[..n] + s[n..];
  }
}
