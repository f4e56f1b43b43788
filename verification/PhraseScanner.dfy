/** The two scanners of OCaml text: one masks comments and strings, one splits at `;;`. */
module PhraseScanner {
  import opened PythonText

  datatype Mode = Code | Text | Backquote | Comment(depth: nat)

  predicate Sane(m: Mode) { m.Comment? ==> m.depth > 0 }

  /** One scanner step: the mode after it, the characters it takes, whether the masker blanks them. */
  datatype Token = Token(mode: Mode, width: nat, masked: bool)

  /** `next` is the following character, or nothing at the end of the text. */
  function Step(m: Mode, ch: char, next: string): (t: Token)
    ensures 1 <= t.width <= 2 && (t.width == 2 ==> next != []) && (Sane(m) ==> Sane(t.mode))
  {
    match m
    case Backquote => Token(if ch == '`' then Code else Backquote, 1, false)
    case Text =>
      if ch == '\\' then Token(Text, if next != [] then 2 else 1, true)
      else Token(if ch == '"' then Code else Text, 1, true)
    case Comment(depth) =>
      if ch == '(' && next == "*" then Token(Comment(depth + 1), 2, true)
      else if ch == '*' && next == ")" then Token(if depth <= 1 then Code else Comment(depth - 1), 2, true)
      else Token(m, 1, true)
    case Code =>
      if ch == '`' then Token(Backquote, 1, false)
      else if ch == '"' then Token(Text, 1, true)
      else if ch == '(' && next == "*" then Token(Comment(1), 2, true)
      else Token(Code, 1, false)
  }

  function Peek(s: string): (next: string)
    ensures |s| <= 1 ==> next == []
    ensures |s| > 1 ==> next == [s[1]]
  {
    if |s| > 1 then [s[1]] else []
  }

  function PeekAt(s: string, i: nat): string {
    if i + 1 < |s| then [s[i + 1]] else []
  }

  function Advance(m: Mode, s: string): (t: Token)
    requires s != []
    ensures 1 <= t.width <= |s| && (Sane(m) ==> Sane(t.mode))
  {
    Step(m, s[0], Peek(s))
  }

  function Blanks(n: nat): (s: string)
    ensures |s| == n && forall i :: 0 <= i < n ==> s[i] == ' '
  {
    seq(n, _ => ' ')
  }

  function Mask(m: Mode, s: string): (t: string)
    ensures |t| == |s|
    decreases |s|
  {
    if s == [] then []
    else
      var t := Advance(m, s);
      Kept(t, s) + Mask(t.mode, s[t.width..])
  }

  predicate Separator(m: Mode, s: string) { m.Code? && s != [] && s[0] == ';' && Peek(s) == ";" }

  /** Put `p` in front of the first piece. */
  function Extend(p: string, pieces: seq<string>): (r: seq<string>)
    requires pieces != []
    ensures |r| == |pieces|
  {
    [p + pieces[0]] + pieces[1..]
  }

  /** The pieces between separators; the last one is the tail. */
  function Split(m: Mode, s: string): (pieces: seq<string>)
    ensures pieces != []
    decreases |s|
  {
    if s == [] then [[]]
    else if Separator(m, s) then [[]] + Split(Code, s[2..])
    else
      var t := Advance(m, s);
      Extend(s[..t.width], Split(t.mode, s[t.width..]))
  }

  /** The line each piece after the first is reported at. */
  function LaterLines(m: Mode, s: string, line: int): seq<int>
    decreases |s|
  {
    if s == [] then []
    else if Separator(m, s) then [line] + LaterLines(Code, s[2..], line)
    else
      var t := Advance(m, s);
      LaterLines(t.mode, s[t.width..], if s[0] == '\n' then line + 1 else line)
  }

  /** The pieces that become phrases: all of them, but not a blank tail. */
  function Phrases(s: string): seq<string> {
    var ps := Split(Code, s);
    if AllBlank(ps[|ps| - 1]) then ps[..|ps| - 1] else ps
  }

  function Rejoin(pieces: seq<string>): string
    requires pieces != []
  {
    if |pieces| == 1 then pieces[0] else pieces[0] + (";;" + Rejoin(pieces[1..]))
  }

  // ---------------------------------------------------------------- the masker

  function ModeOf(depth: nat, inString: bool, inBackquote: bool): Mode {
    if inBackquote then Backquote else if inString then Text else if depth > 0 then Comment(depth) else Code
  }

  predicate Exclusive(depth: int, inString: bool, inBackquote: bool) {
    depth >= 0 && !(inString && inBackquote) && (depth > 0 ==> !inString && !inBackquote)
  }

  function Min(a: nat, b: nat): nat { if a < b then a else b }

  /** Blank out `w` characters. */
  method Erase(chars: array<char>, i: nat, w: nat)
    requires i + w <= chars.Length
    modifies chars
    ensures chars[..] == Overwrite(old(chars[..]), i, w, true)
  {
    forall k | i <= k < i + w {
      chars[k] := ' ';
    }
  }

  /** One round of the masker's loop. */
  method MaskToken(chars: array<char>, i: nat, depth: nat, inString: bool, inBackquote: bool)
    returns (i': nat, depth': nat, inString': bool, inBackquote': bool)
    requires i < chars.Length && Exclusive(depth, inString, inBackquote)
    modifies chars
    ensures Exclusive(depth', inString', inBackquote')
    ensures var t := Step(ModeOf(depth, inString, inBackquote), old(chars[i]), PeekAt(old(chars[..]), i));
      && ModeOf(depth', inString', inBackquote') == t.mode
      && i < i' <= i + 2 && Min(i', chars.Length) == i + t.width
      && chars[..] == Overwrite(old(chars[..]), i, t.width, t.masked)
  {
    hide Overwrite;
    var ch, next := chars[i], PeekAt(chars[..], i);
    i', depth', inString', inBackquote' := i + 1, depth, inString, inBackquote;
    if inBackquote {
      if ch == '`' { inBackquote' := false; }
    } else if inString {
      if ch == '\\' {
        Erase(chars, i, if next != [] then 2 else 1);
        i' := i + 2;
      } else {
        Erase(chars, i, 1);
        if ch == '"' { inString' := false; }
      }
    } else if depth > 0 {
      if ch == '(' && next == "*" {
        Erase(chars, i, 2);
        depth', i' := depth + 1, i + 2;
      } else if ch == '*' && next == ")" {
        Erase(chars, i, 2);
        depth', i' := depth - 1, i + 2;
      } else {
        Erase(chars, i, 1);
      }
    } else if ch == '`' {
      inBackquote' := true;
    } else if ch == '"' {
      inString' := true;
      Erase(chars, i, 1);
    } else if ch == '(' && next == "*" {
      Erase(chars, i, 2);
      depth', i' := 1, i + 2;
    }
  }

  method MaskCommentsAndStrings(text: string) returns (masked: string)
    ensures masked == Mask(Code, text)
  {
    hide Step, Overwrite, Mask, ModeOf;
    var n := |text|;
    var chars := new char[n](i requires 0 <= i < n => text[i]);
    var i, depth, inString, inBackquote := 0, 0, false, false;
    assert Masking(text, chars[..], 0, ModeOf(depth, inString, inBackquote)) by { StartMasking(text, chars[..]); }
    while i < n
      invariant 0 <= i <= n + 1 && Exclusive(depth, inString, inBackquote)
      invariant Masking(text, chars[..], Min(i, n), ModeOf(depth, inString, inBackquote))
      decreases n - i
    {
      hide Masking;
      MaskStep(text, chars[..], i, ModeOf(depth, inString, inBackquote));
      i, depth, inString, inBackquote := MaskToken(chars, i, depth, inString, inBackquote);
    }
    masked := chars[..];
    EndMasking(text, masked, ModeOf(depth, inString, inBackquote));
  }

  lemma StartMasking(text: string, chars: string)
    requires text == chars
    ensures Masking(text, chars, 0, ModeOf(0, false, false))
  {
    assert text[0..] == text;
  }

  lemma EndMasking(text: string, chars: string, m: Mode)
    requires Masking(text, chars, |text|, m)
    ensures chars == Mask(Code, text)
  {
    assert chars[..|text|] == chars;
  }

  /** Up to `i` the characters are masked, from there on they are the text's. */
  predicate Masking(text: string, chars: string, i: nat, m: Mode) {
    && |chars| == |text| && i <= |text| && chars[i..] == text[i..]
    && Mask(Code, text) == chars[..i] + Mask(m, text[i..])
  }

  function Overwrite(chars: string, i: nat, w: nat, mask: bool): (r: string)
    requires i + w <= |chars|
    ensures |r| == |chars| && (!mask ==> r == chars)
  {
    if mask then chars[..i] + Blanks(w) + chars[i + w..] else chars
  }

  lemma Parts(a: string, b: string)
    ensures (a + b)[..|a|] == a && (a + b)[|a|..] == b
  {
  }

  lemma Assoc(a: string, b: string, c: string)
    ensures a + b + c == a + (b + c)
  {
  }

  function Kept(t: Token, s: string): (r: string)
    requires t.width <= |s|
    ensures |r| == t.width
  {
    if t.masked then Blanks(t.width) else s[..t.width]
  }

  lemma Overwriting(start: string, rest: string, t: Token)
    requires t.width <= |rest|
    ensures Overwrite(start + rest, |start|, t.width, t.masked) == start + Kept(t, rest) + rest[t.width..]
  {
    var chars := start + rest;
    assert chars[..|start|] == start && chars[|start| + t.width..] == rest[t.width..];
    assert rest == rest[..t.width] + rest[t.width..];
  }

  lemma MaskingFrom(text: string, head: string, done: string, later: string, m: Mode)
    requires text == done + later && |head| == |done| && Mask(Code, text) == head + Mask(m, later)
    ensures Masking(text, head + later, |head|, m)
  {
    Parts(head, later);
    Parts(done, later);
  }

  lemma MaskUnfold(m: Mode, s: string)
    requires s != []
    ensures var t := Advance(m, s); Mask(m, s) == Kept(t, s) + Mask(t.mode, s[t.width..])
  {
  }

  lemma MaskRest(text: string, start: string, done: string, rest: string, m: Mode)
    requires rest != [] && text == done + rest && |done| == |start|
    requires Mask(Code, text) == start + Mask(m, rest)
    ensures var t := Advance(m, rest);
      Masking(text, start + Kept(t, rest) + rest[t.width..], |start| + t.width, t.mode)
  {
    hide Advance, Kept, Mask, Masking;
    var t := Advance(m, rest);
    var front, later := rest[..t.width], rest[t.width..];
    CutAt(rest, t.width);
    MaskUnfold(m, rest);
    Assoc(start, Kept(t, rest), Mask(t.mode, later));
    Assoc(done, front, later);
    MaskingFrom(text, start + Kept(t, rest), done + front, later, t.mode);
  }

  lemma MaskStep(text: string, chars: string, i: nat, m: Mode)
    requires Masking(text, chars, i, m) && i < |text|
    ensures |chars| == |text|
    ensures var t := Step(m, chars[i], PeekAt(chars, i));
      i + t.width <= |text| && Masking(text, Overwrite(chars, i, t.width, t.masked), i + t.width, t.mode)
  {
    hide Step, Overwrite, Mask, Kept;
    var start, rest := chars[..i], chars[i..];
    assert chars == start + rest && text == text[..i] + rest;
    var t := Advance(m, rest);
    assert t == Step(m, chars[i], PeekAt(chars, i));
    MaskRest(text, start, text[..i], rest, m);
    Overwriting(start, rest, t);
  }

  // ---------------------------------------------------------------- splitting and joining

  lemma {:induction false} FirstPieceIsPrefix(m: Mode, s: string)
    ensures Split(m, s)[0] <= s
    ensures Split(m, s)[0] == [] ==> s == [] || Separator(m, s)
    decreases |s|
  {
    if s != [] && !Separator(m, s) {
      var t := Advance(m, s);
      FirstPieceIsPrefix(t.mode, s[t.width..]);
      assert s == s[..t.width] + s[t.width..];
    }
  }

  lemma SeparatorFront(m: Mode, s: string)
    requires Separator(m, s)
    ensures |s| >= 2 && s == ";;" + s[2..]
  {
  }

  lemma CutAt(s: string, w: nat)
    requires w <= |s|
    ensures s == s[..w] + s[w..]
  {
  }

  lemma {:induction false} SplitRejoins(m: Mode, s: string)
    ensures Rejoin(Split(m, s)) == s
    decreases |s|
  {
    hide Advance, Separator;
    if s == [] {
    } else if Separator(m, s) {
      SeparatorFront(m, s);
      SplitRejoins(Code, s[2..]);
      RejoinBlank(Split(Code, s[2..]));
    } else {
      var t := Advance(m, s);
      SplitRejoins(t.mode, s[t.width..]);
      hide Rejoin;
      RejoinExtend(s[..t.width], Split(t.mode, s[t.width..]));
      CutAt(s, t.width);
    }
  }

  lemma RejoinBlank(pieces: seq<string>)
    requires pieces != []
    ensures Rejoin([[]] + pieces) == ";;" + Rejoin(pieces)
  {
    assert ([[]] + pieces)[1..] == pieces;
  }

  lemma RejoinExtend(p: string, pieces: seq<string>)
    requires pieces != []
    ensures Rejoin(Extend(p, pieces)) == p + Rejoin(pieces)
  {
    if |pieces| > 1 {
      Assoc(p, pieces[0], ";;" + Rejoin(pieces[1..]));
    }
  }

  /** A token one character wide would be the same at the end of the text. */
  lemma NarrowToken(m: Mode, ch: char, next: string)
    requires Step(m, ch, next).width == 1
    ensures Step(m, ch, []) == Step(m, ch, next)
  {
  }

  /** The first token of `head + first + end`, given that of `head + later` where `first` begins `later`. */
  lemma SameToken(m: Mode, head: string, later: string, first: string, end: string)
    requires head != [] && first <= later && |head| == Advance(m, head + later).width
    requires first == [] ==> later == [] || later[0] == ';'
    requires end == [] || (end == ";;" && (first == [] ==> later != []))
    ensures Advance(m, head + (first + end)) == Advance(m, head + later)
    ensures !Separator(m, head + later) ==> !Separator(m, head + (first + end))
  {
    var s, x := head + later, head + (first + end);
    assert s[0] == x[0] == head[0];
    hide Step;
    if |head| > 1 {
      assert s[1] == x[1] == head[1];
    } else if first + end == [] {
      NarrowToken(m, s[0], Peek(s));
    } else {
      assert s[1] == later[0] == (first + end)[0] == x[1];
    }
  }

  /** Cutting the text after the first piece does not change its first token. */
  lemma PieceStep(m: Mode, s: string, end: string)
    requires s != [] && !Separator(m, s)
    requires var t := Advance(m, s); end == [] || (end == ";;" && |Split(t.mode, s[t.width..])| > 1)
    ensures var t := Advance(m, s); var first := Split(t.mode, s[t.width..])[0]; var p := s[..t.width] + first + end;
      Advance(m, p) == t && !Separator(m, p) && p[..t.width] == s[..t.width] && p[t.width..] == first + end
  {
    var t := Advance(m, s);
    var head, later := s[..t.width], s[t.width..];
    FirstPieceIsPrefix(t.mode, later);
    var first := Split(t.mode, later)[0];
    assert later == [] ==> |Split(t.mode, later)| == 1;
    hide Split;
    assert s == head + later;
    SameToken(m, head, later, first, end) by { hide Advance; }
    DropFront(head, first, end);
  }

  lemma ExtendTwo(p: string, a: string)
    ensures Extend(p, [a, []]) == [p + a, []]
  {
  }

  lemma {:induction false} FirstPieceIsClosed(m: Mode, s: string)
    requires |Split(m, s)| > 1
    ensures Closed(m, Split(m, s)[0])
    decreases |s|
  {
    if Separator(m, s) {
      assert [] + ";;" == ";;" && ";;"[2..] == [];
    } else {
      var t := Advance(m, s);
      var R := Split(t.mode, s[t.width..]);
      FirstPieceIsClosed(t.mode, s[t.width..]);
      PieceStep(m, s, ";;");
      ExtendTwo(s[..t.width], R[0]);
    }
  }

  /** `p` reads as one piece when a separator follows it. */
  predicate Closed(m: Mode, p: string) { Split(m, p + ";;") == [p, []] }

  lemma ExtendedPair(p: string, R: seq<string>, a: string)
    requires R != [] && Extend(p, R) == [a, []]
    ensures |p| <= |a| && a == p + a[|p|..] && R == [a[|p|..], []]
  {
    Parts(p, R[0]);
    assert Extend(p, R)[0] == a && Extend(p, R)[1] == [] == R[1];
  }

  lemma ExtendAppend(p: string, a: string, more: seq<string>)
    ensures Extend(p, [a] + more) == [p + a] + more
  {
  }

  lemma {:induction false} ClosedPieceSplits(m: Mode, a: string, rest: string)
    requires Closed(m, a)
    ensures Split(m, a + (";;" + rest)) == [a] + Split(Code, rest)
    decreases |a|
  {
    var short, long := a + ";;", a + (";;" + rest);
    assert short != [] && long != [] && Peek(short) == Peek(long) && short[0] == long[0];
    assert long == short + rest;
    if Separator(m, short) {
      assert a == Split(m, short)[0] == [];
      assert long[2..] == rest;
    } else {
      var t := Advance(m, short);
      var head, later := short[..t.width], short[t.width..];
      ExtendedPair(head, Split(t.mode, later), a);
      var a' := a[t.width..];
      DropFront(head, a', ";;");
      DropFront(head, a', ";;" + rest);
      hide Advance;
      ClosedPieceSplits(t.mode, a', rest);
      ExtendAppend(head, a', Split(Code, rest));
    }
  }

  lemma DropFront(p: string, a: string, more: string)
    ensures p + a + more == p + (a + more)
    ensures (p + a + more)[..|p|] == p && (p + a + more)[|p|..] == a + more
  {
    Parts(p, a + more);
    Assoc(p, a, more);
  }

  /** Every piece but the last is closed, and the last holds no separator. */
  predicate Cut(pieces: seq<string>) {
    && pieces != [] && Split(Code, pieces[|pieces| - 1]) == [pieces[|pieces| - 1]]
    && forall k :: 0 <= k < |pieces| - 1 ==> Closed(Code, pieces[k])
  }

  lemma {:induction false} SplitIsCut(s: string)
    ensures Cut(Split(Code, s))
    decreases |s|
  {
    var ps := Split(Code, s);
    SplitRejoins(Code, s);
    if |ps| > 1 {
      var rest := Rejoin(ps[1..]);
      FirstPieceIsClosed(Code, s);
      ClosedPieceSplits(Code, ps[0], rest);
      assert ps[1..] == Split(Code, rest);
      SplitIsCut(rest);
      assert forall k :: 1 <= k < |ps| - 1 ==> ps[k] == ps[1..][k - 1];
    }
  }

  lemma {:induction false} CutSplits(pieces: seq<string>)
    requires Cut(pieces)
    ensures Split(Code, Rejoin(pieces)) == pieces
  {
    hide Split, Separator;
    if |pieces| > 1 {
      assert Cut(pieces[1..]) && Closed(Code, pieces[0]);
      hide Cut, Closed;
      CutSplits(pieces[1..]);
      ClosedPieceSplits(Code, pieces[0], Rejoin(pieces[1..]));
    }
  }

  /** The split is the only way to cut the text at its top-level separators. */
  lemma SplitCharacterized(s: string, pieces: seq<string>)
    ensures pieces == Split(Code, s) <==> Cut(pieces) && Rejoin(pieces) == s
  {
    SplitIsCut(s);
    SplitRejoins(Code, s);
    if Cut(pieces) {
      CutSplits(pieces);
    }
  }

  /** The pieces that become phrases are all of them, the last one only when some character of it is
      not blank. */
  lemma PhrasesAre(s: string)
    ensures var pieces := Split(Code, s); var tail := pieces[|pieces| - 1];
      if exists i :: 0 <= i < |tail| && !Blank(tail[i]) then Phrases(s) == pieces else Phrases(s) + [tail] == pieces
  {
    var pieces := Split(Code, s);
    assert pieces == pieces[..|pieces| - 1] + [pieces[|pieces| - 1]];
    hide Split;
  }

  /** Only a blank tail, with the separator before it, is lost. */
  lemma PhrasesRestoreText(s: string) returns (tail: string)
    ensures AllBlank(tail)
    ensures var kept := Phrases(s);
      (kept != [] && Cut(kept) && Rejoin(kept) == s) || (Cut(kept + [tail]) && Rejoin(kept + [tail]) == s)
  {
    var ps := Split(Code, s);
    SplitCharacterized(s, ps);
    tail := if AllBlank(ps[|ps| - 1]) then ps[|ps| - 1] else [];
    assert ps == ps[..|ps| - 1] + [ps[|ps| - 1]];
  }

  // ---------------------------------------------------------------- the two scanners agree

  /** The mode in which masked text reads on: comments and strings have become blanks in code. */
  function After(m: Mode): Mode { if m.Backquote? then Backquote else Code }

  /** Scanning `p + v` where `p` is one token. */
  lemma TokenFront(m: Mode, p: string, v: string)
    requires p != [] && Advance(m, p + v).width == |p|
    ensures var t := Advance(m, p + v);
      Mask(m, p + v) == Kept(t, p) + Mask(t.mode, v)
      && (!Separator(m, p + v) ==> Split(m, p + v) == Extend(p, Split(t.mode, v)))
  {
    Parts(p, v);
    hide Advance;
  }

  lemma MaskedFront(m: Mode, s: string)
    requires s != []
    ensures var u := Mask(m, s); u[0] == s[0] || u[0] == ' '
    ensures !Advance(m, s).masked ==> Mask(m, s)[0] == s[0]
  {
  }

  lemma KeptStep(m: Mode, ch: char, next: string, next': string)
    requires !Step(m, ch, next).masked && (next' == next || next' == " ")
    ensures var t := Step(m, ch, next);
      t.width == 1 && After(m) == m && After(t.mode) == t.mode && Step(m, ch, next') == t
  {
  }

  lemma MaskedPeek(m: Mode, s: string, v: string)
    requires s != [] && !Advance(m, s).masked && Advance(m, s).width == 1 && v == Mask(Advance(m, s).mode, s[1..])
    ensures var next := Peek([s[0]] + v); next == Peek(s) || next == " "
    ensures Separator(m, [s[0]] + v) <==> Separator(m, s)
  {
    var t := Advance(m, s);
    if |s| > 1 {
      MaskedFront(t.mode, s[1..]);
      hide Mask;
      assert Peek([s[0]] + v) == [v[0]] && Peek(s) == [s[1]];
      if Separator(m, s) {
        assert !Advance(Code, s[1..]).masked;
      }
    }
  }

  /** Masking only blanks characters out. */
  lemma {:induction false} MaskOnlyBlanks(m: Mode, s: string, i: nat)
    requires i < |s|
    ensures Mask(m, s)[i] == s[i] || Mask(m, s)[i] == ' '
    decreases |s|
  {
    var t := Advance(m, s);
    MaskUnfold(m, s);
    hide Mask, Advance;
    if i >= t.width {
      MaskOnlyBlanks(t.mode, s[t.width..], i - t.width);
    }
  }

  /** Where no string or comment can begin it blanks nothing. */
  lemma {:induction false} MaskKeepsPlainText(m: Mode, s: string)
    requires (m.Code? || m.Backquote?) && Harmless(s)
    ensures Mask(m, s) == s
    decreases |s|
  {
    if s != [] {
      MaskKeepsPlainText(Advance(m, s).mode, s[1..]);
      CutAt(s, 1);
    }
  }

  /** No quote and no opening of a comment. */
  predicate Harmless(s: string) {
    (forall i :: 0 <= i < |s| ==> s[i] != '"') && forall i :: 0 <= i < |s| - 1 ==> !(s[i] == '(' && s[i + 1] == '*')
  }

  /** A token the masker keeps is one character and reads the same in the masked text. */
  lemma KeptToken(m: Mode, s: string)
    requires s != [] && !Advance(m, s).masked
    ensures var t := Advance(m, s); var v := Mask(t.mode, s[1..]);
      t.width == 1 && After(t.mode) == t.mode && After(m) == m && Kept(t, s) == [s[0]] == s[..1]
      && Advance(m, [s[0]] + v) == t && (Separator(m, s) <==> Separator(m, [s[0]] + v))
  {
    KeptStep(m, s[0], Peek(s), " ");
    var v := Mask(Advance(m, s).mode, s[1..]);
    MaskedPeek(m, s, v);
    hide Mask, Step;
  }

  lemma ExtendTwice(p: string, q: string, pieces: seq<string>)
    requires pieces != []
    ensures Extend(p, Extend(q, pieces)) == Extend(p + q, pieces)
  {
    Assoc(p, q, pieces[0]);
  }

  lemma BlankFront(v: string)
    ensures Split(Code, " " + v) == Extend(" ", Split(Code, v))
    ensures Mask(Code, " " + v) == " " + Mask(Code, v)
  {
    assert (" " + v)[0] == ' ';
    TokenFront(Code, " ", v);
  }

  lemma BlanksFront(w: nat, v: string)
    requires 1 <= w <= 2
    ensures Split(Code, Blanks(w) + v) == Extend(Blanks(w), Split(Code, v))
    ensures Mask(Code, Blanks(w) + v) == Blanks(w) + Mask(Code, v)
  {
    BlankFront(v);
    if w == 2 {
      BlankFront(" " + v);
      assert Blanks(2) == " " + " ";
      Assoc(" ", " ", v);
      Assoc(" ", " ", Mask(Code, v));
      ExtendTwice(" ", " ", Split(Code, v));
    } else {
      assert Blanks(1) == " ";
    }
  }

  /** How the masked text scans, a token at a time. */
  lemma MaskedToken(m: Mode, s: string)
    requires s != []
    ensures var t := Advance(m, s); var v := Mask(t.mode, s[t.width..]);
      && Mask(m, s) == Kept(t, s) + v
      && Mask(After(m), Mask(m, s)) == Kept(t, s) + Mask(After(t.mode), v)
      && (!Separator(m, s) ==> Split(After(m), Mask(m, s)) == Extend(Kept(t, s), Split(After(t.mode), v)))
  {
    var t := Advance(m, s);
    var v := Mask(t.mode, s[t.width..]);
    assert Mask(m, s) == Kept(t, s) + v;
    if t.masked {
      assert After(m) == After(t.mode) == Code by { MaskedStep(m, s[0], Peek(s)); }
      hide Mask, Split, Separator, Advance;
      BlanksFront(t.width, v);
    } else {
      KeptToken(m, s);
      hide Mask, Split, Separator, Advance;
      TokenFront(m, [s[0]], v);
    }
  }

  lemma MaskedStep(m: Mode, ch: char, next: string)
    requires Step(m, ch, next).masked
    ensures After(m) == After(Step(m, ch, next).mode) == Code
  {
  }

  /** Masking twice is masking once. */
  lemma {:induction false} MaskIsIdempotent(m: Mode, s: string)
    ensures Mask(After(m), Mask(m, s)) == Mask(m, s)
    decreases |s|
  {
    if s != [] {
      var t := Advance(m, s);
      MaskIsIdempotent(t.mode, s[t.width..]);
      MaskedToken(m, s);
    }
  }

  function MaskEach(m: Mode, pieces: seq<string>): (r: seq<string>)
    requires pieces != []
    ensures |r| == |pieces|
  {
    seq(|pieces|, k requires 0 <= k < |pieces| => Mask(if k == 0 then m else Code, pieces[k]))
  }

  lemma MaskEachExtend(m: Mode, p: string, q: string, m': Mode, pieces: seq<string>)
    requires pieces != [] && Mask(m, p + pieces[0]) == q + Mask(m', pieces[0])
    ensures MaskEach(m, Extend(p, pieces)) == Extend(q, MaskEach(m', pieces))
  {
  }

  lemma MaskEachBlank(pieces: seq<string>)
    requires pieces != []
    ensures MaskEach(Code, [[]] + pieces) == [[]] + MaskEach(Code, pieces)
  {
  }

  /** Both scanners find the same separators, and masking a piece gives the piece of the masked text. */
  lemma {:induction false} ScannersAgree(m: Mode, s: string)
    ensures Split(After(m), Mask(m, s)) == MaskEach(m, Split(m, s))
    decreases |s|
  {
    if s == [] {
    } else if Separator(m, s) {
      ScannersAgree(Code, s[2..]);
      SeparatorMasked(s);
      MaskEachBlank(Split(Code, s[2..]));
    } else {
      var t := Advance(m, s);
      var later := s[t.width..];
      ScannersAgree(t.mode, later);
      MaskedToken(m, s);
      PieceMasked(m, s);
      MaskEachExtend(m, s[..t.width], Kept(t, s), t.mode, Split(t.mode, later));
      hide Mask, MaskEach, Advance, Separator;
    }
  }

  lemma SeparatorMasked(s: string)
    requires Separator(Code, s)
    ensures Split(Code, Mask(Code, s)) == [[]] + Split(Code, Mask(Code, s[2..]))
  {
    var v := Mask(Code, s[2..]);
    SeparatorFront(Code, s);
    assert ";;" + s[2..] == ";" + (";" + s[2..]);
    TokenFront(Code, ";", s[2..]);
    TokenFront(Code, ";", ";" + s[2..]);
    assert Mask(Code, s) == ";" + (";" + v);
    Parts(";;", v);
    assert ";" + (";" + v) == ";;" + v;
  }

  lemma PieceMasked(m: Mode, s: string)
    requires s != [] && !Separator(m, s)
    ensures var t := Advance(m, s); var first := Split(t.mode, s[t.width..])[0];
      Mask(m, s[..t.width] + first) == Kept(t, s) + Mask(t.mode, first)
  {
    var t := Advance(m, s);
    var first := Split(t.mode, s[t.width..])[0];
    PieceStep(m, s, []);
    hide Split, Separator, Step;
    assert s[..t.width] + first + [] == s[..t.width] + first;
    TokenFront(m, s[..t.width], first);
  }

  /** For the two functions the source offers: the phrases of the masked text are the masked phrases. */
  lemma MaskedPhrases(s: string)
    ensures Mask(Code, Mask(Code, s)) == Mask(Code, s)
    ensures Split(Code, Mask(Code, s)) == MaskEach(Code, Split(Code, s))
  {
    MaskIsIdempotent(Code, s);
    ScannersAgree(Code, s);
  }

  // ---------------------------------------------------------------- the splitter

  /** The pieces found and the one being read make up the split of the whole text. */
  predicate Splitting(text: string, done: seq<string>, start: nat, i: nat, m: Mode) {
    && start <= i <= |text|
    && Split(Code, text) == done + Extend(text[start..i], Split(m, text[i..]))
  }

  predicate Lining(text: string, first: int, lines: seq<int>, current: int, i: nat, m: Mode, line: int) {
    && i <= |text|
    && [first] + LaterLines(Code, text, first) == lines + ([current] + LaterLines(m, text[i..], line))
  }

  lemma SplitToken(text: string, done: seq<string>, start: nat, i: nat, m: Mode)
    requires Splitting(text, done, start, i, m) && i < |text| && !Separator(m, text[i..])
    ensures var t := Step(m, text[i], PeekAt(text, i));
      Splitting(text, done, start, i + t.width, t.mode)
  {
    var rest := text[i..];
    var t := Advance(m, rest);
    var front, later := rest[..t.width], rest[t.width..];
    assert t == Step(m, text[i], PeekAt(text, i));
    assert text[start..i] + front == text[start..i + t.width] && later == text[i + t.width..];
    hide Advance, Separator;
    ExtendTwice(text[start..i], front, Split(t.mode, later));
  }

  lemma ExtendNothing(pieces: seq<string>)
    requires pieces != []
    ensures Extend([], pieces) == pieces
  {
    assert [] + pieces[0] == pieces[0];
  }

  lemma ExtendBlank(p: string, pieces: seq<string>)
    ensures Extend(p, [[]] + pieces) == [p] + pieces
  {
    assert p + [] == p;
  }

  lemma SplitHere(text: string, done: seq<string>, start: nat, i: nat)
    requires Splitting(text, done, start, i, Code) && i < |text| && Separator(Code, text[i..])
    ensures i + 2 <= |text| && Splitting(text, done + [text[start..i]], i + 2, i + 2, Code)
  {
    var rest := text[i..];
    var pieces := Split(Code, rest[2..]);
    assert rest[2..] == text[i + 2..] && text[i + 2..i + 2] == [];
    assert Split(Code, rest) == [[]] + pieces;
    hide Split, Separator;
    ExtendBlank(text[start..i], pieces);
    ExtendNothing(pieces);
    assert done + ([text[start..i]] + pieces) == done + [text[start..i]] + pieces;
  }

  lemma LineToken(text: string, first: int, lines: seq<int>, current: int, i: nat, m: Mode, line: int)
    requires Lining(text, first, lines, current, i, m, line) && i < |text| && !Separator(m, text[i..])
    ensures var t := Step(m, text[i], PeekAt(text, i));
      Lining(text, first, lines, current, i + t.width, t.mode, if text[i] == '\n' then line + 1 else line)
  {
    var rest := text[i..];
    var t := Advance(m, rest);
    assert t == Step(m, text[i], PeekAt(text, i)) && rest[t.width..] == text[i + t.width..];
  }

  lemma LineHere(text: string, first: int, lines: seq<int>, current: int, i: nat, line: int)
    requires Lining(text, first, lines, current, i, Code, line) && i < |text| && Separator(Code, text[i..])
    ensures i + 2 <= |text| && Lining(text, first, lines + [current], line, i + 2, Code, line)
  {
    var later := text[i..][2..];
    assert later == text[i + 2..];
    assert LaterLines(Code, text[i..], line) == [line] + LaterLines(Code, later, line);
    hide LaterLines, Separator;
    var tail := [line] + LaterLines(Code, later, line);
    assert lines + ([current] + tail) == lines + [current] + tail;
  }

  function Texts(phrases: seq<(string, int)>): (r: seq<string>)
    ensures |r| == |phrases|
  {
    seq(|phrases|, k requires 0 <= k < |phrases| => phrases[k].0)
  }

  function Lines(phrases: seq<(string, int)>): (r: seq<int>)
    ensures |r| == |phrases|
  {
    seq(|phrases|, k requires 0 <= k < |phrases| => phrases[k].1)
  }

  /** The loop's state: phrases found, the one being read, the scan position and line. */
  predicate Reading(text: string, first: int, phrases: seq<(string, int)>, start: nat, current: int, i: nat,
                    m: Mode, line: int) {
    Splitting(text, Texts(phrases), start, i, m) && Lining(text, first, Lines(phrases), current, i, m, line)
  }

  lemma ReadToken(text: string, first: int, phrases: seq<(string, int)>, start: nat, current: int, i: nat,
                  m: Mode, line: int)
    requires i < |text| && !(m.Code? && text[i] == ';' && PeekAt(text, i) == ";")
    requires Reading(text, first, phrases, start, current, i, m, line)
    ensures var t := Step(m, text[i], PeekAt(text, i));
      Reading(text, first, phrases, start, current, i + t.width, t.mode, if text[i] == '\n' then line + 1 else line)
  {
    assert !Separator(m, text[i..]);
    hide Splitting, Lining, Separator, Step;
    SplitToken(text, Texts(phrases), start, i, m);
    LineToken(text, first, Lines(phrases), current, i, m, line);
  }

  lemma ReadSeparator(text: string, first: int, phrases: seq<(string, int)>, start: nat, current: int, i: nat,
                      line: int)
    requires i < |text| && text[i] == ';' && PeekAt(text, i) == ";"
    requires Reading(text, first, phrases, start, current, i, Code, line)
    ensures start <= i && i + 2 <= |text|
      && Reading(text, first, phrases + [(text[start..i], current)], i + 2, line, i + 2, Code, line)
  {
    assert Separator(Code, text[i..]);
    SplitHere(text, Texts(phrases), start, i);
    LineHere(text, first, Lines(phrases), current, i, line);
    var more := phrases + [(text[start..i], current)];
    assert Texts(more) == Texts(phrases) + [text[start..i]] && Lines(more) == Lines(phrases) + [current];
  }

  lemma DoneReading(text: string, first: int, phrases: seq<(string, int)>, start: nat, current: int, m: Mode, line: int)
    requires Reading(text, first, phrases, start, current, |text|, m, line)
    ensures start <= |text| && var tail := text[start..];
      var all := if AllBlank(tail) then phrases else phrases + [(tail, current)];
      Texts(all) == Phrases(text) && Lines(all) <= [first] + LaterLines(Code, text, first)
  {
    var tail := text[start..];
    EndSplitting(text, Texts(phrases), start, m);
    var all := if AllBlank(tail) then phrases else phrases + [(tail, current)];
    assert text[|text|..] == [] && Lines(phrases) + ([current] + []) == Lines(phrases) + [current];
    assert Texts(phrases + [(tail, current)]) == Texts(phrases) + [tail];
    assert Lines(phrases + [(tail, current)]) == Lines(phrases) + [current];
  }

  /** The phrases with their lines, in one pass. */
  method SplitPhrases(text: string, startLine: int) returns (phrases: seq<(string, int)>)
    ensures Texts(phrases) == Phrases(text)
    ensures Lines(phrases) <= [startLine] + LaterLines(Code, text, startLine)
  {
    hide Reading, Step;
    var n := |text|;
    phrases := [];
    var phraseStart, phraseLine, line, i := 0, startLine, startLine, 0;
    var depth, inString, inBackquote := 0, false, false;
    StartReading(text, startLine);
    while i < n
      invariant phraseStart >= 0 && 0 <= i <= n + 1 && Exclusive(depth, inString, inBackquote)
      invariant Reading(text, startLine, phrases, phraseStart, phraseLine, Min(i, n),
                        ModeOf(depth, inString, inBackquote), line)
      decreases n - i
    {
      var ch, next := text[i], PeekAt(text, i);
      var mode := ModeOf(depth, inString, inBackquote);
      if mode.Code? && ch == ';' && next == ";" {
        ReadSeparator(text, startLine, phrases, phraseStart, phraseLine, i, line);
        phrases := phrases + [(text[phraseStart..i], phraseLine)];
        i := i + 2;
        phraseStart, phraseLine := i, line;
      } else {
        ReadToken(text, startLine, phrases, phraseStart, phraseLine, i, mode, line);
        if ch == '\n' { line := line + 1; }
        i, depth, inString, inBackquote := SkipToken(ch, next, i, n, depth, inString, inBackquote);
      }
    }
    DoneReading(text, startLine, phrases, phraseStart, phraseLine, ModeOf(depth, inString, inBackquote), line);
    var tail := text[phraseStart..];
    if !AllBlank(tail) {
      phrases := phrases + [(tail, phraseLine)];
    }
  }

  /** The rounds of the splitter's loop that find no separator. */
  method SkipToken(ch: char, next: string, i: nat, n: nat, depth: nat, inString: bool, inBackquote: bool)
    returns (i': nat, depth': nat, inString': bool, inBackquote': bool)
    requires Exclusive(depth, inString, inBackquote) && |next| <= 1 && i < n && (next == [] <==> i + 1 == n)
    ensures Exclusive(depth', inString', inBackquote')
    ensures var t := Step(ModeOf(depth, inString, inBackquote), ch, next);
      ModeOf(depth', inString', inBackquote') == t.mode && i < i' <= i + 2 && Min(i', n) == i + t.width
  {
    i', depth', inString', inBackquote' := i + 1, depth, inString, inBackquote;
    if inBackquote {
      if ch == '`' { inBackquote' := false; }
    } else if inString {
      if ch == '\\' {
        i' := i + 2;
      } else if ch == '"' {
        inString' := false;
      }
    } else if depth > 0 {
      if ch == '(' && next == "*" {
        depth', i' := depth + 1, i + 2;
      } else if ch == '*' && next == ")" {
        depth', i' := depth - 1, i + 2;
      }
    } else if ch == '`' {
      inBackquote' := true;
    } else if ch == '"' {
      inString' := true;
    } else if ch == '(' && next == "*" {
      depth', i' := 1, i + 2;
    }
  }

  lemma StartReading(text: string, first: int)
    ensures Reading(text, first, [], 0, first, 0, Code, first)
  {
    assert text[0..] == text && text[0..0] == [];
    ExtendNothing(Split(Code, text));
    assert [] + Split(Code, text) == Split(Code, text) && Texts([]) == [] && Lines([]) == [];
    var all := [first] + LaterLines(Code, text, first);
    assert [] + all == all;
  }

  lemma EndSplitting(text: string, done: seq<string>, start: nat, m: Mode)
    requires Splitting(text, done, start, |text|, m)
    ensures Split(Code, text) == done + [text[start..]]
    ensures Phrases(text) == if AllBlank(text[start..]) then done else done + [text[start..]]
  {
    hide AllBlank;
    var tail := text[start..];
    assert text[|text|..] == [] && text[start..|text|] == tail;
    assert Split(m, []) == [[]] + [];
    ExtendBlank(tail, []);
    assert [tail] + [] == [tail];
    hide Split;
    assert (done + [tail])[..|done|] == done;
  }

  // ---------------------------------------------------------------- lines

  function Newlines(s: string): nat {
    if s == [] then 0 else (if s[0] == '\n' then 1 else 0) + Newlines(s[1..])
  }

  /** Backslash-newline pairs inside strings, in the first `n` characters. */
  function EscapedNewlines(m: Mode, s: string, n: nat): nat
    decreases |s|
  {
    if s == [] || n == 0 then 0
    else
      var t := Advance(m, s);
      (if m.Text? && s[0] == '\\' && Peek(s) == "\n" then 1 else 0)
        + EscapedNewlines(t.mode, s[t.width..], if n > t.width then n - t.width else 0)
  }

  /** Where piece `k` starts. */
  function Offset(pieces: seq<string>, k: nat): nat
    requires k <= |pieces|
  {
    if k == 0 then 0 else |pieces[0]| + 2 + Offset(pieces[1..], k - 1)
  }

  lemma {:induction false} NewlinesSum(a: string, b: string)
    ensures Newlines(a + b) == Newlines(a) + Newlines(b)
  {
    if a == [] {
      assert a + b == b;
    } else {
      assert (a + b)[1..] == a[1..] + b;
      NewlinesSum(a[1..], b);
    }
  }

  lemma TokenNewlines(m: Mode, s: string)
    requires s != []
    ensures Newlines(s[..Advance(m, s).width])
      == (if s[0] == '\n' then 1 else 0) + (if m.Text? && s[0] == '\\' && Peek(s) == "\n" then 1 else 0)
  {
    var w := Advance(m, s).width;
    if w == 2 {
      assert s[..2] == [s[0]] + [s[1]];
      NewlinesSum([s[0]], [s[1]]);
    } else {
      assert s[..1] == [s[0]];
    }
  }

  lemma OffsetExtend(p: string, pieces: seq<string>, k: nat)
    requires 0 < k <= |pieces|
    ensures Offset(Extend(p, pieces), k) == |p| + Offset(pieces, k)
  {
  }

  lemma NewlinesPrefix(s: string, w: nat, n: nat)
    requires w <= n <= |s|
    ensures Newlines(s[..n]) == Newlines(s[..w]) + Newlines(s[w..][..n - w])
  {
    assert s[..n] == s[..w] + s[w..][..n - w];
    NewlinesSum(s[..w], s[w..][..n - w]);
  }

  lemma {:induction false} LinePerPiece(m: Mode, s: string, line: int)
    ensures |LaterLines(m, s, line)| == |Split(m, s)| - 1
    decreases |s|
  {
    if s != [] {
      if Separator(m, s) {
        LinePerPiece(Code, s[2..], line);
      } else {
        var t := Advance(m, s);
        LinePerPiece(t.mode, s[t.width..], if s[0] == '\n' then line + 1 else line);
      }
    }
  }

  lemma SeparatorNewlines(s: string, n: nat)
    requires Separator(Code, s) && 2 <= n <= |s|
    ensures Newlines(s[..n]) == Newlines(s[2..][..n - 2])
  {
    assert s[..2] == [s[0]] + [s[1]];
    NewlinesSum([s[0]], [s[1]]);
    hide Separator;
    NewlinesPrefix(s, 2, n);
  }

  lemma SeparatorEscapes(s: string, n: nat)
    requires Separator(Code, s) && 2 <= n <= |s|
    ensures EscapedNewlines(Code, s, n) == EscapedNewlines(Code, s[2..], n - 2)
  {
    assert s[1..][1..] == s[2..];
    assert EscapedNewlines(Code, s[1..], n - 1) == EscapedNewlines(Code, s[2..], n - 2);
  }

  predicate LineIs(m: Mode, s: string, line: int, k: nat)
    requires 0 < k < |Split(m, s)|
  {
    var at := Offset(Split(m, s), k);
    && at <= |s| && k <= |LaterLines(m, s, line)|
    && LaterLines(m, s, line)[k - 1] == line + Newlines(s[..at]) - EscapedNewlines(m, s, at)
  }

  lemma LineAtSeparator(s: string, line: int, k: nat)
    requires Separator(Code, s) && 0 < k < |Split(Code, s)|
    requires k > 1 ==> LineIs(Code, s[2..], line, k - 1)
    ensures LineIs(Code, s, line, k)
  {
    var rest := Split(Code, s[2..]);
    assert ([[]] + rest)[1..] == rest;
    assert Offset(Split(Code, s), k) == 2 + Offset(rest, k - 1);
    SeparatorNewlines(s, 2 + Offset(rest, k - 1));
    SeparatorEscapes(s, 2 + Offset(rest, k - 1));
    assert k == 1 ==> s[2..][..0] == [];
  }

  lemma LineAfterToken(m: Mode, s: string, line: int, k: nat)
    requires s != [] && !Separator(m, s) && 0 < k < |Split(m, s)|
    requires var t := Advance(m, s); LineIs(t.mode, s[t.width..], if s[0] == '\n' then line + 1 else line, k)
    ensures LineIs(m, s, line, k)
  {
    var t := Advance(m, s);
    var later := s[t.width..];
    var at := Offset(Split(t.mode, later), k);
    OffsetExtend(s[..t.width], Split(t.mode, later), k);
    TokenNewlines(m, s);
    NewlinesPrefix(s, t.width, t.width + at);
    hide Newlines, Advance, Offset;
  }

  /** A piece's line: the newlines before it, but for those a backslash in a string hides. */
  lemma {:induction false} LineFormula(m: Mode, s: string, line: int, k: nat)
    requires 0 < k < |Split(m, s)|
    ensures LineIs(m, s, line, k)
    decreases |s|
  {
    if Separator(m, s) {
      if k > 1 {
        LineFormula(Code, s[2..], line, k - 1);
      }
      LineAtSeparator(s, line, k);
    } else {
      var t := Advance(m, s);
      LineFormula(t.mode, s[t.width..], if s[0] == '\n' then line + 1 else line, k);
      LineAfterToken(m, s, line, k);
    }
  }

  /** A reported line is the true line exactly when no string before it escapes a newline. */
  lemma LinesAreTrue(s: string, first: int, k: nat)
    requires k < |Split(Code, s)|
    ensures |LaterLines(Code, s, first)| == |Split(Code, s)| - 1 && Offset(Split(Code, s), k) <= |s|
    ensures var before := s[..Offset(Split(Code, s), k)];
      ([first] + LaterLines(Code, s, first))[k] == first + Newlines(before)
      <==> EscapedNewlines(Code, s, |before|) == 0
  {
    LinePerPiece(Code, s, first);
    if k > 0 {
      LineFormula(Code, s, first, k);
    } else {
      assert s[..0] == [];
    }
  }

  /** The exception is real: after a string that is continued over a line end, every later phrase is
      reported too early. */
  lemma ContinuedStringShiftsLines(rest: string, first: int, k: nat)
    requires 0 < k < |Split(Code, "\"" + ("\\\n" + rest))|
    ensures var s := "\"" + ("\\\n" + rest);
      LineIs(Code, s, first, k)
      && LaterLines(Code, s, first)[k - 1] < first + Newlines(s[..Offset(Split(Code, s), k)])
  {
    var s1 := "\\\n" + rest;
    var s := "\"" + s1;
    LineFormula(Code, s, first, k);
    assert s[0] == '"' && s[1..] == s1 && s1[0] == '\\' && s1[1] == '\n';
    assert Split(Code, s) == Extend(s[..1], Split(Text, s1));
    OffsetExtend(s[..1], Split(Text, s1), k);
    assert Split(Text, s1) == Extend(s1[..2], Split(Text, s1[2..]));
    OffsetExtend(s1[..2], Split(Text, s1[2..]), k);
    var at := Offset(Split(Code, s), k);
    hide Newlines, Offset, Split, LaterLines;
    assert EscapedNewlines(Code, s, at) == EscapedNewlines(Text, s1, at - 1);
    assert EscapedNewlines(Text, s1, at - 1) >= 1;
  }
}
