/** Python's notions of whitespace, lines and decimal numbers. */
module PythonText {

  /** The characters `str.isspace` accepts. */
  predicate Blank(c: char) {
    || '\t' <= c <= '\r'
    || '\U{1C}' <= c <= ' '
    || c in {'\U{85}', '\U{A0}', '\U{1680}', '\U{2028}', '\U{2029}', '\U{202F}', '\U{205F}', '\U{3000}'}
    || '\U{2000}' <= c <= '\U{200A}'
  }

  /** Every one of them, by its number. */
  lemma BlankMeans(c: char)
    ensures Blank(c) <==> c as int in {
      0x09, 0x0A, 0x0B, 0x0C, 0x0D, 0x1C, 0x1D, 0x1E, 0x1F, 0x20, 0x85, 0xA0, 0x1680, 0x2000, 0x2001, 0x2002, 0x2003,
      0x2004, 0x2005, 0x2006, 0x2007, 0x2008, 0x2009, 0x200A, 0x2028, 0x2029, 0x202F, 0x205F, 0x3000}
  {
  }

  predicate AllBlank(s: string) {
    forall i :: 0 <= i < |s| ==> Blank(s[i])
  }

  /** Length of the run of non-blank characters at the front. */
  function SolidLength(s: string): (n: nat)
    ensures n <= |s| && (n < |s| ==> Blank(s[n]))
    ensures forall i :: 0 <= i < n ==> !Blank(s[i])
  {
    if s == [] || Blank(s[0]) then 0 else 1 + SolidLength(s[1..])
  }

  function Words(s: string): (w: seq<string>)
    ensures forall x | x in w :: x != [] && SolidLength(x) == |x|
  {
    if s == [] then []
    else if Blank(s[0]) then Words(s[1..])
    else [s[..SolidLength(s)]] + Words(s[SolidLength(s)..])
  }

  function Join(words: seq<string>): string {
    if words == [] then [] else if |words| == 1 then words[0] else words[0] + " " + Join(words[1..])
  }

  /** Words separated by one space each, nothing else blank; `atStart` when a word must start here. */
  predicate Tidy(s: string, atStart: bool) {
    if s == [] then !atStart
    else if Blank(s[0]) then s[0] == ' ' && !atStart && Tidy(s[1..], true)
    else Tidy(s[1..], false)
  }

  lemma {:induction false} TidyAfterWord(word: string, rest: string, atStart: bool)
    requires SolidLength(word) == |word| && (word == [] ==> !atStart)
    ensures Tidy(word + rest, atStart) <==> Tidy(rest, false)
  {
    if word == [] {
      assert word + rest == rest;
    } else {
      assert (word + rest)[1..] == word[1..] + rest;
      TidyAfterWord(word[1..], rest, false);
    }
  }

  lemma {:induction false} JoinedIsTidy(words: seq<string>)
    requires words != [] && forall x | x in words :: x != [] && SolidLength(x) == |x|
    ensures Tidy(Join(words), true)
  {
    if |words| == 1 {
      assert words[0] + [] == words[0];
      TidyAfterWord(words[0], [], true);
    } else {
      JoinedIsTidy(words[1..]);
      var rest := " " + Join(words[1..]);
      assert rest[1..] == Join(words[1..]);
      TidyAfterWord(words[0], rest, true);
      assert words[0] + " " + Join(words[1..]) == words[0] + rest;
    }
  }

  lemma TidySplit(s: string, n: nat)
    requires Tidy(s, true) && n == SolidLength(s)
    ensures n > 0 && (n < |s| ==> s[n] == ' ' && Tidy(s[n..][1..], true))
    ensures Words(s) == [s[..n]] + if n < |s| then Words(s[n..][1..]) else []
  {
    hide *;
    SolidPrefix(s, n);
    WordsUnfold(s);
    var word, rest := s[..n], s[n..];
    assert word + rest == s;
    TidyAfterWord(word, rest, true);
    if n < |s| {
      assert rest[0] == s[n];
      SpaceSkipped(rest);
    }
  }

  lemma WordsUnfold(s: string)
    requires Tidy(s, true)
    ensures s != [] && !Blank(s[0]) && SolidLength(s) > 0
    ensures Words(s) == [s[..SolidLength(s)]] + Words(s[SolidLength(s)..])
    ensures Words([]) == []
  {
    hide Blank;
  }

  lemma SpaceSkipped(s: string)
    requires s != [] && Blank(s[0])
    ensures Words(s) == Words(s[1..])
    ensures Tidy(s, false) ==> s[0] == ' ' && Tidy(s[1..], true)
  {
    hide Blank;
  }

  lemma {:induction false} TidyIsJoined(s: string)
    requires Tidy(s, true)
    ensures Join(Words(s)) == s && Words(s) != []
    decreases |s|
  {
    hide Blank, SolidLength, Tidy, Join, Words;
    var n := SolidLength(s);
    TidySplit(s, n);
    if n < |s| {
      var rest := s[n..][1..];
      TidyIsJoined(rest);
      JoinTwo(s[..n], Words(rest));
      assert s == s[..n] + " " + rest;
    } else {
      assert s[n..] == [] && s[..n] == s && Words(s) == [s];
      JoinOne(s);
    }
  }

  lemma JoinOne(word: string)
    ensures Join([word]) == word
  {
  }

  lemma JoinTwo(word: string, words: seq<string>)
    requires words != []
    ensures Join([word] + words) == word + " " + Join(words)
  {
    assert ([word] + words)[1..] == words;
  }

  lemma {:induction false} SolidPrefix(s: string, n: nat)
    requires n <= SolidLength(s)
    ensures SolidLength(s[..n]) == n
  {
    if n > 0 {
      assert s[..n][1..] == s[1..][..n - 1];
      SolidPrefix(s[1..], n - 1);
    }
  }

  // ---------------------------------------------------------------- numbers

  function Digit(d: nat): (c: char)
    requires d < 10
    ensures '0' <= c <= '9' && c as int == '0' as int + d
  {
    '0' + d as char
  }

  predicate AllDigits(s: string) {
    forall i :: 0 <= i < |s| ==> '0' <= s[i] <= '9'
  }

  function Decimal(n: nat): (s: string)
    ensures s != [] && AllDigits(s)
  {
    (if n < 10 then [] else Decimal(n / 10)) + [Digit(n % 10)]
  }

  /** The number a string of digits denotes. */
  function Value(s: string): nat
    requires AllDigits(s)
  {
    if s == [] then 0 else Value(s[..|s| - 1]) * 10 + (s[|s| - 1] as int - '0' as int)
  }

  lemma ValueOfLast(front: string, c: char)
    requires AllDigits(front) && '0' <= c <= '9'
    ensures Value(front + [c]) == Value(front) * 10 + (c as int - '0' as int)
  {
    assert (front + [c])[..|front|] == front;
  }

  lemma {:induction false} DecimalValue(n: nat)
    ensures Value(Decimal(n)) == n
  {
    hide Value, AllDigits, Digit;
    var front := if n < 10 then [] else Decimal(n / 10);
    ValueOfLast(front, Digit(n % 10)) by { NoDigits(); }
    if n < 10 {
      NoDigits();
    } else {
      DecimalValue(n / 10);
    }
  }

  lemma NoDigits()
    ensures AllDigits([]) && Value([]) == 0
  {
  }

  // ---------------------------------------------------------------- lines

  /** The characters that end a line for `str.splitlines`. */
  predicate Break(c: char) {
    '\n' <= c <= '\r' || '\U{1C}' <= c <= '\U{1E}' || c in {'\U{85}', '\U{2028}', '\U{2029}'}
  }

  lemma BreakMeans(c: char)
    ensures Break(c) <==> c as int in {0x0A, 0x0B, 0x0C, 0x0D, 0x1C, 0x1D, 0x1E, 0x85, 0x2028, 0x2029}
  {
  }

  /** Characters before the first line break. */
  function LineLength(s: string): (n: nat)
    ensures n <= |s| && (n < |s| ==> Break(s[n])) && forall i :: 0 <= i < n ==> !Break(s[i])
  {
    if s == [] || Break(s[0]) then 0 else 1 + LineLength(s[1..])
  }

  /** `str.splitlines`: a final line break starts no line of its own, and CR LF is one break. */
  function SplitLines(s: string): seq<string>
    decreases |s|
  {
    if s == [] then []
    else
      var n := LineLength(s);
      [s[..n]] + SplitLines(s[n + BreakLength(s, n)..])
  }

  /** The length of the line break at `n`, none at the end of the text. */
  function BreakLength(s: string, n: nat): (k: nat)
    requires n <= |s|
    ensures n + k <= |s| && (n < |s| ==> k > 0)
  {
    if n == |s| then 0 else if s[n] == '\r' && n + 1 < |s| && s[n + 1] == '\n' then 2 else 1
  }

  /** `str.strip`. */
  function Strip(s: string): string {
    if s == [] then []
    else if Blank(s[0]) then Strip(s[1..])
    else if Blank(s[|s| - 1]) then Strip(s[..|s| - 1])
    else s
  }

  /** `str.strip` takes the blanks at both ends and nothing else. */
  lemma {:induction false} StripIs(before: string, core: string, after: string)
    requires AllBlank(before) && AllBlank(after)
    requires core != [] ==> !Blank(core[0]) && !Blank(core[|core| - 1])
    ensures Strip(before + core + after) == core
    decreases |before| + |after|
  {
    hide Blank;
    var s := before + core + after;
    if before != [] {
      assert s[0] == before[0] && s[1..] == before[1..] + core + after;
      StripIs(before[1..], core, after);
    } else if after != [] {
      assert s == core + after && s[|s| - 1] == after[|after| - 1];
      assert s[..|s| - 1] == before + core + after[..|after| - 1];
      StripIs(before, core, after[..|after| - 1]);
      if core == [] {
        assert s[0] == after[0] && s[1..] == before + core + after[1..];
        StripIs(before, core, after[1..]);
      }
    } else {
      assert s == core;
    }
  }

  // ---------------------------------------------------------------- words and lines, by what they join to

  /** `str.split`: blanks are skipped, and the run of other characters after them is the next word. */
  lemma {:induction false} WordsAre(gap: string, word: string, rest: string)
    requires AllBlank(gap) && (forall i :: 0 <= i < |word| ==> !Blank(word[i])) && (rest != [] ==> Blank(rest[0]))
    requires word == [] ==> rest == []
    ensures Words(gap + word + rest) == if word == [] then [] else [word] + Words(rest)
  {
    hide Blank;
    var s := gap + word + rest;
    if gap != [] {
      assert s[0] == gap[0] && s[1..] == gap[1..] + word + rest;
      WordsAre(gap[1..], word, rest);
    } else if word != [] {
      assert s == word + rest && s[0] == word[0];
      SolidFront(word, rest);
      assert s[..|word|] == word && s[|word|..] == rest;
    } else {
      assert s == [];
    }
  }

  lemma {:induction false} SolidFront(word: string, rest: string)
    requires (forall i :: 0 <= i < |word| ==> !Blank(word[i])) && (rest != [] ==> Blank(rest[0]))
    ensures SolidLength(word + rest) == |word|
  {
    hide Blank;
    if word == [] {
      assert word + rest == rest;
    } else {
      assert (word + rest)[1..] == word[1..] + rest;
      SolidFront(word[1..], rest);
    }
  }

  /** Lines with the breaks they ended in. */
  function Broken(lines: seq<string>, breaks: seq<string>): string
    requires |lines| == |breaks|
  {
    if lines == [] then [] else lines[0] + breaks[0] + Broken(lines[1..], breaks[1..])
  }

  /** Every line ends in one break, which is CR LF or one breaking character; a CR is alone only when no
      LF follows. Only the last line may lack its break, and then it is not empty. */
  predicate Breaks(lines: seq<string>, breaks: seq<string>) {
    |lines| == |breaks| && (lines != [] ==>
      && (forall i :: 0 <= i < |lines[0]| ==> !Break(lines[0][i]))
      && EndsLine(breaks[0], Broken(lines[1..], breaks[1..]), lines[0] != [] && |lines| == 1)
      && Breaks(lines[1..], breaks[1..]))
  }

  predicate EndsLine(b: string, after: string, last: bool) {
    || b == "\r\n"
    || (|b| == 1 && Break(b[0]) && !(b == "\r" && after != [] && after[0] == '\n'))
    || (b == [] && last)
  }

  lemma LineLengthIs(line: string, rest: string)
    requires (forall i :: 0 <= i < |line| ==> !Break(line[i])) && (rest != [] ==> Break(rest[0]))
    ensures LineLength(line + rest) == |line|
  {
    var s := line + rest;
    assert forall i :: 0 <= i < |line| ==> s[i] == line[i];
    assert rest != [] ==> s[|line|] == rest[0];
  }

  lemma SplitFront(line: string, b: string, after: string)
    requires (forall i :: 0 <= i < |line| ==> !Break(line[i])) && EndsLine(b, after, line != [] && after == [])
    ensures SplitLines(line + b + after) == [line] + SplitLines(after)
  {
    var s := line + b + after;
    assert s == line + (b + after);
    assert b != [] ==> (b + after)[0] == b[0];
    LineLengthIs(line, b + after);
    assert s[..|line|] == line && s[|line| + |b|..] == after;
    assert b != [] ==> s[|line|] == b[0];
    assert |b| == 1 && after != [] ==> s[|line| + 1] == after[0];
    assert b == "\r\n" ==> s[|line| + 1] == '\n';
    assert b == [] ==> SplitLines(after) == [];
    hide Break, LineLength;
  }

  /** `str.splitlines`: the lines are the only ones that, each with a break, make up the text. */
  lemma {:induction false} SplitLinesAre(lines: seq<string>, breaks: seq<string>)
    requires |lines| == |breaks| && Breaks(lines, breaks)
    ensures SplitLines(Broken(lines, breaks)) == lines
  {
    hide *;
    if lines == [] {
      NoLines(breaks);
    } else {
      BreaksHead(lines, breaks);
      SplitLinesAre(lines[1..], breaks[1..]);
      SplitFront(lines[0], breaks[0], Broken(lines[1..], breaks[1..]));
      assert lines == [lines[0]] + lines[1..];
    }
  }

  lemma NoLines(breaks: seq<string>)
    requires breaks == []
    ensures SplitLines(Broken([], breaks)) == []
  {
  }

  lemma BreaksHead(lines: seq<string>, breaks: seq<string>)
    requires Breaks(lines, breaks) && lines != []
    ensures |breaks| == |lines| && Breaks(lines[1..], breaks[1..])
    ensures Broken(lines, breaks) == lines[0] + breaks[0] + Broken(lines[1..], breaks[1..])
    ensures forall i :: 0 <= i < |lines[0]| ==> !Break(lines[0][i])
    ensures EndsLine(breaks[0], Broken(lines[1..], breaks[1..]), lines[0] != [] && Broken(lines[1..], breaks[1..]) == [])
  {
    hide Break;
    assert |lines| == 1 ==> Broken(lines[1..], breaks[1..]) == [];
  }

  lemma {:induction false} TextHasBreaks(s: string) returns (breaks: seq<string>)
    ensures Breaks(SplitLines(s), breaks) && Broken(SplitLines(s), breaks) == s
    decreases |s|
  {
    if s == [] {
      return [];
    }
    hide *;
    var line, b, rest := SplitUnfold(s);
    var later := TextHasBreaks(rest);
    breaks := [b] + later;
    BreaksCons(line, b, SplitLines(rest), later);
  }

  lemma SplitUnfold(s: string) returns (line: string, b: string, rest: string)
    requires s != []
    ensures SplitLines(s) == [line] + SplitLines(rest) && (rest == [] <==> SplitLines(rest) == [])
    ensures s == line + b + rest && |rest| < |s|
    ensures EndsLine(b, rest, line != [] && rest == []) && forall i :: 0 <= i < |line| ==> !Break(line[i])
  {
    hide *;
    var n := LineLength(s);
    var k := BreakLength(s, n);
    line, b, rest := s[..n], s[n..n + k], s[n + k..];
    UnfoldLines(s);
    EmptySplit(rest);
    FirstBreak(s, n);
    ThreeParts(s, n, k);
  }

  lemma UnfoldLines(s: string)
    requires s != []
    ensures LineLength(s) + BreakLength(s, LineLength(s)) > 0
    ensures SplitLines(s) == [s[..LineLength(s)]] + SplitLines(s[LineLength(s) + BreakLength(s, LineLength(s))..])
  {
    hide LineLength, BreakLength, Break;
  }

  lemma ThreeParts(s: string, n: nat, k: nat)
    requires n + k <= |s|
    ensures s == s[..n] + s[n..n + k] + s[n + k..]
  {
  }

  lemma EmptySplit(s: string)
    ensures s == [] <==> SplitLines(s) == []
  {
  }

  lemma BreaksCons(line: string, b: string, lines: seq<string>, breaks: seq<string>)
    requires Breaks(lines, breaks) && forall i :: 0 <= i < |line| ==> !Break(line[i])
    requires EndsLine(b, Broken(lines, breaks), line != [] && lines == [])
    ensures Breaks([line] + lines, [b] + breaks)
    ensures Broken([line] + lines, [b] + breaks) == line + b + Broken(lines, breaks)
  {
    hide Break, EndsLine;
    assert ([line] + lines)[1..] == lines && ([b] + breaks)[1..] == breaks;
  }

  lemma FirstBreak(s: string, n: nat)
    requires s != [] && n == LineLength(s)
    ensures var k := BreakLength(s, n); EndsLine(s[n..n + k], s[n + k..], s[..n] != [] && s[n + k..] == [])
    ensures forall i :: 0 <= i < |s[..n]| ==> !Break(s[..n][i])
  {
    var k := BreakLength(s, n);
    var b, after := s[n..n + k], s[n + k..];
    assert k > 0 ==> b[0] == s[n];
    assert after != [] ==> after[0] == s[n + k];
    assert k == 2 ==> b == ['\r', '\n'];
    hide Break;
  }
}
