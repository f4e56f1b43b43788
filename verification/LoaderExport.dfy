/** Parsing the loader's record of loaded files out of a transcript. */
module LoaderExport {
  import opened Options
  import opened PythonText

  newtype byte = x: int | 0 <= x < 256

  /** File names are byte strings; decoding them for Python loses nothing. */
  type Name = seq<byte>

  datatype Record = Record(basename: Name, md5: string)

  const PREFIX := "__HOL_WORKBENCH_LOADED_FILE_V1__"
  const BEGIN := PREFIX + ":BEGIN"
  const END := PREFIX + ":END:"
  const TAG := PREFIX + ":"

  // ---------------------------------------------------------------- hexadecimal

  predicate HexChar(c: char) { '0' <= c <= '9' || 'a' <= c <= 'f' }

  predicate AllHex(s: string) { forall i :: 0 <= i < |s| ==> HexChar(s[i]) }

  function HexDigit(d: nat): (c: char)
    requires d < 16
    ensures HexChar(c) && HexValue(c) == d
  {
    if d < 10 then '0' + d as char else 'a' + (d - 10) as char
  }

  function HexValue(c: char): (d: nat)
    requires HexChar(c)
    ensures d < 16
  {
    if c <= '9' then c as int - '0' as int else c as int - 'a' as int + 10
  }

  lemma HexDigitOfValue(c: char)
    requires HexChar(c)
    ensures HexDigit(HexValue(c)) == c
  {
  }

  function Hex(name: Name): (s: string)
    ensures AllHex(s) && |s| == 2 * |name|
  {
    if name == [] then []
    else [HexDigit(name[0] as int / 16), HexDigit(name[0] as int % 16)] + Hex(name[1..])
  }

  /** Nothing for an odd number of digits. */
  function Unhex(s: string): (name: Option<Name>)
    requires AllHex(s)
    ensures name.Some? <==> |s| % 2 == 0
  {
    if s == [] then Some([])
    else if |s| == 1 then None
    else
      var rest := Unhex(s[2..]);
      if rest.None? then None
      else Some([(HexValue(s[0]) * 16 + HexValue(s[1])) as byte] + rest.value)
  }

  lemma {:induction false} UnhexHex(name: Name)
    ensures Unhex(Hex(name)) == Some(name)
  {
    if name != [] {
      UnhexHex(name[1..]);
      assert Hex(name)[2..] == Hex(name[1..]) && name == [name[0]] + name[1..];
    }
  }

  lemma ByteOfDigits(a: nat, b: nat)
    requires a < 16 && b < 16
    ensures (a * 16 + b) / 16 == a && (a * 16 + b) % 16 == b
  {
  }

  lemma {:induction false} HexUnhex(s: string)
    requires AllHex(s) && Unhex(s).Some?
    ensures Hex(Unhex(s).value) == s
  {
    if s != [] {
      HexUnhex(s[2..]);
      HexDigitOfValue(s[0]);
      HexDigitOfValue(s[1]);
      ByteOfDigits(HexValue(s[0]), HexValue(s[1]));
      hide HexDigit, HexValue, AllHex;
      var name := Unhex(s).value;
      assert name[1..] == Unhex(s[2..]).value;
      assert s == [s[0], s[1]] + s[2..];
    }
  }

  // ---------------------------------------------------------------- records

  predicate Basename(name: Name) {
    name != [] && name != ['.' as int as byte] && ('/' as int as byte) !in name
  }

  predicate Digest(md5: string) { |md5| == 32 && AllHex(md5) }

  predicate ValidRecord(r: Record) { Basename(r.basename) && Digest(r.md5) }

  function RecordLine(r: Record): string { TAG + (Hex(r.basename) + (":" + r.md5)) }

  /** The line's record; nothing when the line is not exactly a valid one. */
  function DecodeRecord(line: string): Option<Record> {
    if !(TAG <= line) then None
    else
      var body := line[|TAG|..];
      if |body| < 33 || body[|body| - 33] != ':' then None
      else
        var hex, md5 := body[..|body| - 33], body[|body| - 32..];
        if !AllHex(hex) || !Digest(md5) then None
        else
          var name := Unhex(hex);
          if name.None? || !Basename(name.value) then None else Some(Record(name.value, md5))
  }

  /** Decoding is the exact inverse of the printed form. */
  lemma DecodeIsInverse(line: string, r: Record)
    ensures DecodeRecord(line) == Some(r) <==> ValidRecord(r) && line == RecordLine(r)
  {
    hide *;
    if DecodeRecord(line) == Some(r) {
      DecodedIsPrinted(line, r);
    }
    if ValidRecord(r) && line == RecordLine(r) {
      PrintedIsDecoded(r);
    }
  }

  lemma DecodedIsPrinted(line: string, r: Record)
    requires DecodeRecord(line) == Some(r)
    ensures ValidRecord(r) && line == RecordLine(r)
  {
    var body := line[|TAG|..];
    HexUnhex(body[..|body| - 33]);
    hide Unhex, Hex, AllHex, Basename;
    assert line == TAG + body && body == body[..|body| - 33] + ([body[|body| - 33]] + body[|body| - 32..]);
  }

  lemma PrintedIsDecoded(r: Record)
    requires ValidRecord(r)
    ensures DecodeRecord(RecordLine(r)) == Some(r)
  {
    var hex := Hex(r.basename);
    UnhexHex(r.basename);
    hide Unhex, Hex, AllHex, Basename;
    var body := hex + (":" + r.md5);
    assert RecordLine(r)[|TAG|..] == body && body[..|body| - 33] == hex && body[|body| - 32..] == r.md5;
    assert TAG <= RecordLine(r) by { assert RecordLine(r)[..|TAG|] == TAG; }
    assert body[|body| - 33] == ':';
  }

  // ---------------------------------------------------------------- the export

  predicate Begins(line: string) { Strip(line) == BEGIN }

  predicate Ends(line: string) { END <= Strip(line) }

  predicate Tagged(line: string) { TAG <= Strip(line) }

  function CountOf(line: string): Option<nat>
    requires Ends(line)
  {
    var digits := Strip(line)[|END|..];
    if digits != [] && AllDigits(digits) then Some(Value(digits)) else None
  }

  /** The records of the tagged lines; other lines are chatter. */
  function Records(lines: seq<string>): Option<seq<Record>> {
    if lines == [] then Some([])
    else if !Tagged(lines[0]) then Records(lines[1..])
    else
      var first, rest := DecodeRecord(Strip(lines[0])), Records(lines[1..]);
      if first.Some? && rest.Some? then Some([first.value] + rest.value) else None
  }

  /** The only begin marker and, after it, the only end marker. */
  predicate Framed(lines: seq<string>, b: nat, e: nat) {
    && b < e < |lines| && Begins(lines[b]) && Ends(lines[e])
    && (forall i :: 0 <= i < |lines| && Begins(lines[i]) ==> i == b)
    && forall i :: 0 <= i < |lines| && Ends(lines[i]) ==> i == e
  }

  ghost predicate IsExport(lines: seq<string>, records: seq<Record>) {
    exists b: nat, e: nat :: Framed(lines, b, e) && CountOf(lines[e]) == Some(|records|)
      && Records(lines[b + 1..e]) == Some(records)
  }

  lemma ExportIsUnique(lines: seq<string>, p: seq<Record>, q: seq<Record>)
    requires IsExport(lines, p) && IsExport(lines, q)
    ensures p == q
  {
    hide Records, Begins, Ends;
    var b: nat, e: nat :| Framed(lines, b, e) && CountOf(lines[e]) == Some(|p|) && Records(lines[b + 1..e]) == Some(p);
    var b': nat, e': nat :| Framed(lines, b', e') && CountOf(lines[e']) == Some(|q|)
      && Records(lines[b' + 1..e']) == Some(q);
    assert b == b' && e == e';
  }

  // ---------------------------------------------------------------- the parser

  function Prepend(done: seq<Record>, rest: Option<seq<Record>>): Option<seq<Record>> {
    if rest.Some? then Some(done + rest.value) else None
  }

  /** Indexes of the marker lines, in order. */
  predicate Found(lines: seq<string>, marker: string -> bool, n: nat, at: seq<nat>) {
    && n <= |lines|
    && (forall k :: 0 <= k < |at| ==> at[k] < n && marker(lines[at[k]]))
    && (forall j, k :: 0 <= j < k < |at| ==> at[j] < at[k])
    && forall i :: 0 <= i < n && marker(lines[i]) ==> i in at
  }

  method FindMarkers(lines: seq<string>, marker: string -> bool) returns (at: seq<nat>)
    ensures Found(lines, marker, |lines|, at)
  {
    at := [];
    var i := 0;
    while i < |lines|
      invariant 0 <= i <= |lines| && Found(lines, marker, i, at)
    {
      if marker(lines[i]) {
        at := at + [i];
      }
      i := i + 1;
    }
  }

  lemma SecondFound(lines: seq<string>, marker: string -> bool, at: seq<nat>)
    requires Found(lines, marker, |lines|, at)
    ensures |at| > 1 ==> exists i, j :: 0 <= i < j < |lines| && marker(lines[i]) && marker(lines[j])
  {
    if |at| > 1 {
      assert at[0] < at[1];
    }
  }

  lemma OnlyIndex(lines: seq<string>, marker: string -> bool, at: seq<nat>, b: nat)
    requires Found(lines, marker, |lines|, at) && b < |lines| && marker(lines[b])
    requires forall i :: 0 <= i < |lines| && marker(lines[i]) ==> i == b
    ensures at == [b]
  {
    SecondFound(lines, marker, at);
    assert b in at && forall k :: 0 <= k < |at| ==> at[k] == b;
  }

  lemma NoFrame(lines: seq<string>, begins: seq<nat>, ends: seq<nat>)
    requires Found(lines, Begins, |lines|, begins) && Found(lines, Ends, |lines|, ends)
    requires |begins| != 1 || |ends| != 1 || ends[0] <= begins[0]
    ensures forall b: nat, e: nat :: !Framed(lines, b, e)
  {
    hide Begins, Ends, Found;
    forall b: nat, e: nat ensures !Framed(lines, b, e) {
      if Framed(lines, b, e) {
        OnlyIndex(lines, Begins, begins, b);
        OnlyIndex(lines, Ends, ends, e);
      }
    }
  }

  lemma OneFrame(lines: seq<string>, begins: seq<nat>, ends: seq<nat>)
    requires Found(lines, Begins, |lines|, begins) && Found(lines, Ends, |lines|, ends)
    requires |begins| == |ends| == 1 && begins[0] < ends[0]
    ensures Framed(lines, begins[0], ends[0])
  {
    hide Begins, Ends;
  }

  lemma PrependOne(done: seq<Record>, r: Record, rest: seq<Record>)
    ensures Prepend(done, Some([r] + rest)) == Prepend(done + [r], Some(rest))
    ensures Prepend([], Some(rest)) == Some(rest)
  {
    assert done + ([r] + rest) == done + [r] + rest && [] + rest == rest;
  }

  lemma RecordsStep(lines: seq<string>, k: nat, done: seq<Record>)
    requires k < |lines|
    ensures !Tagged(lines[k]) ==> Records(lines[k..]) == Records(lines[k + 1..])
    ensures var first, rest := DecodeRecord(Strip(lines[k])), Records(lines[k + 1..]);
      Tagged(lines[k]) ==>
        Prepend(done, Records(lines[k..])) == if first.None? then None else Prepend(done + [first.value], rest)
  {
    assert lines[k..][1..] == lines[k + 1..] && lines[k..][0] == lines[k];
    var first, rest := DecodeRecord(Strip(lines[k])), Records(lines[k + 1..]);
    if first.Some? && rest.Some? {
      PrependOne(done, first.value, rest.value);
    }
  }

  method CollectRecords(lines: seq<string>) returns (records: Option<seq<Record>>)
    ensures records == Records(lines)
  {
    hide DecodeRecord, Tagged, Strip, Records;
    var found, k := [], 0;
    assert Prepend([], Records(lines)) == Records(lines) by {
      if Records(lines).Some? { PrependOne([], Record([], []), Records(lines).value); }
    }
    assert lines[0..] == lines;
    while k < |lines|
      invariant 0 <= k <= |lines| && Records(lines) == Prepend(found, Records(lines[k..]))
    {
      RecordsStep(lines, k, found);
      if Tagged(lines[k]) {
        var record := DecodeRecord(Strip(lines[k]));
        if record.None? {
          return None;
        }
        found := found + [record.value];
      }
      k := k + 1;
    }
    assert Records([]) == Some([]) by { NoRecords(); }
    assert lines[k..] == [] && found + [] == found;
    records := Some(found);
  }

  lemma NoRecords()
    ensures Records([]) == Some([])
  {
  }

  method ParseLoaderExport(text: string) returns (r: Option<seq<Record>>)
    ensures r.Some? ==> IsExport(SplitLines(text), r.value)
    ensures r.None? ==> forall q :: !IsExport(SplitLines(text), q)
  {
    hide Records, Found, Begins, Ends;
    var lines := SplitLines(text);
    var begins := FindMarkers(lines, Begins);
    var ends := FindMarkers(lines, Ends);
    if |begins| != 1 || |ends| != 1 || ends[0] <= begins[0] {
      NoFrame(lines, begins, ends);
      return None;
    }
    var b, e := begins[0], ends[0];
    OneFrame(lines, begins, ends);
    var count := CountOf(lines[e]);
    var records := CollectRecords(lines[b + 1..e]);
    if count.None? || records.None? || |records.value| != count.value {
      NotExport(lines, b, e);
      return None;
    }
    r := records;
  }

  lemma NotExport(lines: seq<string>, b: nat, e: nat)
    requires Framed(lines, b, e)
    requires var count, records := CountOf(lines[e]), Records(lines[b + 1..e]);
      count.None? || records.None? || |records.value| != count.value
    ensures forall q :: !IsExport(lines, q)
  {
    hide Records, CountOf, Begins, Ends;
  }

  // ---------------------------------------------------------------- what an export is

  predicate Quiet(line: string) { !Begins(line) && !Ends(line) }

  /** The records in order, with untagged chatter anywhere between and blanks around any line. */
  predicate Carries(lines: seq<string>, records: seq<Record>) {
    if lines == [] then records == []
    else if !Tagged(lines[0]) then Carries(lines[1..], records)
    else
      && records != [] && ValidRecord(records[0]) && Strip(lines[0]) == RecordLine(records[0])
      && Carries(lines[1..], records[1..])
  }

  lemma {:induction false} CarriesIsRecords(lines: seq<string>, records: seq<Record>)
    ensures Carries(lines, records) <==> Records(lines) == Some(records)
  {
    hide DecodeRecord, RecordLine, ValidRecord, Strip, Tagged;
    if lines != [] {
      if !Tagged(lines[0]) {
        CarriesIsRecords(lines[1..], records);
      } else if records != [] {
        CarriesIsRecords(lines[1..], records[1..]);
        DecodeIsInverse(Strip(lines[0]), records[0]);
        assert forall r, rest :: [r] + rest == records ==> r == records[0] && rest == records[1..];
        assert records == [records[0]] + records[1..];
      }
    }
  }

  /** An export is one begin line, lines carrying the records, and one end line with their number,
      within lines that are neither marker. */
  lemma ExportCharacterized(lines: seq<string>, records: seq<Record>)
    ensures IsExport(lines, records) <==> exists b: nat, e: nat ::
      Framed(lines, b, e) && CountOf(lines[e]) == Some(|records|) && Carries(lines[b + 1..e], records)
  {
    hide Records, Carries, Begins, Ends, CountOf;
    forall b: nat, e: nat | Framed(lines, b, e)
      ensures Carries(lines[b + 1..e], records) <==> Records(lines[b + 1..e]) == Some(records)
    {
      CarriesIsRecords(lines[b + 1..e], records);
    }
  }

  // ---------------------------------------------------------------- printing and parsing

  lemma {:induction false} StripIsShort(s: string)
    requires s == [] || (!Blank(s[0]) && !Blank(s[|s| - 1]))
    ensures Strip(s) == s
  {
  }

  /** The lines the loader prints for its list of loaded files. */
  function Printed(records: seq<Record>): seq<string> {
    [BEGIN] + RecordLines(records) + [END + Decimal(|records|)]
  }

  function RecordLines(records: seq<Record>): seq<string> {
    seq(|records|, k requires 0 <= k < |records| => RecordLine(records[k]))
  }

  lemma MarkersAreMarkers(count: nat)
    ensures Begins(BEGIN) && !Ends(BEGIN)
    ensures var end := END + Decimal(count); Ends(end) && !Begins(end) && CountOf(end) == Some(count)
  {
    var end := END + Decimal(count);
    StripIsShort(BEGIN);
    StripIsShort(end);
    DecimalValue(count);
    assert end[|END|..] == Decimal(count);
    assert end[|TAG|] == 'E' && BEGIN[|TAG|] == 'B' && END[|TAG|] == 'E';
  }

  lemma RecordLineIsTagged(r: Record)
    requires ValidRecord(r)
    ensures Strip(RecordLine(r)) == RecordLine(r) && Tagged(RecordLine(r)) && Quiet(RecordLine(r))
  {
    var line := RecordLine(r);
    var hex := Hex(r.basename);
    assert line[|TAG|] == hex[0] && HexChar(hex[0]);
    assert line[|line| - 1] == r.md5[31] && HexChar(r.md5[31]);
    StripIsShort(line);
    assert BEGIN[|TAG|] == 'B' && END[|TAG|] == 'E';
    assert Tagged(line) by { assert line[..|TAG|] == TAG; }
  }

  lemma {:induction false} PrintedCarries(records: seq<Record>)
    requires forall r | r in records :: ValidRecord(r)
    ensures Carries(RecordLines(records), records)
  {
    hide RecordLine, ValidRecord, Tagged, Strip;
    if records != [] {
      PrintedCarries(records[1..]);
      RecordLineIsTagged(records[0]);
      assert RecordLines(records)[1..] == RecordLines(records[1..]);
    }
  }

  lemma FrameAt(lines: seq<string>, before: seq<string>, mid: seq<string>, after: seq<string>)
    requires |lines| == |before| + |mid| + |after| + 2
    requires lines[..|before|] == before && lines[|before| + 1..|before| + 1 + |mid|] == mid
    requires lines[|before| + |mid| + 2..] == after
    requires forall l | l in before || l in mid || l in after :: Quiet(l)
    requires Begins(lines[|before|]) && !Ends(lines[|before|])
    requires Ends(lines[|before| + |mid| + 1]) && !Begins(lines[|before| + |mid| + 1])
    ensures Framed(lines, |before|, |before| + |mid| + 1)
  {
    var b, e := |before|, |before| + |mid| + 1;
    hide Begins, Ends, Quiet;
    forall i | 0 <= i < |lines| && i != b && i != e ensures Quiet(lines[i]) {
      if i < b {
        assert lines[i] == before[i];
      } else if i < e {
        assert lines[i] == mid[i - b - 1];
      } else {
        assert lines[i] == after[i - e - 1];
      }
    }
    assert forall i :: 0 <= i < |lines| && i != b && i != e ==> !Begins(lines[i]) && !Ends(lines[i]) by {
      forall i | 0 <= i < |lines| && i != b && i != e ensures !Begins(lines[i]) && !Ends(lines[i]) {
        QuietIsNeither(lines[i]);
      }
    }
  }

  lemma QuietIsNeither(line: string)
    requires Quiet(line)
    ensures !Begins(line) && !Ends(line)
  {
  }

  /** Parsing a transcript returns exactly the records in it, whatever lines, the markers and, between
      them, tagged lines apart, come before, between and after. */
  lemma ExportParses(before: seq<string>, begin: string, mid: seq<string>, end: string, after: seq<string>,
                     records: seq<Record>)
    requires forall l | l in before || l in mid || l in after :: Quiet(l)
    requires Begins(begin) && !Ends(begin) && Ends(end) && !Begins(end) && CountOf(end) == Some(|records|)
    requires Carries(mid, records)
    ensures IsExport(before + [begin] + mid + [end] + after, records)
  {
    hide Begins, Ends, Quiet, CountOf, Carries;
    var lines := before + [begin] + mid + [end] + after;
    var b, e := |before|, |before| + |mid| + 1;
    assert lines[..b] == before && lines[b] == begin && lines[b + 1..e] == mid;
    assert lines[e] == end && lines[e + 1..] == after;
    FrameAt(lines, before, mid, after);
    ExportCharacterized(lines, records);
  }

  lemma PrintedIsExport(before: seq<string>, records: seq<Record>, after: seq<string>)
    requires forall r | r in records :: ValidRecord(r)
    requires forall l | l in before || l in after :: Quiet(l)
    ensures IsExport(before + Printed(records) + after, records)
  {
    var end, mid := END + Decimal(|records|), RecordLines(records);
    MarkersAreMarkers(|records|);
    PrintedCarries(records);
    forall l | l in mid ensures Quiet(l) {
      var k :| 0 <= k < |mid| && mid[k] == l;
      RecordLineIsTagged(records[k]);
    }
    hide Begins, Ends, Quiet, CountOf, Carries, RecordLines, ValidRecord, IsExport;
    ExportParses(before, BEGIN, mid, end, after, records);
    Regroup(before, BEGIN, mid, end, after);
  }

  lemma Regroup(before: seq<string>, begin: string, mid: seq<string>, end: string, after: seq<string>)
    ensures before + ([begin] + mid + [end]) + after == before + [begin] + mid + [end] + after
  {
  }

  /** In particular for the text the loader prints, whatever ends its lines, and with or without a break
      after the last one. */
  lemma PrintedExportParses(before: seq<string>, records: seq<Record>, after: seq<string>, breaks: seq<string>)
    requires forall r | r in records :: ValidRecord(r)
    requires forall l | l in before || l in after :: Quiet(l)
    requires Breaks(before + Printed(records) + after, breaks)
    ensures IsExport(SplitLines(Broken(before + Printed(records) + after, breaks)), records)
  {
    hide IsExport, Printed, Quiet, ValidRecord;
    PrintedIsExport(before, records, after);
    SplitLinesAre(before + Printed(records) + after, breaks);
  }

  lemma ValidRecordMeans(r: Record)
    ensures ValidRecord(r) <==>
      && |r.basename| > 0 && r.basename != [46] && (forall i :: 0 <= i < |r.basename| ==> r.basename[i] != 47)
      && |r.md5| == 32 && forall i :: 0 <= i < 32 ==> '0' <= r.md5[i] <= '9' || 'a' <= r.md5[i] <= 'f'
  {
    assert ['.' as int as byte] == [46];
  }

  /** The three kinds of marked lines, whatever blanks stand around them. */
  lemma MarkersMean(before: string, core: string, after: string)
    requires AllBlank(before) && AllBlank(after) && core != [] && !Blank(core[0]) && !Blank(core[|core| - 1])
    ensures var line := before + core + after;
      && (Begins(line) <==> core == "__HOL_WORKBENCH_LOADED_FILE_V1__:BEGIN")
      && (Tagged(line) <==> "__HOL_WORKBENCH_LOADED_FILE_V1__:" <= core)
      && (Ends(line) <==> "__HOL_WORKBENCH_LOADED_FILE_V1__:END:" <= core)
  {
    StripIs(before, core, after);
    hide Strip, Blank;
  }

  /** The count an end marker carries: a number written in digits, or nothing. */
  lemma CountMeans(before: string, digits: string, after: string)
    requires AllBlank(before) && AllBlank(after) && (digits != [] ==> !Blank(digits[|digits| - 1]))
    ensures var line := before + ("__HOL_WORKBENCH_LOADED_FILE_V1__:END:" + digits) + after;
      Ends(line) && CountOf(line) ==
        if digits != [] && (forall i :: 0 <= i < |digits| ==> '0' <= digits[i] <= '9') then Some(Value(digits)) else None
  {
    hide *;
    EndIs();
    EndCore(digits);
    StripIs(before, END + digits, after);
    CountOfStripped(before + (END + digits) + after, digits);
  }

  lemma EndIs()
    ensures END == "__HOL_WORKBENCH_LOADED_FILE_V1__:END:"
  {
  }

  lemma EndCore(digits: string)
    requires digits != [] ==> !Blank(digits[|digits| - 1])
    ensures var core := END + digits; core != [] && !Blank(core[0]) && !Blank(core[|core| - 1])
  {
    var core := END + digits;
    assert END[0] == '_' && END[|END| - 1] == ':';
    assert core[0] == '_' && core[|core| - 1] == if digits == [] then ':' else digits[|digits| - 1];
  }

  lemma CountOfStripped(line: string, digits: string)
    requires Strip(line) == END + digits
    ensures Ends(line) && CountOf(line) ==
      if digits != [] && (forall i :: 0 <= i < |digits| ==> '0' <= digits[i] <= '9') then Some(Value(digits)) else None
  {
    hide Strip, Value;
    assert (END + digits)[|END|..] == digits && (END + digits)[..|END|] == END;
  }

  lemma {:induction false} HexAt(name: Name, k: nat)
    requires k < |name|
    ensures Hex(name)[2 * k] == "0123456789abcdef"[name[k] as int / 16]
    ensures Hex(name)[2 * k + 1] == "0123456789abcdef"[name[k] as int % 16]
  {
    if k > 0 {
      HexAt(name[1..], k - 1);
    } else {
      HexDigitIs(name[0] as int / 16);
      HexDigitIs(name[0] as int % 16);
    }
  }

  lemma HexDigitIs(d: nat)
    requires d < 16
    ensures HexDigit(d) == "0123456789abcdef"[d]
  {
  }

  /** The printed lines themselves. */
  lemma PrintedLines(records: seq<Record>)
    ensures var lines := Printed(records);
      && |lines| == |records| + 2
      && lines[0] == "__HOL_WORKBENCH_LOADED_FILE_V1__:BEGIN"
      && lines[|records| + 1] == "__HOL_WORKBENCH_LOADED_FILE_V1__:END:" + Decimal(|records|)
      && forall k :: 0 <= k < |records| ==>
           lines[k + 1] == "__HOL_WORKBENCH_LOADED_FILE_V1__:" + Hex(records[k].basename) + ":" + records[k].md5
  {
    forall k | 0 <= k < |records|
      ensures RecordLine(records[k])
        == "__HOL_WORKBENCH_LOADED_FILE_V1__:" + Hex(records[k].basename) + ":" + records[k].md5
    {
      Rejoined(TAG, Hex(records[k].basename), ":", records[k].md5);
    }
  }

  lemma Rejoined(a: string, b: string, c: string, d: string)
    ensures a + (b + (c + d)) == a + b + c + d
  {
  }

  // ---------------------------------------------------------------- lost and repeated records

  function TaggedCount(lines: seq<string>): nat {
    if lines == [] then 0 else (if Tagged(lines[0]) then 1 else 0) + TaggedCount(lines[1..])
  }

  lemma {:induction false} RecordsAreCounted(lines: seq<string>)
    ensures Records(lines).Some? ==> |Records(lines).value| == TaggedCount(lines)
  {
    hide Tagged, DecodeRecord, Strip;
    if lines != [] {
      RecordsAreCounted(lines[1..]);
    }
  }

  lemma {:induction false} TaggedSum(a: seq<string>, b: seq<string>)
    ensures TaggedCount(a + b) == TaggedCount(a) + TaggedCount(b)
  {
    hide Tagged;
    if a == [] {
      assert a + b == b;
    } else {
      assert (a + b)[1..] == a[1..] + b;
      TaggedSum(a[1..], b);
    }
  }

  function Replace(lines: seq<string>, k: nat, instead: seq<string>): seq<string>
    requires k < |lines|
  {
    lines[..k] + instead + lines[k + 1..]
  }

  lemma ReplaceSlice(lines: seq<string>, b: nat, e: nat, k: nat, instead: seq<string>)
    requires b < k < e < |lines|
    ensures Replace(lines, k, instead)[b + 1..e - 1 + |instead|] == lines[b + 1..k] + instead + lines[k + 1..e]
  {
    assert lines[..k] == lines[..b + 1] + lines[b + 1..k] && lines[k + 1..] == lines[k + 1..e] + lines[e..];
  }

  lemma ReplaceInFrame(lines: seq<string>, b: nat, e: nat, k: nat, instead: seq<string>)
    requires Framed(lines, b, e) && b < k < e && forall l | l in instead :: Quiet(l)
    ensures var changed, e' := Replace(lines, k, instead), e - 1 + |instead|;
      Framed(changed, b, e') && changed[e'] == lines[e]
      && changed[b + 1..e'] == lines[b + 1..k] + instead + lines[k + 1..e]
  {
    var changed, e' := Replace(lines, k, instead), e - 1 + |instead|;
    hide Begins, Ends, Quiet;
    forall i | 0 <= i < |changed| && i != b && i != e' ensures !Begins(changed[i]) && !Ends(changed[i]) {
      if i < k {
        assert changed[i] == lines[i];
      } else if i < k + |instead| {
        assert changed[i] == instead[i - k];
        QuietIsNeither(changed[i]);
      } else {
        assert changed[i] == lines[i + 1 - |instead|];
      }
    }
    assert changed[b] == lines[b] && changed[e'] == lines[e];
    ReplaceSlice(lines, b, e, k, instead);
    assert !Ends(lines[b]) && !Begins(lines[e]);
  }

  lemma CountsDiffer(head: seq<string>, line: string, instead: seq<string>, tail: seq<string>, records: seq<Record>)
    requires Records(head + [line] + tail) == Some(records) && Tagged(line) && TaggedCount(instead) != 1
    ensures var q := Records(head + instead + tail); q.Some? ==> |q.value| != |records|
  {
    assert TaggedCount([line]) == 1;
    hide TaggedCount, Records, Tagged;
    RecordsAreCounted(head + [line] + tail);
    RecordsAreCounted(head + instead + tail);
    TaggedSum(head + [line], tail);
    TaggedSum(head, [line]);
    TaggedSum(head + instead, tail);
    TaggedSum(head, instead);
  }

  /** Put other lines in the place of one record line of a good export. Unless they hold exactly one
      tagged line again, the parser refuses: a lost record, a record twice. */
  lemma WrongCountIsRefused(lines: seq<string>, records: seq<Record>, b: nat, e: nat, k: nat, instead: seq<string>)
    requires IsExport(lines, records) && Framed(lines, b, e) && b < k < e && Tagged(lines[k])
    requires (forall l | l in instead :: Quiet(l)) && TaggedCount(instead) != 1
    ensures forall q :: !IsExport(Replace(lines, k, instead), q)
  {
    hide TaggedCount, Records, CountOf, Begins, Ends, Tagged, Quiet;
    assert CountOf(lines[e]) == Some(|records|) && Records(lines[b + 1..e]) == Some(records);
    var head, tail := lines[b + 1..k], lines[k + 1..e];
    assert lines[b + 1..e] == head + [lines[k]] + tail;
    ReplaceInFrame(lines, b, e, k, instead);
    hide Replace, Framed, IsExport;
    CountsDiffer(head, lines[k], instead, tail, records);
    NotExport(Replace(lines, k, instead), b, e - 1 + |instead|);
  }
}
