/** The deployment environment file: the line scanner, the entry parser, and the
    file grammar they accept. */
module EnvFile {
  import opened Wrappers
  import opened Text

  const MAXIMUM_BYTES := 1024 * 1024
  const SCANNER_LIMIT := 64 * 1024

  function Utf8Length(c: char): nat {
    if (c as int) < 0x80 then 1 else if (c as int) < 0x800 then 2 else if (c as int) < 0x10000 then 3 else 4
  }

  /** Bytes of the UTF-8 encoding. */
  function Utf8Size(s: string): nat {
    if s == "" then 0 else Utf8Length(s[0]) + Utf8Size(s[1..])
  }

  /** Unicode category Cc. */
  predicate IsControl(c: char) {
    (c as int) < 0x20 || 0x7f <= (c as int) < 0xa0
  }

  predicate ControlFree(s: string) {
    forall i :: 0 <= i < |s| ==> !IsControl(s[i])
  }

  predicate ValidName(s: string) {
    && |s| > 0 && 'A' <= s[0] <= 'Z'
    && forall i :: 0 <= i < |s| ==> 'A' <= s[i] <= 'Z' || '0' <= s[i] <= '9' || s[i] == '_'
  }

  // ---- what the code computes ---------------------------------------------------

  /** The lines of the scanner before it strips carriage returns: no line after a
      final newline. */
  function RawLines(text: string): seq<string> {
    var pieces := Split(text, '\n');
    if pieces[|pieces| - 1] == "" then pieces[..|pieces| - 1] else pieces
  }

  function DropCr(s: string): string {
    if |s| > 0 && s[|s| - 1] == '\r' then s[..|s| - 1] else s
  }

  datatype Outcome = Skipped | Entry(name: string, value: string) | Bad

  /** One loop iteration: the scanner strips one carriage return, the parser another. */
  function ParseLine(known: set<string>, raw: string): Outcome {
    var line := DropCr(DropCr(raw));
    if !ControlFree(line) then Bad
    else if line == "" || StartsWith(line, "#") then Skipped
    else if StartsWith(line, "export ") then Bad
    else
      var cut := Find(line, '=');
      if cut == |line| then Bad
      else if !ValidName(line[..cut]) || line[..cut] !in known then Bad
      else Entry(line[..cut], line[cut + 1..])
  }

  /** The values after the first lines, in order; a repeated name rejects. */
  function ParseLines(known: set<string>, raws: seq<string>): Result<map<string, string>> {
    if raws == [] then Ok(map[])
    else
      var n := |raws| - 1;
      var before := ParseLines(known, raws[..n]);
      if before.Rejected? || Utf8Size(raws[n]) >= SCANNER_LIMIT then Rejected
      else
        match ParseLine(known, raws[n])
        case Bad => Rejected
        case Skipped => before
        case Entry(name, value) => if name in before.value then Rejected else Ok(before.value[name := value])
  }

  function ParseText(known: set<string>, text: string): Result<map<string, string>> {
    if Utf8Size(text) > MAXIMUM_BYTES then Rejected else ParseLines(known, RawLines(text))
  }

  lemma {:induction false} RejectionSticks(known: set<string>, raws: seq<string>, n: nat)
    requires n <= |raws| && ParseLines(known, raws[..n]).Rejected?
    ensures ParseLines(known, raws).Rejected?
    decreases |raws| - n
  {
    if n == |raws| {
      assert raws[..n] == raws;
    } else {
      assert raws[..n + 1][..n] == raws[..n];
      RejectionSticks(known, raws, n + 1);
    }
  }

  function Advance(values: map<string, string>, size: nat, outcome: Outcome): Result<map<string, string>> {
    if size >= SCANNER_LIMIT || outcome.Bad? || (outcome.Entry? && outcome.name in values) then Rejected
    else if outcome.Entry? then Ok(values[outcome.name := outcome.value])
    else Ok(values)
  }

  /** What one iteration does to the values so far. */
  lemma NextLine(known: set<string>, raws: seq<string>, n: nat, values: map<string, string>)
    requires n < |raws| && ParseLines(known, raws[..n]) == Ok(values)
    ensures ParseLines(known, raws[..n + 1]) == Advance(values, Utf8Size(raws[n]), ParseLine(known, raws[n]))
  {
    assert raws[..n + 1][..n] == raws[..n];
  }

  /** parseEnvironmentFile */
  method ParseEnvironmentFile(known: set<string>, text: string) returns (result: Result<map<string, string>>)
    ensures result == ParseText(known, text)
  {
    if Utf8Size(text) > MAXIMUM_BYTES {
      return Rejected;
    }
    var values: map<string, string> := map[];
    var raws := RawLines(text);
    for lineNumber := 0 to |raws|
      invariant ParseLines(known, raws[..lineNumber]) == Ok(values)
    {
      NextLine(known, raws, lineNumber, values);
      if Utf8Size(raws[lineNumber]) >= SCANNER_LIMIT {
        RejectionSticks(known, raws, lineNumber + 1);
        return Rejected;
      }
      var outcome := ParseLine(known, raws[lineNumber]);
      if outcome.Bad? || (outcome.Entry? && outcome.name in values) {
        RejectionSticks(known, raws, lineNumber + 1);
        return Rejected;
      }
      if outcome.Entry? {
        values := values[outcome.name := outcome.value];
      }
    }
    assert raws[..|raws|] == raws;
    return Ok(values);
  }

  // ---- the grammar ------------------------------------------------------------------

  datatype Content = Blank | Comment(text: string) | Setting(name: string, value: string)

  /** A line: its content and the carriage returns before the line feed. */
  datatype Line = Line(content: Content, crs: nat)

  /** A file: its lines, and whether the last one ends in a line feed. */
  datatype File = File(lines: seq<Line>, terminated: bool)

  function ContentText(c: Content): string {
    match c
    case Blank => ""
    case Comment(text) => "#" + text
    case Setting(name, value) => name + "=" + value
  }

  function Returns(n: nat): string {
    seq(n, i => '\r')
  }

  function LineText(l: Line): string {
    ContentText(l.content) + Returns(l.crs)
  }

  predicate ContentValid(known: set<string>, c: Content) {
    match c
    case Blank => true
    case Comment(text) => ControlFree(text)
    case Setting(name, value) => ValidName(name) && name in known && ControlFree(value)
  }

  predicate LineValid(known: set<string>, l: Line) {
    ContentValid(known, l.content) && l.crs <= 2 && Utf8Size(LineText(l)) < SCANNER_LIMIT
  }

  /** The settings of some lines; later ones would win. */
  function Settings(lines: seq<Line>): map<string, string> {
    if lines == [] then map[]
    else
      var n := |lines| - 1;
      var before := Settings(lines[..n]);
      if lines[n].content.Setting? then before[lines[n].content.name := lines[n].content.value] else before
  }

  /** Valid lines, no name twice. */
  predicate LinesValid(known: set<string>, lines: seq<Line>) {
    lines == [] ||
    (var n := |lines| - 1;
     && LinesValid(known, lines[..n])
     && LineValid(known, lines[n])
     && (lines[n].content.Setting? ==> lines[n].content.name !in Settings(lines[..n])))
  }

  /** Raw lines as file text. */
  function RawText(raws: seq<string>, terminated: bool): string {
    if raws == [] then ""
    else if |raws| == 1 && !terminated then raws[0]
    else raws[0] + "\n" + RawText(raws[1..], terminated)
  }

  function Texts(lines: seq<Line>): seq<string> {
    seq(|lines|, i requires 0 <= i < |lines| => LineText(lines[i]))
  }

  function FileText(f: File): string {
    RawText(Texts(f.lines), f.terminated)
  }

  predicate FileValid(known: set<string>, f: File) {
    && LinesValid(known, f.lines)
    && (!f.terminated ==> f.lines != [] && LineText(f.lines[|f.lines| - 1]) != "")
    && Utf8Size(FileText(f)) <= MAXIMUM_BYTES
  }

  // ---- lines ---------------------------------------------------------------------------

  lemma DropReturns(content: string, n: nat)
    requires ControlFree(content) && n <= 2
    ensures DropCr(DropCr(content + Returns(n))) == content
  {
    if n == 0 {
      assert content + Returns(0) == content;
    } else {
      assert content + Returns(n) == (content + Returns(n - 1)) + ['\r'];
      assert DropCr(content + Returns(n)) == content + Returns(n - 1);
      assert content + Returns(0) == content;
    }
  }

  lemma ContentIsControlFree(known: set<string>, c: Content)
    requires ContentValid(known, c)
    ensures ControlFree(ContentText(c))
  {
  }

  lemma SettingCuts(name: string, value: string)
    requires ValidName(name)
    ensures var line := name + "=" + value;
            Find(line, '=') == |name| && line[..|name|] == name && line[|name| + 1..] == value
  {
    var line := name + "=" + value;
    assert line[|name|] == '=';
    assert forall j :: 0 <= j < |name| ==> line[j] == name[j];
  }

  lemma SettingStarts(name: string, value: string)
    requires ValidName(name)
    ensures !StartsWith(name + "=" + value, "#") && !StartsWith(name + "=" + value, "export ")
  {
    var line := name + "=" + value;
    assert line[0] == name[0];
    DifferentStart(line, "#");
    DifferentStart(line, "export ");
  }

  function OutcomeOf(c: Content): Outcome {
    if c.Setting? then Entry(c.name, c.value) else Skipped
  }

  /** A valid line parses to its content. */
  lemma LineParses(known: set<string>, l: Line)
    requires LineValid(known, l)
    ensures ParseLine(known, LineText(l)) == OutcomeOf(l.content)
  {
    ContentIsControlFree(known, l.content);
    DropReturns(ContentText(l.content), l.crs);
    match l.content
    case Blank =>
    case Comment(text) => assert ("#" + text)[..1] == "#";
    case Setting(name, value) =>
      SettingStarts(name, value);
      SettingCuts(name, value);
  }

  lemma CountReturns(raw: string) returns (n: nat)
    ensures n <= 2 && raw == DropCr(DropCr(raw)) + Returns(n)
  {
    var once := DropCr(raw);
    var twice := DropCr(once);
    if once == raw {
      n := 0;
    } else if twice == once {
      n := 1;
      assert raw == once + ['\r'];
      assert Returns(1) == ['\r'];
    } else {
      n := 2;
      assert raw == (twice + ['\r']) + ['\r'];
      assert Returns(2) == ['\r', '\r'];
    }
  }

  lemma ControlFreeSuffix(s: string, n: nat)
    requires n <= |s| && ControlFree(s)
    ensures ControlFree(s[n..])
  {
    forall i | 0 <= i < |s| - n ensures !IsControl(s[n..][i]) {
      assert s[n..][i] == s[n + i];
    }
  }

  /** A line that is not rejected is a valid line's text. */
  lemma ParsedLine(known: set<string>, raw: string) returns (l: Line)
    requires !ParseLine(known, raw).Bad? && Utf8Size(raw) < SCANNER_LIMIT
    ensures LineText(l) == raw && LineValid(known, l) && OutcomeOf(l.content) == ParseLine(known, raw)
  {
    var n := CountReturns(raw);
    var line := DropCr(DropCr(raw));
    if line == "" {
      l := Line(Blank, n);
    } else if StartsWith(line, "#") {
      l := Line(Comment(line[1..]), n);
      assert line == line[..1] + line[1..];
      ControlFreeSuffix(line, 1);
    } else {
      var cut := Find(line, '=');
      l := Line(Setting(line[..cut], line[cut + 1..]), n);
      assert line == line[..cut] + "=" + line[cut + 1..];
      ControlFreeSuffix(line, cut + 1);
    }
  }

  // ---- files ------------------------------------------------------------------------------

  /** The lines parse one after the other. */
  lemma NextLineParses(known: set<string>, raws: seq<string>, l: Line, before: map<string, string>)
    requires raws != [] && ParseLines(known, raws[..|raws| - 1]) == Ok(before)
    requires raws[|raws| - 1] == LineText(l) && LineValid(known, l)
    requires l.content.Setting? ==> l.content.name !in before
    ensures ParseLines(known, raws)
           == Ok(if l.content.Setting? then before[l.content.name := l.content.value] else before)
  {
    LineParses(known, l);
  }

  lemma {:induction false} LinesParse(known: set<string>, lines: seq<Line>)
    requires LinesValid(known, lines)
    ensures ParseLines(known, Texts(lines)) == Ok(Settings(lines))
  {
    if lines == [] {
      assert Texts(lines) == [];
    } else {
      var n := |lines| - 1;
      LinesParse(known, lines[..n]);
      assert Texts(lines)[..n] == Texts(lines[..n]);
      NextLineParses(known, Texts(lines), lines[n], Settings(lines[..n]));
    }
  }

  /** An accepted last line: what comes before it is accepted, and it adds its setting. */
  lemma LastLineParsed(known: set<string>, raws: seq<string>)
    requires raws != [] && ParseLines(known, raws).Ok?
    ensures var n, before := |raws| - 1, ParseLines(known, raws[..|raws| - 1]);
            before.Ok? && Advance(before.value, Utf8Size(raws[n]), ParseLine(known, raws[n])) == ParseLines(known, raws)
  {
  }

  lemma SettingsExtend(before: seq<Line>, last: Line)
    ensures Settings(before + [last])
         == if last.content.Setting? then Settings(before)[last.content.name := last.content.value]
            else Settings(before)
  {
    assert (before + [last])[..|before|] == before;
  }

  lemma ValidExtend(known: set<string>, before: seq<Line>, last: Line)
    requires LinesValid(known, before) && LineValid(known, last)
    requires last.content.Setting? ==> last.content.name !in Settings(before)
    ensures LinesValid(known, before + [last])
  {
    assert (before + [last])[..|before|] == before;
  }

  /** One more valid line that the values so far can take. */
  lemma LinesExtend(known: set<string>, before: seq<Line>, last: Line, size: nat, next: map<string, string>)
    requires LinesValid(known, before) && LineValid(known, last)
    requires Advance(Settings(before), size, OutcomeOf(last.content)) == Ok(next)
    ensures LinesValid(known, before + [last]) && Settings(before + [last]) == next
  {
    SettingsExtend(before, last);
    ValidExtend(known, before, last);
  }

  lemma {:induction false} ParsedLines(known: set<string>, raws: seq<string>) returns (lines: seq<Line>)
    requires ParseLines(known, raws).Ok?
    ensures Texts(lines) == raws && LinesValid(known, lines) && Ok(Settings(lines)) == ParseLines(known, raws)
  {
    hide ParseLine, LineText, LineValid, OutcomeOf, Advance;
    if raws == [] {
      lines := [];
    } else {
      var n, next := |raws| - 1, ParseLines(known, raws).value;
      LastLineParsed(known, raws);
      var before := ParsedLines(known, raws[..n]);
      var last := ParsedLine(known, raws[n]);
      LinesExtend(known, before, last, Utf8Size(raws[n]), next);
      lines := before + [last];
      assert Texts(lines) == Texts(before) + [LineText(last)];
      assert raws == raws[..n] + [raws[n]];
    }
  }

  predicate NoLineFeeds(raws: seq<string>) {
    forall i :: 0 <= i < |raws| ==> '\n' !in raws[i]
  }

  lemma {:induction false} SplitRawText(raws: seq<string>, terminated: bool)
    requires NoLineFeeds(raws) && (!terminated ==> raws != [])
    ensures Split(RawText(raws, terminated), '\n') == raws + if terminated then [""] else []
  {
    if raws == [] {
    } else if |raws| == 1 && !terminated {
      SplitSingle(raws[0], '\n');
      assert raws == [raws[0]];
    } else {
      SplitRawText(raws[1..], terminated);
      SplitAppend(raws[0], RawText(raws[1..], terminated), '\n');
      assert raws == [raws[0]] + raws[1..];
    }
  }

  /** The scanner finds the lines a file was written from. */
  lemma RawLinesOfText(raws: seq<string>, terminated: bool)
    requires NoLineFeeds(raws) && (!terminated ==> raws != [] && raws[|raws| - 1] != "")
    ensures RawLines(RawText(raws, terminated)) == raws
  {
    SplitRawText(raws, terminated);
    assert (raws + [""])[..|raws|] == raws;
  }

  lemma {:induction false} JoinIsRawText(pieces: seq<string>)
    requires pieces != []
    ensures var n := |pieces| - 1;
            Join(pieces, '\n') == if pieces[n] == "" then RawText(pieces[..n], true) else RawText(pieces, false)
  {
    var n := |pieces| - 1;
    if n > 0 {
      JoinIsRawText(pieces[1..]);
      assert pieces[1..][..n - 1] == pieces[..n][1..];
    }
  }

  /** Every text is the text of its raw lines. */
  lemma TextOfRawLines(text: string) returns (terminated: bool)
    ensures RawText(RawLines(text), terminated) == text && NoLineFeeds(RawLines(text))
    ensures !terminated ==> RawLines(text) != [] && RawLines(text)[|RawLines(text)| - 1] != ""
  {
    JoinSplit(text, '\n');
    PiecesAreFree(text, '\n');
    var pieces := Split(text, '\n');
    terminated := pieces[|pieces| - 1] == "";
    JoinIsRawText(pieces);
  }

  lemma LineHasNoLineFeed(known: set<string>, l: Line)
    requires LineValid(known, l)
    ensures '\n' !in LineText(l)
  {
    ContentIsControlFree(known, l.content);
    var content, crs := ContentText(l.content), Returns(l.crs);
    forall c | c in content + crs ensures c != '\n' {
      if c in content {
        var i :| 0 <= i < |content| && content[i] == c;
        assert !IsControl(content[i]);
      }
    }
  }

  lemma {:induction false} LinesAreValid(known: set<string>, lines: seq<Line>, i: nat)
    requires LinesValid(known, lines) && i < |lines|
    ensures LineValid(known, lines[i])
  {
    if i < |lines| - 1 {
      LinesAreValid(known, lines[..|lines| - 1], i);
    }
  }

  /** The text of a valid file parses to its settings. */
  lemma FileParses(known: set<string>, f: File)
    requires FileValid(known, f)
    ensures ParseText(known, FileText(f)) == Ok(Settings(f.lines))
  {
    var raws := Texts(f.lines);
    forall i | 0 <= i < |raws| ensures '\n' !in raws[i] {
      LinesAreValid(known, f.lines, i);
      LineHasNoLineFeed(known, f.lines[i]);
    }
    RawLinesOfText(raws, f.terminated);
    LinesParse(known, f.lines);
  }

  /** The parser accepts exactly the texts of valid files, with the file's settings:
      known, pairwise distinct names, LF, CRLF or even CRCRLF line ends, blank and
      comment lines anywhere, the last line feed optional. */
  lemma ParserExact(known: set<string>, text: string, values: map<string, string>)
    ensures ParseText(known, text) == Ok(values)
        <==> exists f :: FileValid(known, f) && FileText(f) == text && Settings(f.lines) == values
  {
    if ParseText(known, text) == Ok(values) {
      var terminated := TextOfRawLines(text);
      var lines := ParsedLines(known, RawLines(text));
      var f := File(lines, terminated);
      assert |lines| == |RawLines(text)|;
      assert lines != [] ==> LineText(lines[|lines| - 1]) == Texts(lines)[|lines| - 1];
      assert FileText(f) == text;
      assert FileValid(known, f);
    }
    if f :| FileValid(known, f) && FileText(f) == text && Settings(f.lines) == values {
      FileParses(known, f);
    }
  }

  // ---- printing -------------------------------------------------------------------------------

  /** The names of the settings among some lines, in order. */
  function SettingNames(lines: seq<Line>): seq<string> {
    if lines == [] then []
    else
      var n := |lines| - 1;
      SettingNames(lines[..n]) + if lines[n].content.Setting? then [lines[n].content.name] else []
  }

  predicate Covers(names: seq<string>, m: map<string, string>) {
    forall name :: name in m ==> name in names
  }

  predicate SettingsFrom(lines: seq<Line>, m: map<string, string>) {
    forall i :: 0 <= i < |lines| && lines[i].content.Setting? ==>
      lines[i].content.name in m && lines[i].content.value == m[lines[i].content.name]
  }

  /** Lines that print a map: each setting once, in any order, with any blank and comment
      lines among them. */
  predicate Prints(lines: seq<Line>, m: map<string, string>) {
    SettingsFrom(lines, m) && Distinct(SettingNames(lines)) && Covers(SettingNames(lines), m)
  }

  predicate AllLinesValid(known: set<string>, lines: seq<Line>) {
    forall i :: 0 <= i < |lines| ==> LineValid(known, lines[i])
  }

  function Restricted(m: map<string, string>, names: seq<string>): map<string, string> {
    map name | name in m && name in names :: m[name]
  }

  lemma RestrictedGrows(m: map<string, string>, names: seq<string>, name: string)
    requires name in m && Distinct(names + [name])
    ensures name !in Restricted(m, names)
    ensures Restricted(m, names + [name]) == Restricted(m, names)[name := m[name]]
  {
    assert (names + [name])[|names|] == name;
    assert name !in names by {
      assert forall i :: 0 <= i < |names| ==> (names + [name])[i] == names[i];
    }
  }

  lemma DistinctPrefix(names: seq<string>, name: string)
    requires Distinct(names + [name])
    ensures Distinct(names)
  {
    assert forall i :: 0 <= i < |names| ==> (names + [name])[i] == names[i];
  }

  lemma {:induction false} PrintedLines(known: set<string>, m: map<string, string>, lines: seq<Line>)
    requires AllLinesValid(known, lines) && SettingsFrom(lines, m) && Distinct(SettingNames(lines))
    ensures LinesValid(known, lines) && Settings(lines) == Restricted(m, SettingNames(lines))
  {
    if lines != [] {
      var n := |lines| - 1;
      var names := SettingNames(lines[..n]);
      if lines[n].content.Setting? {
        DistinctPrefix(names, lines[n].content.name);
        RestrictedGrows(m, names, lines[n].content.name);
      } else {
        assert SettingNames(lines) == names;
      }
      PrintedLines(known, m, lines[..n]);
    }
  }

  /** Printing any map of known names to control-free values, in any order, with LF, CRLF
      or CRCRLF line ends, with blank and comment lines anywhere and with or without a line
      feed at the end, and parsing gives the map back. */
  lemma PrintedMapParses(known: set<string>, m: map<string, string>, f: File)
    requires AllLinesValid(known, f.lines) && Prints(f.lines, m)
    requires !f.terminated ==> f.lines != [] && LineText(f.lines[|f.lines| - 1]) != ""
    requires Utf8Size(FileText(f)) <= MAXIMUM_BYTES
    ensures ParseText(known, FileText(f)) == Ok(m)
  {
    PrintedLines(known, m, f.lines);
    FileParses(known, f);
    assert Restricted(m, SettingNames(f.lines)) == m;
  }

  lemma {:induction false} SettingsKnown(known: set<string>, lines: seq<Line>)
    requires LinesValid(known, lines)
    ensures forall name :: name in Settings(lines) ==>
              name in known && ValidName(name) && ControlFree(Settings(lines)[name])
  {
    if lines != [] {
      SettingsKnown(known, lines[..|lines| - 1]);
    }
  }

  lemma {:induction false} SettingsDistinct(known: set<string>, lines: seq<Line>)
    requires LinesValid(known, lines)
    ensures Distinct(SettingNames(lines)) && forall name :: name in Settings(lines) <==> name in SettingNames(lines)
  {
    if lines != [] {
      SettingsDistinct(known, lines[..|lines| - 1]);
    }
  }

  /** Acceptance of a text implies known, well-formed and pairwise distinct names with
      control-free values: its setting lines are exactly the values, each once. */
  lemma AcceptedNamesKnown(known: set<string>, text: string) returns (f: File)
    requires ParseText(known, text).Ok?
    ensures forall name :: name in ParseText(known, text).value ==>
              name in known && ValidName(name) && ControlFree(ParseText(known, text).value[name])
    ensures FileText(f) == text && Distinct(SettingNames(f.lines))
    ensures forall name :: name in ParseText(known, text).value <==> name in SettingNames(f.lines)
  {
    var values := ParseText(known, text).value;
    ParserExact(known, text, values);
    f :| FileValid(known, f) && FileText(f) == text && Settings(f.lines) == values;
    SettingsKnown(known, f.lines);
    SettingsDistinct(known, f.lines);
  }
}
