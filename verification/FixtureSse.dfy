/** The fixture event-stream parser: its text checks, its record grammar, the
    renderer it inverts, and the browser's line state machine it must agree with. */
module FixtureSse {
  import opened Wrappers
  import opened Text

  /** A decoded JSON value, as far as the parser looks: the "type" member of an
      object, and the value's identity. */
  datatype TypeMember = Missing | NotText | Name(text: string)

  datatype Value = Object(typeMember: TypeMember, id: int) | Other(id: int)

  /** The JSON library: strict loading and compact canonical dumping. */
  datatype Json = Json(loads: string -> Option<Value>, dumps: Value -> string)

  datatype Payload = Done | Parsed(value: Value)

  datatype Record = Record(event: string, payload: Payload, raw: string)

  const EVENT := "event: "
  const DATA := "data: "
  const DONE := "[DONE]"

  // ---- read_text ------------------------------------------------------------------

  /** Where str.splitlines breaks a line; CR is ruled out beforehand. */
  predicate IsLineBreak(c: char) {
    c == '\n' || c == '\U{000B}' || c == '\U{000C}' || c == '\U{001C}' || c == '\U{001D}' || c == '\U{001E}'
    || c == '\U{0085}' || c == '\U{2028}' || c == '\U{2029}'
  }

  predicate IsBlank(c: char) {
    c == ' ' || c == '\t'
  }

  /** str.splitlines on CR-free text. */
  function SplitLines(s: string): (lines: seq<string>)
    ensures s != "" ==> |lines| > 0 && (lines[0] == "" <==> IsLineBreak(s[0]))
  {
    if s == "" then []
    else if IsLineBreak(s[0]) then [""] + SplitLines(s[1..])
    else if |s| == 1 then [s]
    else
      var rest := SplitLines(s[1..]);
      [[s[0]] + rest[0]] + rest[1..]
  }

  predicate EndsBlank(line: string) {
    |line| > 0 && IsBlank(line[|line| - 1])
  }

  predicate CleanLines(lines: seq<string>) {
    forall i :: 0 <= i < |lines| ==> !EndsBlank(lines[i])
  }

  /** No blank directly before a line break or the end. */
  predicate NoTrailingBlank(s: string) {
    forall i :: 0 <= i < |s| && IsBlank(s[i]) ==> i + 1 < |s| && !IsLineBreak(s[i + 1])
  }

  lemma NoTrailingBlankTail(s: string)
    requires s != ""
    ensures NoTrailingBlank(s) <==> NoTrailingBlank(s[1..]) && (IsBlank(s[0]) ==> |s| > 1 && !IsLineBreak(s[1]))
  {
    var t := s[1..];
    assert forall i :: 0 <= i < |t| ==> t[i] == s[i + 1];
    if NoTrailingBlank(t) && (IsBlank(s[0]) ==> |s| > 1 && !IsLineBreak(s[1])) {
      forall i | 0 <= i < |s| && IsBlank(s[i]) ensures i + 1 < |s| && !IsLineBreak(s[i + 1]) {
        if i > 0 {
          assert IsBlank(t[i - 1]);
        }
      }
    }
  }

  lemma CleanCons(first: string, rest: seq<string>)
    ensures CleanLines([first] + rest) <==> !EndsBlank(first) && CleanLines(rest)
  {
    var lines := [first] + rest;
    assert lines[0] == first;
    assert forall i :: 0 <= i < |rest| ==> lines[i + 1] == rest[i];
  }

  /** The per-line check of read_text is the pointwise one. */
  lemma {:induction false} CleanLinesExact(s: string)
    ensures CleanLines(SplitLines(s)) <==> NoTrailingBlank(s)
  {
    if s != "" {
      CleanLinesExact(s[1..]);
      NoTrailingBlankTail(s);
      var lines, rest := SplitLines(s), SplitLines(s[1..]);
      if IsLineBreak(s[0]) {
        CleanCons("", rest);
      } else if |s| == 1 {
        assert lines == [s];
      } else {
        CleanCons([s[0]] + rest[0], rest[1..]);
        CleanCons(rest[0], rest[1..]);
        assert rest == [rest[0]] + rest[1..];
      }
    }
  }

  predicate ReadTextAccepts(text: string) {
    && (|text| > 0 ==> text[0] != '\U{FEFF}')
    && '\r' !in text
    && EndsWith(text, "\n")
    && NoTrailingBlank(text)
  }

  method ReadText(text: string) returns (ok: bool)
    ensures ok <==> ReadTextAccepts(text)
  {
    CleanLinesExact(text);
    if StartsWith(text, "\U{FEFF}") || '\r' in text || !EndsWith(text, "\n") {
      return false;
    }
    var lines := SplitLines(text);
    for number := 0 to |lines|
      invariant CleanLines(lines[..number])
    {
      if EndsBlank(lines[number]) {
        return false;
      }
      assert lines[..number + 1] == lines[..number] + [lines[number]];
    }
    assert lines[..|lines|] == lines;
    return true;
  }

  // ---- blocks -----------------------------------------------------------------------

  /** str.split on a pair of newlines. */
  function SplitBlocks(s: string): (blocks: seq<string>)
    ensures |blocks| > 0
  {
    if |s| < 2 then [s]
    else if s[0] == '\n' && s[1] == '\n' then [""] + SplitBlocks(s[2..])
    else
      var rest := SplitBlocks(s[1..]);
      [[s[0]] + rest[0]] + rest[1..]
  }

  /** Every block followed by its empty line. */
  function Terminated(blocks: seq<string>): string {
    if blocks == [] then "" else blocks[0] + "\n\n" + Terminated(blocks[1..])
  }

  lemma {:induction false} TerminatedSplit(s: string)
    ensures Terminated(SplitBlocks(s)) == s + "\n\n"
  {
    if |s| >= 2 {
      if s[0] == '\n' && s[1] == '\n' {
        TerminatedSplit(s[2..]);
        assert ([""] + SplitBlocks(s[2..]))[1..] == SplitBlocks(s[2..]);
        assert s == "\n\n" + s[2..];
      } else {
        TerminatedSplit(s[1..]);
        var rest := SplitBlocks(s[1..]);
        assert ([[s[0]] + rest[0]] + rest[1..])[1..] == rest[1..];
        assert s + "\n\n" == [s[0]] + (s[1..] + "\n\n");
      }
    }
  }

  /** No newline at the end and no two in a row. */
  predicate SolidBlock(b: string) {
    && (|b| > 0 ==> b[|b| - 1] != '\n')
    && forall i, j :: 0 <= i && j == i + 1 < |b| && b[i] == '\n' ==> b[j] != '\n'
  }

  lemma {:induction false} SplitSolid(b: string)
    requires SolidBlock(b)
    ensures SplitBlocks(b) == [b]
  {
    if |b| >= 2 {
      SplitSolid(b[1..]);
      assert [b[0]] + b[1..] == b;
    }
  }

  lemma {:induction false} SplitSolidAppend(b: string, rest: string)
    requires SolidBlock(b)
    ensures SplitBlocks(b + "\n\n" + rest) == [b] + SplitBlocks(rest)
  {
    var s := b + "\n\n" + rest;
    if b == "" {
      assert s[2..] == rest;
    } else {
      assert s[0] == b[0] && s[1] == (if |b| > 1 then b[1] else '\n');
      SplitSolidAppend(b[1..], rest);
      assert s[1..] == b[1..] + "\n\n" + rest;
      assert [b[0]] + b[1..] == b;
    }
  }

  predicate AllSolid(blocks: seq<string>) {
    forall i :: 0 <= i < |blocks| ==> SolidBlock(blocks[i])
  }

  /** Dropping the last empty line and splitting gives the blocks back. */
  lemma {:induction false} SplitTerminated(blocks: seq<string>)
    requires |blocks| > 0 && AllSolid(blocks)
    ensures |Terminated(blocks)| >= 2
    ensures SplitBlocks(Terminated(blocks)[..|Terminated(blocks)| - 2]) == blocks
  {
    var text := Terminated(blocks);
    if |blocks| == 1 {
      assert Terminated(blocks[1..]) == "";
      assert text[..|text| - 2] == blocks[0];
      SplitSolid(blocks[0]);
    } else {
      SplitTerminated(blocks[1..]);
      var rest := Terminated(blocks[1..]);
      assert text[..|text| - 2] == blocks[0] + "\n\n" + rest[..|rest| - 2];
      SplitSolidAppend(blocks[0], rest[..|rest| - 2]);
    }
  }

  // ---- records ------------------------------------------------------------------------

  function ParseData(json: Json, event: string, line: string): Result<Record> {
    if !StartsWith(line, DATA) then Rejected
    else
      var raw := line[|DATA|..];
      if raw == DONE then Ok(Record(event, Done, raw))
      else if json.loads(raw).None? then Rejected
      else
        var value := json.loads(raw).value;
        if raw != json.dumps(value) then Rejected
        else if event != "" && (value.Other? || value.typeMember != Name(event)) then Rejected
        else Ok(Record(event, Parsed(value), raw))
  }

  function ParseBlock(json: Json, block: string): Result<Record> {
    var lines := Split(block, '\n');
    if StartsWith(lines[0], EVENT) then
      (if |lines| != 2 then Rejected else ParseData(json, lines[0][|EVENT|..], lines[1]))
    else if |lines| == 1 then ParseData(json, "", lines[0])
    else Rejected
  }

  predicate EndsAfterOneEmptyLine(text: string) {
    EndsWith(text, "\n\n") && !EndsWith(text, "\n\n\n")
  }

  /** Every block parses, in order. */
  predicate ParsesAs(json: Json, blocks: seq<string>, records: seq<Record>) {
    |blocks| == |records| && forall i :: 0 <= i < |blocks| ==> ParseBlock(json, blocks[i]) == Ok(records[i])
  }

  /** What the parser accepts text as. */
  predicate Accepts(json: Json, text: string, records: seq<Record>) {
    && ReadTextAccepts(text)
    && EndsAfterOneEmptyLine(text)
    && ParsesAs(json, SplitBlocks(text[..|text| - 2]), records)
  }

  lemma AcceptsOnce(json: Json, text: string, r1: seq<Record>, r2: seq<Record>)
    requires Accepts(json, text, r1) && Accepts(json, text, r2)
    ensures r1 == r2
  {
    var blocks := SplitBlocks(text[..|text| - 2]);
    forall i | 0 <= i < |blocks| ensures r1[i] == r2[i] {
      assert Ok(r1[i]) == ParseBlock(json, blocks[i]) == Ok(r2[i]);
    }
  }

  method ParseSse(json: Json, text: string) returns (result: Result<seq<Record>>)
    ensures result.Ok? ==> Accepts(json, text, result.value)
    ensures result.Rejected? ==> forall records :: !Accepts(json, text, records)
  {
    var ok := ReadText(text);
    if !ok || !EndsWith(text, "\n\n") || EndsWith(text, "\n\n\n") {
      return Rejected;
    }
    var records := [];
    var blocks := SplitBlocks(text[..|text| - 2]);
    for index := 0 to |blocks|
      invariant |records| == index
      invariant forall i :: 0 <= i < index ==> ParseBlock(json, blocks[i]) == Ok(records[i])
    {
      var record := ParseBlock(json, blocks[index]);
      if record.Rejected? {
        return Rejected;
      }
      records := records + [record.value];
    }
    return Ok(records);
  }

  // ---- rendering -----------------------------------------------------------------------

  function RenderRecord(r: Record): string {
    (if r.event != "" then EVENT + r.event + "\n" else "") + DATA + r.raw
  }

  function Rendered(records: seq<Record>): seq<string> {
    seq(|records|, i requires 0 <= i < |records| => RenderRecord(records[i]))
  }

  function Render(records: seq<Record>): string {
    Terminated(Rendered(records))
  }

  predicate OneLine(s: string) {
    '\n' !in s && '\r' !in s
  }

  /** A record the parser can produce. */
  predicate ValidRecord(json: Json, r: Record) {
    && OneLine(r.event) && OneLine(r.raw) && r.raw != "" && PayloadValid(json, r)
    && NoTrailingBlank(RenderRecord(r) + "\n")
  }

  /** The data is done or the canonical text of a value, which names the event if there is one. */
  predicate PayloadValid(json: Json, r: Record) {
    match r.payload
    case Done => r.raw == DONE
    case Parsed(v) =>
      && r.raw != DONE && json.loads(r.raw) == Some(v) && json.dumps(v) == r.raw
      && (r.event != "" ==> v.Object? && v.typeMember == Name(r.event))
  }

  predicate AllValid(json: Json, records: seq<Record>) {
    forall i :: 0 <= i < |records| ==> ValidRecord(json, records[i])
  }

  lemma BlockLines(r: Record)
    requires OneLine(r.event) && OneLine(r.raw)
    ensures Split(RenderRecord(r), '\n') == if r.event != "" then [EVENT + r.event, DATA + r.raw] else [DATA + r.raw]
  {
    assert '\n' !in DATA + r.raw && '\n' !in EVENT + r.event;
    SplitSingle(DATA + r.raw, '\n');
    if r.event == "" {
      assert RenderRecord(r) == DATA + r.raw;
    }
    if r.event != "" {
      SplitAppend(EVENT + r.event, DATA + r.raw, '\n');
      assert RenderRecord(r) == EVENT + r.event + ['\n'] + (DATA + r.raw);
    }
  }

  lemma Prefixes(s: string, e: string)
    ensures StartsWith(EVENT + e, EVENT) && (EVENT + e)[|EVENT|..] == e
    ensures StartsWith(DATA + s, DATA) && (DATA + s)[|DATA|..] == s
    ensures !StartsWith(DATA + s, EVENT)
  {
    assert (DATA + s)[0] == 'd';
    DifferentStart(DATA + s, EVENT);
  }

  /** A valid record's block parses to the record. */
  lemma RenderedParses(json: Json, r: Record)
    requires ValidRecord(json, r)
    ensures ParseBlock(json, RenderRecord(r)) == Ok(r)
  {
    BlockLines(r);
    Prefixes(r.raw, r.event);
  }

  lemma BeforeBreak(s: string, i: nat)
    requires NoTrailingBlank(s) && i + 1 < |s| && s[i + 1] == '\n'
    ensures !IsBlank(s[i])
  {
  }

  lemma ParsedDataLine(json: Json, event: string, line: string)
    requires ParseData(json, event, line).Ok?
    ensures var r := ParseData(json, event, line).value; line == DATA + r.raw && r.event == event
  {
    assert line == line[..|DATA|] + line[|DATA|..];
  }

  lemma ParsedShape(json: Json, block: string)
    requires ParseBlock(json, block).Ok?
    ensures var r, lines := ParseBlock(json, block).value, Split(block, '\n');
            || (lines == [DATA + r.raw] && r.event == "")
            || lines == [EVENT + r.event, DATA + r.raw]
  {
    var lines := Split(block, '\n');
    if StartsWith(lines[0], EVENT) {
      assert lines[0] == lines[0][..|EVENT|] + lines[0][|EVENT|..];
      ParsedDataLine(json, lines[0][|EVENT|..], lines[1]);
      assert lines == [lines[0], lines[1]];
    } else {
      ParsedDataLine(json, "", lines[0]);
      assert lines == [lines[0]];
    }
  }

  lemma ParsedPayload(json: Json, block: string)
    requires ParseBlock(json, block).Ok?
    ensures PayloadValid(json, ParseBlock(json, block).value)
  {
    var lines := Split(block, '\n');
    if StartsWith(lines[0], EVENT) {
      assert ParseBlock(json, block) == ParseData(json, lines[0][|EVENT|..], lines[1]);
    }
  }

  /** One data line. */
  lemma DataRenders(block: string, r: Record)
    requires r.event == "" && block == DATA + r.raw && '\n' !in block && '\r' !in block
    requires NoTrailingBlank(block + "\n")
    ensures RenderRecord(r) == block && OneLine(r.event) && OneLine(r.raw) && r.raw != ""
  {
    BeforeBreak(block + "\n", |block| - 1);
    assert forall c :: c in r.raw ==> c in block;
  }

  /** An event line and a data line. */
  lemma EventRenders(block: string, r: Record, head: string, data: string)
    requires head == EVENT + r.event && data == DATA + r.raw && block == head + ['\n'] + data
    requires '\n' !in head && '\n' !in data && '\r' !in block
    requires NoTrailingBlank(block + "\n")
    ensures RenderRecord(r) == block && OneLine(r.event) && OneLine(r.raw) && r.raw != ""
  {
    BeforeBreak(block + "\n", |head| - 1);
    BeforeBreak(block + "\n", |block| - 1);
    assert head[|head| - 1] == block[|head| - 1] && data[|data| - 1] == block[|block| - 1];
    assert forall c :: c in r.event ==> c in head;
    assert forall c :: c in r.raw ==> c in data;
    assert forall c :: c in head || c in data ==> c in block;
  }

  /** A parsed block is the rendering of its record, and the record is valid. */
  lemma ParsedRenders(json: Json, block: string)
    requires ParseBlock(json, block).Ok?
    requires NoTrailingBlank(block + "\n") && '\r' !in block
    ensures var r := ParseBlock(json, block).value; RenderRecord(r) == block && ValidRecord(json, r)
  {
    var r, lines := ParseBlock(json, block).value, Split(block, '\n');
    JoinSplit(block, '\n');
    PiecesAreFree(block, '\n');
    ParsedShape(json, block);
    ParsedPayload(json, block);
    if |lines| == 2 {
      assert lines[1..] == [lines[1]];
      EventRenders(block, r, lines[0], lines[1]);
    } else {
      DataRenders(block, r);
    }
  }

  // ---- round trips ------------------------------------------------------------------------

  lemma NoTrailingBlankJoin(a: string, b: string)
    ensures NoTrailingBlank(a + "\n" + b) <==> NoTrailingBlank(a + "\n") && NoTrailingBlank(b)
  {
    var s, t := a + "\n" + b, a + "\n";
    assert forall i :: 0 <= i < |t| ==> s[i] == t[i];
    assert forall i :: 0 <= i < |b| ==> s[|t| + i] == b[i];
    if NoTrailingBlank(s) {
      forall i | 0 <= i < |t| && IsBlank(t[i]) ensures i + 1 < |t| && !IsLineBreak(t[i + 1]) {
        assert IsBlank(s[i]);
      }
      forall i | 0 <= i < |b| && IsBlank(b[i]) ensures i + 1 < |b| && !IsLineBreak(b[i + 1]) {
        assert IsBlank(s[|t| + i]);
      }
    }
    if NoTrailingBlank(t) && NoTrailingBlank(b) {
      forall i | 0 <= i < |s| && IsBlank(s[i]) ensures i + 1 < |s| && !IsLineBreak(s[i + 1]) {
        if i < |t| {
          assert IsBlank(t[i]);
        } else {
          assert IsBlank(b[i - |t|]);
        }
      }
    }
  }

  predicate CleanBlocks(blocks: seq<string>) {
    forall i :: 0 <= i < |blocks| ==> NoTrailingBlank(blocks[i] + "\n") && '\r' !in blocks[i]
  }

  lemma CleanBlock(first: string, rest: string)
    ensures NoTrailingBlank(first + "\n\n" + rest) <==> NoTrailingBlank(first + "\n") && NoTrailingBlank(rest)
  {
    assert first + "\n\n" + rest == first + "\n" + ("\n" + rest);
    NoTrailingBlankJoin(first, "\n" + rest);
    assert "\n" + rest == "" + "\n" + rest;
    NoTrailingBlankJoin("", rest);
    assert "" + "\n" == "\n";
  }

  /** The text checks hold of the whole text exactly when they hold block by block. */
  lemma {:induction false} CleanTerminated(blocks: seq<string>)
    ensures NoTrailingBlank(Terminated(blocks)) && '\r' !in Terminated(blocks) <==> CleanBlocks(blocks)
  {
    if blocks != [] {
      var first, rest := blocks[0], Terminated(blocks[1..]);
      CleanTerminated(blocks[1..]);
      CleanBlock(first, rest);
      assert '\r' in Terminated(blocks) <==> '\r' in first || '\r' in rest;
      CleanBlocksCons(blocks);
    }
  }

  lemma CleanBlocksCons(blocks: seq<string>)
    requires blocks != []
    ensures CleanBlocks(blocks) <==> NoTrailingBlank(blocks[0] + "\n") && '\r' !in blocks[0] && CleanBlocks(blocks[1..])
  {
    assert forall i :: 0 < i < |blocks| ==> blocks[i] == blocks[1..][i - 1];
  }

  /** Rendering the records of an accepted text gives the text back, byte for byte,
      and every record is valid. */
  lemma AcceptedRendersBack(json: Json, text: string, records: seq<Record>)
    requires Accepts(json, text, records)
    ensures records != [] && AllValid(json, records) && Render(records) == text
  {
    var blocks := SplitBlocks(text[..|text| - 2]);
    TerminatedSplit(text[..|text| - 2]);
    assert text == text[..|text| - 2] + text[|text| - 2..];
    CleanTerminated(blocks);
    forall i | 0 <= i < |blocks| ensures RenderRecord(records[i]) == blocks[i] && ValidRecord(json, records[i]) {
      ParsedRenders(json, blocks[i]);
    }
    assert Rendered(records) == blocks;
  }

  lemma ValidIsSolid(json: Json, r: Record)
    requires ValidRecord(json, r)
    ensures SolidBlock(RenderRecord(r)) && '\r' !in RenderRecord(r) && |RenderRecord(r)| > 0
    ensures RenderRecord(r)[0] != '\n' && RenderRecord(r)[0] != '\U{FEFF}'
  {
    hide PayloadValid, NoTrailingBlank;
    var b := RenderRecord(r);
    assert b[|b| - 1] == r.raw[|r.raw| - 1];
    if r.event != "" {
      var e := EVENT + r.event;
      assert b == e + ("\n" + (DATA + r.raw));
      assert forall i :: 0 <= i < |e| ==> b[i] == e[i] && b[i] != '\n';
      assert forall i :: |e| < i < |b| ==> b[i] == (DATA + r.raw)[i - |e| - 1] && b[i] != '\n';
    } else {
      assert b == DATA + r.raw;
    }
  }

  lemma {:induction false} TerminatedEnds(blocks: seq<string>)
    requires |blocks| > 0 && forall i :: 0 <= i < |blocks| ==> |blocks[i]| > 0 && blocks[i][|blocks[i]| - 1] != '\n'
    ensures EndsAfterOneEmptyLine(Terminated(blocks))
    ensures |Terminated(blocks)| > 2 && Terminated(blocks)[0] == blocks[0][0]
  {
    var text := Terminated(blocks);
    if |blocks| == 1 {
      assert Terminated(blocks[1..]) == "";
      assert text == blocks[0] + "\n\n";
      assert text[|text| - 3] == blocks[0][|blocks[0]| - 1];
      assert text[|text| - 3..][0] == text[|text| - 3];
    } else {
      var rest := Terminated(blocks[1..]);
      TerminatedEnds(blocks[1..]);
      assert text == blocks[0] + "\n\n" + rest;
      assert text[|text| - 2..] == rest[|rest| - 2..];
      assert text[|text| - 3..] == rest[|rest| - 3..];
    }
  }

  lemma RenderedParse(json: Json, records: seq<Record>)
    requires AllValid(json, records)
    ensures ParsesAs(json, Rendered(records), records)
  {
    forall i | 0 <= i < |records| ensures ParseBlock(json, Rendered(records)[i]) == Ok(records[i]) {
      RenderedParses(json, records[i]);
    }
  }

  lemma RenderedSolid(json: Json, records: seq<Record>)
    requires AllValid(json, records)
    ensures AllSolid(Rendered(records))
  {
    forall i | 0 <= i < |records| ensures SolidBlock(Rendered(records)[i]) {
      ValidIsSolid(json, records[i]);
    }
  }

  lemma RenderedClean(json: Json, records: seq<Record>)
    requires AllValid(json, records)
    ensures CleanBlocks(Rendered(records))
    ensures forall i :: 0 <= i < |records| ==>
              (var b := Rendered(records)[i]; |b| > 0 && b[|b| - 1] != '\n' && b[0] != '\U{FEFF}')
  {
    forall i | 0 <= i < |records|
      ensures NoTrailingBlank(Rendered(records)[i] + "\n") && '\r' !in Rendered(records)[i]
      ensures var b := Rendered(records)[i]; |b| > 0 && b[|b| - 1] != '\n' && b[0] != '\U{FEFF}'
    {
      ValidIsSolid(json, records[i]);
    }
  }

  lemma RenderedText(json: Json, records: seq<Record>)
    requires records != [] && AllValid(json, records)
    ensures ReadTextAccepts(Render(records)) && EndsAfterOneEmptyLine(Render(records))
  {
    var blocks, text := Rendered(records), Render(records);
    RenderedClean(json, records);
    CleanTerminated(blocks);
    TerminatedEnds(blocks);
    assert text[|text| - 1..] == "\n" by {
      assert text[|text| - 2..][1] == '\n';
    }
  }

  lemma RenderedParsesAs(json: Json, records: seq<Record>)
    requires records != [] && AllValid(json, records)
    ensures |Render(records)| >= 2 && ParsesAs(json, SplitBlocks(Render(records)[..|Render(records)| - 2]), records)
  {
    RenderedParse(json, records);
    RenderedSolid(json, records);
    SplitTerminated(Rendered(records));
  }

  /** Parsing the rendering of valid records gives the records back. */
  lemma RenderedIsAccepted(json: Json, records: seq<Record>)
    requires records != [] && AllValid(json, records)
    ensures Accepts(json, Render(records), records)
  {
    RenderedText(json, records);
    RenderedParsesAs(json, records);
  }

  // ---- the browser's view --------------------------------------------------------------

  /** A dispatched event. */
  datatype Message = Message(kind: string, data: string)

  /** The buffers of section 9.2.6 of the HTML standard, and what was dispatched. */
  datatype Stream = Stream(kind: string, data: string, dispatched: seq<Message>)

  const QUIET := Stream("", "", [])

  function FieldValue(line: string, end: nat): string
    requires end < |line|
  {
    if end + 1 < |line| && line[end + 1] == ' ' then line[end + 2..] else line[end + 1..]
  }

  function ProcessField(s: Stream, field: string, value: string): Stream {
    if field == "event" then s.(kind := value)
    else if field == "data" then s.(data := s.data + value + "\n")
    else s
  }

  function ProcessLine(s: Stream, line: string): Stream {
    if line == "" then
      if s.data == "" then s.(kind := "")
      else
        Stream("", "", s.dispatched + [Message(if s.kind == "" then "message" else s.kind, s.data[..|s.data| - 1])])
    else
      var end := Find(line, ':');
      if end == 0 then s
      else if end < |line| then ProcessField(s, line[..end], FieldValue(line, end))
      else ProcessField(s, line, "")
  }

  function Process(s: Stream, lines: seq<string>): Stream
    decreases lines
  {
    if lines == [] then s else Process(ProcessLine(s, lines[0]), lines[1..])
  }

  /** The complete lines of LF-terminated text. */
  function CompleteLines(text: string): seq<string> {
    var lines := Split(text, '\n');
    lines[..|lines| - 1]
  }

  function Dispatched(text: string): seq<Message> {
    Process(QUIET, CompleteLines(text)).dispatched
  }

  function AsMessage(r: Record): Message {
    Message(if r.event == "" then "message" else r.event, r.raw)
  }

  lemma {:induction false} ProcessAppend(s: Stream, a: seq<string>, b: seq<string>)
    ensures Process(s, a + b) == Process(Process(s, a), b)
    decreases a
  {
    if a == [] {
      assert a + b == b;
    } else {
      ProcessAppend(ProcessLine(s, a[0]), a[1..], b);
      assert (a + b)[1..] == a[1..] + b;
    }
  }

  lemma FieldOf(name: string, value: string)
    requires name != "" && ':' !in name
    ensures Find(name + ": " + value, ':') == |name|
    ensures (name + ": " + value)[..|name|] == name
    ensures FieldValue(name + ": " + value, |name|) == value
  {
    var line := name + ": " + value;
    assert line[|name|] == ':' && line[|name| + 1] == ' ';
    assert forall j :: 0 <= j < |name| ==> line[j] == name[j];
  }

  lemma DataLine(s: Stream, raw: string)
    ensures ProcessLine(s, DATA + raw) == s.(data := s.data + raw + "\n")
  {
    FieldOf("data", raw);
    assert "data" + ": " + raw == DATA + raw;
  }

  lemma EventLine(s: Stream, event: string)
    ensures ProcessLine(s, EVENT + event) == s.(kind := event)
  {
    FieldOf("event", event);
    assert "event" + ": " + event == EVENT + event;
  }

  /** One record's lines and its empty line dispatch one message. */
  lemma RecordDispatches(r: Record, done: seq<Message>)
    requires OneLine(r.event) && OneLine(r.raw)
    ensures Process(Stream("", "", done), Split(RenderRecord(r), '\n') + [""]) == Stream("", "", done + [AsMessage(r)])
  {
    var start := Stream("", "", done);
    BlockLines(r);
    var s := if r.event != "" then start.(kind := r.event) else start;
    EventLine(start, r.event);
    DataLine(s, r.raw);
    var t := s.(data := "" + r.raw + "\n");
    assert t.data[..|t.data| - 1] == r.raw;
    assert ProcessLine(t, "") == Stream("", "", done + [AsMessage(r)]);
    var lines := Split(RenderRecord(r), '\n') + [""];
    if r.event != "" {
      assert lines == [EVENT + r.event] + ([DATA + r.raw] + [""]);
      assert lines[1..] == [DATA + r.raw] + [""];
    }
    assert ([DATA + r.raw] + [""])[1..] == [""];
    assert Process(s, [DATA + r.raw] + [""]) == Process(t, [""]);
    assert Process(t, [""]) == ProcessLine(t, "") by {
      assert [""][1..] == [];
    }
  }

  /** The complete lines of a block's text, its empty line, then the rest. */
  lemma LinesOfBlock(block: string, rest: string)
    ensures CompleteLines(block + "\n\n" + rest) == Split(block, '\n') + [""] + CompleteLines(rest)
  {
    assert block + "\n\n" + rest == block + "\n" + ("" + "\n" + rest);
    SplitConcat(block, "" + "\n" + rest, '\n');
    SplitConcat("", rest, '\n');
  }

  function AsMessages(records: seq<Record>): seq<Message> {
    if records == [] then [] else [AsMessage(records[0])] + AsMessages(records[1..])
  }

  lemma {:induction false} AsMessagesAt(records: seq<Record>, i: nat)
    requires i < |records|
    ensures |AsMessages(records)| == |records| && AsMessages(records)[i] == AsMessage(records[i])
  {
    if |records| > 1 {
      AsMessagesAt(records[1..], if i == 0 then 0 else i - 1);
    }
  }

  lemma FirstRecordDispatches(r: Record, rest: string, done: seq<Message>)
    requires OneLine(r.event) && OneLine(r.raw)
    ensures Process(Stream("", "", done), CompleteLines(RenderRecord(r) + "\n\n" + rest))
         == Process(Stream("", "", done + [AsMessage(r)]), CompleteLines(rest))
  {
    LinesOfBlock(RenderRecord(r), rest);
    ProcessAppend(Stream("", "", done), Split(RenderRecord(r), '\n') + [""], CompleteLines(rest));
    RecordDispatches(r, done);
  }

  lemma {:induction false} RenderDispatches(records: seq<Record>, done: seq<Message>)
    requires forall i :: 0 <= i < |records| ==> OneLine(records[i].event) && OneLine(records[i].raw)
    ensures Process(Stream("", "", done), CompleteLines(Render(records))) == Stream("", "", done + AsMessages(records))
    decreases records
  {
    if records == [] {
      assert Rendered(records) == [] && CompleteLines("") == [];
      assert done + [] == done;
    } else {
      var r, rest := records[0], records[1..];
      assert Rendered(records)[1..] == Rendered(rest);
      FirstRecordDispatches(r, Render(rest), done);
      RenderDispatches(rest, done + [AsMessage(r)]);
      assert done + [AsMessage(r)] + AsMessages(rest) == done + ([AsMessage(r)] + AsMessages(rest));
    }
  }

  /** A browser reading an accepted fixture dispatches exactly one event per record,
      with the record's event name (or "message") and its data. */
  lemma BrowserDispatchesRecords(json: Json, text: string, records: seq<Record>)
    requires Accepts(json, text, records)
    ensures |Dispatched(text)| == |records|
    ensures forall i :: 0 <= i < |records| ==> Dispatched(text)[i] == AsMessage(records[i])
  {
    AcceptedRendersBack(json, text, records);
    RenderDispatches(records, []);
    assert [] + AsMessages(records) == AsMessages(records);
    AsMessagesAt(records, 0);
    forall i | 0 <= i < |records| ensures Dispatched(text)[i] == AsMessage(records[i]) {
      AsMessagesAt(records, i);
    }
  }
}
