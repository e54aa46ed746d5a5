/** Password files: the Go reader and its checks, the Redis and migration entrypoints,
    and the line-end trimming of the migration configuration, all on bytes. */
module Passwords {
  import opened Wrappers
  import opened Base64
  import Text

  const LF: Byte := 10
  const CR: Byte := 13
  const MAXIMUM := 4 * 1024

  /** One CRLF or LF dropped from the end. */
  function WithoutLineEnd(s: seq<Byte>): seq<Byte> {
    if Text.EndsWith(s, [CR, LF]) then s[..|s| - 2]
    else if Text.EndsWith(s, [LF]) then s[..|s| - 1]
    else s
  }

  // ---- UTF-8, as the Go runtime decodes it ------------------------------------------

  const REPLACEMENT := 0xfffd

  predicate Continues(s: seq<Byte>, i: nat, low: nat, high: nat) {
    i < |s| && low <= s[i] <= high
  }

  /** Bytes of the first character, 0 when the encoding is malformed. */
  function Width(s: seq<Byte>): (w: nat)
    requires s != []
    ensures w <= |s|
    ensures w > 1 ==> forall i :: 0 <= i < w ==> s[i] >= 0x80
    ensures s[0] < 0x80 ==> w == 1
  {
    if s[0] < 0x80 then 1
    else if 0xc2 <= s[0] <= 0xdf && Continues(s, 1, 0x80, 0xbf) then 2
    else if 0xe0 <= s[0] <= 0xef
            && Continues(s, 1, if s[0] == 0xe0 then 0xa0 else 0x80, if s[0] == 0xed then 0x9f else 0xbf)
            && Continues(s, 2, 0x80, 0xbf) then 3
    else if 0xf0 <= s[0] <= 0xf4
            && Continues(s, 1, if s[0] == 0xf0 then 0x90 else 0x80, if s[0] == 0xf4 then 0x8f else 0xbf)
            && Continues(s, 2, 0x80, 0xbf) && Continues(s, 3, 0x80, 0xbf) then 4
    else 0
  }

  function FirstRune(s: seq<Byte>): nat
    requires s != []
  {
    match Width(s)
    case 1 => s[0]
    case 2 => (s[0] - 0xc0) * 0x40 + (s[1] - 0x80)
    case 3 => (s[0] - 0xe0) * 0x1000 + (s[1] - 0x80) * 0x40 + (s[2] - 0x80)
    case 4 => (s[0] - 0xf0) * 0x40000 + (s[1] - 0x80) * 0x1000 + (s[2] - 0x80) * 0x40 + (s[3] - 0x80)
    case _ => REPLACEMENT
  }

  predicate ValidUtf8(s: seq<Byte>) {
    s == [] || (Width(s) > 0 && ValidUtf8(s[Width(s)..]))
  }

  /** The characters; a malformed byte decodes to the replacement character. */
  function Runes(s: seq<Byte>): seq<nat> {
    if s == [] then [] else [FirstRune(s)] + Runes(s[if Width(s) == 0 then 1 else Width(s)..])
  }

  predicate IsSpace(r: nat) {
    9 <= r <= 13 || r == 0x20 || r == 0x85 || r == 0xa0 || r == 0x1680 || 0x2000 <= r <= 0x200a
    || r == 0x2028 || r == 0x2029 || r == 0x202f || r == 0x205f || r == 0x3000
  }

  predicate IsControl(r: nat) {
    r < 0x20 || 0x7f <= r < 0xa0
  }

  function TrimLeft(s: seq<nat>, cut: nat -> bool): seq<nat> {
    if s != [] && cut(s[0]) then TrimLeft(s[1..], cut) else s
  }

  function TrimRight(s: seq<nat>, cut: nat -> bool): seq<nat> {
    if s != [] && cut(s[|s| - 1]) then TrimRight(s[..|s| - 1], cut) else s
  }

  function Trim(s: seq<nat>, cut: nat -> bool): seq<nat> {
    TrimRight(TrimLeft(s, cut), cut)
  }

  // ---- the Go reader ----------------------------------------------------------------

  function SecretBytes(file: seq<Byte>, maximum: nat): Result<seq<Byte>> {
    if |file| > maximum || !ValidUtf8(file) then Rejected
    else
      var contents := WithoutLineEnd(file);
      if contents == [] then Rejected
      else if Trim(Runes(contents), IsSpace) != Runes(contents) then Rejected
      else Ok(contents)
  }

  predicate HasControl(runes: seq<nat>) {
    exists i :: 0 <= i < |runes| && IsControl(runes[i])
  }

  function SimpleSecret(file: seq<Byte>): Result<seq<Byte>> {
    match SecretBytes(file, MAXIMUM)
    case Rejected => Rejected
    case Ok(contents) => if HasControl(Runes(contents)) then Rejected else Ok(contents)
  }

  /** ReadSimpleSecret */
  method ReadSimpleSecret(file: seq<Byte>) returns (secret: Result<seq<Byte>>)
    ensures secret == SimpleSecret(file)
  {
    var contents := SecretBytes(file, MAXIMUM);
    if contents.Rejected? {
      return Rejected;
    }
    var runes := Runes(contents.value);
    for i := 0 to |runes|
      invariant forall j :: 0 <= j < i ==> !IsControl(runes[j])
    {
      if IsControl(runes[i]) {
        return Rejected;
      }
    }
    return contents;
  }

  predicate UrlByte(b: nat) {
    (0x41 <= b <= 0x5a) || (0x61 <= b <= 0x7a) || (0x30 <= b <= 0x39) || b == 0x5f || b == 0x2d
  }

  /** The anchored regular expression: only the class, at least 32 times. */
  predicate MatchesRegexp(s: seq<nat>) {
    |s| >= 32 && forall i :: 0 <= i < |s| ==> UrlByte(s[i])
  }

  /** The generator's check: long enough, and trimming the class leaves nothing. */
  predicate MatchesTrim(s: seq<nat>) {
    |s| >= 32 && Trim(s, UrlByte) == []
  }

  /** The shell's check: not empty, no split around a byte outside the class, long enough. */
  ghost predicate MatchesShellPattern(s: seq<nat>) {
    && s != []
    && !(exists before: seq<nat>, b: nat, after: seq<nat> :: !UrlByte(b) && s == before + [b] + after)
    && |s| >= 32
  }

  /** The three spellings of the Redis password rule decide one language. */
  lemma PasswordLanguage(s: seq<nat>)
    ensures MatchesRegexp(s) <==> MatchesTrim(s)
    ensures MatchesRegexp(s) <==> MatchesShellPattern(s)
  {
    TrimsAway(s, UrlByte);
    if MatchesRegexp(s) {
      forall before: seq<nat>, b: nat, after: seq<nat> | s == before + [b] + after ensures UrlByte(b) {
        assert s[|before|] == b;
      }
    } else if |s| >= 32 {
      var i :| 0 <= i < |s| && !UrlByte(s[i]);
      assert s == s[..i] + [s[i]] + s[i + 1..];
    }
  }

  lemma {:induction false} LeftTrimmed(s: seq<nat>, cut: nat -> bool)
    ensures TrimLeft(s, cut) == [] <==> forall i :: 0 <= i < |s| ==> cut(s[i])
    ensures TrimLeft(s, cut) != [] ==> !cut(TrimLeft(s, cut)[0])
  {
    if s != [] && cut(s[0]) {
      LeftTrimmed(s[1..], cut);
      assert forall i :: 0 < i < |s| ==> s[i] == s[1..][i - 1];
    }
  }

  lemma {:induction false} RightKeepsFirst(s: seq<nat>, cut: nat -> bool)
    requires s != [] && !cut(s[0])
    ensures TrimRight(s, cut) != []
  {
    if cut(s[|s| - 1]) {
      RightKeepsFirst(s[..|s| - 1], cut);
    }
  }

  lemma TrimsAway(s: seq<nat>, cut: nat -> bool)
    ensures Trim(s, cut) == [] <==> forall i :: 0 <= i < |s| ==> cut(s[i])
  {
    LeftTrimmed(s, cut);
    if TrimLeft(s, cut) != [] {
      RightKeepsFirst(TrimLeft(s, cut), cut);
    }
  }

  lemma {:induction false} TrimLengths(s: seq<nat>, cut: nat -> bool)
    ensures |TrimLeft(s, cut)| <= |s| && |TrimRight(s, cut)| <= |s|
    decreases |s|
  {
    if s != [] {
      TrimLengths(s[1..], cut);
      TrimLengths(s[..|s| - 1], cut);
    }
  }

  /** Trimming changes nothing exactly when neither end is cut. */
  lemma TrimKeeps(s: seq<nat>, cut: nat -> bool)
    ensures Trim(s, cut) == s <==> s == [] || (!cut(s[0]) && !cut(s[|s| - 1]))
  {
    if s != [] {
      TrimLengths(s[1..], cut);
      TrimLengths(TrimLeft(s, cut), cut);
      if cut(s[0]) {
        assert |TrimLeft(s, cut)| < |s|;
      } else if cut(s[|s| - 1]) {
        TrimLengths(s[..|s| - 1], cut);
        assert TrimRight(s, cut) == TrimRight(s[..|s| - 1], cut);
      }
    }
  }

  /** The deployment parser's Redis password. */
  function RedisPassword(file: seq<Byte>): Result<seq<Byte>> {
    match SimpleSecret(file)
    case Rejected => Rejected
    case Ok(contents) => if MatchesRegexp(contents) then Ok(contents) else Rejected
  }

  // ---- the entrypoints ----------------------------------------------------------------

  /** How many bytes precede the line end. */
  function ContentLength(bytes: seq<Byte>): (n: nat)
    requires |bytes| >= 1
    ensures n <= |bytes|
  {
    var n := |bytes|;
    if bytes[n - 1] != LF then n
    else if n - 1 > 0 && bytes[n - 2] == CR then n - 2
    else n - 1
  }

  /** The content both entrypoints' scans agree to. */
  function ScannedContent(bytes: seq<Byte>): Option<seq<Byte>> {
    if |bytes| < 1 || |bytes| > 4098 then None
    else
      var n := ContentLength(bytes);
      if n < 1 || n > 4096 || bytes[n - 1] == LF || bytes[n - 1] == CR then None else Some(bytes[..n])
  }

  /** The Redis entrypoint's byte scan. */
  method ScanPassword(bytes: seq<Byte>) returns (content: Option<seq<Byte>>)
    ensures content == ScannedContent(bytes)
  {
    var n := |bytes|;
    if n < 1 || n > 4098 {
      return None;
    }
    if bytes[n - 1] == LF {
      n := n - 1;
      if n > 0 && bytes[n - 1] == CR {
        n := n - 1;
      }
    }
    if n < 1 || n > 4096 {
      return None;
    }
    if bytes[n - 1] == LF || bytes[n - 1] == CR {
      return None;
    }
    var output: seq<Byte> := [];
    for i := 0 to n
      invariant output == bytes[..i]
    {
      output := output + [bytes[i]];
    }
    return Some(output);
  }

  function WithoutNul(s: seq<Byte>): seq<Byte> {
    if s == [] then [] else (if s[0] == 0 then [] else [s[0]]) + WithoutNul(s[1..])
  }

  function WithoutTrailingLf(s: seq<Byte>): seq<Byte> {
    if s != [] && s[|s| - 1] == LF then WithoutTrailingLf(s[..|s| - 1]) else s
  }

  /** What command substitution leaves: no NUL bytes, then no trailing line feeds. */
  function Substituted(s: seq<Byte>): seq<Byte> {
    WithoutTrailingLf(WithoutNul(s))
  }

  /** The Redis entrypoint's password. */
  ghost function EntrypointPassword(file: seq<Byte>): Result<seq<Byte>> {
    match ScannedContent(file)
    case None => Rejected
    case Some(content) => if MatchesShellPattern(Substituted(content)) then Ok(Substituted(content)) else Rejected
  }

  /** The migration entrypoint's content: scanned, and no ASCII space at either end. */
  function MigrationContent(file: seq<Byte>): Option<seq<Byte>> {
    match ScannedContent(file)
    case None => None
    case Some(content) =>
      if AsciiSpace(content[0]) || AsciiSpace(content[|content| - 1]) then None else Some(content)
  }

  predicate AsciiSpace(b: Byte) {
    b == 9 || b == 10 || b == 11 || b == 12 || b == 13 || b == 32
  }

  /** validate_password_file, once the path is known to be a regular file. */
  method ValidatePasswordFile(bytes: seq<Byte>) returns (accepted: bool)
    ensures accepted <==> MigrationContent(bytes).Some?
  {
    if |bytes| < 1 || |bytes| > 4098 {
      return false;
    }
    var content := |bytes|;
    if bytes[content - 1] == LF {
      content := content - 1;
      if content > 0 && bytes[content - 1] == CR {
        content := content - 1;
      }
    }
    if content < 1 || content > 4096 || bytes[content - 1] == LF || bytes[content - 1] == CR {
      return false;
    }
    return !AsciiSpace(bytes[0]) && !AsciiSpace(bytes[content - 1]);
  }

  // ---- agreement ------------------------------------------------------------------------

  lemma ContentPrecedesLineEnd(file: seq<Byte>)
    requires |file| >= 1
    ensures file[..ContentLength(file)] == WithoutLineEnd(file)
  {
    var n := |file|;
    assert file[n - 1..] == [file[n - 1]];
    if n >= 2 {
      assert file[n - 2..] == [file[n - 2], file[n - 1]];
    }
  }

  /** What the migration configuration trims a file to is exactly what the migration
      entrypoint validated: 1 to 4096 bytes, no ASCII space at either end. */
  lemma TrimmedToValidatedBytes(file: seq<Byte>)
    requires MigrationContent(file).Some?
    ensures WithoutLineEnd(file) == MigrationContent(file).value
    ensures var p := WithoutLineEnd(file); 1 <= |p| <= 4096 && !AsciiSpace(p[0]) && !AsciiSpace(p[|p| - 1])
  {
    ContentPrecedesLineEnd(file);
  }

  /** An ASCII byte decodes to itself, at the start and at the end. */
  lemma {:induction false} AsciiEnds(s: seq<Byte>)
    requires s != []
    ensures Runes(s) != []
    ensures s[0] < 0x80 ==> Runes(s)[0] == s[0]
    ensures s[|s| - 1] < 0x80 ==> Runes(s)[|Runes(s)| - 1] == s[|s| - 1]
  {
    var w := if Width(s) == 0 then 1 else Width(s);
    if w < |s| {
      AsciiEnds(s[w..]);
      LaterRune(s, w);
    } else {
      OnlyRune(s, w);
    }
  }

  lemma LaterRune(s: seq<Byte>, w: nat)
    requires 0 < w < |s| && Runes(s) == [FirstRune(s)] + Runes(s[w..]) && Runes(s[w..]) != []
    ensures s[w..][|s[w..]| - 1] == s[|s| - 1]
    ensures Runes(s)[|Runes(s)| - 1] == Runes(s[w..])[|Runes(s[w..])| - 1]
  {
  }

  /** When one character is the whole text, its last byte is ASCII only if it is the first. */
  lemma OnlyRune(s: seq<Byte>, w: nat)
    requires s != [] && w == (if Width(s) == 0 then 1 else Width(s)) && w == |s|
    ensures Runes(s) == [FirstRune(s)] && (s[|s| - 1] < 0x80 ==> w == 1 && FirstRune(s) == s[0])
  {
    assert s[w..] == [];
    assert w > 1 ==> s[w - 1] >= 0x80;
  }

  predicate Ascii(s: seq<Byte>) {
    forall i :: 0 <= i < |s| ==> s[i] < 0x80
  }

  lemma {:induction false} AsciiDecodes(s: seq<Byte>)
    requires Ascii(s)
    ensures ValidUtf8(s) && Runes(s) == s
  {
    if s != [] {
      AsciiDecodes(s[1..]);
      assert s == [s[0]] + s[1..];
    }
  }

  /** Whatever the Go reader accepts the migration entrypoint accepts, and the same
      bytes reach the database URL. */
  lemma ReaderImpliesMigration(file: seq<Byte>)
    requires SecretBytes(file, MAXIMUM).Ok?
    ensures MigrationContent(file) == Some(SecretBytes(file, MAXIMUM).value)
  {
    NoSpaceAtEnds(WithoutLineEnd(file));
    ScannedWhole(file);
  }

  lemma ScannedWhole(file: seq<Byte>)
    requires |file| <= 4098 && 1 <= |WithoutLineEnd(file)| <= 4096
    requires !AsciiSpace(WithoutLineEnd(file)[|WithoutLineEnd(file)| - 1])
    ensures ScannedContent(file) == Some(WithoutLineEnd(file))
  {
    assert file != [];
    hide ContentLength, WithoutLineEnd;
    var contents := WithoutLineEnd(file);
    ContentPrecedesLineEnd(file);
    assert contents[|contents| - 1] == file[|contents| - 1];
  }

  lemma NoSpaceAtEnds(contents: seq<Byte>)
    requires contents != [] && Trim(Runes(contents), IsSpace) == Runes(contents)
    ensures !AsciiSpace(contents[0]) && !AsciiSpace(contents[|contents| - 1])
  {
    AsciiEnds(contents);
    TrimKeeps(Runes(contents), IsSpace);
  }

  lemma {:induction false} NothingSubstituted(s: seq<Byte>)
    requires 0 !in s
    ensures WithoutNul(s) == s
  {
    if s != [] {
      NothingSubstituted(s[1..]);
      assert s == [s[0]] + s[1..];
    }
  }

  lemma ClassFileIsAscii(file: seq<Byte>)
    requires MatchesRegexp(WithoutLineEnd(file))
    ensures Ascii(file) && Ascii(WithoutLineEnd(file))
  {
    var contents := WithoutLineEnd(file);
    forall i | 0 <= i < |file| ensures file[i] < 0x80 {
      if i < |contents| {
        assert file[i] == contents[i] && UrlByte(contents[i]);
      } else if |contents| == |file| - 2 {
        assert file[|file| - 2..][i - |contents|] == file[i];
      }
    }
    assert forall i :: 0 <= i < |contents| ==> UrlByte(contents[i]);
  }

  /** Class bytes need no trimming and hold no control characters. */
  lemma ClassIsPlain(contents: seq<nat>)
    requires MatchesRegexp(contents)
    ensures Trim(contents, IsSpace) == contents && !HasControl(contents)
  {
    TrimKeeps(contents, IsSpace);
    assert UrlByte(contents[0]) && UrlByte(contents[|contents| - 1]);
  }

  /** A content of class bytes is read back by the Go reader when the file is short enough. */
  lemma ClassContentAccepted(file: seq<Byte>)
    requires |file| <= MAXIMUM && MatchesRegexp(WithoutLineEnd(file))
    ensures RedisPassword(file) == Ok(WithoutLineEnd(file))
  {
    var contents := WithoutLineEnd(file);
    ClassFileIsAscii(file);
    AsciiDecodes(file);
    AsciiDecodes(contents);
    ClassIsPlain(contents);
  }

  /** The Redis entrypoint accepts every file the Go reader accepts, with the same bytes. */
  lemma ReaderImpliesRedis(file: seq<Byte>)
    requires RedisPassword(file).Ok?
    ensures EntrypointPassword(file) == RedisPassword(file) && |file| <= MAXIMUM && 0 !in file
  {
    ReaderImpliesMigration(file);
    ClassHasNoNul(file);
    ClassSubstituted(WithoutLineEnd(file));
  }

  lemma ShortRedisRead(file: seq<Byte>)
    requires EntrypointPassword(file).Ok? && |file| <= MAXIMUM && 0 !in file
    ensures RedisPassword(file).Ok?
  {
    var contents := WithoutLineEnd(file);
    ContentPrecedesLineEnd(file);
    assert 0 !in contents;
    NothingSubstituted(contents);
    PasswordLanguage(contents);
    ClassContentAccepted(file);
  }

  /** Of the files the Redis entrypoint accepts, the Go reader accepts exactly those within
      4096 bytes and without NUL bytes; and what it accepts it reads alike. */
  lemma RedisReadersAgree(file: seq<Byte>)
    ensures RedisPassword(file).Ok? ==> EntrypointPassword(file) == RedisPassword(file)
    ensures EntrypointPassword(file).Ok? ==> (RedisPassword(file).Ok? <==> |file| <= MAXIMUM && 0 !in file)
  {
    if RedisPassword(file).Ok? {
      ReaderImpliesRedis(file);
    } else if EntrypointPassword(file).Ok? && |file| <= MAXIMUM && 0 !in file {
      ShortRedisRead(file);
    }
  }

  /** With a line feed after 4096 class bytes, only the entrypoint accepts. */
  lemma LongFileSplitsReaders(content: seq<Byte>)
    requires MatchesRegexp(content) && |content| == 4096
    ensures EntrypointPassword(content + [LF]) == Ok(content) && RedisPassword(content + [LF]).Rejected?
  {
    var file := content + [LF];
    assert UrlByte(content[4095]);
    assert file[..4096] == content && ContentLength(file) == 4096;
    ClassSubstituted(content);
  }

  /** With a NUL byte before class bytes, only the entrypoint accepts: the shell drops it. */
  lemma NulFileSplitsReaders(content: seq<Byte>)
    requires MatchesRegexp(content) && |content| < 4096
    ensures EntrypointPassword([0] + content) == Ok(content) && RedisPassword([0] + content).Rejected?
  {
    NulScanned(content);
    ClassSubstituted(content);
    NulDropped(content);
    RedisReadersAgree([0] + content);
  }

  lemma NulScanned(content: seq<Byte>)
    requires MatchesRegexp(content) && |content| < 4096
    ensures ScannedContent([0] + content) == Some([0] + content)
  {
    var file := [0] + content;
    assert UrlByte(content[|content| - 1]) && file[|file| - 1] == content[|content| - 1];
    assert file[..|file|] == file;
  }

  lemma NulDropped(content: seq<Byte>)
    ensures WithoutNul([0] + content) == WithoutNul(content)
  {
    assert ([0] + content)[1..] == content;
  }

  lemma ClassSubstituted(content: seq<Byte>)
    requires MatchesRegexp(content)
    ensures WithoutNul(content) == content && WithoutTrailingLf(content) == content && MatchesShellPattern(content)
  {
    assert forall i :: 0 <= i < |content| ==> UrlByte(content[i]) && content[i] != 0;
    assert UrlByte(content[|content| - 1]);
    NothingSubstituted(content);
    PasswordLanguage(content);
  }

  /** Both families exist. */
  lemma SplitReadersExist() returns (long: seq<Byte>, nul: seq<Byte>)
    ensures EntrypointPassword(long).Ok? && RedisPassword(long).Rejected? && |long| == 4097 && 0 !in long
    ensures EntrypointPassword(nul).Ok? && RedisPassword(nul).Rejected? && |nul| <= MAXIMUM && 0 in nul
  {
    var a: Byte := 0x61;
    var most, least := seq(4096, i => a), seq(32, i => a);
    LongFileSplitsReaders(most);
    NulFileSplitsReaders(least);
    long, nul := most + [LF], [0] + least;
  }

  lemma ClassHasNoNul(file: seq<Byte>)
    requires MatchesRegexp(WithoutLineEnd(file))
    ensures 0 !in file && 0 !in WithoutLineEnd(file)
  {
    var contents := WithoutLineEnd(file);
    assert forall i :: 0 <= i < |contents| ==> file[i] == contents[i];
    forall i | 0 <= i < |file| ensures file[i] != 0 {
      if i < |contents| {
        assert UrlByte(contents[i]);
      } else if |contents| == |file| - 2 {
        assert file[|file| - 2..][i - |contents|] == file[i];
      }
    }
  }

  /** A file of printable ASCII without blanks is its own secret. */
  lemma PrintableAccepted(file: seq<Byte>)
    requires 1 <= |file| <= MAXIMUM && forall i :: 0 <= i < |file| ==> 0x21 <= file[i] <= 0x7e
    ensures SimpleSecret(file) == Ok(file)
  {
    AsciiDecodes(file);
    NoLineEnd(file);
    PrintableIsPlain(file);
  }

  lemma NoLineEnd(file: seq<Byte>)
    requires file != [] && file[|file| - 1] != LF
    ensures WithoutLineEnd(file) == file
  {
    assert file[|file| - 1..][0] == file[|file| - 1];
    if |file| > 1 {
      assert file[|file| - 2..][1] == file[|file| - 1];
    }
  }

  lemma PrintableIsPlain(contents: seq<nat>)
    requires contents != [] && forall i :: 0 <= i < |contents| ==> 0x21 <= contents[i] <= 0x7e
    ensures Trim(contents, IsSpace) == contents && !HasControl(contents)
  {
    TrimKeeps(contents, IsSpace);
    assert !IsSpace(contents[0]) && !IsSpace(contents[|contents| - 1]);
  }

  /** A generated password as file bytes. */
  function PasswordBytes(random: seq<Byte>): seq<Byte> {
    EncodeUrlShape(random);
    var text := EncodeUrl(random);
    seq(|text|, i requires 0 <= i < |text| => text[i] as int)
  }

  /** 43 characters of the URL class. */
  lemma PasswordShape(random: seq<Byte>)
    requires |random| == 32
    ensures |PasswordBytes(random)| == 43 && MatchesRegexp(PasswordBytes(random))
  {
    EncodeUrlShape(random);
  }

  /** Every generated password is read back unchanged by both readers. */
  lemma GeneratedPasswordAccepted(random: seq<Byte>)
    requires |random| == 32
    ensures RedisPassword(PasswordBytes(random)) == Ok(PasswordBytes(random))
    ensures EntrypointPassword(PasswordBytes(random)) == Ok(PasswordBytes(random))
  {
    var file := PasswordBytes(random);
    PasswordShape(random);
    assert UrlByte(file[|file| - 1]);
    assert WithoutLineEnd(file) == file;
    ClassContentAccepted(file);
    RedisReadersAgree(file);
  }

  lemma PasswordBytesInjective(a: seq<Byte>, b: seq<Byte>)
    requires |a| == |b| && PasswordBytes(a) == PasswordBytes(b)
    ensures a == b
  {
    var s, t := EncodeUrl(a), EncodeUrl(b);
    assert |s| == |PasswordBytes(a)| == |PasswordBytes(b)| == |t|;
    forall i | 0 <= i < |s| ensures s[i] == t[i] {
      assert PasswordBytes(a)[i] == s[i] as int && PasswordBytes(b)[i] == t[i] as int;
    }
    EncodeUrlInjective(a, b);
  }
}
