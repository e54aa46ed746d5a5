/** Text forms of IPv4 and IPv6 addresses: the grammar, and the recogniser the
    migration entrypoint runs, proved to accept the same strings. */
module Ipv6Text {
  import opened Text
  import opened Wrappers

  predicate IsHex(c: char) {
    IsDigit(c) || 'a' <= c <= 'f' || 'A' <= c <= 'F'
  }

  /** One to four hexadecimal digits. */
  predicate H16(s: string) {
    1 <= |s| <= 4 && forall i :: 0 <= i < |s| ==> IsHex(s[i])
  }

  predicate AllH16(groups: seq<string>) {
    forall i :: 0 <= i < |groups| ==> H16(groups[i])
  }

  // ---- the grammar ------------------------------------------------------------

  datatype Quad = Quad(a: nat, b: nat, c: nat, d: nat)

  predicate Octets(q: Quad) {
    q.a <= 255 && q.b <= 255 && q.c <= 255 && q.d <= 255
  }

  function QuadPieces(q: Quad): seq<string> {
    [Decimal(q.a), Decimal(q.b), Decimal(q.c), Decimal(q.d)]
  }

  function QuadText(q: Quad): string {
    Join(QuadPieces(q), '.')
  }

  /** A dotted quad in canonical decimal. */
  ghost predicate Ipv4Literal(s: string) {
    exists q :: Octets(q) && QuadText(q) == s
  }

  datatype Tail = NoTail | Dotted(quad: Quad)

  /** Section 2.2 of RFC 4291: eight groups, or two runs of groups around "::";
      either may end in a dotted quad that stands for two groups. */
  datatype Address =
    | Full(groups: seq<string>, tail: Tail)
    | Compressed(left: seq<string>, right: seq<string>, tail: Tail)

  function Width(tail: Tail): nat {
    if tail.NoTail? then 0 else 2
  }

  predicate WellFormed(a: Address) {
    && (a.tail.Dotted? ==> Octets(a.tail.quad))
    && match a
       case Full(groups, tail) => AllH16(groups) && |groups| + Width(tail) == 8
       case Compressed(left, right, tail) => AllH16(left) && AllH16(right) && |left| + |right| + Width(tail) <= 7
  }

  function Pieces(groups: seq<string>, tail: Tail): seq<string> {
    groups + if tail.Dotted? then [QuadText(tail.quad)] else []
  }

  function AddressText(a: Address): string {
    match a
    case Full(groups, tail) => Join(Pieces(groups, tail), ':')
    case Compressed(left, right, tail) => Join(left, ':') + "::" + Join(Pieces(right, tail), ':')
  }

  ghost predicate Ipv6Literal(s: string) {
    exists a :: WellFormed(a) && AddressText(a) == s
  }

  // ---- what the awk program computes ---------------------------------------------

  /** Digits, no leading zero, at most 255. */
  predicate OctetText(s: string) {
    |s| > 0 && AllDigits(s) && !(|s| > 1 && s[0] == '0') && Value(s) <= 255
  }

  predicate FourOctets(s: string) {
    var a := Split(s, '.');
    |a| == 4 && forall i :: 0 <= i < 4 ==> OctetText(a[i])
  }

  function GroupCount(s: string): int {
    if s == "" then 0
    else if AllH16(Split(s, ':')) then |Split(s, ':')|
    else -1
  }

  predicate DoubleAt(s: string, i: nat) {
    i + 1 < |s| && s[i] == ':' && s[i + 1] == ':'
  }

  /** Where the first "::" is, or |s|. */
  function FirstDouble(s: string): (i: nat)
    ensures i <= |s|
    ensures i < |s| ==> DoubleAt(s, i)
    ensures forall j: nat :: j < i ==> !DoubleAt(s, j)
  {
    if s == "" then 0
    else if DoubleAt(s, 0) then 0
    else
      assert forall j: nat :: DoubleAt(s, j + 1) <==> DoubleAt(s[1..], j);
      var i := 1 + FirstDouble(s[1..]);
      assert forall j: nat :: 0 < j < i ==> DoubleAt(s, j) == DoubleAt(s[1..], j - 1);
      i
  }

  predicate GroupsFit(s: string) {
    var i := FirstDouble(s);
    if i < |s| then
      var rest := s[i + 2..];
      && FirstDouble(rest) == |rest|
      && GroupCount(s[..i]) >= 0
      && GroupCount(rest) >= 0
      && GroupCount(s[..i]) + GroupCount(rest) < 8
    else
      GroupCount(s) == 8
  }

  /** The position after the last colon; 0 without one. */
  function AfterLastColon(s: string): (p: nat)
    ensures p <= |s|
    ensures p > 0 ==> s[p - 1] == ':'
    ensures ':' !in s[p..]
    ensures ':' in s ==> p > 0
  {
    if s == "" then 0
    else if s[|s| - 1] == ':' then |s|
    else
      var p := AfterLastColon(s[..|s| - 1]);
      assert s[p..] == s[..|s| - 1][p..] + [s[|s| - 1]];
      assert s == s[..|s| - 1] + [s[|s| - 1]];
      p
  }

  predicate AddressChars(s: string) {
    forall i :: 0 <= i < |s| ==> IsHex(s[i]) || s[i] == ':' || s[i] == '.'
  }

  /** A dotted tail as two zero groups, if it is one. */
  function WithoutTail(s: string): Option<string> {
    if '.' !in s then Some(s)
    else
      var p := AfterLastColon(s);
      if p > 0 && FourOctets(s[p..]) then Some(s[..p] + "0:0") else None
  }

  predicate Recognised(s: string) {
    AddressChars(s) && WithoutTail(s).Some? && GroupsFit(WithoutTail(s).value)
  }

  // ---- dotted quads -----------------------------------------------------------

  lemma DecimalHasOnlyDigits(n: nat, c: char)
    requires !IsDigit(c)
    ensures c !in Decimal(n)
  {
  }

  lemma QuadSplits(q: Quad)
    ensures Split(QuadText(q), '.') == QuadPieces(q)
  {
    forall i | 0 <= i < 4 ensures '.' !in QuadPieces(q)[i] {
      DecimalHasOnlyDigits([q.a, q.b, q.c, q.d][i], '.');
    }
    SplitJoin(QuadPieces(q), '.');
  }

  lemma QuadAccepted(q: Quad)
    requires Octets(q)
    ensures FourOctets(QuadText(q))
  {
    QuadSplits(q);
    DecimalIsCanonical(q.a);
    DecimalIsCanonical(q.b);
    DecimalIsCanonical(q.c);
    DecimalIsCanonical(q.d);
    var a := Split(QuadText(q), '.');
    assert OctetText(a[0]) && OctetText(a[1]) && OctetText(a[2]) && OctetText(a[3]);
  }

  lemma QuadFound(s: string) returns (q: Quad)
    requires FourOctets(s)
    ensures Octets(q) && QuadText(q) == s
  {
    var a := Split(s, '.');
    q := Quad(Value(a[0]), Value(a[1]), Value(a[2]), Value(a[3]));
    CanonicalIsDecimal(a[0]);
    CanonicalIsDecimal(a[1]);
    CanonicalIsDecimal(a[2]);
    CanonicalIsDecimal(a[3]);
    assert QuadPieces(q) == a;
    JoinSplit(s, '.');
    PiecesAreFree(s, '.');
  }

  /** The octet loop accepts exactly the canonical dotted quads. */
  lemma FourOctetsExact(s: string)
    ensures FourOctets(s) <==> Ipv4Literal(s)
  {
    if FourOctets(s) {
      var q := QuadFound(s);
    }
    if q :| Octets(q) && QuadText(q) == s {
      QuadAccepted(q);
    }
  }

  /** A quad's text is digits and dots, at least one of each, at most 15 long. */
  lemma QuadTextShape(q: Quad)
    requires Octets(q)
    ensures |QuadText(q)| <= 15
    ensures '.' in QuadText(q)
    ensures forall i :: 0 <= i < |QuadText(q)| ==> IsDigit(QuadText(q)[i]) || QuadText(q)[i] == '.'
  {
    var p := QuadPieces(q);
    assert Pow10(3) == 1000;
    DecimalLength(q.a, 3);
    DecimalLength(q.b, 3);
    DecimalLength(q.c, 3);
    DecimalLength(q.d, 3);
    assert Join(p[3..], '.') == p[3];
    assert Join(p[2..], '.') == p[2] + "." + Join(p[3..], '.') by {
      assert p[2..][1..] == p[3..];
    }
    assert Join(p[1..], '.') == p[1] + "." + Join(p[2..], '.') by {
      assert p[1..][1..] == p[2..];
    }
    assert QuadText(q) == p[0] + "." + (p[1] + "." + (p[2] + "." + p[3]));
    assert QuadText(q)[|p[0]|] == '.';
  }

  // ---- groups --------------------------------------------------------------------

  lemma H16HasNo(s: string, c: char)
    requires H16(s) && !IsHex(c)
    ensures c !in s
  {
  }

  lemma GroupsHaveNoColon(groups: seq<string>)
    requires AllH16(groups)
    ensures forall i :: 0 <= i < |groups| ==> ':' !in groups[i]
  {
    forall i | 0 <= i < |groups| ensures ':' !in groups[i] {
      H16HasNo(groups[i], ':');
    }
  }

  ghost predicate NoDouble(s: string) {
    forall j: nat :: !DoubleAt(s, j)
  }

  /** Joined groups: only hex digits and colons, no "::", no colon at either end. */
  lemma {:induction false} JoinedGroups(groups: seq<string>)
    requires AllH16(groups) && |groups| > 0
    ensures var s := Join(groups, ':');
            && 0 < |s| < 5 * |groups|
            && NoDouble(s)
            && s[0] != ':' && s[|s| - 1] != ':'
            && forall i :: 0 <= i < |s| ==> IsHex(s[i]) || s[i] == ':'
  {
    var s := Join(groups, ':');
    if |groups| == 1 {
      assert s == groups[0];
    } else {
      JoinedGroups(groups[1..]);
      var rest := Join(groups[1..], ':');
      assert s == groups[0] + ":" + rest;
      forall j: nat ensures !DoubleAt(s, j) {
        assert j > |groups[0]| ==> (DoubleAt(s, j) <==> DoubleAt(rest, j - |groups[0]| - 1));
      }
    }
  }

  /** What one side of "::" counts to. */
  lemma SideCount(groups: seq<string>)
    requires AllH16(groups)
    ensures GroupCount(Join(groups, ':')) == |groups|
  {
    if |groups| > 0 {
      JoinedGroups(groups);
      GroupsHaveNoColon(groups);
      SplitJoin(groups, ':');
    }
  }

  /** The groups one side of "::" is made of. */
  function Side(s: string): seq<string> {
    if s == "" then [] else Split(s, ':')
  }

  lemma SideText(s: string)
    ensures Join(Side(s), ':') == s
    ensures GroupCount(s) >= 0 ==> AllH16(Side(s)) && |Side(s)| == GroupCount(s)
  {
    JoinSplit(s, ':');
    PiecesAreFree(s, ':');
  }

  /** The first "::" of two joined runs is the one between them. */
  lemma DoubleBetween(left: string, right: string)
    requires NoDouble(left) && NoDouble(right)
    requires left == "" || left[|left| - 1] != ':'
    ensures FirstDouble(left + "::" + right) == |left|
    ensures FirstDouble(right) == |right|
  {
    var s := left + "::" + right;
    assert DoubleAt(s, |left|);
    forall j: nat | j < |left| ensures !DoubleAt(s, j) {
      assert DoubleAt(s, j) ==> DoubleAt(left, j) || j == |left| - 1;
    }
  }

  lemma PlainAccepted(a: Address)
    requires WellFormed(a) && a.tail.NoTail?
    ensures GroupsFit(AddressText(a))
  {
    match a
    case Full(groups, tail) =>
      assert Pieces(groups, tail) == groups;
      JoinedGroups(groups);
      SideCount(groups);
    case Compressed(left, right, tail) =>
      assert Pieces(right, tail) == right;
      if left != [] {
        JoinedGroups(left);
      }
      if right != [] {
        JoinedGroups(right);
      }
      SideCount(left);
      SideCount(right);
      var l, r := Join(left, ':'), Join(right, ':');
      DoubleBetween(l, r);
      assert (l + "::" + r)[..|l|] == l && (l + "::" + r)[|l| + 2..] == r;
  }

  lemma PlainFound(s: string) returns (a: Address)
    requires GroupsFit(s)
    ensures WellFormed(a) && a.tail.NoTail? && AddressText(a) == s
  {
    var i := FirstDouble(s);
    if i < |s| {
      SideText(s[..i]);
      SideText(s[i + 2..]);
      a := Compressed(Side(s[..i]), Side(s[i + 2..]), NoTail);
      assert Pieces(a.right, NoTail) == a.right;
      assert s == s[..i] + "::" + s[i + 2..];
    } else {
      SideText(s);
      a := Full(Side(s), NoTail);
      assert Pieces(a.groups, NoTail) == a.groups;
    }
  }

  // ---- dotted tails -----------------------------------------------------------------

  /** The text before a last piece. */
  function Stem(groups: seq<string>): string {
    if groups == [] then "" else Join(groups, ':') + ":"
  }

  /** The text of an address up to its dotted tail. */
  function Head(a: Address): string {
    match a
    case Full(groups, _) => Stem(groups)
    case Compressed(left, right, _) => Join(left, ':') + "::" + Stem(right)
  }

  /** The same address with the dotted tail written as two zero groups. */
  function Zeroed(a: Address): Address {
    match a
    case Full(groups, _) => Full(groups + ["0", "0"], NoTail)
    case Compressed(left, right, _) => Compressed(left, right + ["0", "0"], NoTail)
  }

  lemma StemThen(groups: seq<string>, last: string)
    ensures Join(groups + [last], ':') == Stem(groups) + last
  {
    JoinLast(groups, last, ':');
  }

  lemma StemThenZeros(groups: seq<string>)
    ensures Join(groups + ["0", "0"], ':') == Stem(groups) + "0:0"
  {
    assert groups + ["0", "0"] == (groups + ["0"]) + ["0"];
    StemThen(groups + ["0"], "0");
    StemThen(groups, "0");
    assert Stem(groups) + "0" + ":" + "0" == Stem(groups) + "0:0";
  }

  lemma HeadTexts(a: Address)
    requires a.tail.Dotted?
    ensures AddressText(a) == Head(a) + QuadText(a.tail.quad)
    ensures AddressText(Zeroed(a)) == Head(a) + "0:0"
  {
    var groups := if a.Full? then a.groups else a.right;
    StemThen(groups, QuadText(a.tail.quad));
    StemThenZeros(groups);
    assert Pieces(groups + ["0", "0"], NoTail) == groups + ["0", "0"];
  }

  lemma ZeroedWellFormed(a: Address)
    requires a.tail.Dotted?
    ensures WellFormed(a) <==> WellFormed(Zeroed(a)) && Octets(a.tail.quad)
  {
    var groups := if a.Full? then a.groups else a.right;
    assert forall i :: 0 <= i < |groups| ==> (groups + ["0", "0"])[i] == groups[i];
    assert (groups + ["0", "0"])[|groups|] == "0" && (groups + ["0", "0"])[|groups| + 1] == "0";
  }

  predicate EndsInColon(s: string) {
    |s| > 0 && s[|s| - 1] == ':'
  }

  lemma HeadEndsInColon(a: Address)
    requires WellFormed(a) && a.tail.Dotted?
    ensures EndsInColon(Head(a))
  {
  }

  /** A colon-free last piece can be cut off in only one way. */
  lemma CutUnique(x: string, u: string, y: string, v: string)
    requires x + u == y + v && ':' !in u && ':' !in v
    requires EndsInColon(x) && EndsInColon(y)
    ensures x == y && u == v
  {
    var s := x + u;
    assert s[|x| - 1] == ':' && s[|y| - 1] == ':';
    assert forall k :: |x| <= k < |s| ==> s[k] == u[k - |x|];
    assert forall k :: |y| <= k < |s| ==> s[k] == v[k - |y|];
    assert s[..|x|] == x && s[..|y|] == y;
    assert s[|x|..] == u && s[|y|..] == v;
  }

  /** The last group of a text, cut off at its colon. */
  lemma LastGroup(front: string, init: seq<string>, last: string, y: string, v: string)
    requires ':' !in last && ':' !in v
    requires front + Join(init + [last], ':') == y + v
    requires EndsInColon(y) && (init == [] ==> EndsInColon(front))
    ensures last == v && front + Stem(init) == y
  {
    StemThen(init, last);
    assert front + (Stem(init) + last) == (front + Stem(init)) + last;
    CutUnique(front + Stem(init), last, y, v);
  }

  lemma DropColon(a: string, b: string)
    requires a + ":" == b + ":"
    ensures a == b
  {
    assert a == (a + ":")[..|a|] && b == (b + ":")[..|b|];
  }

  /** The last two groups can only be the two zeros. */
  lemma LastTwoGroups(front: string, init: seq<string>, g: string, last: string, prefix: string)
    requires ':' !in g && ':' !in last
    requires front + Join((init + [g]) + [last], ':') == prefix + "0:0"
    requires EndsInColon(prefix) && (init == [] ==> EndsInColon(front))
    ensures g == last == "0" && front + Stem(init) == prefix
  {
    assert prefix + "0:0" == (prefix + "0:") + "0";
    LastGroup(front, init + [g], last, prefix + "0:", "0");
    DropColon(front + Join(init + [g], ':'), prefix + "0") by {
      assert (front + Join(init + [g], ':')) + ":" == front + Stem(init + [g]);
      assert (prefix + "0") + ":" == prefix + "0:";
    }
    LastGroup(front, init, g, prefix, "0");
  }

  /** The same for a run of groups. */
  lemma RunEndsInZeros(front: string, groups: seq<string>, prefix: string)
    requires |groups| >= 2 && ':' !in groups[|groups| - 2] && ':' !in groups[|groups| - 1]
    requires front + Join(groups, ':') == prefix + "0:0"
    requires EndsInColon(prefix) && (|groups| == 2 ==> EndsInColon(front))
    ensures var n := |groups| - 2;
            groups == groups[..n] + ["0", "0"] && front + Stem(groups[..n]) == prefix
  {
    var n := |groups| - 2;
    var init, g, last := groups[..n], groups[n], groups[n + 1];
    LastTwoApart(groups);
    LastTwoGroups(front, init, g, last, prefix);
  }

  lemma LastTwoApart(groups: seq<string>)
    requires |groups| >= 2
    ensures groups == (groups[..|groups| - 2] + [groups[|groups| - 2]]) + [groups[|groups| - 1]]
    ensures groups == groups[..|groups| - 2] + [groups[|groups| - 2], groups[|groups| - 1]]
  {
  }

  /** After "::", two zero groups cannot be read as fewer groups. */
  lemma TwoGroupsAtLeast(front: string, right: seq<string>, prefix: string)
    requires AllH16(right) && |front| >= 2 && front[|front| - 2..] == "::"
    requires front + Join(right, ':') == prefix + "0:0"
    ensures |right| >= 2
  {
    var s := front + Join(right, ':');
    assert s[|s| - 1] == '0' && s[|s| - 2] == ':' && s[|s| - 3] == '0';
    assert front[|front| - 1] == front[|front| - 2..][1] && front[|front| - 2] == front[|front| - 2..][0];
    if |right| == 1 {
      H16HasNo(right[0], ':');
    }
  }

  /** An address that ends in two zero groups after `prefix` comes from a dotted one. */
  lemma UnZero(a: Address, prefix: string, q: Quad) returns (b: Address)
    requires WellFormed(a) && a.tail.NoTail?
    requires AddressText(a) == prefix + "0:0" && EndsInColon(prefix)
    ensures b.tail == Dotted(q) && Zeroed(b) == a && Head(b) == prefix
  {
    match a
    case Full(groups, tail) =>
      assert Pieces(groups, tail) == groups;
      assert "" + Join(groups, ':') == Join(groups, ':');
      GroupsHaveNoColon(groups);
      RunEndsInZeros("", groups, prefix);
      b := Full(groups[..|groups| - 2], Dotted(q));
      assert "" + Stem(b.groups) == Stem(b.groups);
    case Compressed(left, right, tail) =>
      assert Pieces(right, tail) == right;
      var front := Join(left, ':') + "::";
      TwoGroupsAtLeast(front, right, prefix);
      GroupsHaveNoColon(right);
      RunEndsInZeros(front, right, prefix);
      b := Compressed(left, right[..|right| - 2], Dotted(q));
  }

  lemma DottedAccepted(a: Address)
    requires WellFormed(a) && a.tail.Dotted?
    ensures Recognised(AddressText(a))
  {
    var s, head, quad := AddressText(a), Head(a), QuadText(a.tail.quad);
    HeadTexts(a);
    HeadEndsInColon(a);
    QuadTextShape(a.tail.quad);
    HeadChars(a);
    assert ':' !in quad;
    assert s[|head| + |quad| - |quad|..] == quad;
    var p := AfterLastColon(s);
    assert s == s[..p] + s[p..];
    assert s[|head| - 1] == ':';
    CutUnique(head, quad, s[..p], s[p..]);
    FourOctetsExact(quad);
    ZeroedWellFormed(a);
    PlainAccepted(Zeroed(a));
    assert '.' in s;
  }

  lemma HeadChars(a: Address)
    requires WellFormed(a)
    ensures forall i :: 0 <= i < |Head(a)| ==> IsHex(Head(a)[i]) || Head(a)[i] == ':'
  {
    match a
    case Full(groups, _) => if groups != [] { JoinedGroups(groups); }
    case Compressed(left, right, _) =>
      if left != [] { JoinedGroups(left); }
      if right != [] { JoinedGroups(right); }
  }

  predicate PlainText(s: string) {
    AddressChars(s) && '.' !in s
  }

  lemma JoinedIsPlain(groups: seq<string>)
    requires AllH16(groups)
    ensures PlainText(Join(groups, ':'))
  {
    if groups != [] {
      JoinedGroups(groups);
    }
  }

  lemma DoubleIsPlain(left: string, right: string)
    requires PlainText(left) && PlainText(right)
    ensures PlainText(left + "::" + right)
  {
  }

  lemma PlainChars(a: Address)
    requires WellFormed(a) && a.tail.NoTail?
    ensures PlainText(AddressText(a))
  {
    match a
    case Full(groups, tail) =>
      assert Pieces(groups, tail) == groups;
      JoinedIsPlain(groups);
    case Compressed(left, right, tail) =>
      assert Pieces(right, tail) == right;
      JoinedIsPlain(left);
      JoinedIsPlain(right);
      DoubleIsPlain(Join(left, ':'), Join(right, ':'));
  }

  lemma DottedParts(s: string) returns (prefix: string, quad: string)
    requires Recognised(s) && '.' in s
    ensures s == prefix + quad && EndsInColon(prefix) && FourOctets(quad) && GroupsFit(prefix + "0:0")
  {
    var p := AfterLastColon(s);
    prefix, quad := s[..p], s[p..];
  }

  lemma DottedAssembled(prefix: string, quad: string) returns (a: Address)
    requires EndsInColon(prefix) && FourOctets(quad) && GroupsFit(prefix + "0:0")
    ensures WellFormed(a) && AddressText(a) == prefix + quad
  {
    var q := QuadFound(quad);
    var zeroed := PlainFound(prefix + "0:0");
    a := UnZero(zeroed, prefix, q);
    ZeroedWellFormed(a);
    HeadTexts(a);
  }

  /** The recogniser accepts exactly the text forms of IPv6 addresses. */
  lemma RecognisedExact(s: string)
    ensures Recognised(s) <==> Ipv6Literal(s)
  {
    if Recognised(s) {
      if '.' in s {
        var prefix, quad := DottedParts(s);
        var a := DottedAssembled(prefix, quad);
      } else {
        var a := PlainFound(s);
      }
    }
    if a :| WellFormed(a) && AddressText(a) == s {
      if a.tail.Dotted? {
        DottedAccepted(a);
      } else {
        PlainChars(a);
        PlainAccepted(a);
      }
    }
  }

  /** No IPv6 literal is longer than 45 characters; each contains a colon. */
  lemma Ipv6Length(s: string)
    requires Ipv6Literal(s)
    ensures |s| <= 45 && ':' in s && AddressChars(s)
  {
    RecognisedExact(s);
    var a :| WellFormed(a) && AddressText(a) == s;
    if a.tail.Dotted? {
      HeadTexts(a);
      HeadEndsInColon(a);
      QuadTextShape(a.tail.quad);
      HeadLength(a);
      assert s[|Head(a)| - 1] == ':';
    } else {
      match a
      case Full(groups, tail) =>
        assert Pieces(groups, tail) == groups;
        JoinedGroups(groups);
        assert Join(groups, ':') == groups[0] + ":" + Join(groups[1..], ':');
        assert s[|groups[0]|] == ':';
      case Compressed(left, right, tail) =>
        assert Pieces(right, tail) == right;
        if left != [] { JoinedGroups(left); }
        if right != [] { JoinedGroups(right); }
        assert s[|Join(left, ':')|] == ':';
    }
  }

  lemma HeadLength(a: Address)
    requires WellFormed(a) && a.tail.Dotted?
    ensures |Head(a)| <= 30
  {
    match a
    case Full(groups, _) => JoinedGroups(groups);
    case Compressed(left, right, _) =>
      if left != [] { JoinedGroups(left); }
      if right != [] { JoinedGroups(right); }
  }
}
