/** Host and port validation of the migration entrypoint, and the connection URL
    that is assembled from what it accepts. */
module MigrationHost {
  import opened Wrappers
  import opened Text
  import opened Ipv6Text

  // ---- the awk programs --------------------------------------------------------

  method CheckFourOctets(s: string) returns (ok: bool)
    ensures ok <==> FourOctets(s)
  {
    var a := Split(s, '.');
    if |a| != 4 {
      return false;
    }
    for i := 0 to 4
      invariant forall j :: 0 <= j < i ==> OctetText(a[j])
    {
      if !(|a[i]| > 0 && AllDigits(a[i])) || (|a[i]| > 1 && a[i][0] == '0') || Value(a[i]) > 255 {
        assert !OctetText(a[i]);
        return false;
      }
    }
    return true;
  }

  method CountGroups(s: string) returns (n: int)
    ensures n == GroupCount(s)
  {
    if s == "" {
      return 0;
    }
    var a := Split(s, ':');
    n := |a|;
    for i := 0 to |a|
      invariant AllH16(a[..i])
    {
      if !H16(a[i]) {
        return -1;
      }
      assert a[..i + 1] == a[..i] + [a[i]];
    }
    assert a[..|a|] == a;
  }

  method FindLastColon(s: string) returns (p: nat)
    ensures p == AfterLastColon(s)
  {
    p := 0;
    for i := 0 to |s|
      invariant p == AfterLastColon(s[..i])
    {
      assert s[..i + 1][..i] == s[..i];
      if s[i] == ':' {
        p := i + 1;
      }
    }
    assert s[..|s|] == s;
  }

  method CheckAddressChars(s: string) returns (ok: bool)
    ensures ok <==> AddressChars(s)
  {
    for i := 0 to |s|
      invariant AddressChars(s[..i])
    {
      if !(IsHex(s[i]) || s[i] == ':' || s[i] == '.') {
        return false;
      }
      assert s[..i + 1] == s[..i] + [s[i]];
    }
    assert s[..|s|] == s;
    return true;
  }

  /** The dotted tail, checked and rewritten. */
  method RewriteTail(host: string) returns (s: Option<string>)
    ensures s == WithoutTail(host)
  {
    s := Some(host);
    if '.' in host {
      var p := FindLastColon(host);
      if p == 0 {
        return None;
      }
      var ok := CheckFourOctets(host[p..]);
      s := if ok then Some(host[..p] + "0:0") else None;
    }
  }

  /** The groups on the two sides of a double colon, or eight without one. */
  method CheckGroups(s: string) returns (ok: bool)
    ensures ok <==> GroupsFit(s)
  {
    var p := FirstDouble(s);
    if p < |s| {
      if FirstDouble(s[p + 2..]) < |s[p + 2..]| {
        return false;
      }
      var left := CountGroups(s[..p]);
      var right := CountGroups(s[p + 2..]);
      ok := !(left < 0 || right < 0 || left + right >= 8);
    } else {
      var n := CountGroups(s);
      ok := n == 8;
    }
  }

  /** The whole IPv6 program with its 45-byte cap: exactly the IPv6 literals. */
  method CheckIpv6(host: string) returns (ok: bool)
    ensures ok <==> Ipv6Literal(host)
  {
    RecognisedExact(host);
    if |host| > 45 {
      if Ipv6Literal(host) {
        Ipv6Length(host);
      }
      return false;
    }
    ok := CheckAddressChars(host);
    if !ok {
      return;
    }
    var s := RewriteTail(host);
    if s.None? {
      return false;
    }
    ok := CheckGroups(s.value);
  }

  // ---- hosts ----------------------------------------------------------------------

  /** Letters, digits and inner hyphens, at most 63 of them. */
  predicate DnsLabel(s: string) {
    && 1 <= |s| <= 63
    && (forall i :: 0 <= i < |s| ==> IsAlphanumeric(s[i]) || s[i] == '-')
    && s[0] != '-' && s[|s| - 1] != '-'
  }

  predicate DnsLabels(labels: seq<string>) {
    forall i :: 0 <= i < |labels| ==> DnsLabel(labels[i])
  }

  predicate DnsName(s: string) {
    |s| <= 253 && DnsLabels(Split(s, '.'))
  }

  predicate DigitsAndDots(s: string) {
    forall i :: 0 <= i < |s| ==> IsDigit(s[i]) || s[i] == '.'
  }

  /** What a database host may be: an IPv6 literal, a DNS name that is not made of
      digits and dots alone, or an IPv4 literal. */
  ghost predicate HostLiteral(s: string) {
    if ':' in s then Ipv6Literal(s)
    else if !DigitsAndDots(s) then DnsName(s)
    else Ipv4Literal(s)
  }

  /** Bytes 33 to 126. */
  predicate Printable(s: string) {
    forall i :: 0 <= i < |s| ==> 33 <= s[i] as int <= 126
  }

  /** What the entrypoint exports: IPv6 literals in brackets. */
  function HostUrl(host: string): string {
    if ':' in host then "[" + host + "]" else host
  }

  lemma DnsNameChars(s: string)
    requires DnsName(s)
    ensures forall i :: 0 <= i < |s| ==> IsAlphanumeric(s[i]) || s[i] == '-' || s[i] == '.'
  {
    JoinSplit(s, '.');
    PiecesAreFree(s, '.');
    JoinChars(Split(s, '.'));
  }

  lemma {:induction false} JoinChars(labels: seq<string>)
    requires DnsLabels(labels)
    ensures var s := Join(labels, '.');
            forall i :: 0 <= i < |s| ==> IsAlphanumeric(s[i]) || s[i] == '-' || s[i] == '.'
  {
    if |labels| > 1 {
      JoinChars(labels[1..]);
      assert Join(labels, '.') == labels[0] + ['.'] + Join(labels[1..], '.');
    }
  }

  /** Accepted hosts hold only these characters, so no URL delimiter other than ':'. */
  lemma HostChars(s: string)
    requires HostLiteral(s)
    ensures forall i :: 0 <= i < |s| ==> IsAlphanumeric(s[i]) || s[i] == '-' || s[i] == '.' || s[i] == ':'
    ensures Printable(s) && s != ""
  {
    if ':' in s {
      Ipv6Length(s);
    } else if !DigitsAndDots(s) {
      DnsNameChars(s);
    } else {
      var q :| Octets(q) && QuadText(q) == s;
      QuadTextShape(q);
    }
  }

  lemma Ipv4Length(s: string)
    requires Ipv4Literal(s)
    ensures |s| <= 15
  {
    var q :| Octets(q) && QuadText(q) == s;
    QuadTextShape(q);
  }

  method CheckLabels(host: string) returns (ok: bool)
    ensures ok <==> DnsLabels(Split(host, '.'))
  {
    var labels := Split(host, '.');
    for i := 0 to |labels|
      invariant DnsLabels(labels[..i])
    {
      var l := labels[i];
      if |l| < 1 || |l| > 63 || !DnsLabel(l) {
        assert !DnsLabel(labels[i]);
        return false;
      }
      assert labels[..i + 1] == labels[..i] + [l];
    }
    assert labels[..|labels|] == labels;
    return true;
  }

  /** validate_host: accepts exactly the host literals and exports their URL form. */
  method ValidateHost(host: string) returns (exported: Option<string>)
    ensures exported.Some? <==> HostLiteral(host)
    ensures exported.Some? ==> exported.value == HostUrl(host)
  {
    if HostLiteral(host) {
      HostChars(host);
    }
    if host == "" || !Printable(host) {
      return None;
    }
    var ok;
    if ':' in host {
      ok := CheckIpv6(host);
    } else if !DigitsAndDots(host) {
      ok := CheckLabels(host);
      ok := |host| <= 253 && ok;
    } else {
      FourOctetsExact(host);
      if Ipv4Literal(host) {
        Ipv4Length(host);
      }
      if |host| > 15 {
        return None;
      }
      ok := CheckFourOctets(host);
    }
    exported := if ok then Some(HostUrl(host)) else None;
  }

  // ---- ports ----------------------------------------------------------------------

  predicate OctalDigits(s: string) {
    forall i :: 0 <= i < |s| ==> '0' <= s[i] <= '7'
  }

  function OctalValue(s: string): nat
    requires OctalDigits(s)
  {
    if s == "" then 0 else 8 * OctalValue(s[..|s| - 1]) + DigitValue(s[|s| - 1])
  }

  /** Shell arithmetic on digits: a leading zero makes them octal, or an error. */
  function ShellNumber(s: string): Option<nat>
    requires AllDigits(s)
  {
    if |s| > 1 && s[0] == '0' then (if OctalDigits(s) then Some(OctalValue(s)) else None) else Some(Value(s))
  }

  predicate PortAccepted(s: string) {
    && s != "" && AllDigits(s)
    && 1 <= Value(s) <= 65535
    && ShellNumber(s).Some?
    && s == Decimal(ShellNumber(s).value)
  }

  /** The port checks accept exactly the canonical decimals of 1 to 65535. */
  lemma PortExact(s: string)
    ensures PortAccepted(s) <==> exists n: nat :: 1 <= n <= 65535 && s == Decimal(n)
  {
    if PortAccepted(s) {
      DecimalIsCanonical(ShellNumber(s).value);
    }
    if n: nat :| 1 <= n <= 65535 && s == Decimal(n) {
      DecimalIsCanonical(n);
    }
  }

  // ---- the URL ----------------------------------------------------------------------

  lemma FindAt(front: string, c: char, rest: string)
    requires c !in front
    ensures Find(front + [c] + rest, c) == |front|
  {
    var s := front + [c] + rest;
    assert s[|front|] == c;
    assert forall j :: 0 <= j < |front| ==> s[j] == front[j];
  }

  /** host and port of "host ':' port" as in section 3.2 of RFC 3986. */
  function ParseHostPort(s: string): Option<(string, string)> {
    if s != "" && s[0] == '[' then
      var close := Find(s, ']');
      if close + 1 < |s| && s[close + 1] == ':' then Some((s[1..close], s[close + 2..])) else None
    else
      var colon := Find(s, ':');
      if colon < |s| then Some((s[..colon], s[colon + 1..])) else None
  }

  function Least(a: nat, b: nat): nat {
    if a < b then a else b
  }

  /** host and port of a URL: the authority ends at the first '/', '?' or '#', and
      user information ends at its '@'. */
  function ParseUrl(url: string): Option<(string, string)> {
    var scheme := Find(url, '/');
    if scheme + 1 < |url| && url[scheme + 1] == '/' then
      var rest := url[scheme + 2..];
      var authority := rest[..Least(Find(rest, '/'), Least(Find(rest, '?'), Find(rest, '#')))];
      var at := Find(authority, '@');
      ParseHostPort(if at < |authority| then authority[at + 1..] else authority)
    else None
  }

  /** Output of the URL escaping of user name and password. */
  predicate Escaped(s: string) {
    forall i :: 0 <= i < |s| ==> IsAlphanumeric(s[i]) || s[i] in "-_.~%+"
  }

  /** The connection URL atlas.hcl assembles, up to its query. */
  function DatabaseUrl(user: string, password: string, hostUrl: string, port: string, rest: string): string {
    "postgres://" + user + ":" + password + "@" + hostUrl + ":" + port + "/" + rest
  }

  lemma BracketedParses(host: string, port: string)
    requires ']' !in host
    ensures ParseHostPort("[" + host + "]" + ":" + port) == Some((host, port))
  {
    var s := "[" + host + "]" + ":" + port;
    assert s == ("[" + host) + "]" + (":" + port);
    FindAt("[" + host, ']', ":" + port);
    assert s[1..|host| + 1] == host && s[|host| + 3..] == port;
  }

  lemma PlainParses(host: string, port: string)
    requires host != "" && ':' !in host && '[' !in host
    ensures ParseHostPort(host + ":" + port) == Some((host, port))
  {
    var s := host + ":" + port;
    assert s[0] == host[0];
    FindAt(host, ':', port);
    assert s[..|host|] == host && s[|host| + 1..] == port;
  }

  /** An exported host with a port parses back to the host and the port. */
  lemma HostPortParses(host: string, port: string)
    requires HostLiteral(host)
    ensures ParseHostPort(HostUrl(host) + ":" + port) == Some((host, port))
  {
    HostHasNoDelimiter(host);
    HostChars(host);
    if ':' in host {
      BracketedParses(host, port);
    } else {
      PlainParses(host, port);
    }
  }

  predicate NoDelimiter(s: string) {
    '/' !in s && '?' !in s && '#' !in s
  }

  lemma AuthorityEnds(authority: string, rest: string)
    requires NoDelimiter(authority)
    ensures var s := authority + "/" + rest;
            s[..Least(Find(s, '/'), Least(Find(s, '?'), Find(s, '#')))] == authority
  {
    var s := authority + "/" + rest;
    FindAt(authority, '/', rest);
    NotBefore(authority, '?', "/" + rest);
    NotBefore(authority, '#', "/" + rest);
    assert s == authority + ("/" + rest);
  }

  lemma NotBefore(front: string, c: char, rest: string)
    requires c !in front
    ensures Find(front + rest, c) >= |front|
  {
    assert forall j :: 0 <= j < |front| ==> (front + rest)[j] == front[j];
  }

  /** The user information and everything after the authority do not matter. */
  lemma UrlTarget(scheme: string, userinfo: string, target: string, rest: string)
    requires '/' !in scheme && NoDelimiter(userinfo) && NoDelimiter(target) && '@' !in userinfo
    ensures ParseUrl(scheme + "/" + ("/" + (userinfo + "@" + target + "/" + rest))) == ParseHostPort(target)
  {
    var authority := userinfo + "@" + target;
    var tail := authority + "/" + rest;
    var url := scheme + "/" + ("/" + tail);
    FindAt(scheme, '/', "/" + tail);
    assert url[|scheme| + 2..] == tail;
    AuthorityEnds(authority, rest);
    FindAt(userinfo, '@', target);
    assert authority[|userinfo| + 1..] == target;
  }

  lemma UrlShape(user: string, password: string, hostUrl: string, port: string, rest: string)
    ensures DatabaseUrl(user, password, hostUrl, port, rest)
         == "postgres:" + "/" + ("/" + ((user + ":" + password) + "@" + (hostUrl + ":" + port) + "/" + rest))
  {
    assert "postgres:" + "/" + "/" == "postgres://";
  }

  lemma EscapedHasNoDelimiter(s: string)
    requires Escaped(s)
    ensures NoDelimiter(s) && '@' !in s
  {
  }

  lemma HostHasNoDelimiter(host: string)
    requires HostLiteral(host)
    ensures NoDelimiter(host) && '[' !in host && ']' !in host
  {
    HostChars(host);
  }

  /** Whatever the credentials and the database, the URL built from an accepted host
      and port names exactly that host and that port. */
  lemma UrlReachesValidatedHost(user: string, password: string, host: string, port: string, rest: string)
    requires Escaped(user) && Escaped(password)
    requires HostLiteral(host) && PortAccepted(port)
    ensures ParseUrl(DatabaseUrl(user, password, HostUrl(host), port, rest)) == Some((host, port))
  {
    var userinfo, target := user + ":" + password, HostUrl(host) + ":" + port;
    EscapedHasNoDelimiter(user);
    EscapedHasNoDelimiter(password);
    HostHasNoDelimiter(host);
    UrlTarget("postgres:", userinfo, target, rest);
    UrlShape(user, password, HostUrl(host), port, rest);
    HostPortParses(host, port);
  }
}
