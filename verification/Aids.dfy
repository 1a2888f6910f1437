/** Actor addresses: parsing and printing, equality and hashing. */
module Aids {
  import opened Basics

  datatype Aid = Aid(name: string, url: string)

  const SCHEME := "://"
  const TCP := "tcp"
  const UDP := "udp"

  // --- searching ----------------------------------------------------------

  predicate SchemeAt(s: string, i: nat) {
    i + 3 <= |s| && s[i..i + 3] == SCHEME
  }

  /** The first occurrence of "://", or None if there is none. */
  function FindScheme(s: string): (r: Option<nat>)
    ensures r.Some? ==> SchemeAt(s, r.value) && forall j: nat | j < r.value :: !SchemeAt(s, j)
    ensures r.None? ==> forall j: nat :: !SchemeAt(s, j)
  {
    if |s| < 3 then None
    else if s[..3] == SCHEME then Some(0)
    else
      var rest := FindScheme(s[1..]);
      assert forall j: nat | 0 < j :: SchemeAt(s, j) <==> SchemeAt(s[1..], j - 1) by { SchemeShift(s); }
      if rest.None? then None else Some(rest.value + 1)
  }

  lemma SchemeShift(s: string)
    requires s != ""
    ensures forall j: nat | 0 < j :: SchemeAt(s, j) <==> SchemeAt(s[1..], j - 1)
  {
    forall j: nat | 0 < j ensures SchemeAt(s, j) <==> SchemeAt(s[1..], j - 1) {
      if j + 3 <= |s| { assert s[1..][j - 1..j + 2] == s[j..j + 3]; }
    }
  }

  function FindFirst(s: string, c: char): (r: Option<nat>)
    ensures r.None? <==> c !in s
    ensures r.Some? ==> r.value < |s| && s[r.value] == c && c !in s[..r.value]
  {
    if s == "" then None
    else if s[0] == c then Some(0)
    else
      var rest := FindFirst(s[1..], c);
      if rest.None? then None
      else
        assert s[..rest.value + 1] == [s[0]] + s[1..][..rest.value];
        Some(rest.value + 1)
  }

  function FindLast(s: string, c: char): (r: Option<nat>)
    ensures r.None? <==> c !in s
    ensures r.Some? ==> r.value < |s| && s[r.value] == c && c !in s[r.value + 1..]
  {
    if s == "" then None
    else if s[|s| - 1] == c then Some(|s| - 1)
    else
      assert s == s[..|s| - 1] + [s[|s| - 1]];
      var r := FindLast(s[..|s| - 1], c);
      assert r.Some? ==> s[r.value + 1..] == s[..|s| - 1][r.value + 1..] + [s[|s| - 1]];
      r
  }

  // --- numbers ------------------------------------------------------------

  predicate IsDigit(c: char) {
    '0' <= c <= '9'
  }

  predicate IsSpace(c: char) {
    c == ' ' || '\t' <= c <= '\r'
  }

  function SkipSpaces(s: string): string {
    if s != "" && IsSpace(s[0]) then SkipSpaces(s[1..]) else s
  }

  function LeadingDigits(s: string): string {
    if s != "" && IsDigit(s[0]) then [s[0]] + LeadingDigits(s[1..]) else ""
  }

  function Value(digits: string): nat {
    if digits == "" then 0
    else
      var d := digits[|digits| - 1];
      10 * Value(digits[..|digits| - 1]) + if IsDigit(d) then d as int - '0' as int else 0
  }

  const WORD := 0x1_0000_0000_0000_0000

  /** The conversion to an unsigned long: leading spaces, an optional sign, at least one
      digit, the rest ignored. A minus sign negates modulo 2^64. None is an exception. */
  function Stoul(text: string): Option<nat> {
    var s := SkipSpaces(text);
    var negative := s != "" && s[0] == '-';
    var t := if s != "" && (s[0] == '-' || s[0] == '+') then s[1..] else s;
    var digits := LeadingDigits(t);
    if digits == "" || Value(digits) >= WORD then None
    else Some(if negative && Value(digits) > 0 then WORD - Value(digits) else Value(digits))
  }

  function Digit(n: nat): char
    requires n < 10
  {
    '0' + n as char
  }

  function Decimal(n: nat): (r: string)
    ensures r != "" && forall i | 0 <= i < |r| :: IsDigit(r[i])
  {
    if n < 10 then [Digit(n)] else Decimal(n / 10) + [Digit(n % 10)]
  }

  // --- the parts of an address --------------------------------------------

  /** Takes away a leading "tcp://". */
  function Strip(url: string): string {
    var i := FindScheme(url);
    if i.Some? && url[..i.value] == TCP then url[i.value + 3..] else url
  }

  function Make(name: string, url: string): Aid {
    Aid(name, Strip(url))
  }

  function Parse(text: string): Aid {
    var i := FindFirst(text, '@');
    if i.None? then Aid(text, "") else Make(text[..i.value], text[i.value + 1..])
  }

  function Print(a: Aid): string {
    a.name + "@" + a.url
  }

  function Protocol(url: string): string {
    var i := FindScheme(url);
    if i.Some? then url[..i.value] else TCP
  }

  function HostStart(url: string): nat {
    var i := FindScheme(url);
    if i.Some? then i.value + 3 else 0
  }

  function Ip(url: string): string {
    if url == "" then url
    else
      var last := FindLast(url, ':');
      if last.None? || last.value < HostStart(url) then url else url[HostStart(url)..last.value]
  }

  /** A port number, or 0 for what is none. */
  function PortOf(text: string): (p: nat)
    ensures p <= 65535
  {
    var port := Stoul(text);
    if port.None? || port.value > 65535 then 0 else port.value
  }

  /** What stands where the port should be: all behind the last colon. */
  function PortText(url: string): string {
    var last := FindLast(url, ':');
    if last.None? then url else url[last.value + 1..]
  }

  function Port(url: string): (p: nat)
    ensures p <= 65535
  {
    if url == "" then 0 else PortOf(PortText(url))
  }

  function UnfixUrl(url: string): string {
    Ip(url) + ":" + Decimal(Port(url))
  }

  function HashString(a: Aid): string {
    a.name + "@" + UnfixUrl(a.url)
  }

  predicate Equal(a: Aid, b: Aid) {
    if Protocol(a.url) == TCP && Protocol(b.url) == TCP
    then a.name == b.name && UnfixUrl(a.url) == UnfixUrl(b.url)
    else a.name == b.name && a.url == b.url
  }

  function SetProtocol(url: string, protocol: string): string {
    var i := FindScheme(url);
    if i.Some? then if protocol == TCP then url[i.value + 3..] else protocol + url[i.value..]
    else if protocol != TCP then protocol + SCHEME + url else url
  }

  // --- equality and hashing -----------------------------------------------

  /** Equality is an equivalence relation, and equal addresses hash alike: on all strings. */
  lemma EquivalenceTheorem(a: Aid, b: Aid, c: Aid)
    ensures Equal(a, a)
    ensures Equal(a, b) ==> Equal(b, a)
    ensures Equal(a, b) && Equal(b, c) ==> Equal(a, c)
    ensures Equal(a, b) ==> HashString(a) == HashString(b)
  {
  }

  // --- searching in a concatenation ---------------------------------------

  lemma {:induction false} FirstUnique(s: string, c: char, k: nat)
    requires k < |s| && s[k] == c && c !in s[..k]
    ensures FindFirst(s, c) == Some(k)
  {
    if k > 0 {
      assert s[..k][0] == s[0];
      assert s[1..][..k - 1] == s[..k][1..];
      FirstUnique(s[1..], c, k - 1);
    }
  }

  lemma {:induction false} LastUnique(head: string, c: char, tail: string)
    requires c !in tail
    ensures FindLast(head + [c] + tail, c) == Some(|head|)
    decreases |tail|
  {
    var s, n := head + [c] + tail, |tail| - 1;
    if tail != "" {
      assert s[|s| - 1] == tail[n];
      assert s[..|s| - 1] == head + [c] + tail[..n];
      LastUnique(head, c, tail[..n]);
    }
  }

  /** The last colon stays the last behind any prefix. */
  lemma {:induction false} ColonShift(q: string, rest: string)
    requires ':' in rest
    ensures FindLast(q + rest, ':') == Some(|q| + FindLast(rest, ':').value)
    decreases |rest|
  {
    var n := |rest| - 1;
    assert (q + rest)[|q| + n] == rest[n];
    if rest[n] != ':' {
      assert rest == rest[..n] + [rest[n]];
      assert (q + rest)[..|q| + n] == q + rest[..n];
      ColonShift(q, rest[..n]);
    }
  }

  /** A separator is found where it is put, behind text that has none. */
  lemma {:induction false} SchemeFound(p: string, rest: string)
    requires FindScheme(p).None?
    ensures FindScheme(p + SCHEME + rest) == Some(|p|)
  {
    var s := p + SCHEME + rest;
    if p == "" {
      assert s[..3] == SCHEME;
    } else {
      assert s[|p|] == ':';
      assert |p| >= 3 ==> s[..3] == p[..3];
      assert s[..3] != SCHEME by {
        if |p| == 1 { assert s[..3][1] == ':'; } else if |p| == 2 { assert s[..3][2] == ':'; }
      }
      assert s[1..] == p[1..] + SCHEME + rest;
      SchemeFound(p[1..], rest);
    }
  }

  lemma {:induction false} NoSlashNoScheme(s: string)
    requires forall i | 1 <= i < |s| :: s[i] != '/'
    ensures FindScheme(s).None?
  {
    if |s| >= 3 {
      assert s[..3][1] == s[1];
      NoSlashNoScheme(s[1..]);
    }
  }

  /** No separator comes about by adding a colon and text without slashes. */
  lemma {:induction false} NoScheme(ip: string, port: string)
    requires FindScheme(ip).None? && '/' !in port
    ensures FindScheme(ip + ":" + port).None?
  {
    var s := ip + ":" + port;
    if ip == "" {
      NoSlashNoScheme(s);
    } else if |s| >= 3 {
      assert s[|ip|] == ':';
      assert |ip| >= 3 ==> s[..3] == ip[..3];
      assert s[..3] != SCHEME by {
        if |ip| == 1 { assert s[..3][1] == ':'; } else if |ip| == 2 { assert s[..3][2] == ':'; }
      }
      assert s[1..] == ip[1..] + ":" + port;
      NoScheme(ip[1..], port);
    }
  }

  lemma ShortNoScheme(p: string)
    requires |p| == 3 && p[0] != ':'
    ensures FindScheme(p).None?
  {
    assert p[..3][0] == p[0];
  }

  lemma FirstAt(name: string, rest: string)
    requires '@' !in name
    ensures FindFirst(name + "@" + rest, '@') == Some(|name|)
  {
    var s := name + "@" + rest;
    assert s[..|name|] == name;
    FirstUnique(s, '@', |name|);
  }

  /** When the hash string, by which addresses are ordered, decides equality: for any two
      addresses with names of the same length, if both are TCP addresses or their urls are
      the same. Names without '@' can be read off the hash string. */
  lemma HashDecides(a: Aid, b: Aid)
    ensures Equal(a, b) <==> HashString(a) == HashString(b) && |a.name| == |b.name|
                             && ((Protocol(a.url) == TCP && Protocol(b.url) == TCP) || a.url == b.url)
    ensures '@' !in a.name && '@' !in b.name && HashString(a) == HashString(b) ==> a.name == b.name
  {
    var h := HashString(a);
    assert h[..|a.name|] == a.name && h[|a.name| + 1..] == UnfixUrl(a.url);
    if h == HashString(b) {
      assert h[..|b.name|] == b.name && h[|b.name| + 1..] == UnfixUrl(b.url);
      if '@' !in a.name && '@' !in b.name {
        FirstAt(a.name, UnfixUrl(a.url));
        FirstAt(b.name, UnfixUrl(b.url));
      }
    }
  }

  // --- decimal numbers ----------------------------------------------------

  lemma {:induction false} DigitsOf(s: string)
    requires forall i | 0 <= i < |s| :: IsDigit(s[i])
    ensures LeadingDigits(s) == s
  {
    if s != "" { DigitsOf(s[1..]); }
  }

  lemma {:induction false} DecimalValue(n: nat)
    ensures Value(Decimal(n)) == n
  {
    if n >= 10 {
      DecimalValue(n / 10);
      assert Decimal(n)[..|Decimal(n)| - 1] == Decimal(n / 10);
    } else {
      assert Decimal(n)[..0] == "";
    }
  }

  lemma NumberRoundTrip(n: nat)
    requires n < WORD
    ensures Stoul(Decimal(n)) == Some(n)
  {
    var d := Decimal(n);
    DigitsOf(d);
    DecimalValue(n);
    assert IsDigit(d[0]);
  }

  // --- ports --------------------------------------------------------------

  lemma {:induction false} SkipAll(spaces: string, rest: string)
    requires (forall i | 0 <= i < |spaces| :: IsSpace(spaces[i])) && (rest == "" || !IsSpace(rest[0]))
    ensures SkipSpaces(spaces + rest) == rest
  {
    if spaces == "" {
      assert spaces + rest == rest;
    } else {
      assert (spaces + rest)[1..] == spaces[1..] + rest;
      SkipAll(spaces[1..], rest);
    }
  }

  lemma {:induction false} DigitsThen(digits: string, tail: string)
    requires (forall i | 0 <= i < |digits| :: IsDigit(digits[i])) && (tail == "" || !IsDigit(tail[0]))
    ensures LeadingDigits(digits + tail) == digits
  {
    if digits == "" {
      assert digits + tail == tail;
    } else {
      assert (digits + tail)[1..] == digits[1..] + tail;
      DigitsThen(digits[1..], tail);
    }
  }

  /** The unsigned number that the text says, with its sign, if 64 bits can hold it. */
  ghost function Signed(sign: string, n: nat): Option<nat> {
    if n >= WORD then None else if sign == "-" && n > 0 then Some(WORD - n) else Some(n)
  }

  /** What the digits at the start of a text make of it, behind a sign. */
  ghost function Reading(sign: string, number: string): Option<nat> {
    var value := Value(LeadingDigits(number));
    if LeadingDigits(number) == "" || value >= WORD then None
    else Some(if sign == "-" && value > 0 then WORD - value else value)
  }

  lemma AfterSign(spaces: string, sign: string, number: string)
    requires (sign == "+" || sign == "-") && SkipSpaces(spaces + (sign + number)) == sign + number
    ensures Stoul(spaces + (sign + number)) == Reading(sign, number)
  {
    assert (sign + number)[1..] == number && (sign + number)[0] == sign[0];
  }

  lemma WithoutSign(spaces: string, number: string)
    requires number != "" && IsDigit(number[0]) && SkipSpaces(spaces + number) == number
    ensures Stoul(spaces + number) == Reading("", number)
  {
  }

  lemma ReadingDecimal(sign: string, n: nat, tail: string)
    requires tail == "" || !IsDigit(tail[0])
    ensures Reading(sign, Decimal(n) + tail) == Signed(sign, n)
  {
    DigitsThen(Decimal(n), tail);
    DecimalValue(n);
  }

  lemma SignedNumber(spaces: string, sign: string, n: nat, tail: string)
    requires (forall i | 0 <= i < |spaces| :: IsSpace(spaces[i])) && (sign == "" || sign == "+" || sign == "-")
    requires tail == "" || !IsDigit(tail[0])
    ensures Stoul(spaces + (sign + (Decimal(n) + tail))) == Signed(sign, n)
  {
    var number := Decimal(n) + tail;
    ReadingDecimal(sign, n, tail);
    assert number[0] == Decimal(n)[0] && IsDigit(number[0]);
    SkipAll(spaces, sign + number);
    if sign == "" {
      assert sign + number == number;
      WithoutSign(spaces, number);
    } else {
      AfterSign(spaces, sign, number);
    }
  }

  lemma NoNumber(spaces: string, sign: string, tail: string)
    requires (forall i | 0 <= i < |spaces| :: IsSpace(spaces[i])) && (sign == "+" || sign == "-")
    requires tail == "" || !IsDigit(tail[0])
    ensures Stoul(spaces + (sign + tail)) == None
  {
    SkipAll(spaces, sign + tail);
    AfterSign(spaces, sign, tail);
  }

  /** The port is the number behind the last colon, or the whole url without one, with spaces
      and a sign before it and anything behind it. A number that is no port, and a text that
      is no number, is 0. */
  lemma PortTheorem(host: string, spaces: string, sign: string, n: nat, tail: string)
    requires (forall i | 0 <= i < |spaces| :: IsSpace(spaces[i])) && (sign == "" || sign == "+" || sign == "-")
    requires ':' !in tail && (tail == "" || !IsDigit(tail[0]))
    ensures Port(host + ":" + (spaces + (sign + (Decimal(n) + tail)))) ==
            match Signed(sign, n) case Some(p) => (if p <= 65535 then p else 0) case None => 0
    ensures Port(spaces + (sign + (Decimal(n) + tail))) == Port(host + ":" + (spaces + (sign + (Decimal(n) + tail))))
    ensures sign != "" ==> Port(host + ":" + (spaces + (sign + tail))) == 0
  {
    PortBehind(host, spaces + (sign + (Decimal(n) + tail)));
    SignedNumber(spaces, sign, n, tail);
    if sign != "" {
      PortBehind(host, spaces + (sign + tail));
      NoNumber(spaces, sign, tail);
    }
  }

  lemma PortBehind(host: string, text: string)
    requires ':' !in text
    ensures Port(host + ":" + text) == PortOf(text) && (text != "" ==> Port(text) == PortOf(text))
  {
    LastUnique(host, ':', text);
    assert host + ":" + text == host + [':'] + text;
    assert PortText(host + ":" + text) == text;
    if text != "" { assert PortText(text) == text; }
  }

  // --- parsing recovers the parts -----------------------------------------

  /** A host and a port behind a prefix that ends where the host starts. */
  lemma HostAndPort(url: string, q: string, ip: string, port: nat)
    requires port <= 65535 && url == q + ip + ":" + Decimal(port) && HostStart(url) == |q|
    ensures Ip(url) == ip && Port(url) == port
  {
    var d := Decimal(port);
    assert url == (q + ip) + [':'] + d;
    LastUnique(q + ip, ':', d);
    NumberRoundTrip(port);
    assert PortText(url) == d;
    assert url[|q|..|q| + |ip|] == ip;
  }

  lemma PlainUrl(ip: string, port: nat)
    requires FindScheme(ip).None? && port <= 65535
    ensures var url := ip + ":" + Decimal(port);
            FindScheme(url).None? && Protocol(url) == TCP && Ip(url) == ip && Port(url) == port && Strip(url) == url
  {
    var url := ip + ":" + Decimal(port);
    NoScheme(ip, Decimal(port));
    assert "" + ip == ip;
    HostAndPort(url, "", ip, port);
  }

  lemma UrlWithScheme(p: string, ip: string, port: nat)
    requires FindScheme(p).None? && p != TCP && port <= 65535
    ensures var url := p + SCHEME + (ip + ":" + Decimal(port));
            Protocol(url) == p && Ip(url) == ip && Port(url) == port && Strip(url) == url
  {
    var rest := ip + ":" + Decimal(port);
    var url := p + SCHEME + rest;
    SchemeFound(p, rest);
    assert url[..|p|] == p;
    Grouped(p + SCHEME, ip, ":", Decimal(port));
    HostAndPort(url, p + SCHEME, ip, port);
  }

  lemma Grouped(q: string, a: string, b: string, c: string)
    ensures q + (a + b + c) == q + a + b + c
  {
    Regroup(q, a + b, c);
    Regroup(q, a, b);
  }

  lemma Regroup(a: string, b: string, c: string)
    ensures a + (b + c) == a + b + c
  {
    assert a + (b + c) == (a + b) + c;
  }

  lemma TcpStripped(rest: string)
    ensures Strip(TCP + SCHEME + rest) == rest && FindScheme(TCP + SCHEME + rest) == Some(3)
  {
    ShortNoScheme(TCP);
    SchemeFound(TCP, rest);
    var url := TCP + SCHEME + rest;
    assert url[..3] == TCP;
    assert url[6..] == rest;
  }

  lemma ParseMake(name: string, url: string)
    requires '@' !in name
    ensures Parse(name + "@" + url) == Make(name, url)
  {
    FirstAt(name, url);
    var s := name + "@" + url;
    assert s[..|name|] == name && s[|name| + 1..] == url;
  }

  ghost predicate Parts(a: Aid, name: string, protocol: string, ip: string, port: nat) {
    a.name == name && Protocol(a.url) == protocol && Ip(a.url) == ip && Port(a.url) == port
  }

  /** Parsing recovers all parts, for names without '@', hosts without "://" and every port
      number; without a protocol, with TCP, and with UDP. */
  lemma ParseTheorem(name: string, ip: string, port: nat)
    requires '@' !in name && FindScheme(ip).None? && port <= 65535
    ensures Parts(Parse(name + "@" + (ip + ":" + Decimal(port))), name, TCP, ip, port)
    ensures Parts(Parse(name + "@" + (TCP + SCHEME + (ip + ":" + Decimal(port)))), name, TCP, ip, port)
    ensures Parts(Parse(name + "@" + (UDP + SCHEME + (ip + ":" + Decimal(port)))), name, UDP, ip, port)
  {
    var url := ip + ":" + Decimal(port);
    PlainUrl(ip, port);
    ParseMake(name, url);
    ParseMake(name, TCP + SCHEME + url);
    TcpStripped(url);
    ParseMake(name, UDP + SCHEME + url);
    ShortNoScheme(UDP);
    assert UDP[0] != TCP[0];
    UrlWithScheme(UDP, ip, port);
  }

  // --- printing and parsing again -----------------------------------------

  /** What stripping once more leaves equal: a url without a leading "tcp://", or with a
      host and a port and no further scheme behind it. */
  predicate Settled(url: string) {
    !(TCP + SCHEME <= url) || (FindScheme(url[6..]).None? && ':' in url[6..])
  }

  lemma StripsPrefix(url: string)
    ensures TCP + SCHEME <= url <==> Strip(url) != url
    ensures TCP + SCHEME <= url ==> Strip(url) == url[6..]
  {
    if TCP + SCHEME <= url {
      assert url == TCP + SCHEME + url[6..];
      TcpStripped(url[6..]);
    } else if Strip(url) != url {
      StripSplit(url);
    }
  }

  lemma StripSplit(url: string)
    requires Strip(url) != url
    ensures url == TCP + SCHEME + Strip(url) && FindScheme(url) == Some(3) && Protocol(url) == TCP
  {
    var i := FindScheme(url).value;
    assert url == url[..i] + url[i..i + 3] + url[i + 3..];
  }

  lemma StrippedSame(url: string)
    requires Strip(url) != url && FindScheme(Strip(url)).None? && ':' in Strip(url)
    ensures UnfixUrl(url) == UnfixUrl(Strip(url))
  {
    var rest := Strip(url);
    StripSplit(url);
    ColonShift(TCP + SCHEME, rest);
    var i := FindLast(rest, ':').value;
    assert url[6..6 + i] == rest[..i];
    assert url[6 + i + 1..] == rest[i + 1..];
  }

  /** The host can be read off the normalised url. */
  lemma UnfixIp(a: string, b: string)
    requires UnfixUrl(a) == UnfixUrl(b)
    ensures Ip(a) == Ip(b)
  {
    SameHead(Ip(a), Decimal(Port(a)), Ip(b), Decimal(Port(b)));
  }

  lemma SameHead(h: string, d: string, k: string, e: string)
    requires ':' !in d && ':' !in e && h + ":" + d == k + ":" + e
    ensures h == k
  {
    LastUnique(h, ':', d);
    LastUnique(k, ':', e);
    assert (h + ":" + d)[..|h|] == h;
    assert (k + ":" + e)[..|k|] == k;
  }

  lemma NoColonIp(rest: string)
    requires ':' !in rest
    ensures |Ip(TCP + SCHEME + rest)| == |rest| + 6 && Ip(rest) == rest
  {
    var url := TCP + SCHEME + rest;
    TcpStripped(rest);
    assert url == TCP + [':'] + ("//" + rest);
    LastUnique(TCP, ':', "//" + rest);
  }

  /** The host of a url with "tcp://" in front of something with a colon. */
  lemma ColonIp(rest: string)
    requires ':' in rest
    ensures |Ip(TCP + SCHEME + rest)| == FindLast(rest, ':').value
  {
    TcpStripped(rest);
    ColonShift(TCP + SCHEME, rest);
  }

  lemma TwiceIp(inner: string)
    ensures var rest := TCP + SCHEME + inner; |Ip(TCP + SCHEME + rest)| != |Ip(rest)|
  {
    var rest := TCP + SCHEME + inner;
    assert rest[3] == ':';
    ColonIp(rest);
    if ':' in inner {
      ColonIp(inner);
      ColonShift(TCP + SCHEME, inner);
    } else {
      NoColonIp(inner);
      assert |rest| == |inner| + 6;
    }
  }

  /** Otherwise the host differs, or the protocol does. */
  lemma StrippedDiffers(name: string, url: string)
    requires Strip(url) != url && !(FindScheme(Strip(url)).None? && ':' in Strip(url))
    ensures !Equal(Aid(name, url), Aid(name, Strip(url)))
  {
    var rest := Strip(url);
    StripSplit(url);
    if FindScheme(rest).None? {
      NoColonIp(rest);
    } else if Protocol(rest) == TCP {
      var inner := rest[6..];
      assert rest == TCP + SCHEME + inner by { assert rest == rest[..3] + rest[3..6] + rest[6..]; }
      TwiceIp(inner);
    }
    if UnfixUrl(url) == UnfixUrl(rest) { UnfixIp(url, rest); }
  }

  /** A copy strips once more. It equals its original exactly if the url is settled. */
  lemma CopyTheorem(a: Aid)
    ensures Equal(Make(a.name, a.url), a) <==> Settled(a.url)
  {
    StripsPrefix(a.url);
    if Strip(a.url) != a.url {
      StripSplit(a.url);
      if FindScheme(Strip(a.url)).None? && ':' in Strip(a.url) {
        StrippedSame(a.url);
      } else {
        StrippedDiffers(a.name, a.url);
      }
    }
  }

  /** Printing and parsing gives an equal address exactly if the name has no '@' and the
      url is settled. */
  lemma PrintParseTheorem(a: Aid)
    ensures Equal(Parse(Print(a)), a) <==> '@' !in a.name && Settled(a.url)
  {
    CopyTheorem(a);
    if '@' !in a.name {
      ParseMake(a.name, a.url);
    } else {
      var k := FindFirst(a.name, '@').value;
      assert Print(a)[..k] == a.name[..k];
      FirstUnique(Print(a), '@', k);
    }
  }

  /** An address whose copy differs from it, as parsing makes it from
      "tcp://tcp://udp://h:1": each step takes one "tcp://" away. */
  lemma CopyMayDiffer(name: string)
    requires '@' !in name
    ensures var url := TCP + SCHEME + (UDP + SCHEME + "h:1");
            var a := Parse(name + "@" + (TCP + SCHEME + url));
            a == Aid(name, url) && !Equal(Make(a.name, a.url), a)
  {
    var rest := UDP + SCHEME + "h:1";
    var url := TCP + SCHEME + rest;
    ParseMake(name, TCP + SCHEME + url);
    TcpStripped(url);
    ShortNoScheme(UDP);
    SchemeFound(UDP, "h:1");
    assert url[6..] == rest && TCP + SCHEME <= url;
    CopyTheorem(Aid(name, url));
  }

  /** Addresses that are unequal and yet have the same hash string, so that neither is
      ordered before the other: the same host and port with UDP and without a protocol. */
  lemma UnequalUnordered(name: string, ip: string, port: nat)
    requires '@' !in name && FindScheme(ip).None? && port <= 65535
    ensures var a, b := Parse(name + "@" + (UDP + SCHEME + (ip + ":" + Decimal(port)))),
                        Parse(name + "@" + (ip + ":" + Decimal(port)));
            !Equal(a, b) && HashString(a) == HashString(b)
  {
    ParseTheorem(name, ip, port);
    assert UDP[0] != TCP[0];
  }

  /** Setting another protocol and back leaves host and port alone. */
  lemma SetProtocolTheorem(url: string, protocol: string)
    requires FindScheme(url).None? && FindScheme(protocol).None? && protocol != TCP
    ensures Protocol(SetProtocol(url, protocol)) == protocol
    ensures SetProtocol(SetProtocol(url, protocol), TCP) == url
  {
    SchemeFound(protocol, url);
    var u := protocol + SCHEME + url;
    assert u[..|protocol|] == protocol && u[|protocol| + 3..] == url;
  }

  /** What is behind the scheme of a url, if it has one. */
  function Rest(url: string): string {
    url[HostStart(url)..]
  }

  lemma SetProtocolRest(url: string, protocol: string)
    ensures SetProtocol(url, protocol) == if protocol == TCP then Rest(url) else protocol + SCHEME + Rest(url)
  {
    var i := FindScheme(url);
    if i.Some? { assert url[i.value..] == SCHEME + url[i.value + 3..]; }
  }

  lemma Slices(q: string, rest: string, k: nat)
    requires k < |rest|
    ensures (q + rest)[|q|..|q| + k] == rest[..k] && (q + rest)[|q| + k + 1..] == rest[k + 1..]
  {
  }

  /** The last colon behind a prefix, and what it divides. */
  lemma DividedBehind(q: string, rest: string) returns (k: nat)
    requires ':' in rest
    ensures FindLast(rest, ':') == Some(k) && FindLast(q + rest, ':') == Some(|q| + k) && k < |rest|
    ensures (q + rest)[|q|..|q| + k] == rest[..k] && (q + rest)[|q| + k + 1..] == rest[k + 1..]
  {
    k := FindLast(rest, ':').value;
    ColonShift(q, rest);
    Slices(q, rest, k);
  }

  /** The host and the port behind a prefix where the host starts. */
  lemma BehindPrefix(url: string, q: string, rest: string)
    requires url == q + rest && HostStart(url) == |q| && ':' in rest
    ensures Ip(url) == rest[..FindLast(rest, ':').value]
    ensures url != "" && PortText(url) == rest[FindLast(rest, ':').value + 1..]
  {
    var k := DividedBehind(q, rest);
    DividedAt(url, |q|, |q| + k);
  }

  lemma DividedAt(url: string, start: nat, colon: nat)
    requires start <= colon < |url| && HostStart(url) == start && FindLast(url, ':') == Some(colon)
    ensures Ip(url) == url[start..colon] && PortText(url) == url[colon + 1..]
  {
  }

  /** The host of a url with a scheme and no colon behind it. */
  lemma NoColonBehind(p: string, rest: string)
    requires FindScheme(p).None? && ':' !in rest
    ensures Ip(p + SCHEME + rest) == p + SCHEME + rest
  {
    SchemeFound(p, rest);
    ColonOfScheme(p, rest);
    LastUnique(p, ':', "//" + rest);
  }

  lemma ColonOfScheme(p: string, rest: string)
    ensures p + SCHEME + rest == p + [':'] + ("//" + rest)
  {
    assert SCHEME + rest == [':'] + ("//" + rest);
    Regroup(p, SCHEME, rest);
    Regroup(p, [':'], "//" + rest);
  }

  lemma PrefixSchemes(url: string, n: nat)
    requires n <= |url|
    ensures forall j: nat :: SchemeAt(url[..n], j) ==> SchemeAt(url, j) && j + 3 <= n
  {
    forall j: nat | SchemeAt(url[..n], j) ensures SchemeAt(url, j) && j + 3 <= n {
      assert url[..n][j..j + 3] == url[j..j + 3];
    }
  }

  /** A url is its scheme, if any, and the rest. */
  lemma SchemeSplit(url: string) returns (p: string)
    requires FindScheme(url).Some?
    ensures FindScheme(p).None? && url == p + SCHEME + Rest(url) && HostStart(url) == |p + SCHEME|
  {
    var i := FindScheme(url).value;
    p := url[..i];
    PrefixSchemes(url, i);
    assert url == url[..i] + url[i..i + 3] + url[i + 3..];
  }

  /** The host and the port of any url. */
  lemma HostOf(url: string)
    ensures var rest := Rest(url);
            if ':' in rest then Ip(url) == rest[..FindLast(rest, ':').value]
                                && url != "" && PortText(url) == rest[FindLast(rest, ':').value + 1..]
            else Ip(url) == url
  {
    var rest := Rest(url);
    if FindScheme(url).Some? {
      var p := SchemeSplit(url);
      if ':' in rest { BehindPrefix(url, p + SCHEME, rest); } else { NoColonBehind(p, rest); }
    } else {
      assert rest == url;
    }
  }

  /** The same for a url that starts with a given scheme. */
  lemma HostBehind(p: string, rest: string)
    requires FindScheme(p).None?
    ensures Protocol(p + SCHEME + rest) == p && Rest(p + SCHEME + rest) == rest
  {
    var url := p + SCHEME + rest;
    SchemeFound(p, rest);
    assert url[..|p|] == p && url[|p| + 3..] == rest;
  }

  /** The protocol is set already, in the form in which it would be set. */
  predicate HasProtocol(url: string, protocol: string) {
    if FindScheme(url).Some? then protocol != TCP && Protocol(url) == protocol else protocol == TCP
  }

  /** Setting a protocol changes nothing exactly if it is set already. */
  lemma SetAgain(url: string, protocol: string)
    requires FindScheme(protocol).None?
    ensures SetProtocol(url, protocol) == url <==> HasProtocol(url, protocol)
  {
    SetProtocolRest(url, protocol);
    if FindScheme(url).Some? {
      var p := SchemeSplit(url);
      HostBehind(p, Rest(url));
      if protocol != TCP { HostBehind(protocol, Rest(url)); }
    }
  }

  /** Setting a protocol: it is the one set, except that a scheme behind "tcp" shows; and
      host and port stay, exactly if the protocol is set already, or there is a colon behind
      the old scheme and, for "tcp", no further scheme. */
  lemma ProtocolTheorem(url: string, protocol: string)
    requires FindScheme(protocol).None?
    ensures var u, rest := SetProtocol(url, protocol), Rest(url);
            && (Protocol(u) == protocol <==> protocol != TCP || Protocol(rest) == TCP)
            && (Ip(u) == Ip(url) && Port(u) == Port(url) <==>
                  HasProtocol(url, protocol) || (':' in rest && (protocol == TCP ==> FindScheme(rest).None?)))
  {
    var rest := Rest(url);
    SetAgain(url, protocol);
    SetProtocolRest(url, protocol);
    HostOf(url);
    if protocol != TCP {
      HostBehind(protocol, rest);
      HostOf(protocol + SCHEME + rest);
    } else {
      HostOf(rest);
      if rest != url { RestShorter(url); }
    }
  }

  lemma LastAtLeast(s: string, c: char, j: nat)
    requires j < |s| && s[j] == c
    ensures FindLast(s, c).value >= j
  {
    var k := FindLast(s, c).value;
    forall x | k < x < |s| ensures s[x] != c { assert s[x] == s[k + 1..][x - k - 1]; }
  }

  lemma RestShorter(url: string)
    requires Rest(url) != url
    ensures FindScheme(url).Some? && |Rest(url)| < |url|
    ensures FindScheme(Rest(url)).Some? ==>
              ':' in Rest(url) && Ip(Rest(url)) != Rest(url)[..FindLast(Rest(url), ':').value]
  {
    var rest := Rest(url);
    var j := FindScheme(rest);
    if j.Some? {
      assert rest[j.value] == rest[j.value..j.value + 3][0];
      LastAtLeast(rest, ':', j.value);
    }
  }

  /** A parsed address without a port, whose host changes with its protocol: "h" becomes
      "udp://h". */
  lemma HostMayChange(name: string)
    requires '@' !in name
    ensures var a := Parse(name + "@" + "h");
            && a == Aid(name, "h") && Ip(a.url) == "h"
            && SetProtocol(a.url, UDP) == UDP + SCHEME + "h" && Ip(SetProtocol(a.url, UDP)) == UDP + SCHEME + "h"
  {
    ParseMake(name, "h");
    SetProtocolRest("h", UDP);
    ShortNoScheme(UDP);
    NoColonBehind(UDP, "h");
  }

  // --- the address as an object -------------------------------------------

  class AidObject {
    var name: string
    var url: string
    var ak: string

    ghost function View(): Aid
      reads this
    {
      Aid(name, url)
    }

    /** No name has an '@', so that what is printed parses back to an equal address exactly
        if the url is settled. */
    constructor FromString(text: string)
      ensures View() == Parse(text) && ak == "" && '@' !in name
      ensures Equal(Parse(Print(View())), View()) <==> Settled(url)
    {
      var at := FindFirst(text, '@');
      name := if at.None? then text else text[..at.value];
      url := if at.None? then "" else Strip(text[at.value + 1..]);
      ak := "";
      new;
      PrintParseTheorem(View());
    }

    constructor FromParts(n: string, u: string)
      ensures View() == Make(n, u) && ak == ""
    {
      name, url, ak := n, Strip(u), "";
    }

    constructor Copy(other: AidObject)
      ensures View() == Make(other.name, other.url) && ak == other.ak
      ensures Equal(View(), other.View()) <==> Settled(other.url)
    {
      name, url, ak := other.name, Strip(other.url), other.ak;
      new;
      CopyTheorem(other.View());
    }

    /** Assignment copies the url as it is, and not the access key. */
    method Assign(other: AidObject)
      modifies this`name, this`url
      ensures View() == old(other.View()) && Equal(View(), old(other.View()))
    {
      if other != this {
        name, url := other.name, other.url;
      }
    }

    /** The address is the one with the given url, exactly if that url is settled. */
    method SetUrl(u: string)
      modifies this`url
      ensures url == Strip(u) && (Equal(View(), Aid(name, u)) <==> Settled(u))
    {
      url := u;
      SetUnfixUrl();
      CopyTheorem(Aid(name, u));
    }

    method SetUnfixUrl()
      modifies this`url
      ensures url == Strip(old(url))
    {
      var i := FindScheme(url);
      if i.Some? {
        if url[..i.value] == TCP {
          url := url[i.value + 3..];
        }
      }
    }

    /** When the protocol is the one set, and when host and port stay. */
    method ChangeProtocol(protocol: string)
      modifies this`url
      ensures url == SetProtocol(old(url), protocol)
      ensures FindScheme(protocol).None? ==>
                && (Protocol(url) == protocol <==> protocol != TCP || Protocol(Rest(old(url))) == TCP)
                && (Ip(url) == Ip(old(url)) && Port(url) == Port(old(url)) <==>
                      || HasProtocol(old(url), protocol)
                      || (':' in Rest(old(url)) && (protocol == TCP ==> FindScheme(Rest(old(url))).None?)))
    {
      if FindScheme(protocol).None? { ProtocolTheorem(url, protocol); }
      var i := FindScheme(url);
      if i.Some? {
        if protocol == TCP {
          url := url[i.value + 3..];
        } else {
          url := protocol + url[i.value..];
        }
        return;
      }
      if protocol != TCP {
        url := protocol + SCHEME + url;
      }
    }
  }
}
