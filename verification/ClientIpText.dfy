/** Reducing one forwarded value to a canonical address, and the header and keys made from it. */
module ClientIpText {
  import opened Wrappers
  import opened Numerals
  import opened Text
  import opened Ipv6
  import opened ClientIp

  predicate DigitRun(s: string, most: nat) { 1 <= |s| <= most && forall c | c in s :: IsDigit(c) }

  /** Four runs of one to three digits between dots. */
  predicate DottedShape(s: string) {
    var parts := SplitOn(s, '.');
    |parts| == 4 && forall p | p in parts :: DigitRun(p, 3)
  }

  predicate IsIpv4(s: string) { ReadDotted(s).Some? }

  /** What stands between the brackets of `[...]`, with or without a port after it. */
  function Bracketed(s: string): Option<string> {
    if s == "" || s[0] != '[' then None
    else
      var at := IndexOf(s, "]", 0);
      if at < 1 then None
      else
        var rest := s[at + 1..];
        if rest == "" || (rest[0] == ':' && DigitRun(rest[1..], 5)) then Some(s[1..at]) else None
  }

  /** The address in front of a port, where the text is a dotted quad and one. */
  function BeforePort(s: string): Option<string> {
    var at := IndexOf(s, ":", 0);
    if at < 0 then None
    else if DottedShape(s[..at]) && DigitRun(s[at + 1..], 5) then Some(s[..at])
    else None
  }

  const MAPPED := "::ffff:"

  /** The dotted quad of an IPv4-mapped print. */
  function MappedQuad(s: string): Option<string> {
    if MatchesAt(s, MAPPED, 0) && DottedShape(s[|MAPPED|..]) then Some(s[|MAPPED|..]) else None
  }

  function CanonicalIpv6(style: Style, s: string): Option<string> {
    match Reprinted(style, s)
    case None => None
    case Some(canonical) => Some(MappedQuad(canonical).GetOr(canonical))
  }

  function NormalizeClientIp(style: Style, raw: string): Option<string> {
    var value := Trim(raw);
    match Bracketed(value)
    case Some(inner) => CanonicalIpv6(style, inner)
    case None =>
      var address := BeforePort(value).GetOr(value);
      if IsIpv4(address) then Some(address) else CanonicalIpv6(style, address)
  }

  function GetClientIp(style: Style, headers: Headers, source: Option<Source>, count: nat): Option<string> {
    match TrustedHop(headers, source, count) case None => None case Some(hop) => NormalizeClientIp(style, hop)
  }

  datatype Key = Anonymous | ByIp(subject: string)

  /** None where the subject's computation throws. */
  function ClientIpKey(style: Style, headers: Headers, source: Option<Source>, count: nat): Option<Key> {
    match GetClientIp(style, headers, source, count)
    case None => Some(Anonymous)
    case Some(ip) => match RateLimitSubject(style, ip) case None => None case Some(subject) => Some(ByIp(subject))
  }

  // ---------------------------------------------------------------------------
  //  What text an address has.
  // ---------------------------------------------------------------------------

  /** An address's characters: hexadecimal digits, dots and colons. */
  predicate AddressChar(c: char) { DigitValue(c).Some? || c == '.' || c == ':' }

  predicate AddressText(s: string) { s != "" && forall c | c in s :: AddressChar(c) }

  lemma {:induction false} JoinChars(ts: seq<string>)
    requires forall t | t in ts :: AddressText(t)
    ensures forall c | c in Join(ts, ":") :: AddressChar(c)
  {
    hide AddressChar;
    ColonIs();
    if |ts| == 1 {
      assert ts[0] in ts;
    } else if |ts| > 1 {
      assert ts[0] in ts && forall t | t in ts[1..] :: t in ts;
      JoinChars(ts[1..]);
    }
  }

  lemma ColonIs()
    ensures AddressChar(':') && AddressChar('.')
  {
  }

  lemma {:induction false} HexAllTexts(groups: seq<Group>)
    ensures forall t | t in HexAll(groups) :: AddressText(t)
  {
    if groups != [] {
      DigitsAreDigits(groups[0], 16);
      HexAllTexts(groups[1..]);
    }
  }

  lemma DottedTextIs(high: Group, low: Group)
    ensures AddressText(DottedText(high, low))
  {
    DigitsAreDigits(high / 256, 10);
    DigitsAreDigits(high % 256, 10);
    DigitsAreDigits(low / 256, 10);
    DigitsAreDigits(low % 256, 10);
  }

  lemma CompressedChars(groups: seq<Group>, tail: seq<string>)
    requires forall t | t in tail :: AddressText(t)
    ensures forall c | c in Compressed(groups, tail) :: AddressChar(c)
  {
    hide AddressChar, LongestFrom, HexAll, Join;
    var start := LongestFrom(groups, 0);
    var run := ZerosAt(groups, start);
    ColonIs();
    HexAllTexts(groups);
    HexAllTexts(groups[..start]);
    HexAllTexts(groups[start + run..]);
    JoinChars(HexAll(groups) + tail);
    JoinChars(HexAll(groups[..start]));
    JoinChars(HexAll(groups[start + run..]) + tail);
  }

  lemma PrintChars(a: Address, dotted: bool)
    ensures AddressText(Print(a, dotted))
  {
    hide Compressed, AddressChar;
    if dotted {
      DottedTextIs(a[6], a[7]);
      CompressedChars(a[..6], [DottedText(a[6], a[7])]);
    } else {
      CompressedChars(a, []);
    }
    PrintRead(a, dotted);
    NothingRead();
  }

  lemma NothingRead()
    ensures Read("") == None
  {
  }

  lemma TrimAddress(s: string)
    requires AddressText(s)
    ensures Trim(s) == s && Bracketed(s) == None
  {
    assert s[0] in s && s[|s| - 1] in s;
  }

  /** Text without a colon reads as no IPv6 address. */
  lemma ColonFree(s: string)
    requires ':' !in s
    ensures Read(s) == None
  {
    hide ReadHex, ReadDotted;
    assert NoPair(s) by {
      assert forall k | 0 <= k < |s| :: s[k] in s;
    }
    NoPairNone(s);
    if s != "" {
      SplitOnNone(s, ':');
      OneToken(s);
    }
  }

  lemma OneToken(s: string)
    ensures ReadGroups([s], true).Some? ==> |ReadGroups([s], true).value| <= 2
  {
  }

  lemma {:induction false} QuadChars(s: string)
    requires IsIpv4(s)
    ensures AddressText(s) && ':' !in s
  {
    SplitChars(s);
    var parts := SplitOn(s, '.');
    forall p | p in parts ensures forall c | c in p :: DigitValue(c).Some? {
      OctetChars(p);
    }
    EmptyQuad();
  }

  lemma EmptyQuad()
    ensures !IsIpv4("")
  {
  }

  lemma OctetChars(p: string)
    ensures ReadOctet(p).Some? ==> forall c | c in p :: DigitValue(c).Some?
  {
    ValueChars(p, 10);
  }

  lemma {:induction false} ValueChars(s: string, base: nat)
    ensures Value(s, base).Some? ==> forall c | c in s :: DigitValue(c).Some?
  {
    if |s| > 1 {
      ValueChars(s[..|s| - 1], base);
      assert s == s[..|s| - 1] + [s[|s| - 1]];
    }
  }

  /** Every character of a text is a dot or in one of its dot-separated parts. */
  lemma {:induction false} SplitChars(s: string)
    ensures forall c | c in s && c != '.' :: exists p | p in SplitOn(s, '.') :: c in p
  {
    if s != "" {
      SplitChars(s[1..]);
      assert s == [s[0]] + s[1..];
      var parts, rest := SplitOn(s, '.'), SplitOn(s[1..], '.');
      assert s[0] != '.' ==> s[0] in parts[0];
      forall c | c in s[1..] && c != '.' ensures exists p | p in parts :: c in p {
        var p :| p in rest && c in p;
        var k :| 0 <= k < |rest| && rest[k] == p;
        if s[0] == '.' {
          assert parts[k + 1] == p;
        } else if k == 0 {
          assert c in parts[0];
        } else {
          assert parts[k] == p;
        }
      }
    }
  }

  // ---------------------------------------------------------------------------
  //  Normal forms.
  // ---------------------------------------------------------------------------

  /** What a result is: a dotted quad, or the canonical print of an address that is not a mapped one. */
  predicate Normal(style: Style, ip: string) {
    IsIpv4(ip) || (Read(ip).Some? && ip == Canonical(style, Read(ip).value) && MappedQuad(ip).None?)
  }

  lemma {:induction false} QuadStands(style: Style, ip: string)
    requires IsIpv4(ip)
    ensures NormalizeClientIp(style, ip) == Some(ip)
  {
    hide IsIpv4, Trim, Bracketed, BeforePort;
    QuadChars(ip);
    TrimAddress(ip);
    NoColon(ip);
  }

  lemma {:induction false} ColonAt(s: string)
    ensures IndexOf(s, ":", 0) >= 0 ==> IndexOf(s, ":", 0) < |s| && s[IndexOf(s, ":", 0)] == ':'
    ensures IndexOf(s, ":", 0) >= 0 ==> ':' !in s[..IndexOf(s, ":", 0)]
  {
    hide IndexOf, MatchesAt;
    var at := IndexOf(s, ":", 0);
    IndexOfFirst(s, ":", 0);
    if at >= 0 {
      CharMatch(s, ':', at);
      forall k: nat | k < at ensures s[k] != ':' {
        assert !MatchesAt(s, ":", k);
        CharMatch(s, ':', k);
      }
    }
  }

  lemma CharMatch(s: string, c: char, k: nat)
    ensures MatchesAt(s, [c], k) <==> k < |s| && s[k] == c
  {
  }

  lemma NoColon(s: string)
    requires ':' !in s
    ensures BeforePort(s) == None
  {
  }

  lemma TwoTokens(a: string, b: string)
    ensures ReadGroups([a, b], true).Some? ==> |ReadGroups([a, b], true).value| <= 3
  {
    hide ReadHex, ReadDotted;
    assert [a, b][1..] == [b];
    OneToken(b);
  }

  /** One colon makes no IPv6 address: a quad and a port is not one, and no canonical print is such. */
  lemma PortIsNoIpv6(s: string)
    ensures BeforePort(s).Some? ==> Read(s) == None
  {
    hide ReadGroups, DottedShape;
    if BeforePort(s).Some? {
      ColonAt(s);
      var at := IndexOf(s, ":", 0);
      var a, b := s[..at], s[at + 1..];
      assert ':' !in b;
      assert s == a + [':'] + b;
      forall k | 0 <= k < |s| - 1 ensures !(s[k] == ':' && s[k + 1] == ':') {
        if k < at {
          assert s[k] == a[k] && a[k] in a;
        } else {
          assert s[k + 1] == b[k - at] && b[k - at] in b;
        }
      }
      NoPairNone(s);
      SplitOnNone(a, ':');
      SplitOnNone(b, ':');
      SplitOnSep(a, ':', b);
      TwoTokens(a, b);
      assert SplitColons(s) == [a, b];
    }
  }

  lemma QuadIsNoIpv6(s: string)
    requires IsIpv4(s)
    ensures Read(s) == None
  {
    hide IsIpv4;
    QuadChars(s);
    ColonFree(s);
  }

  lemma {:induction false} PrintStands(style: Style, a: Address)
    requires MappedQuad(Canonical(style, a)).None?
    ensures NormalizeClientIp(style, Canonical(style, a)) == Some(Canonical(style, a))
  {
    hide Print, Read, BeforePort, IsIpv4, MappedQuad, Trim, Bracketed;
    var ip := Canonical(style, a);
    PrintChars(a, style(a));
    TrimAddress(ip);
    PrintRead(a, style(a));
    PortIsNoIpv6(ip);
    if IsIpv4(ip) {
      QuadIsNoIpv6(ip);
    }
  }

  lemma QuadToken(quad: string)
    requires '.' in quad && ReadGroups(["ffff", quad], true).Some?
    ensures IsIpv4(quad)
  {
  }

  lemma MappedSplit(quad: string)
    requires ':' !in quad
    ensures SplitColons("ffff:" + quad) == ["ffff", quad]
  {
    SplitOnNone("ffff", ':');
    SplitOnNone(quad, ':');
    SplitOnSep("ffff", ':', quad);
    assert "ffff" + [':'] + quad == "ffff:" + quad;
  }

  /** The quad of a mapped print is a quad. */
  lemma MappedIsQuad(s: string)
    requires Read(s).Some? && MappedQuad(s).Some?
    ensures IsIpv4(MappedQuad(s).value)
  {
    hide DottedShape, IsIpv4, ReadGroups, SplitColons;
    var quad := MappedQuad(s).value;
    assert s == MAPPED + quad;
    ShapeChars(quad);
    MappedBreak(quad);
    MappedSplit(quad);
    QuadToken(quad);
  }

  lemma MappedBreak(quad: string)
    requires ':' !in quad
    ensures IndexOf(MAPPED + quad, "::", 0) == 0 && (MAPPED + quad)[..0] == "" && (MAPPED + quad)[2..] == "ffff:" + quad
  {
  }

  lemma ShapeChars(s: string)
    requires DottedShape(s)
    ensures ':' !in s && '.' in s
  {
    SplitChars(s);
    if '.' !in s {
      SplitOnNone(s, '.');
    }
  }

  /** Every result is in normal form: valid, canonical, and what normalizing it again gives. */
  lemma {:induction false} ResultIsNormal(style: Style, raw: string)
    ensures var ip := NormalizeClientIp(style, raw);
            ip.Some? ==> Normal(style, ip.value) && NormalizeClientIp(style, ip.value) == ip
  {
    hide Read, Print, IsIpv4, MappedQuad, Bracketed, BeforePort, Trim;
    var value := Trim(raw);
    var text := if Bracketed(value).Some? then Bracketed(value).value else BeforePort(value).GetOr(value);
    if Bracketed(value).None? && IsIpv4(text) {
      QuadStands(style, text);
    } else if Read(text).Some? {
      var a := Read(text).value;
      PrintRead(a, style(a));
      if MappedQuad(Canonical(style, a)).Some? {
        MappedIsQuad(Canonical(style, a));
        QuadStands(style, MappedQuad(Canonical(style, a)).value);
      } else {
        PrintStands(style, a);
      }
    }
  }

  /** A port on a quad, and brackets on an IPv6 address with or without one, change nothing. */
  lemma {:induction false} PortStripped(style: Style, quad: string, port: string)
    requires IsIpv4(quad) && DigitRun(port, 5)
    ensures NormalizeClientIp(style, quad + ":" + port) == Some(quad)
  {
    hide Trim, Bracketed, IsIpv4;
    var s := quad + ":" + port;
    QuadChars(quad);
    QuadShape(quad);
    assert AddressText(s) by {
      assert forall c | c in port :: DigitValue(c).Some?;
    }
    TrimAddress(s);
    assert s[|quad|..|quad| + 1] == ":" && s[..|quad|] == quad && s[|quad| + 1..] == port;
    forall k: nat | k < |quad| ensures !MatchesAt(s, ":", k) {
      assert s[k..k + 1] == [quad[k]] && quad[k] in quad;
    }
    IndexOfIs(s, ":", 0, |quad|);
  }

  lemma QuadShape(s: string)
    requires IsIpv4(s)
    ensures DottedShape(s)
  {
    var parts := SplitOn(s, '.');
    forall p | p in parts ensures DigitRun(p, 3) {
      assert ReadOctet(p).Some?;
      DecimalChars(p);
    }
  }

  lemma {:induction false} DecimalChars(s: string)
    ensures Value(s, 10).Some? ==> s != "" && forall c | c in s :: IsDigit(c)
  {
    if |s| > 1 {
      DecimalChars(s[..|s| - 1]);
      assert s == s[..|s| - 1] + [s[|s| - 1]];
    }
  }

  lemma {:induction false} BracketsStripped(style: Style, a: Address, port: string)
    requires port == "" || (port[0] == ':' && DigitRun(port[1..], 5))
    ensures NormalizeClientIp(style, "[" + Canonical(style, a) + "]" + port)
         == NormalizeClientIp(style, Canonical(style, a))
  {
    hide Print, Read, BeforePort, IsIpv4, MappedQuad;
    var ip := Canonical(style, a);
    var s := "[" + ip + "]" + port;
    PrintChars(a, style(a));
    TrimAddress(ip);
    PrintRead(a, style(a));
    PortIsNoIpv6(ip);
    if IsIpv4(ip) {
      QuadIsNoIpv6(ip);
    }
    BracketsFound(ip, port);
  }

  lemma TrimKeeps(s: string)
    requires s != "" && !IsSpace(s[0]) && !IsSpace(s[|s| - 1])
    ensures Trim(s) == s
  {
  }

  lemma PlainChars(s: string)
    ensures AddressText(s) ==> ']' !in s
    ensures DigitRun(s, 5) ==> !IsSpace(s[|s| - 1]) && s[|s| - 1] != ']'
  {
    assert DigitRun(s, 5) ==> s[|s| - 1] in s;
  }

  lemma BracketsFound(ip: string, port: string)
    requires AddressText(ip) && (port == "" || (port[0] == ':' && DigitRun(port[1..], 5)))
    ensures Trim("[" + ip + "]" + port) == "[" + ip + "]" + port
    ensures Bracketed("[" + ip + "]" + port) == Some(ip)
  {
    hide AddressText, Trim, DigitRun, MatchesAt, IndexOf;
    var s := "[" + ip + "]" + port;
    var at := |ip| + 1;
    PlainChars(ip);
    if port != "" {
      PlainChars(port[1..]);
      DigitsSome(port[1..]);
      assert s[|s| - 1] == port[1..][|port[1..]| - 1];
    }
    TrimKeeps(s);
    CharMatch(s, ']', at);
    forall k: nat | k < at ensures !MatchesAt(s, "]", k) {
      CharMatch(s, ']', k);
      if k > 0 {
        assert s[k] == ip[k - 1] && ip[k - 1] in ip;
      }
    }
    IndexOfIs(s, "]", 0, at);
    assert s[1..at] == ip && s[at + 1..] == port;
  }

  lemma DigitsSome(s: string)
    requires DigitRun(s, 5)
    ensures s != ""
  {
  }

  // ---------------------------------------------------------------------------
  //  Requests: the address, the key, and the header Better Auth reads.
  // ---------------------------------------------------------------------------

  /** On a chain as long as the trusted proxies, prefixing it changes neither the address nor the key. */
  lemma {:induction false} ClientFixed(style: Style, headers: Headers, count: nat, text: string)
    requires XFF in headers && 0 < count <= |ChainOf(headers)|
    ensures GetClientIp(style, Prepended(headers, text), Some(Chain), count)
         == GetClientIp(style, headers, Some(Chain), count)
    ensures ClientIpKey(style, Prepended(headers, text), Some(Chain), count)
         == ClientIpKey(style, headers, Some(Chain), count)
  {
    hide TrustedHop, ChainOf, NormalizeClientIp, RateLimitSubject;
    PrependingIgnored(headers, count, text);
  }

  /** Two addresses count under one key exactly when they are the same quad, or IPv6 addresses of one /64. */
  lemma {:induction false} SameSubjectExactlyWhen(style: Style, x: string, y: string)
    requires Normal(style, x) && Normal(style, y)
    ensures RateLimitSubject(style, x).Some?
    ensures RateLimitSubject(style, x) == RateLimitSubject(style, y)
       <==> if Read(x).Some? && Read(y).Some? then Read(x).value[..4] == Read(y).value[..4] else x == y
  {
    hide Read, Print, RateLimitSubject, MappedQuad, IsIpv4;
    SubjectShape(style, x);
    SubjectShape(style, y);
    if IsIpv4(x) {
      QuadIsNoIpv6(x);
    }
    if IsIpv4(y) {
      QuadIsNoIpv6(y);
    }
    if Read(x).Some? && Read(y).Some? {
      KeysAgreeExactlyWhen(style, Read(x).value, Read(y).value);
    }
  }

  /** A quad is its own subject; an IPv6 address's is no address's text. */
  lemma {:induction false} SubjectShape(style: Style, x: string)
    requires Normal(style, x)
    ensures RateLimitSubject(style, x).Some?
    ensures AddressText(x)
    ensures Read(x).None? ==> RateLimitSubject(style, x) == Some(x)
    ensures Read(x).Some? ==> !AddressText(RateLimitSubject(style, x).value)
  {
    hide Read, Print, MappedQuad, AddressChar, GroupTexts;
    if IsIpv4(x) {
      QuadIsNoIpv6(x);
      QuadChars(x);
    } else {
      var a := Read(x).value;
      PrintChars(a, style(a));
      SubjectIsPrefix(style, a);
      SlashIsNone(Canonical(style, Top(a)) + "/64");
      var s := RateLimitSubject(style, x).value;
      assert s[|s| - 3] == '/';
    }
  }

  lemma SlashIsNone(s: string)
    ensures AddressText(s) ==> '/' !in s
  {
  }

  /** On a shorter chain a client chooses its key: it counts under whatever address it puts in front. */
  lemma {:induction false} ShortChainChoosesKey(style: Style, headers: Headers, count: nat, ip: string)
    requires XFF in headers && |ChainOf(headers)| < count && Normal(style, ip)
    ensures RateLimitSubject(style, ip).Some?
    ensures ClientIpKey(style, Prepended(headers, ip), Some(Chain), count)
         == Some(ByIp(RateLimitSubject(style, ip).value))
  {
    hide Normal, RateLimitSubject, NormalizeClientIp, TrustedHop, ChainOf, AddressChar, Hops;
    SubjectShape(style, ip);
    NoComma(ip);
    TrimAddress(ip);
    OneHop(ip);
    ShortChainFollows(headers, count, ip);
    NormalStands(style, ip);
  }

  lemma {:induction false} NormalStands(style: Style, ip: string)
    requires Normal(style, ip)
    ensures NormalizeClientIp(style, ip) == Some(ip)
  {
    hide IsIpv4, Read, Canonical, MappedQuad, NormalizeClientIp;
    if IsIpv4(ip) {
      QuadStands(style, ip);
    } else {
      PrintStands(style, Read(ip).value);
    }
  }

  lemma NoComma(s: string)
    requires AddressText(s)
    ensures ',' !in s
  {
  }

  /** A quad counts under itself. */
  lemma {:induction false} QuadSubject(style: Style, high: Group, low: Group)
    ensures Normal(style, DottedText(high, low))
    ensures RateLimitSubject(style, DottedText(high, low)) == Some(DottedText(high, low))
  {
    hide ReadDotted, DottedText, Read;
    DottedRead(high, low);
    QuadIsNoIpv6(DottedText(high, low));
  }

  /** A client's key is beyond its reach exactly when the chain is at least as long as the trusted proxies. */
  lemma {:induction false} KeyFixedExactlyWhen(style: Style, headers: Headers, count: nat)
    requires XFF in headers && 0 < count
    ensures (forall text :: ClientIpKey(style, Prepended(headers, text), Some(Chain), count)
                            == ClientIpKey(style, headers, Some(Chain), count))
       <==> count <= |ChainOf(headers)|
  {
    hide ChainOf, ClientIpKey, DottedText, ReadDotted, Normal, RateLimitSubject;
    if count <= |ChainOf(headers)| {
      forall text
        ensures ClientIpKey(style, Prepended(headers, text), Some(Chain), count)
             == ClientIpKey(style, headers, Some(Chain), count)
      {
        ClientFixed(style, headers, count, text);
      }
    } else {
      var a, b := DottedText(1, 0), DottedText(2, 0);
      QuadSubject(style, 1, 0);
      QuadSubject(style, 2, 0);
      ShortChainChoosesKey(style, headers, count, a);
      ShortChainChoosesKey(style, headers, count, b);
      DottedRead(1, 0);
      DottedRead(2, 0);
    }
  }

  /** Every request has a key: the address's, or the one shared by those with none. */
  lemma {:induction false} EveryRequestHasKey(style: Style, headers: Headers, source: Option<Source>, count: nat)
    ensures ClientIpKey(style, headers, source, count).Some?
    ensures ClientIpKey(style, headers, source, count) == Some(Anonymous)
       <==> GetClientIp(style, headers, source, count).None?
  {
    hide RateLimitSubject, NormalizeClientIp, TrustedHop, Normal;
    var hop := TrustedHop(headers, source, count);
    if hop.Some? {
      ResultIsNormal(style, hop.value);
      var ip := NormalizeClientIp(style, hop.value);
      if ip.Some? {
        SubjectShape(style, ip.value);
      }
    }
  }

  const CLIENT_IP_HEADER := "x-drk-client-ip"

  /** The headers with the client's address in place of whatever the client sent there. */
  function Stamped(style: Style, headers: Headers, source: Option<Source>, count: nat): Headers {
    match GetClientIp(style, headers, source, count)
    case None => headers - {CLIENT_IP_HEADER}
    case Some(ip) => headers[CLIENT_IP_HEADER := ip]
  }

  /** What the client sent in the header never matters, and stamping again changes nothing. */
  lemma {:induction false} StampIgnoresClient(style: Style, headers: Headers, source: Option<Source>, count: nat,
                                              forged: string)
    requires source != Some(Header(CLIENT_IP_HEADER))
    ensures Stamped(style, headers[CLIENT_IP_HEADER := forged], source, count) == Stamped(style, headers, source, count)
    ensures Stamped(style, Stamped(style, headers, source, count), source, count)
         == Stamped(style, headers, source, count)
  {
    hide NormalizeClientIp, TrustedHop;
    HopSame(headers, headers[CLIENT_IP_HEADER := forged], source, count);
    HopSame(headers, Stamped(style, headers, source, count), source, count);
    assert headers[CLIENT_IP_HEADER := forged] - {CLIENT_IP_HEADER} == headers - {CLIENT_IP_HEADER};
  }

  /** The trusted hop is read from other headers than the stamped one. */
  lemma HopSame(headers: Headers, other: Headers, source: Option<Source>, count: nat)
    requires source != Some(Header(CLIENT_IP_HEADER))
    requires other - {CLIENT_IP_HEADER} == headers - {CLIENT_IP_HEADER}
    ensures TrustedHop(other, source, count) == TrustedHop(headers, source, count)
  {
    hide Hops;
    FieldSame(headers, other, XFF);
    FieldSame(headers, other, REAL_IP);
    if source.Some? && source.value.Header? {
      FieldSame(headers, other, source.value.name);
    }
  }

  lemma FieldSame(headers: Headers, other: Headers, name: string)
    requires other - {CLIENT_IP_HEADER} == headers - {CLIENT_IP_HEADER} && name != CLIENT_IP_HEADER
    ensures name in headers <==> name in other
    ensures name in headers ==> headers[name] == other[name]
  {
    assert name in headers - {CLIENT_IP_HEADER} <==> name in other - {CLIENT_IP_HEADER};
    if name in headers {
      assert (headers - {CLIENT_IP_HEADER})[name] == (other - {CLIENT_IP_HEADER})[name];
    }
  }

  class RequestHeaders {
    var fields: Headers

    constructor (fields: Headers)
      ensures this.fields == fields
    {
      this.fields := fields;
    }

    method ApplyClientIp(style: Style, source: Option<Source>, count: nat)
      modifies this
      ensures fields == Stamped(style, old(fields), source, count)
      ensures var ip := GetClientIp(style, old(fields), source, count);
              fields == if ip.Some? then old(fields)["x-drk-client-ip" := ip.value]
                        else old(fields) - {"x-drk-client-ip"}
    {
      var ip := GetClientIp(style, fields, source, count);
      if ip.Some? {
        fields := fields[CLIENT_IP_HEADER := ip.value];
      } else {
        fields := fields - {CLIENT_IP_HEADER};
      }
    }

    /** A stamped copy; these headers are left as they are. */
    method WithTrustedClientIp(style: Style, source: Option<Source>, count: nat) returns (copy: RequestHeaders)
      ensures fresh(copy) && copy.fields == Stamped(style, fields, source, count)
      ensures unchanged(this)
    {
      copy := new RequestHeaders(fields);
      copy.ApplyClientIp(style, source, count);
    }
  }
}
