/** The client's address: the hop a request is trusted for, and the key its limits count under. */
module ClientIp {
  import opened Wrappers
  import opened Numerals
  import opened Text
  import opened Ipv6

  // ---------------------------------------------------------------------------
  //  The limiter's subject: an IPv6 address's /64.
  // ---------------------------------------------------------------------------

  /** The printer's choice, per address, of a dotted tail. */
  type Style = Address -> bool

  function Canonical(style: Style, a: Address): string { Print(a, style(a)) }

  /** What the socket address of a text prints, or none where it throws. */
  function Reprinted(style: Style, s: string): Option<string> {
    match Read(s) case None => None case Some(a) => Some(Canonical(style, a))
  }

  /** A dotted tail counts as its two groups. */
  function FlatGroups(ts: seq<string>): seq<string> {
    if ts == [] then [] else (if '.' in ts[0] then ["0", "0"] else [ts[0]]) + FlatGroups(ts[1..])
  }

  function Repeat(s: string, n: int): seq<string> { if n <= 0 then [] else [s] + Repeat(s, n - 1) }

  /** The text before the first double colon, and what follows it up to the next, if there is one. */
  function BreakPair(s: string): (string, Option<string>) {
    var at := IndexOf(s, "::", 0);
    if at < 0 then (s, None)
    else
      var rest := s[at + 2..];
      var next := IndexOf(rest, "::", 0);
      (s[..at], Some(if next < 0 then rest else rest[..next]))
  }

  function GroupTexts(ip: string): seq<string> {
    var (head, tail) := BreakPair(ip);
    var left := SplitColons(head);
    match tail
    case None => left
    case Some(text) =>
      var right := FlatGroups(SplitColons(text));
      left + Repeat("0", 8 - |left| - |right|) + right
  }

  function FirstFour(ts: seq<string>): seq<string> { if |ts| <= 4 then ts else ts[..4] }

  /** An IPv6 address's /64; any other address as it is. None where the source throws. */
  function RateLimitSubject(style: Style, ip: string): Option<string> {
    if Read(ip).None? then Some(ip)
    else
      match Reprinted(style, Join(FirstFour(GroupTexts(ip)), ":") + "::")
      case None => None
      case Some(prefix) => Some(prefix + "/64")
  }

  function Top(a: Address): Address { a[..4] + Zeros(4) }

  // ---------------------------------------------------------------------------
  //  The subject of a canonical print is the print of the address cut at 64 bits.
  // ---------------------------------------------------------------------------

  lemma {:induction false} HexAllAppend(x: seq<Group>, y: seq<Group>)
    ensures HexAll(x + y) == HexAll(x) + HexAll(y)
  {
    hide Hex;
    if x == [] {
      assert x + y == y;
    } else {
      assert (x + y)[0] == x[0] && (x + y)[1..] == x[1..] + y;
      HexAllAppend(x[1..], y);
    }
  }

  lemma {:induction false} HexZeros(n: nat)
    ensures HexAll(Zeros(n)) == Repeat("0", n)
  {
    if n > 0 {
      HexZeros(n - 1);
      assert Zeros(n)[1..] == Zeros(n - 1);
      assert Hex(0) == "0";
    }
  }

  lemma FlatOne(n: Group, rest: seq<string>)
    ensures FlatGroups([Hex(n)] + rest) == [Hex(n)] + FlatGroups(rest)
  {
    hide Hex;
    HexToken(n);
    assert ([Hex(n)] + rest)[1..] == rest;
  }

  lemma {:induction false} FlatHex(groups: seq<Group>, tail: seq<string>)
    ensures FlatGroups(HexAll(groups) + tail) == HexAll(groups) + FlatGroups(tail)
  {
    hide Hex, FlatGroups;
    if groups == [] {
      assert HexAll(groups) + tail == tail;
    } else {
      FlatHex(groups[1..], tail);
      FlatOne(groups[0], HexAll(groups[1..]) + tail);
      assert HexAll(groups) + tail == [Hex(groups[0])] + (HexAll(groups[1..]) + tail);
      assert HexAll(groups) + FlatGroups(tail) == [Hex(groups[0])] + (HexAll(groups[1..]) + FlatGroups(tail));
    }
  }

  /** A tail of nothing, or of one dotted token standing for two groups. */
  predicate Tail(tail: seq<string>) { tail == [] || (|tail| == 1 && Token(tail[0]) && '.' in tail[0]) }

  function TailZeros(tail: seq<string>): seq<Group> { if tail == [] then [] else [0, 0] }

  lemma FlatTail(tail: seq<string>)
    requires Tail(tail)
    ensures FlatGroups(tail) == HexAll(TailZeros(tail))
  {
  }

  lemma BreakNone(s: string)
    requires NoPair(s)
    ensures BreakPair(s) == (s, None)
  {
    NoPairNone(s);
  }

  lemma BreakBetween(a: string, b: string)
    requires NoPair(a) && NoPair(b) && (a != "" ==> a[|a| - 1] != ':')
    ensures BreakPair(a + "::" + b) == (a, Some(b))
  {
    hide NoPair;
    PairBetween(a, b);
    NoPairNone(b);
    assert (a + "::" + b)[..|a|] == a && (a + "::" + b)[|a| + 2..] == b;
  }

  lemma FourFirst(four: seq<string>, rest: seq<string>)
    requires |four| == 4
    ensures FirstFour(four + rest) == four
  {
  }

  lemma FirstFourHex(groups: seq<Group>, more: seq<string>)
    requires |groups| >= 4
    ensures FirstFour(HexAll(groups) + more) == HexAll(groups[..4])
  {
    hide HexAll, FirstFour, Tokens;
    var four, others := HexAll(groups[..4]), HexAll(groups[4..]);
    HexAllAppend(groups[..4], groups[4..]);
    HexAllTokens(groups[..4]);
    assert groups == groups[..4] + groups[4..];
    assert four + others + more == four + (others + more);
    FourFirst(four, others + more);
  }

  lemma TextsWhole(groups: seq<Group>, tail: seq<string>)
    requires Tail(tail)
    ensures GroupTexts(Join(HexAll(groups) + tail, ":")) == HexAll(groups) + tail
  {
    hide HexAll, Join, NoPair, Hex, SplitColons, BreakPair;
    HexAllTokens(groups);
    var ts := HexAll(groups) + tail;
    JoinedNoPair(ts);
    BreakNone(Join(ts, ":"));
    ColonsRead(ts);
  }

  /** The texts of a print's groups: the groups' own, a compressed run and a dotted tail as zeros. */
  lemma TextsOf(groups: seq<Group>, tail: seq<string>)
    requires Tail(tail) && |groups| + |TailZeros(tail)| == 8
    ensures FirstFour(GroupTexts(Compressed(groups, tail))) == HexAll(groups[..4])
  {
    hide HexAll, Join, LongestFrom, GroupTexts, FirstFour, Tail;
    var start := LongestFrom(groups, 0);
    var run := ZerosAt(groups, start);
    if run < 2 {
      TextsWhole(groups, tail);
      FirstFourHex(groups, tail);
    } else {
      var left, right := groups[..start], groups[start + run..];
      TextsAround(left, run, right, tail);
      ZerosAre(groups, start);
      assert left + Zeros(run) + right == groups;
      HexAllAppend(groups, TailZeros(tail));
      FirstFourHex(groups, HexAll(TailZeros(tail)));
    }
  }

  lemma {:induction false} TextsAround(left: seq<Group>, run: nat, right: seq<Group>, tail: seq<string>)
    requires Tail(tail) && |left| + run + |right| + |TailZeros(tail)| == 8
    ensures GroupTexts(Join(HexAll(left), ":") + "::" + Join(HexAll(right) + tail, ":"))
         == HexAll(left + Zeros(run) + right + TailZeros(tail))
  {
    hide HexAll, Join, NoPair, Hex, SplitColons, FlatGroups, BreakPair;
    HexAllTokens(left);
    HexAllTokens(right);
    HexAllTokens(TailZeros(tail));
    var ts := HexAll(right) + tail;
    JoinedNoPair(HexAll(left));
    JoinedNoPair(ts);
    JoinEnds(HexAll(left));
    BreakBetween(Join(HexAll(left), ":"), Join(ts, ":"));
    ColonsRead(HexAll(left));
    ColonsRead(ts);
    FlatHex(right, tail);
    FlatTail(tail);
    HexZeros(run);
    HexAllAppend(left, Zeros(run));
    HexAllAppend(left + Zeros(run), right);
    HexAllAppend(left + Zeros(run) + right, TailZeros(tail));
    assert HexAll(left) + Repeat("0", run) + (HexAll(right) + HexAll(TailZeros(tail)))
        == HexAll(left) + Repeat("0", run) + HexAll(right) + HexAll(TailZeros(tail));
  }

  lemma PrefixRead(groups: seq<Group>)
    requires |groups| == 4
    ensures Read(Join(HexAll(groups), ":") + "::") == Some(groups + Zeros(4))
  {
    hide Read, ReadGroups, Join, NoPair;
    NoTail();
    AroundRead(groups, [], []);
    assert Join(HexAll([]) + [], ":") == "" by { EmptyJoin(); }
    assert Join(HexAll(groups), ":") + "::" + "" == Join(HexAll(groups), ":") + "::";
    assert groups + Zeros(4) + ([] + []) == groups + Zeros(4);
  }

  lemma EmptyJoin()
    ensures Join(HexAll([]) + [], ":") == ""
  {
  }

  /** For every address, in whatever style it is printed, the subject is the print of its /64. */
  lemma {:induction false} SubjectIsPrefix(style: Style, a: Address)
    ensures RateLimitSubject(style, Canonical(style, a)) == Some(Canonical(style, Top(a)) + "/64")
  {
    hide Read, Compressed, GroupTexts, Join, HexAll;
    PrintRead(a, style(a));
    if style(a) {
      DottedGroups(a[6], a[7]);
      DottedRead(a[6], a[7]);
      TextsOf(a[..6], [DottedText(a[6], a[7])]);
      assert a[..6][..4] == a[..4];
    } else {
      TextsOf(a, []);
    }
    PrefixRead(a[..4]);
  }

  /** Two IPv6 addresses share a key exactly when their first 64 bits agree. */
  lemma {:induction false} KeysAgreeExactlyWhen(style: Style, a: Address, b: Address)
    ensures RateLimitSubject(style, Canonical(style, a)) == RateLimitSubject(style, Canonical(style, b))
       <==> a[..4] == b[..4]
  {
    hide RateLimitSubject, Print;
    SubjectIsPrefix(style, a);
    SubjectIsPrefix(style, b);
    var x, y := Canonical(style, Top(a)), Canonical(style, Top(b));
    if x + "/64" == y + "/64" {
      assert x == (x + "/64")[..|x + "/64"| - 3] && y == (y + "/64")[..|y + "/64"| - 3];
      PrintRead(Top(a), style(Top(a)));
      PrintRead(Top(b), style(Top(b)));
      assert Top(a)[..4] == a[..4] && Top(b)[..4] == b[..4];
    }
  }

  // ---------------------------------------------------------------------------
  //  The trusted hop.
  // ---------------------------------------------------------------------------

  /** Where the deployment puts the client's address: one header, or the forwarded chain. */
  datatype Source = Chain | Header(name: string)

  type Headers = map<string, string>

  const XFF := "x-forwarded-for"
  const REAL_IP := "x-real-ip"

  function Hops(parts: seq<string>): seq<string> {
    if parts == [] then []
    else
      var hop := Trim(parts[0]);
      (if hop == "" then [] else [hop]) + Hops(parts[1..])
  }

  function ChainOf(headers: Headers): seq<string> { if XFF in headers then Hops(SplitOn(headers[XFF], ',')) else [] }

  /** None of `source` is a setting that names no header: nothing is trusted. */
  function TrustedHop(headers: Headers, source: Option<Source>, count: nat): Option<string> {
    match source
    case None => None
    case Some(Header(name)) => if name in headers then Some(headers[name]) else None
    case Some(Chain) =>
      var ips := ChainOf(headers);
      if ips == [] then
        if REAL_IP in headers && Trim(headers[REAL_IP]) != "" then Some(Trim(headers[REAL_IP])) else None
      else if count <= |ips| then
        if count == 0 then None else Some(ips[|ips| - count])
      else Some(ips[0])
  }

  function Prepended(headers: Headers, text: string): Headers
    requires XFF in headers
  {
    headers[XFF := text + "," + headers[XFF]]
  }

  lemma {:induction false} HopsAppend(x: seq<string>, y: seq<string>)
    ensures Hops(x + y) == Hops(x) + Hops(y)
  {
    hide Trim;
    if x == [] {
      assert x + y == y;
    } else {
      assert (x + y)[0] == x[0] && (x + y)[1..] == x[1..] + y;
      HopsAppend(x[1..], y);
      var hop := Trim(x[0]);
      var head := if hop == "" then [] else [hop];
      assert head + (Hops(x[1..]) + Hops(y)) == head + Hops(x[1..]) + Hops(y);
    }
  }

  lemma {:induction false} PrependedChain(headers: Headers, text: string)
    requires XFF in headers
    ensures ChainOf(Prepended(headers, text)) == Hops(SplitOn(text, ',')) + ChainOf(headers)
  {
    hide Hops;
    SplitOnSep(text, ',', headers[XFF]);
    HopsAppend(SplitOn(text, ','), SplitOn(headers[XFF], ','));
    assert text + "," + headers[XFF] == text + [','] + headers[XFF];
  }

  /** An entry as a proxy writes it: some address text, with no comma in it and no white space around it. */
  predicate Entry(text: string) { text != "" && ',' !in text && Trim(text) == text }

  lemma {:induction false} EntriesRead(entries: seq<string>)
    requires entries != [] && forall e | e in entries :: Entry(e)
    ensures Hops(SplitOn(Join(entries, ","), ',')) == entries
  {
    hide Trim;
    assert entries[0] in entries;
    OneHop(entries[0]);
    if |entries| > 1 {
      var rest := entries[1..];
      assert forall e | e in rest :: e in entries;
      EntriesRead(rest);
      SplitOnSep(entries[0], ',', Join(rest, ","));
      HopsAppend(SplitOn(entries[0], ','), SplitOn(Join(rest, ","), ','));
      assert Join(entries, ",") == entries[0] + [','] + Join(rest, ",");
      assert entries == [entries[0]] + rest;
    } else {
      assert Join(entries, ",") == entries[0] && entries == [entries[0]];
    }
  }

  /**
    * Whatever the client sent, once each trusted proxy has added the address it saw, the hop is the one the first of
    * them added: the client's own.
    */
  lemma {:induction false} FirstProxyTrusted(headers: Headers, sent: string, added: seq<string>)
    requires added != [] && forall e | e in added :: Entry(e)
    requires "x-forwarded-for" in headers
    requires || headers["x-forwarded-for"] == Join(added, ",")
             || headers["x-forwarded-for"] == sent + "," + Join(added, ",")
    ensures TrustedHop(headers, Some(Chain), |added|) == Some(added[0])
  {
    hide Hops, Trim;
    EntriesRead(added);
    if headers["x-forwarded-for"] != Join(added, ",") {
      SplitOnSep(sent, ',', Join(added, ","));
      HopsAppend(SplitOn(sent, ','), SplitOn(Join(added, ","), ','));
      assert headers["x-forwarded-for"] == sent + [','] + Join(added, ",");
    }
  }

  /** A named header is taken as it stands; without a chain, the real-address header, unless it is blank. */
  lemma {:induction false} OtherHops(headers: Headers, name: string, count: nat)
    ensures TrustedHop(headers, None, count) == None
    ensures TrustedHop(headers, Some(Header(name)), count) == if name in headers then Some(headers[name]) else None
    ensures "x-forwarded-for" !in headers ==>
              TrustedHop(headers, Some(Chain), count)
              == if "x-real-ip" in headers && exists c | c in headers["x-real-ip"] :: !IsSpace(c)
                 then Some(Trim(headers["x-real-ip"])) else None
  {
    if "x-real-ip" in headers {
      TrimBlank(headers["x-real-ip"]);
    }
  }

  lemma TrimBlank(s: string)
    ensures Trim(s) == "" <==> forall c | c in s :: IsSpace(c)
  {
    StartBlank(s);
    EndBlank(TrimStart(s));
  }

  lemma {:induction false} StartBlank(s: string)
    ensures (forall c | c in s :: IsSpace(c)) <==> forall c | c in TrimStart(s) :: IsSpace(c)
  {
    hide IsSpace;
    if s != "" && IsSpace(s[0]) {
      StartBlank(s[1..]);
      assert s == [s[0]] + s[1..];
    }
  }

  lemma {:induction false} EndBlank(s: string)
    ensures TrimEnd(s) == "" <==> forall c | c in s :: IsSpace(c)
  {
    hide IsSpace;
    if s != "" && IsSpace(s[|s| - 1]) {
      EndBlank(s[..|s| - 1]);
      assert s == s[..|s| - 1] + [s[|s| - 1]];
    } else if s != "" {
      assert s[|s| - 1] in s;
    }
  }

  /** On a chain as long as the trusted proxies, nothing a client puts in front of it is ever chosen. */
  lemma PrependingIgnored(headers: Headers, count: nat, text: string)
    requires XFF in headers && 0 < count <= |ChainOf(headers)|
    ensures TrustedHop(Prepended(headers, text), Some(Chain), count) == TrustedHop(headers, Some(Chain), count)
  {
    hide ChainOf;
    PrependedChain(headers, text);
  }

  /**
    * A shorter chain takes an entry a client has put in front of it: its leftmost, or the one that brings the rest to
    * the trusted proxies.
    */
  lemma ShortChainFollows(headers: Headers, count: nat, text: string)
    requires XFF in headers && |ChainOf(headers)| < count && Hops(SplitOn(text, ',')) != []
    ensures var hs := Hops(SplitOn(text, ','));
            var spare := |hs| + |ChainOf(headers)| - count;
            TrustedHop(Prepended(headers, text), Some(Chain), count) == Some(hs[if spare <= 0 then 0 else spare])
  {
    hide ChainOf, Hops, SplitOn;
    PrependedChain(headers, text);
  }

  lemma {:induction false} OneHop(text: string)
    requires text != "" && ',' !in text && Trim(text) == text
    ensures Hops(SplitOn(text, ',')) == [text]
  {
    hide Trim;
    SplitOnNone(text, ',');
    assert [text][1..] == [];
  }

  /** The hop is beyond a client's reach exactly when the chain is at least as long as the trusted proxies. */
  lemma HopFixedExactlyWhen(headers: Headers, count: nat)
    requires XFF in headers && 0 < count
    ensures (forall text ::
              TrustedHop(Prepended(headers, text), Some(Chain), count) == TrustedHop(headers, Some(Chain), count))
       <==> count <= |ChainOf(headers)|
  {
    hide ChainOf, TrustedHop, Hops;
    if count <= |ChainOf(headers)| {
      forall text
        ensures TrustedHop(Prepended(headers, text), Some(Chain), count) == TrustedHop(headers, Some(Chain), count)
      {
        PrependingIgnored(headers, count, text);
      }
    } else {
      OneHop("a");
      OneHop("b");
      ShortChainFollows(headers, count, "a");
      ShortChainFollows(headers, count, "b");
    }
  }
}
