/** IPv6 addresses as text: the canonical print of RFC 5952, sections 4 and 5, and a reader that undoes it. */
module Ipv6 {
  import opened Wrappers
  import opened Numerals
  import opened Text

  /** Eight groups of sixteen bits. */
  type Group = n: int | 0 <= n < 0x10000

  type Address = s: seq<Group> | |s| == 8 witness [0, 0, 0, 0, 0, 0, 0, 0]

  // ---------------------------------------------------------------------------
  //  Groups in hexadecimal, the dotted tail in decimal.
  // ---------------------------------------------------------------------------

  lemma HexLength(n: nat)
    requires n < 0x10000
    ensures 1 <= |Digits(n, 16)| <= 4
  {
    var a := n / 16;
    var b := a / 16;
    var c := b / 16;
    assert c < 16;
    DigitsLength(c, 16, 0);
    DigitsLength(b, 16, 1);
    DigitsLength(a, 16, 2);
    DigitsLength(n, 16, 3);
  }

  lemma DecLength(n: nat)
    requires n < 256
    ensures 1 <= |Digits(n, 10)| <= 3
  {
  }

  function Hex(n: Group): string { Digits(n, 16) }

  function ReadHex(s: string): Option<Group> {
    match Value(s, 16)
    case None => None
    case Some(n) => if |s| <= 4 && n < 0x10000 then Some(n as Group) else None
  }

  lemma HexRead(n: Group)
    ensures ReadHex(Hex(n)) == Some(n)
  {
    ValueOfDigits(n, 16);
    HexLength(n);
  }

  function Octet(n: nat): string
    requires n < 256
  {
    Digits(n, 10)
  }

  /** An octet has no leading zero. */
  function ReadOctet(s: string): Option<nat> {
    match Value(s, 10)
    case None => None
    case Some(n) => if |s| <= 3 && n < 256 && (|s| > 1 ==> s[0] != '0') then Some(n) else None
  }

  lemma OctetRead(n: nat)
    requires n < 256
    ensures ReadOctet(Octet(n)) == Some(n)
  {
    ValueOfDigits(n, 10);
    DecLength(n);
    DigitsAreDigits(n, 10);
  }

  /** Four octets from thirty-two bits. */
  function DottedText(high: Group, low: Group): string {
    Octet(high / 256) + "." + Octet(high % 256) + "." + Octet(low / 256) + "." + Octet(low % 256)
  }

  function ReadDotted(s: string): Option<(Group, Group)> {
    var parts := SplitOn(s, '.');
    if |parts| != 4 then None
    else
      match (ReadOctet(parts[0]), ReadOctet(parts[1]), ReadOctet(parts[2]), ReadOctet(parts[3]))
      case (Some(a), Some(b), Some(c), Some(d)) =>
        if a < 256 && b < 256 && c < 256 && d < 256 then Some(((a * 256 + b) as Group, (c * 256 + d) as Group))
        else None
      case _ => None
  }

  lemma DigitsLack(n: nat, base: nat, c: char)
    requires Base(base) && DigitValue(c).None?
    ensures c !in Digits(n, base)
  {
  }

  lemma OctetLacks(n: nat)
    requires n < 256
    ensures '.' !in Octet(n) && ':' !in Octet(n)
  {
    hide Digits;
    DigitsLack(n, 10, '.');
    DigitsLack(n, 10, ':');
  }

  lemma {:induction false} DottedRead(high: Group, low: Group)
    ensures ReadDotted(DottedText(high, low)) == Some((high, low))
    ensures ':' !in DottedText(high, low) && '.' in DottedText(high, low)
  {
    hide Octet, ReadOctet, SplitOn;
    var a, b, c, d := high / 256, high % 256, low / 256, low % 256;
    OctetLacks(a);
    OctetLacks(b);
    OctetLacks(c);
    OctetLacks(d);
    SplitFour(Octet(a), Octet(b), Octet(c), Octet(d), '.');
    OctetRead(a);
    OctetRead(b);
    OctetRead(c);
    OctetRead(d);
    FourLack(Octet(a), Octet(b), Octet(c), Octet(d));
    assert a * 256 + b == high && c * 256 + d == low;
  }

  lemma FourLack(a: string, b: string, c: string, d: string)
    requires ':' !in a && ':' !in b && ':' !in c && ':' !in d
    ensures var s := a + "." + b + "." + c + "." + d;
            ':' !in s && '.' in s && s == a + ['.'] + b + ['.'] + c + ['.'] + d
  {
    var s := a + "." + b + "." + c + "." + d;
    assert s[|a|] == '.';
  }

  lemma {:induction false} SplitFour(a: string, b: string, c: string, d: string, sep: char)
    requires sep !in a && sep !in b && sep !in c && sep !in d
    ensures SplitOn(a + [sep] + b + [sep] + c + [sep] + d, sep) == [a, b, c, d]
  {
    SplitOnNone(a, sep);
    SplitOnNone(b, sep);
    SplitOnNone(c, sep);
    SplitOnNone(d, sep);
    SplitOnSep(a, sep, b);
    SplitOnSep(a + [sep] + b, sep, c);
    SplitOnSep(a + [sep] + b + [sep] + c, sep, d);
  }

  // ---------------------------------------------------------------------------
  //  Colons: tokens joined, split again, and the one double colon found.
  // ---------------------------------------------------------------------------

  predicate Token(t: string) { t != "" && ':' !in t }

  predicate Tokens(ts: seq<string>) { forall t | t in ts :: Token(t) }

  lemma {:induction false} SplitJoined(ts: seq<string>)
    requires Tokens(ts) && ts != []
    ensures SplitOn(Join(ts, ":"), ':') == ts
    ensures Join(ts, ":") != "" && Join(ts, ":")[0] != ':' && Join(ts, ":")[|Join(ts, ":")| - 1] != ':'
  {
    assert ts[0] in ts;
    SplitOnNone(ts[0], ':');
    if |ts| > 1 {
      assert forall t | t in ts[1..] :: t in ts;
      SplitJoined(ts[1..]);
      SplitOnSep(ts[0], ':', Join(ts[1..], ":"));
    }
    assert ts == [ts[0]] + ts[1..];
  }

  /** No two colons together. */
  predicate NoPair(s: string) { forall k | 0 <= k < |s| - 1 :: !(s[k] == ':' && s[k + 1] == ':') }

  lemma JoinNoPair(a: string, b: string)
    requires ':' !in a && NoPair(b) && b != "" && b[0] != ':'
    ensures NoPair(a + ":" + b)
  {
  }

  lemma {:induction false} JoinedNoPair(ts: seq<string>)
    requires Tokens(ts)
    ensures NoPair(Join(ts, ":"))
  {
    if |ts| > 1 {
      assert ts[0] in ts && forall t | t in ts[1..] :: t in ts;
      JoinedNoPair(ts[1..]);
      SplitJoined(ts[1..]);
      JoinNoPair(ts[0], Join(ts[1..], ":"));
    } else if |ts| == 1 {
      assert ts[0] in ts;
      assert forall k | 0 <= k < |ts[0]| :: ts[0][k] in ts[0];
    }
  }

  lemma PairAt(s: string, k: nat)
    ensures MatchesAt(s, "::", k) <==> k + 1 < |s| && s[k] == ':' && s[k + 1] == ':'
  {
  }

  lemma NoPairNone(s: string)
    requires NoPair(s)
    ensures IndexOf(s, "::", 0) == -1
  {
    var r := IndexOf(s, "::", 0);
    if r != -1 {
      PairAt(s, r);
      assert false;
    }
  }

  /** The first double colon is the one put between two joins. */
  lemma PairBetween(a: string, b: string)
    requires NoPair(a) && (a != "" ==> a[|a| - 1] != ':')
    ensures IndexOf(a + "::" + b, "::", 0) == |a|
  {
    var s := a + "::" + b;
    PairAt(s, |a|);
    forall k: nat | k < |a| ensures !MatchesAt(s, "::", k) {
      PairAt(s, k);
      if k + 1 < |a| {
        assert s[k] == a[k] && s[k + 1] == a[k + 1];
      }
    }
    IndexOfIs(s, "::", 0, |a|);
  }

  // ---------------------------------------------------------------------------
  //  The canonical print.
  // ---------------------------------------------------------------------------

  function HexAll(groups: seq<Group>): seq<string> {
    if groups == [] then [] else [Hex(groups[0])] + HexAll(groups[1..])
  }

  /** How many zero groups stand at `i`. */
  function ZerosAt(groups: seq<Group>, i: nat): nat
    requires i <= |groups|
    ensures i + ZerosAt(groups, i) <= |groups|
    decreases |groups| - i
  {
    if i < |groups| && groups[i] == 0 then 1 + ZerosAt(groups, i + 1) else 0
  }

  /** The start of the longest run of zero groups from `i` on, the first of two as long. */
  function LongestFrom(groups: seq<Group>, i: nat): (start: nat)
    requires i <= |groups|
    ensures start <= |groups|
    decreases |groups| - i
  {
    if i == |groups| then i
    else
      var rest := LongestFrom(groups, i + 1);
      if ZerosAt(groups, i) >= ZerosAt(groups, rest) then i else rest
  }

  /** A run of two groups or more is compressed; a single zero group is not. */
  function Compressed(groups: seq<Group>, tail: seq<string>): string {
    var start := LongestFrom(groups, 0);
    var run := ZerosAt(groups, start);
    if run < 2 then Join(HexAll(groups) + tail, ":")
    else Join(HexAll(groups[..start]), ":") + "::" + Join(HexAll(groups[start + run..]) + tail, ":")
  }

  /** The print, with the last two groups dotted or not. */
  function Print(a: Address, dotted: bool): string {
    if dotted then Compressed(a[..6], [DottedText(a[6], a[7])]) else Compressed(a, [])
  }

  // ---------------------------------------------------------------------------
  //  The reader.
  // ---------------------------------------------------------------------------

  /** The groups of colon-separated tokens; only a last one may be dotted. */
  function ReadGroups(ts: seq<string>, dotted: bool): Option<seq<Group>> {
    if ts == [] then Some([])
    else if |ts| == 1 && dotted && '.' in ts[0] then
      match ReadDotted(ts[0])
      case None => None
      case Some(pair) => Some([pair.0, pair.1])
    else
      match (ReadHex(ts[0]), ReadGroups(ts[1..], dotted))
      case (Some(n), Some(rest)) => Some([n] + rest)
      case _ => None
  }

  function SplitColons(s: string): seq<string> { if s == "" then [] else SplitOn(s, ':') }

  function Zeros(n: nat): seq<Group> { seq(n, _ => 0) }

  /** Eight groups, or fewer around one double colon. */
  function Read(s: string): Option<Address> {
    var at := IndexOf(s, "::", 0);
    if at < 0 then
      match ReadGroups(SplitColons(s), true)
      case None => None
      case Some(groups) => if |groups| == 8 then Some(groups) else None
    else
      match (ReadGroups(SplitColons(s[..at]), false), ReadGroups(SplitColons(s[at + 2..]), true))
      case (Some(left), Some(right)) =>
        if |left| + |right| < 8 then Some(left + Zeros(8 - |left| - |right|) + right) else None
      case _ => None
  }

  lemma HexToken(n: Group)
    ensures Token(Hex(n)) && '.' !in Hex(n)
  {
    DigitsAreDigits(n, 16);
  }

  lemma GroupRead(n: Group, rest: seq<string>, dotted: bool)
    requires ReadGroups(rest, dotted).Some?
    ensures ReadGroups([Hex(n)] + rest, dotted) == Some([n] + ReadGroups(rest, dotted).value)
  {
    hide ReadHex, ReadDotted, Hex;
    HexToken(n);
    HexRead(n);
    assert ([Hex(n)] + rest)[1..] == rest;
  }

  lemma {:induction false} HexAllRead(groups: seq<Group>, tail: seq<string>, dotted: bool)
    requires ReadGroups(tail, dotted).Some?
    ensures ReadGroups(HexAll(groups) + tail, dotted) == Some(groups + ReadGroups(tail, dotted).value)
    decreases groups
  {
    hide ReadGroups, Hex;
    var end := ReadGroups(tail, dotted).value;
    if groups == [] {
      assert HexAll(groups) + tail == tail;
      assert groups + end == end;
    } else {
      HexAllRead(groups[1..], tail, dotted);
      GroupRead(groups[0], HexAll(groups[1..]) + tail, dotted);
      assert HexAll(groups) + tail == [Hex(groups[0])] + (HexAll(groups[1..]) + tail);
      assert groups + end == [groups[0]] + (groups[1..] + end);
    }
  }

  lemma {:induction false} HexAllTokens(groups: seq<Group>)
    ensures Tokens(HexAll(groups)) && |HexAll(groups)| == |groups|
    ensures forall t | t in HexAll(groups) :: '.' !in t
  {
    if groups != [] {
      HexToken(groups[0]);
      HexAllTokens(groups[1..]);
    }
  }

  /** The colons of joined tokens split back, an empty join to none. */
  lemma ColonsRead(ts: seq<string>)
    requires Tokens(ts)
    ensures SplitColons(Join(ts, ":")) == ts
  {
    if ts != [] {
      SplitJoined(ts);
    }
  }

  lemma {:induction false} ZerosAre(groups: seq<Group>, i: nat)
    requires i <= |groups|
    ensures groups[i..i + ZerosAt(groups, i)] == Zeros(ZerosAt(groups, i))
    decreases |groups| - i
  {
    if i < |groups| && groups[i] == 0 {
      ZerosAre(groups, i + 1);
      var n := ZerosAt(groups, i);
      assert groups[i..i + n] == [0] + groups[i + 1..i + n];
    }
  }

  lemma WholeRead(groups: seq<Group>, tail: seq<string>)
    requires Tokens(tail) && ReadGroups(tail, true).Some? && |groups| + |ReadGroups(tail, true).value| == 8
    ensures Read(Join(HexAll(groups) + tail, ":")) == Some(groups + ReadGroups(tail, true).value)
  {
    hide ReadGroups, SplitColons, Join, NoPair;
    HexAllTokens(groups);
    var ts := HexAll(groups) + tail;
    JoinedNoPair(ts);
    NoPairNone(Join(ts, ":"));
    ColonsRead(ts);
    HexAllRead(groups, tail, true);
  }

  lemma BetweenRead(a: string, b: string, left: seq<Group>, right: seq<Group>)
    requires NoPair(a) && (a != "" ==> a[|a| - 1] != ':') && |left| + |right| < 8
    requires ReadGroups(SplitColons(a), false) == Some(left) && ReadGroups(SplitColons(b), true) == Some(right)
    ensures Read(a + "::" + b) == Some(left + Zeros(8 - |left| - |right|) + right)
  {
    hide ReadGroups, SplitColons, NoPair;
    PairBetween(a, b);
    assert (a + "::" + b)[..|a|] == a && (a + "::" + b)[|a| + 2..] == b;
  }

  /** What stands on either side of a double colon is read apart, and zeros fill up to eight groups. */
  lemma {:induction false} AroundRead(left: seq<Group>, right: seq<Group>, tail: seq<string>)
    requires Tokens(tail) && ReadGroups(tail, true).Some?
    requires |left| + |right| + |ReadGroups(tail, true).value| < 8
    ensures Read(Join(HexAll(left), ":") + "::" + Join(HexAll(right) + tail, ":"))
         == Some(left + Zeros(8 - |left| - |right + ReadGroups(tail, true).value|)
                 + (right + ReadGroups(tail, true).value))
  {
    hide ReadGroups, SplitColons, Join, NoPair, Read, HexAll;
    HexAllTokens(left);
    HexAllTokens(right);
    JoinedNoPair(HexAll(left));
    JoinEnds(HexAll(left));
    ColonsRead(HexAll(left));
    ColonsRead(HexAll(right) + tail);
    assert HexAll(left) + [] == HexAll(left) && left + [] == left;
    NoGroups();
    HexAllRead(left, [], false);
    HexAllRead(right, tail, true);
    BetweenRead(Join(HexAll(left), ":"), Join(HexAll(right) + tail, ":"), left, right + ReadGroups(tail, true).value);
  }

  /** Reading a compressed print gives the groups, the compressed run and the tail's groups back. */
  lemma CompressedRead(groups: seq<Group>, tail: seq<string>)
    requires Tokens(tail) && ReadGroups(tail, true).Some? && |groups| + |ReadGroups(tail, true).value| == 8
    ensures Read(Compressed(groups, tail)) == Some(groups + ReadGroups(tail, true).value)
  {
    hide ReadGroups, LongestFrom, Read, Join, HexAll, Tokens;
    var start := LongestFrom(groups, 0);
    var run := ZerosAt(groups, start);
    var end := ReadGroups(tail, true).value;
    if run < 2 {
      WholeRead(groups, tail);
    } else {
      var left, right := groups[..start], groups[start + run..];
      AroundRead(left, right, tail);
      ZerosAre(groups, start);
      assert left + Zeros(run) + right == groups;
      assert left + Zeros(run) + (right + end) == groups + end;
    }
  }

  lemma NoGroups()
    ensures ReadGroups([], false) == Some([])
  {
  }

  lemma JoinEnds(ts: seq<string>)
    requires Tokens(ts)
    ensures var s := Join(ts, ":"); s != "" ==> s[|s| - 1] != ':'
  {
    if ts != [] {
      SplitJoined(ts);
    }
  }

  /** Printing then reading gives the address back, dotted tail or not. */
  lemma PrintRead(a: Address, dotted: bool)
    ensures Read(Print(a, dotted)) == Some(a)
  {
    hide ReadGroups, Compressed, Read;
    if dotted {
      var tail := DottedText(a[6], a[7]);
      DottedRead(a[6], a[7]);
      DottedGroups(a[6], a[7]);
      CompressedRead(a[..6], [tail]);
      assert a[..6] + [a[6], a[7]] == a;
    } else {
      NoTail();
      CompressedRead(a, []);
      assert a + [] == a;
    }
  }

  lemma NoTail()
    ensures ReadGroups([], true) == Some([])
  {
  }

  lemma DottedGroups(high: Group, low: Group)
    ensures ReadGroups([DottedText(high, low)], true) == Some([high, low])
    ensures Tokens([DottedText(high, low)])
  {
    DottedRead(high, low);
    assert DottedText(high, low) != "" by {
      assert '.' in DottedText(high, low);
    }
  }

  /** The run compressed is the longest, and the first of two as long. */
  lemma {:induction false} LongestIs(groups: seq<Group>, i: nat)
    requires i <= |groups|
    ensures var start := LongestFrom(groups, i);
            && i <= start <= |groups|
            && (forall k | i <= k <= |groups| :: ZerosAt(groups, k) <= ZerosAt(groups, start))
            && (forall k | i <= k < start :: ZerosAt(groups, k) < ZerosAt(groups, start))
    decreases |groups| - i
  {
    if i < |groups| {
      LongestIs(groups, i + 1);
    }
  }
}
