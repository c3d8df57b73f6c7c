/** Strings as the JavaScript code handles them: white space, splitting, searching. */
module Text {

  /** What `\s` matches and `trim()` strips: the ECMAScript white space and line terminators. */
  predicate IsSpace(c: char) {
    || c == ' ' || c == '\t' || c == '\n' || c == '\r'
    || c == '\U{0B}' || c == '\U{0C}' || c == '\U{A0}' || c == '\U{1680}'
    || '\U{2000}' <= c <= '\U{200A}'
    || c == '\U{2028}' || c == '\U{2029}' || c == '\U{202F}' || c == '\U{205F}'
    || c == '\U{3000}' || c == '\U{FEFF}'
  }

  predicate IsDigit(c: char) { '0' <= c <= '9' }

  predicate IsWord(c: char) { 'a' <= c <= 'z' || 'A' <= c <= 'Z' || IsDigit(c) || c == '_' }

  function CountChar(s: string, c: char): nat {
    if s == "" then 0 else (if s[0] == c then 1 else 0) + CountChar(s[1..], c)
  }

  lemma {:induction false} CountCharAppend(s: string, t: string, c: char)
    ensures CountChar(s + t, c) == CountChar(s, c) + CountChar(t, c)
  {
    if s == "" {
      assert s + t == t;
    } else {
      assert (s + t)[1..] == s[1..] + t;
      CountCharAppend(s[1..], t, c);
    }
  }

  /** Puts `c` in front of an already split string. */
  function PushFront(c: char, parts: seq<string>, sep: char): seq<string>
    requires |parts| >= 1
  {
    if c == sep then [""] + parts else [[c] + parts[0]] + parts[1..]
  }

  /** `s.split(sep)` for a one-character separator: never empty. */
  function SplitOn(s: string, sep: char): (r: seq<string>)
    ensures |r| >= 1
  {
    if s == "" then [""]
    else
      PushFront(s[0], SplitOn(s[1..], sep), sep)
  }

  /** `parts.join(sep)`. */
  function Join(parts: seq<string>, sep: string): string {
    if parts == [] then ""
    else if |parts| == 1 then parts[0]
    else parts[0] + sep + Join(parts[1..], sep)
  }

  lemma {:induction false} SplitOnNone(s: string, sep: char)
    requires sep !in s
    ensures SplitOn(s, sep) == [s]
  {
    if s != "" {
      SplitOnNone(s[1..], sep);
      assert [s[0]] + s[1..] == s;
    }
  }

  /** Splitting `a`, a separator and `b` splits each side. */
  lemma {:induction false} SplitOnSep(a: string, sep: char, b: string)
    ensures SplitOn(a + [sep] + b, sep) == SplitOn(a, sep) + SplitOn(b, sep)
  {
    var s := a + [sep] + b;
    if a == "" {
      assert s[0] == sep && s[1..] == b;
    } else {
      var tail := a[1..] + [sep] + b;
      assert s[0] == a[0] && s[1..] == tail;
      SplitOnSep(a[1..], sep, b);
      PushFrontAppend(SplitOn(a[1..], sep), SplitOn(b, sep), a[0], sep);
    }
  }

  lemma PushFrontAppend(l: seq<string>, r: seq<string>, c: char, sep: char)
    requires |l| >= 1
    ensures PushFront(c, l + r, sep) == PushFront(c, l, sep) + r
  {
  }

  function TrimStart(s: string): (r: string)
    ensures |r| <= |s|
  {
    if s != "" && IsSpace(s[0]) then TrimStart(s[1..]) else s
  }

  function TrimEnd(s: string): (r: string)
    ensures |r| <= |s|
  {
    if s != "" && IsSpace(s[|s| - 1]) then TrimEnd(s[..|s| - 1]) else s
  }

  /** `s.trim()`. */
  function Trim(s: string): string { TrimEnd(TrimStart(s)) }

  lemma {:induction false} TrimStartIs(s: string)
    ensures var cut := |s| - |TrimStart(s)|;
            && s[cut..] == TrimStart(s) && (forall k | 0 <= k < cut :: IsSpace(s[k]))
            && (TrimStart(s) != "" ==> !IsSpace(TrimStart(s)[0]))
  {
    hide IsSpace;
    if s != "" && IsSpace(s[0]) {
      TrimStartIs(s[1..]);
      var cut := |s[1..]| - |TrimStart(s[1..])|;
      assert forall k | 0 < k <= cut :: s[k] == s[1..][k - 1];
    }
  }

  lemma {:induction false} TrimEndIs(s: string)
    ensures var r := TrimEnd(s);
            && s[..|r|] == r && (forall k | |r| <= k < |s| :: IsSpace(s[k]))
            && (r != "" ==> !IsSpace(r[|r| - 1]))
  {
    hide IsSpace;
    if s != "" && IsSpace(s[|s| - 1]) {
      TrimEndIs(s[..|s| - 1]);
    }
  }

  /** Trimming takes the white space off both ends, and nothing else. */
  lemma {:induction false} TrimIs(s: string)
    ensures exists a, b ::
              && 0 <= a <= b <= |s| && Trim(s) == s[a..b]
              && (forall k | 0 <= k < a || b <= k < |s| :: IsSpace(s[k]))
              && (a < b ==> !IsSpace(s[a]) && !IsSpace(s[b - 1]))
  {
    hide IsSpace;
    var t := TrimStart(s);
    TrimStartIs(s);
    TrimEndIs(t);
    var a := |s| - |t|;
    var b := a + |TrimEnd(t)|;
    assert t == s[a..] && Trim(s) == s[a..b];
    forall k | b <= k < |s| ensures IsSpace(s[k]) {
      assert s[k] == t[k - a];
    }
    if a < b {
      assert s[b - 1] == t[|TrimEnd(t)| - 1] == TrimEnd(t)[|TrimEnd(t)| - 1] && s[a] == t[0];
    }
  }

  /** White space by code point: the ASCII controls and blank, and the nineteen others ECMAScript names. */
  lemma SpaceIs(c: char)
    ensures var n := c as int;
            IsSpace(c)
            <==> || 9 <= n <= 13 || n == 32 || n == 160 || n == 5760 || 8192 <= n <= 8202 || n == 8232 || n == 8233
                 || n == 8239 || n == 8287 || n == 12288 || n == 65279
  {
  }

  predicate MatchesAt(s: string, t: string, i: nat) {
    i + |t| <= |s| && s[i..i + |t|] == t
  }

  /** `s.indexOf(t, from)`. */
  function IndexOf(s: string, t: string, from: nat): (r: int)
    ensures r == -1 || (from <= r && MatchesAt(s, t, r))
    decreases |s| - from
  {
    if from + |t| > |s| then -1
    else if MatchesAt(s, t, from) then from
    else IndexOf(s, t, from + 1)
  }

  /** `IndexOf` is the first match at or after `from`, and -1 exactly when there is none. */
  lemma {:induction false} IndexOfFirst(s: string, t: string, from: nat)
    ensures var r := IndexOf(s, t, from);
            if r == -1 then forall k: nat | from <= k :: !MatchesAt(s, t, k)
            else forall k: nat | from <= k < r :: !MatchesAt(s, t, k)
    decreases |s| - from
  {
    if from + |t| <= |s| && !MatchesAt(s, t, from) {
      IndexOfFirst(s, t, from + 1);
    }
  }

  /** The first match is unique. */
  lemma IndexOfIs(s: string, t: string, from: nat, r: nat)
    requires from <= r && MatchesAt(s, t, r)
    requires forall k: nat | from <= k < r :: !MatchesAt(s, t, k)
    ensures IndexOf(s, t, from) == r
  {
    IndexOfFirst(s, t, from);
  }

  lemma SliceShift(p: string, b: string, i: nat, j: nat)
    requires i <= j <= |b|
    ensures (p + b)[|p| + i..|p| + j] == b[i..j]
  {
  }

  lemma SliceExtend(a: string, x: string, i: nat, j: nat)
    requires i <= j <= |a|
    ensures (a + x)[i..j] == a[i..j]
  {
  }
}
