/** Splitting text by text: a closed text, a separator and any text split separately. */
module SqlComposition {
  import opened Text
  import opened SqlScanner
  import opened SqlStructure

  /** The text ends in no quote, comment or dollar body. */
  predicate EndsAtTop(s: string) { AllClosed(Lex(s, 0)) }

  predicate AllClosed(ts: seq<Token>) { ts == [] || (ts[0].closed && AllClosed(ts[1..])) }

  // ---------------------------------------------------------------------------
  //  More text after a closed token does not change it.
  // ---------------------------------------------------------------------------

  /** Text that starts with a separator: no token reaches across it. */
  predicate Cuts(x: string) { x != "" && x[0] == ';' }

  lemma {:induction false} BlockScanExtends(a: string, x: string, i: nat, depth: nat)
    requires i <= |a| && Cuts(x) && BlockScan(a, i, depth).1 == 0
    ensures BlockScan(a + x, i, depth) == BlockScan(a, i, depth)
    decreases |a| - i
  {
    if i < |a| && depth > 0 {
      assert Pair(a + x, i, '/', '*') == Pair(a, i, '/', '*');
      assert Pair(a + x, i, '*', '/') == Pair(a, i, '*', '/');
      if Pair(a, i, '/', '*') {
        BlockScanExtends(a, x, i + 2, depth + 1);
      } else if Pair(a, i, '*', '/') {
        BlockScanExtends(a, x, i + 2, depth - 1);
      } else {
        BlockScanExtends(a, x, i + 1, depth);
      }
    }
  }

  lemma {:induction false} QuoteCloseExtends(a: string, x: string, j: nat, q: char)
    requires j <= |a| && Cuts(x) && q != ';' && QuoteClose(a, j, q) < |a|
    ensures QuoteClose(a + x, j, q) == QuoteClose(a, j, q)
    decreases |a| - j
  {
    assert Pair(a + x, j, q, q) == Pair(a, j, q, q);
    if Pair(a, j, q, q) {
      QuoteCloseExtends(a, x, j + 2, q);
    } else if a[j] != q {
      QuoteCloseExtends(a, x, j + 1, q);
    }
  }

  lemma MatchExtends(a: string, x: string, t: string, k: nat)
    requires k + |t| <= |a|
    ensures MatchesAt(a + x, t, k) == MatchesAt(a, t, k)
  {
  }

  lemma IndexOfExtends(a: string, x: string, t: string, from: nat)
    requires IndexOf(a, t, from) != -1
    ensures IndexOf(a + x, t, from) == IndexOf(a, t, from)
  {
    var r := IndexOf(a, t, from);
    IndexOfFirst(a, t, from);
    forall k: nat | from <= k <= r ensures MatchesAt(a + x, t, k) == MatchesAt(a, t, k) {
      MatchExtends(a, x, t, k);
    }
    IndexOfIs(a + x, t, from, r);
  }

  lemma {:induction false} WordEndExtends(a: string, x: string, i: nat)
    requires i <= |a| && Cuts(x)
    ensures WordEnd(a + x, i) == WordEnd(a, i)
    decreases |a| - i
  {
    if i < |a| && IsWord(a[i]) {
      WordEndExtends(a, x, i + 1);
    }
  }

  lemma DollarTagExtends(a: string, x: string, i: nat)
    requires i < |a| && Cuts(x)
    ensures DollarTag(a + x, i) == DollarTag(a, i)
  {
    WordEndExtends(a, x, i + 1);
    var k := WordEnd(a, i + 1);
    if k < |a| {
      assert (a + x)[i..k + 1] == a[i..k + 1];
    } else {
      assert (a + x)[k] == ';';
    }
  }

  lemma DollarEndExtends(a: string, x: string, i: nat, tag: string)
    requires i < |a| && tag != "" && MatchesAt(a, tag, i) && MatchesAt(a + x, tag, i)
    requires DollarEnd(a, i, tag).1
    ensures DollarEnd(a + x, i, tag) == DollarEnd(a, i, tag)
  {
    hide MatchesAt;
    IndexOfExtends(a, x, tag, i + |tag|);
  }

  lemma TokenExtends(a: string, x: string, i: nat)
    requires i < |a| && Cuts(x) && TokenAt(a, i).closed
    ensures TokenAt(a + x, i) == TokenAt(a, i)
  {
    var s := a + x;
    assert s[i] == a[i];
    assert Pair(s, i, '-', '-') == Pair(a, i, '-', '-');
    assert Pair(s, i, '/', '*') == Pair(a, i, '/', '*');
    if Pair(a, i, '-', '-') {
      IndexOfExtends(a, x, "\n", i);
    } else if Pair(a, i, '/', '*') {
      BlockScanExtends(a, x, i + 2, 1);
    } else if IsSpace(a[i]) || a[i] == ';' {
    } else if a[i] == '\'' || a[i] == '"' {
      QuoteCloseExtends(a, x, i + 1, a[i]);
    } else if DollarMayOpen(a, i) {
      DollarTagExtends(a, x, i);
      if DollarTag(a, i) != "" {
        DollarEndExtends(a, x, i, DollarTag(a, i));
      }
    }
  }

  lemma LexFirst(s: string, i: nat)
    requires i < |s|
    ensures Lex(s, i) == [TokenAt(s, i)] + Lex(s, TokenAt(s, i).end)
  {
  }

  lemma LexIs(s: string, i: nat, t: Token)
    requires i < |s| && TokenAt(s, i) == t
    ensures Lex(s, i) == [t] + Lex(s, t.end)
  {
  }

  lemma {:induction false} LexExtends(a: string, x: string, i: nat)
    requires i <= |a| && Cuts(x) && AllClosed(Lex(a, i))
    ensures Lex(a + x, i) == Lex(a, i) + Lex(a + x, |a|)
    decreases |a| - i
  {
    if i < |a| {
      var t := TokenAt(a, i);
      var ts, us := Lex(a, t.end), Lex(a + x, |a|);
      LexFirst(a, i);
      assert Lex(a, i)[1..] == ts;
      TokenExtends(a, x, i);
      LexExtends(a, x, t.end);
      LexFirst(a + x, i);
      hide Lex, TokenAt, AllClosed;
      assert [t] + (ts + us) == ([t] + ts) + us;
    }
  }

  // ---------------------------------------------------------------------------
  //  Text in front only shifts what follows, unless it ends in a word or a `$`.
  // ---------------------------------------------------------------------------

  function ShiftToken(t: Token, d: nat): Token { Token(t.kind, d + t.start, d + t.end, t.closed) }

  function ShiftTokens(ts: seq<Token>, d: nat): seq<Token> {
    if ts == [] then [] else [ShiftToken(ts[0], d)] + ShiftTokens(ts[1..], d)
  }

  lemma {:induction false} BlockScanShifts(p: string, b: string, i: nat, depth: nat)
    requires i <= |b|
    ensures var (end, left) := BlockScan(b, i, depth); BlockScan(p + b, |p| + i, depth) == (|p| + end, left)
    decreases |b| - i
  {
    if i < |b| && depth > 0 {
      assert Pair(p + b, |p| + i, '/', '*') == Pair(b, i, '/', '*');
      assert Pair(p + b, |p| + i, '*', '/') == Pair(b, i, '*', '/');
      if Pair(b, i, '/', '*') {
        BlockScanShifts(p, b, i + 2, depth + 1);
      } else if Pair(b, i, '*', '/') {
        BlockScanShifts(p, b, i + 2, depth - 1);
      } else {
        BlockScanShifts(p, b, i + 1, depth);
      }
    }
  }

  lemma {:induction false} QuoteCloseShifts(p: string, b: string, j: nat, q: char)
    requires j <= |b|
    ensures QuoteClose(p + b, |p| + j, q) == |p| + QuoteClose(b, j, q)
    decreases |b| - j
  {
    if j < |b| {
      assert Pair(p + b, |p| + j, q, q) == Pair(b, j, q, q);
      if Pair(b, j, q, q) {
        QuoteCloseShifts(p, b, j + 2, q);
      } else if b[j] != q {
        QuoteCloseShifts(p, b, j + 1, q);
      }
    }
  }

  lemma {:induction false} WordEndShifts(p: string, b: string, i: nat)
    requires i <= |b|
    ensures WordEnd(p + b, |p| + i) == |p| + WordEnd(b, i)
    decreases |b| - i
  {
    if i < |b| && IsWord(b[i]) {
      WordEndShifts(p, b, i + 1);
    }
  }

  lemma MatchShifts(p: string, b: string, t: string, k: nat)
    ensures MatchesAt(p + b, t, |p| + k) == MatchesAt(b, t, k)
  {
  }

  lemma {:induction false} IndexOfShifts(p: string, b: string, t: string, from: nat)
    ensures var r := IndexOf(b, t, from); IndexOf(p + b, t, |p| + from) == if r == -1 then -1 else |p| + r
    decreases |b| - from
  {
    if from + |t| <= |b| {
      MatchShifts(p, b, t, from);
      if !MatchesAt(b, t, from) {
        IndexOfShifts(p, b, t, from + 1);
      }
    }
  }

  lemma DollarTagShifts(p: string, b: string, i: nat)
    requires i < |b|
    ensures DollarTag(p + b, |p| + i) == DollarTag(b, i)
  {
    hide WordEnd, TagUpTo, MatchesAt;
    WordEndShifts(p, b, i + 1);
    TagUpToShifts(p, b, i, WordEnd(b, i + 1));
    assert |p| + i + 1 == |p| + (i + 1);
  }

  lemma TagUpToShifts(p: string, b: string, i: nat, k: nat)
    requires i < k <= |b|
    ensures TagUpTo(p + b, |p| + i, |p| + k) == TagUpTo(b, i, k)
  {
  }

  lemma DollarEndShifts(p: string, b: string, i: nat, tag: string)
    requires i < |b| && tag != "" && MatchesAt(b, tag, i) && MatchesAt(p + b, tag, |p| + i)
    ensures var (end, closed) := DollarEnd(b, i, tag); DollarEnd(p + b, |p| + i, tag) == (|p| + end, closed)
  {
    hide MatchesAt, IndexOf;
    IndexOfShifts(p, b, tag, i + |tag|);
    assert |p| + i + |tag| == |p| + (i + |tag|);
  }

  lemma TokenShifts(p: string, b: string, i: nat)
    requires i < |b| && p != "" && !JoinsDollar(p[|p| - 1])
    ensures TokenAt(p + b, |p| + i) == ShiftToken(TokenAt(b, i), |p|)
  {
    var s, k := p + b, |p| + i;
    assert s[k] == b[i];
    assert Pair(s, k, '-', '-') == Pair(b, i, '-', '-');
    assert Pair(s, k, '/', '*') == Pair(b, i, '/', '*');
    if Pair(b, i, '-', '-') {
      IndexOfShifts(p, b, "\n", i);
    } else if Pair(b, i, '/', '*') {
      BlockScanShifts(p, b, i + 2, 1);
    } else if IsSpace(b[i]) || b[i] == ';' {
    } else if b[i] == '\'' || b[i] == '"' {
      QuoteCloseShifts(p, b, i + 1, b[i]);
    } else {
      assert DollarMayOpen(s, k) == DollarMayOpen(b, i);
      DollarTagShifts(p, b, i);
      if DollarTag(b, i) != "" {
        DollarEndShifts(p, b, i, DollarTag(b, i));
      }
    }
  }

  lemma ShiftTokensFirst(t: Token, ts: seq<Token>, d: nat)
    ensures ShiftTokens([t] + ts, d) == [ShiftToken(t, d)] + ShiftTokens(ts, d)
  {
  }

  lemma {:induction false} LexShifts(p: string, b: string, i: nat)
    requires i <= |b| && p != "" && !JoinsDollar(p[|p| - 1])
    ensures Lex(p + b, |p| + i) == ShiftTokens(Lex(b, i), |p|)
    decreases |b| - i
  {
    if i < |b| {
      hide Lex, TokenAt, ShiftTokens;
      var t := TokenAt(b, i);
      TokenShifts(p, b, i);
      LexShifts(p, b, t.end);
      LexFirst(b, i);
      LexIs(p + b, |p| + i, ShiftToken(t, |p|));
      ShiftTokensFirst(t, Lex(b, t.end), |p|);
    }
  }

  // ---------------------------------------------------------------------------
  //  Pieces.
  // ---------------------------------------------------------------------------

  function ShiftPiece(p: Piece, d: nat): Piece { Piece(d + p.segment, d + p.first, d + p.end) }

  function ShiftPieces(ps: seq<Piece>, d: nat): seq<Piece> {
    if ps == [] then [] else [ShiftPiece(ps[0], d)] + ShiftPieces(ps[1..], d)
  }

  lemma {:induction false} ShiftPiecesAppend(x: seq<Piece>, y: seq<Piece>, d: nat)
    ensures ShiftPieces(x + y, d) == ShiftPieces(x, d) + ShiftPieces(y, d)
  {
    if x == [] {
      assert x + y == y;
    } else {
      assert (x + y)[0] == x[0] && (x + y)[1..] == x[1..] + y;
      ShiftPiecesAppend(x[1..], y, d);
    }
  }

  lemma {:induction false} PiecesShift(ts: seq<Token>, n: nat, segment: nat, first: int, d: nat)
    requires first >= -1
    ensures Pieces(ShiftTokens(ts, d), n + d, segment + d, if first == -1 then -1 else first + d)
         == ShiftPieces(Pieces(ts, n, segment, first), d)
    decreases ts
  {
    if ts != [] {
      var us := ShiftTokens(ts, d);
      assert us[0] == ShiftToken(ts[0], d) && us[1..] == ShiftTokens(ts[1..], d);
      if ts[0].kind.Semicolon? {
        PiecesShift(ts[1..], n, ts[0].end, -1, d);
        ShiftPiecesAppend(Flushed(segment, first, ts[0].start), Pieces(ts[1..], n, ts[0].end, -1), d);
      } else {
        PiecesShift(ts[1..], n, segment, if first == -1 && ts[0].kind.Code() then ts[0].start else first, d);
      }
    }
  }

  /** A separator ends what the tokens before it began. */
  lemma {:induction false} PiecesCut(ts: seq<Token>, sep: Token, us: seq<Token>, n: nat, segment: nat, first: int)
    requires first >= -1 && sep.kind.Semicolon?
    ensures Pieces(ts + [sep] + us, n, segment, first)
         == Pieces(ts, sep.start, segment, first) + Pieces(us, n, sep.end, -1)
    decreases ts
  {
    var all := ts + [sep] + us;
    if ts == [] {
      assert all[0] == sep && all[1..] == us;
    } else {
      assert all[0] == ts[0] && all[1..] == ts[1..] + [sep] + us;
      if ts[0].kind.Semicolon? {
        PiecesCut(ts[1..], sep, us, n, ts[0].end, -1);
      } else {
        PiecesCut(ts[1..], sep, us, n, segment, if first == -1 && ts[0].kind.Code() then ts[0].start else first);
      }
    }
  }

  lemma SeparatorAt(s: string, i: nat)
    requires i < |s| && s[i] == ';'
    ensures TokenAt(s, i) == Token(Semicolon, i, i + 1, true)
  {
  }

  lemma LexCompose(a: string, b: string)
    requires EndsAtTop(a)
    ensures Lex(a + ";" + b, 0)
         == Lex(a, 0) + [Token(Semicolon, |a|, |a| + 1, true)] + ShiftTokens(Lex(b, 0), |a| + 1)
  {
    hide Lex, TokenAt, ShiftTokens, AllClosed;
    var s, p := a + ";" + b, a + ";";
    var sep := Token(Semicolon, |a|, |a| + 1, true);
    assert s == a + (";" + b);
    LexExtends(a, ";" + b, 0);
    SeparatorAt(s, |a|);
    LexIs(s, |a|, sep);
    LexShifts(p, b, 0);
  }

  lemma CutAt(ts: seq<Token>, us: seq<Token>, at: nat, n: nat)
    ensures Pieces(ts + [Token(Semicolon, at, at + 1, true)] + us, n, 0, -1)
         == Pieces(ts, at, 0, -1) + Pieces(us, n, at + 1, -1)
  {
    PiecesCut(ts, Token(Semicolon, at, at + 1, true), us, n, 0, -1);
  }

  lemma ShiftedPieces(b: string, d: nat, n: nat)
    requires n == |b| + d
    ensures Pieces(ShiftTokens(Lex(b, 0), d), n, d, -1) == ShiftPieces(PiecesOf(b), d)
  {
    hide Lex, ShiftTokens, Pieces, ShiftPieces;
    PiecesShift(Lex(b, 0), |b|, 0, -1, d);
  }

  /** The pieces of `a; b` are those of `a`, then those of `b` moved past the separator. */
  lemma {:induction false} PiecesCompose(a: string, b: string)
    requires EndsAtTop(a)
    ensures PiecesOf(a + ";" + b) == PiecesOf(a) + ShiftPieces(PiecesOf(b), |a| + 1)
  {
    hide Lex, ShiftTokens, Pieces, ShiftPieces;
    var s, d := a + ";" + b, |a| + 1;
    var us := ShiftTokens(Lex(b, 0), d);
    LexCompose(a, b);
    ShiftedPieces(b, d, |s|);
    CutAt(Lex(a, 0), us, |a|, |s|);
  }

  // ---------------------------------------------------------------------------
  //  Statements.
  // ---------------------------------------------------------------------------

  function ShiftLines(ss: seq<Statement>, d: nat): seq<Statement> {
    if ss == [] then [] else [ss[0].(line := ss[0].line + d)] + ShiftLines(ss[1..], d)
  }

  predicate InBounds(ps: seq<Piece>, n: nat) {
    forall p | p in ps :: p.segment <= p.first <= p.end <= n
  }

  lemma LineExtend(a: string, x: string, i: nat)
    requires i <= |a|
    ensures LineAt(a + x, i) == LineAt(a, i)
  {
    assert (a + x)[..i] == a[..i];
  }

  lemma {:induction false} StatementsExtend(a: string, x: string, normalize: string -> string, ps: seq<Piece>)
    requires InBounds(ps, |a|)
    ensures StatementsOf(a + x, normalize, ps) == StatementsOf(a, normalize, ps)
  {
    if ps != [] {
      hide Leading, LineAt;
      var p := ps[0];
      assert p in ps;
      SliceExtend(a, x, p.first, p.end);
      SliceExtend(a, x, p.segment, p.first);
      LineExtend(a, x, p.first);
      StatementsExtend(a, x, normalize, ps[1..]);
    }
  }

  lemma {:induction false} CountPrefixShift(p: string, b: string, i: nat, c: char)
    requires i <= |b|
    ensures CountChar((p + b)[..|p| + i], c) == CountChar(p, c) + CountChar(b[..i], c)
  {
    assert (p + b)[..|p| + i] == p + b[..i];
    CountCharAppend(p, b[..i], c);
  }

  lemma {:induction false} LineShift(p: string, b: string, i: nat)
    requires i <= |b|
    ensures LineAt(p + b, |p| + i) == LineAt(b, i) + CountChar(p, '\n')
  {
    CountPrefixShift(p, b, i, '\n');
  }

  lemma {:induction false} StatementAtShifts(p: string, b: string, q: Piece, text: string)
    requires q.segment <= q.first <= |b|
    ensures var x := StatementAt(b, q, text);
            StatementAt(p + b, ShiftPiece(q, |p|), text) == x.(line := x.line + CountChar(p, '\n'))
  {
    hide Leading, CountChar, LineAt;
    SliceShift(p, b, q.segment, q.first);
    LineShift(p, b, q.first);
  }

  lemma NormalizeShifts(p: string, b: string, normalize: string -> string, q: Piece)
    requires q.first <= q.end <= |b|
    ensures normalize((p + b)[ShiftPiece(q, |p|).first..ShiftPiece(q, |p|).end]) == normalize(b[q.first..q.end])
  {
    SliceShift(p, b, q.first, q.end);
  }

  lemma StatementIs(s: string, normalize: string -> string, p: Piece)
    requires p.segment <= p.first <= p.end <= |s|
    ensures var text := normalize(s[p.first..p.end]);
            StatementOf(s, normalize, p) == if text == "" then [] else [StatementAt(s, p, text)]
  {
  }

  lemma ShiftNone(d: nat)
    ensures ShiftLines([], d) == []
  {
  }

  lemma ShiftOne(x: Statement, d: nat)
    ensures ShiftLines([x], d) == [x.(line := x.line + d)]
  {
  }

  lemma {:induction false} StatementShifts(p: string, b: string, normalize: string -> string, q: Piece)
    requires q.segment <= q.first <= q.end <= |b|
    ensures StatementOf(p + b, normalize, ShiftPiece(q, |p|))
         == ShiftLines(StatementOf(b, normalize, q), CountChar(p, '\n'))
  {
    hide StatementOf, StatementAt, CountChar, ShiftLines;
    var text := normalize(b[q.first..q.end]);
    StatementIs(b, normalize, q);
    StatementIs(p + b, normalize, ShiftPiece(q, |p|));
    NormalizeShifts(p, b, normalize, q);
    if text == "" {
      ShiftNone(CountChar(p, '\n'));
    } else {
      StatementAtShifts(p, b, q, text);
      ShiftOne(StatementAt(b, q, text), CountChar(p, '\n'));
    }
  }

  lemma {:induction false} StatementsShift(p: string, b: string, normalize: string -> string, ps: seq<Piece>)
    requires InBounds(ps, |b|)
    ensures StatementsOf(p + b, normalize, ShiftPieces(ps, |p|))
         == ShiftLines(StatementsOf(b, normalize, ps), CountChar(p, '\n'))
  {
    if ps != [] {
      var q := ps[0];
      assert q in ps;
      var qs := ShiftPieces(ps, |p|);
      assert qs[0] == ShiftPiece(q, |p|) && qs[1..] == ShiftPieces(ps[1..], |p|);
      StatementShifts(p, b, normalize, q);
      StatementsShift(p, b, normalize, ps[1..]);
      hide StatementOf;
      ShiftLinesAppend(StatementOf(b, normalize, q), StatementsOf(b, normalize, ps[1..]), CountChar(p, '\n'));
    }
  }

  lemma {:induction false} ShiftLinesAppend(x: seq<Statement>, y: seq<Statement>, d: nat)
    ensures ShiftLines(x + y, d) == ShiftLines(x, d) + ShiftLines(y, d)
  {
    if x == [] {
      assert x + y == y;
    } else {
      assert (x + y)[0] == x[0] && (x + y)[1..] == x[1..] + y;
      ShiftLinesAppend(x[1..], y, d);
    }
  }

  lemma {:induction false} StatementsCompose(x: string, y: string, normalize: string -> string, ps: seq<Piece>,
                                             qs: seq<Piece>)
    requires InBounds(ps, |x|) && InBounds(qs, |y|)
    ensures StatementsOf(x + ";" + y, normalize, ps + ShiftPieces(qs, |x| + 1))
         == StatementsOf(x, normalize, ps) + ShiftLines(StatementsOf(y, normalize, qs), CountChar(x, '\n'))
  {
    hide StatementOf;
    var s, p := x + ";" + y, x + ";";
    StatementsOfPush(s, normalize, ps, ShiftPieces(qs, |p|));
    assert s == x + (";" + y);
    StatementsExtend(x, ";" + y, normalize, ps);
    StatementsShift(p, y, normalize, qs);
    CountCharAppend(x, ";", '\n');
    assert CountChar(";", '\n') == 0;
  }

  lemma PiecesInBounds(s: string)
    ensures InBounds(PiecesOf(s), |s|)
  {
    SplitPartition(s);
  }

  lemma {:induction false} UnixNewlinesCompose(a: string, b: string)
    ensures UnixNewlines(a + ";" + b) == UnixNewlines(a) + ";" + UnixNewlines(b)
    decreases |a|
  {
    var s := a + ";" + b;
    if a == "" {
      assert s[1..] == b && s[0] == ';';
    } else {
      assert Pair(s, 0, '\r', '\n') == Pair(a, 0, '\r', '\n');
      if Pair(a, 0, '\r', '\n') {
        assert s[2..] == a[2..] + ";" + b;
        UnixNewlinesCompose(a[2..], b);
      } else {
        assert s[1..] == a[1..] + ";" + b;
        UnixNewlinesCompose(a[1..], b);
      }
    }
  }

  /**
   * Composition: when `a` ends at top level, splitting `a; b` gives the statements
   * of `a` and then those of `b`, their lines moved by the newlines of `a`.
   */
  lemma SplitCompose(a: string, b: string, normalize: string -> string)
    requires EndsAtTop(UnixNewlines(a))
    ensures Split(a + ";" + b, normalize)
         == Split(a, normalize) + ShiftLines(Split(b, normalize), CountChar(UnixNewlines(a), '\n'))
  {
    var x, y := UnixNewlines(a), UnixNewlines(b);
    UnixNewlinesCompose(a, b);
    PiecesCompose(x, y);
    PiecesInBounds(x);
    PiecesInBounds(y);
    StatementsCompose(x, y, normalize, PiecesOf(x), PiecesOf(y));
  }
}
