/**
 * The statement splitter of the migration guard: a reference lexer, the pieces
 * its tokens delimit, and the index-moving loop that computes them.
 */
module SqlScanner {
  import opened Text

  // ---------------------------------------------------------------------------
  //  Reference lexer: one token at a position, then all of them.
  // ---------------------------------------------------------------------------

  datatype Kind = LineComment | BlockComment | Space | Semicolon | Quoted | DollarBody | Plain {
    /** Neither white space, nor a comment, nor a separator: part of a statement. */
    predicate Code() { Quoted? || DollarBody? || Plain? }
  }

  /** `[start, end)` of the text; `closed` is false for what the text ends inside of. */
  datatype Token = Token(kind: Kind, start: nat, end: nat, closed: bool)

  predicate Pair(s: string, i: nat, a: char, b: char) {
    i + 1 < |s| && s[i] == a && s[i + 1] == b
  }

  /** Where a block comment scan at nesting `depth` stops, and the depth it stops at. */
  function BlockScan(s: string, i: nat, depth: nat): (r: (nat, nat))
    requires i <= |s|
    ensures i <= r.0 <= |s|
    ensures r.1 > 0 ==> r.0 == |s|
    decreases |s| - i
  {
    if i == |s| || depth == 0 then (i, depth)
    else if Pair(s, i, '/', '*') then BlockScan(s, i + 2, depth + 1)
    else if Pair(s, i, '*', '/') then BlockScan(s, i + 2, depth - 1)
    else BlockScan(s, i + 1, depth)
  }

  /** The position of the quote that closes a string scanned from `j`, doubled quotes skipped, or |s|. */
  function QuoteClose(s: string, j: nat, q: char): (r: nat)
    requires j <= |s|
    ensures j <= r <= |s|
    ensures r < |s| ==> s[r] == q
    decreases |s| - j
  {
    if j == |s| then j
    else if Pair(s, j, q, q) then QuoteClose(s, j + 2, q)
    else if s[j] == q then j
    else QuoteClose(s, j + 1, q)
  }

  function WordEnd(s: string, i: nat): (r: nat)
    requires i <= |s|
    ensures i <= r <= |s|
    ensures forall k | i <= k < r :: IsWord(s[k])
    ensures r < |s| ==> !IsWord(s[r])
    decreases |s| - i
  {
    if i < |s| && IsWord(s[i]) then WordEnd(s, i + 1) else i
  }

  /** How much of the text the dollar-tag pattern is shown. */
  const TAG_WINDOW := 64

  /** The dollar tag (`$$`, `$tag$`) at `i`, or "" when there is none within the window. */
  function DollarTag(s: string, i: nat): (tag: string)
    requires i < |s|
    ensures tag != "" ==> 2 <= |tag| <= TAG_WINDOW && MatchesAt(s, tag, i)
  {
    TagUpTo(s, i, WordEnd(s, i + 1))
  }

  /** The tag from `i` to a `$` at `k`, when those bound one. */
  function TagUpTo(s: string, i: nat, k: nat): (tag: string)
    requires i < k <= |s|
    ensures tag != "" ==> 2 <= |tag| <= TAG_WINDOW && MatchesAt(s, tag, i)
  {
    if s[i] == '$' && k < |s| && s[k] == '$' && k + 1 - i <= TAG_WINDOW && !IsDigit(s[i + 1])
    then s[i..k + 1]
    else ""
  }

  /** A `$` right after one of these never opens a dollar body. */
  predicate JoinsDollar(c: char) { IsWord(c) || c == '$' }

  predicate DollarMayOpen(s: string, i: nat)
    requires i < |s|
  {
    s[i] == '$' && (i == 0 || !JoinsDollar(s[i - 1]))
  }

  /** Past the next `tag` after the one at `i`, and whether there is one. */
  function DollarEnd(s: string, i: nat, tag: string): (r: (nat, bool))
    requires i < |s| && tag != "" && MatchesAt(s, tag, i)
    ensures i < r.0 <= |s| && (!r.1 ==> r.0 == |s|)
  {
    var close := IndexOf(s, tag, i + |tag|);
    if close == -1 then (|s|, false) else (close + |tag|, true)
  }

  function TokenAt(s: string, i: nat): (t: Token)
    requires i < |s|
    ensures t.start == i < t.end <= |s|
    ensures !t.closed ==> t.end == |s|
  {
    if Pair(s, i, '-', '-') then
      var eol := IndexOf(s, "\n", i);
      if eol == -1 then Token(LineComment, i, |s|, false) else Token(LineComment, i, eol, true)
    else if Pair(s, i, '/', '*') then
      var (end, depth) := BlockScan(s, i + 2, 1);
      Token(BlockComment, i, end, depth == 0)
    else if IsSpace(s[i]) then Token(Space, i, i + 1, true)
    else if s[i] == ';' then Token(Semicolon, i, i + 1, true)
    else if s[i] == '\'' || s[i] == '"' then
      var close := QuoteClose(s, i + 1, s[i]);
      if close == |s| then Token(Quoted, i, |s|, false) else Token(Quoted, i, close + 1, true)
    else if DollarMayOpen(s, i) && DollarTag(s, i) != "" then
      var (end, closed) := DollarEnd(s, i, DollarTag(s, i));
      Token(DollarBody, i, end, closed)
    else Token(Plain, i, i + 1, true)
  }

  function Lex(s: string, i: nat): seq<Token>
    decreases |s| - i
  {
    if i >= |s| then [] else [TokenAt(s, i)] + Lex(s, TokenAt(s, i).end)
  }

  // ---------------------------------------------------------------------------
  //  Pieces: what the tokens between two separators say.
  // ---------------------------------------------------------------------------

  /** A statement's raw range `[first, end)`, and where the text since the last separator starts. */
  datatype Piece = Piece(segment: nat, first: nat, end: nat)

  /** The pieces of a token list that ends at `n`; `first` is -1 until a statement has begun. */
  function Pieces(ts: seq<Token>, n: nat, segment: nat, first: int): seq<Piece>
    requires first >= -1
  {
    if ts == [] then Flushed(segment, first, n)
    else if ts[0].kind.Semicolon? then
      Flushed(segment, first, ts[0].start) + Pieces(ts[1..], n, ts[0].end, -1)
    else
      Pieces(ts[1..], n, segment, if first == -1 && ts[0].kind.Code() then ts[0].start else first)
  }

  function Flushed(segment: nat, first: int, end: nat): seq<Piece>
    requires first >= -1
  {
    if first == -1 then [] else [Piece(segment, first, end)]
  }

  function PiecesOf(s: string): seq<Piece> { Pieces(Lex(s, 0), |s|, 0, -1) }

  // ---------------------------------------------------------------------------
  //  Statements.
  // ---------------------------------------------------------------------------

  /** The comment lines directly above, the normalised text, and the 1-based line of the first token. */
  datatype Statement = Statement(leading: seq<string>, text: string, line: nat)

  predicate IsCommentLine(line: string) { "--" <= Trim(line) }

  /** The longest run of comment lines at the end of `lines`, trimmed. */
  function LeadingRun(lines: seq<string>): seq<string> {
    if lines == [] || !IsCommentLine(lines[|lines| - 1]) then []
    else LeadingRun(lines[..|lines| - 1]) + [Trim(lines[|lines| - 1])]
  }

  /** The lines of `prefix` above its last one, which holds the statement's first token. */
  function LinesAbove(prefix: string): seq<string> {
    var lines := SplitOn(prefix, '\n');
    lines[..|lines| - 1]
  }

  function Leading(prefix: string): seq<string> { LeadingRun(LinesAbove(prefix)) }

  /** The 1-based line of position `i`. */
  function LineAt(s: string, i: nat): nat
    requires i <= |s|
  {
    1 + CountChar(s[..i], '\n')
  }

  function StatementAt(s: string, p: Piece, text: string): Statement
    requires p.segment <= p.first <= |s|
  {
    Statement(Leading(s[p.segment..p.first]), text, LineAt(s, p.first))
  }

  /** `normalize` stands for the normalisation and lower-casing of a statement's text. */
  function StatementOf(s: string, normalize: string -> string, p: Piece): seq<Statement> {
    if p.segment <= p.first <= p.end <= |s| then
      var text := normalize(s[p.first..p.end]);
      if text == "" then []
      else [StatementAt(s, p, text)]
    else []
  }

  function StatementsOf(s: string, normalize: string -> string, ps: seq<Piece>): seq<Statement> {
    if ps == [] then []
    else StatementOf(s, normalize, ps[0]) + StatementsOf(s, normalize, ps[1..])
  }

  /** `sql.replace(/\r\n/g, "\n")`. */
  function UnixNewlines(sql: string): string {
    if Pair(sql, 0, '\r', '\n') then ['\n'] + UnixNewlines(sql[2..])
    else if sql == "" then ""
    else [sql[0]] + UnixNewlines(sql[1..])
  }

  function Split(sql: string, normalize: string -> string): seq<Statement> {
    var s := UnixNewlines(sql);
    StatementsOf(s, normalize, PiecesOf(s))
  }

  // ---------------------------------------------------------------------------
  //  The loops.
  // ---------------------------------------------------------------------------

  method LeadingComments(prefix: string) returns (leading: seq<string>)
    ensures leading == Leading(prefix)
  {
    hide SplitOn, Trim;
    var lines := SplitOn(prefix, '\n');
    lines := lines[..|lines| - 1];
    leading := [];
    var k := |lines| - 1;
    assert lines[..k + 1] == lines;
    while k >= 0
      invariant -1 <= k < |lines|
      invariant LeadingRun(lines) == LeadingRun(lines[..k + 1]) + leading
    {
      var line := Trim(lines[k]);
      assert lines[..k + 1][..k] == lines[..k];
      if !("--" <= line) { break; }
      leading := [line] + leading;
      k := k - 1;
    }
  }

  lemma StatementsOfPush(s: string, normalize: string -> string, ps: seq<Piece>, qs: seq<Piece>)
    ensures StatementsOf(s, normalize, ps + qs) == StatementsOf(s, normalize, ps) + StatementsOf(s, normalize, qs)
  {
    if ps == [] {
      assert ps + qs == qs;
    } else {
      assert (ps + qs)[1..] == ps[1..] + qs;
      StatementsOfPush(s, normalize, ps[1..], qs);
    }
  }

  /** Past the block comment that opens at `i`, or to the end of the text. */
  method SkipBlockComment(src: string, start: nat) returns (i: nat)
    requires start < |src| && Pair(src, start, '/', '*')
    ensures i == BlockScan(src, start + 2, 1).0
  {
    var depth := 1;
    i := start + 2;
    while i < |src| && depth > 0
      invariant i <= |src| && 0 <= depth
      invariant BlockScan(src, i, depth) == BlockScan(src, start + 2, 1)
      decreases |src| - i
    {
      if Pair(src, i, '/', '*') {
        depth := depth + 1;
        i := i + 2;
      } else if Pair(src, i, '*', '/') {
        depth := depth - 1;
        i := i + 2;
      } else {
        i := i + 1;
      }
    }
  }

  /** Past the quoted string that opens at `start`; one past the end of the text when it never closes. */
  method SkipQuoted(src: string, start: nat) returns (i: nat)
    requires start < |src|
    ensures i == QuoteClose(src, start + 1, src[start]) + 1
  {
    var c, j := src[start], start + 1;
    while j < |src|
      invariant start < j <= |src|
      invariant QuoteClose(src, j, c) == QuoteClose(src, start + 1, c)
    {
      if src[j] == c {
        if j + 1 < |src| && src[j + 1] == c {
          j := j + 2;
          continue;
        }
        break;
      }
      j := j + 1;
    }
    i := j + 1;
  }

  /** What starts at `start`, and where the scan goes on: one past the end after an open string. */
  method NextToken(src: string, start: nat) returns (kind: Kind, i: nat)
    requires start < |src|
    ensures kind == TokenAt(src, start).kind
    ensures start < i <= |src| + 1
    ensures kind.Semicolon? ==> i == start + 1
    ensures Lex(src, i) == Lex(src, TokenAt(src, start).end)
  {
    var c := src[start];
    if Pair(src, start, '-', '-') {
      var eol := IndexOf(src, "\n", start);
      return LineComment, if eol == -1 then |src| else eol;
    }
    if Pair(src, start, '/', '*') {
      i := SkipBlockComment(src, start);
      return BlockComment, i;
    }
    if IsSpace(c) {
      return Space, start + 1;
    }
    if c == ';' {
      return Semicolon, start + 1;
    }
    if c == '\'' || c == '"' {
      i := SkipQuoted(src, start);
      return Quoted, i;
    }
    if DollarMayOpen(src, start) {
      var tag := DollarTag(src, start);
      if tag != "" {
        return DollarBody, DollarEnd(src, start, tag).0;
      }
    }
    return Plain, start + 1;
  }

  /**
   * The loop's invariant: `statements` are those of the pieces `done`, and the tokens
   * from `i` on, with what has begun, hold the others.
   */
  ghost predicate Scanned(s: string, normalize: string -> string, i: nat, segment: nat, first: int,
                          statements: seq<Statement>, done: seq<Piece>)
  {
    && segment <= |s| && segment <= i <= |s| + 1
    && -1 <= first && first <= |s| && (first != -1 ==> segment <= first < i)
    && PiecesOf(s) == done + Pieces(Lex(s, i), |s|, segment, first)
    && statements == StatementsOf(s, normalize, done)
  }

  /** Any other token at most begins one. */
  lemma ScannedOther(s: string, normalize: string -> string, i: nat, segment: nat, first: int,
                     statements: seq<Statement>, done: seq<Piece>, next: nat)
    requires i < |s| && !TokenAt(s, i).kind.Semicolon?
    requires Scanned(s, normalize, i, segment, first, statements, done)
    requires i < next <= |s| + 1 && Lex(s, next) == Lex(s, TokenAt(s, i).end)
    ensures Scanned(s, normalize, next, segment, if first == -1 && TokenAt(s, i).kind.Code() then i else first,
                    statements, done)
  {
  }

  lemma ScannedStart(s: string, normalize: string -> string)
    ensures Scanned(s, normalize, 0, 0, -1, [], [])
  {
  }

  /** Ends the statement begun at `first`, if one was, at `end`. */
  method Flush(s: string, normalize: string -> string, i: nat, segment: nat, first: int,
               statements: seq<Statement>, ghost done: seq<Piece>, end: nat)
    returns (longer: seq<Statement>, ghost done': seq<Piece>)
    requires Scanned(s, normalize, i, segment, first, statements, done)
    requires end <= |s| && (first != -1 ==> first <= end)
    ensures done' == done + Flushed(segment, first, end)
    ensures longer == StatementsOf(s, normalize, done')
  {
    longer := statements;
    done' := done + Flushed(segment, first, end);
    StatementsOfPush(s, normalize, done, Flushed(segment, first, end));
    if first != -1 {
      var text := normalize(s[first..end]);
      if text != "" {
        var leading := LeadingComments(s[segment..first]);
        longer := statements + [Statement(leading, text, LineAt(s, first))];
      }
    }
  }

  /** A separator ends the piece begun. */
  lemma ScannedSeparator(s: string, normalize: string -> string, i: nat, segment: nat, first: int,
                         statements: seq<Statement>, done: seq<Piece>, longer: seq<Statement>, done': seq<Piece>)
    requires i < |s| && TokenAt(s, i).kind.Semicolon?
    requires Scanned(s, normalize, i, segment, first, statements, done)
    requires done' == done + Flushed(segment, first, i) && longer == StatementsOf(s, normalize, done')
    ensures Scanned(s, normalize, i + 1, i + 1, -1, longer, done')
  {
    hide Lex, TokenAt, StatementsOf, Pieces;
    PiecesAtSeparator(s, i, segment, first);
    var f, rest := Flushed(segment, first, i), Pieces(Lex(s, i + 1), |s|, i + 1, -1);
    assert done + (f + rest) == (done + f) + rest;
  }

  lemma PiecesAtSeparator(s: string, i: nat, segment: nat, first: int)
    requires i < |s| && first >= -1 && TokenAt(s, i).kind.Semicolon?
    ensures Pieces(Lex(s, i), |s|, segment, first)
         == Flushed(segment, first, i) + Pieces(Lex(s, i + 1), |s|, i + 1, -1)
  {
  }

  lemma ScannedAll(s: string, normalize: string -> string, i: nat, segment: nat, first: int,
                   statements: seq<Statement>, done: seq<Piece>, done': seq<Piece>)
    requires |s| <= i
    requires Scanned(s, normalize, i, segment, first, statements, done)
    requires done' == done + Flushed(segment, first, |s|)
    ensures done' == PiecesOf(s)
  {
  }

  method SplitStatements(sql: string, normalize: string -> string) returns (statements: seq<Statement>)
    ensures statements == Split(sql, normalize)
  {
    hide TokenAt, Lex, Pieces, PiecesOf, StatementsOf, Flushed, Scanned;
    var src := UnixNewlines(sql);
    var n := |src|;
    statements := [];
    var segmentStart, first, i := 0, -1, 0;
    ghost var done: seq<Piece> := [];
    ScannedStart(src, normalize);
    while i < n
      invariant Scanned(src, normalize, i, segmentStart, first, statements, done)
      invariant -1 <= first && first <= n && first < i <= n + 1
      decreases n + 1 - i
    {
      var kind, next := NextToken(src, i);
      if kind.Semicolon? {
        ghost var done', was := done, statements;
        statements, done' := Flush(src, normalize, i, segmentStart, first, statements, done, i);
        ScannedSeparator(src, normalize, i, segmentStart, first, was, done, statements, done');
        done := done';
        first := -1;
        segmentStart := next;
      } else {
        ScannedOther(src, normalize, i, segmentStart, first, statements, done, next);
        if kind.Code() && first == -1 {
          first := i;
        }
      }
      i := next;
    }
    ghost var done', was := done, statements;
    statements, done' := Flush(src, normalize, i, segmentStart, first, statements, done, n);
    ScannedAll(src, normalize, i, segmentStart, first, was, done, done');
  }
}
