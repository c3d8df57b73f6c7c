/** Names and literals printed into SQL, and read back by the splitter. */
module SqlQuoting {
  import opened Text
  import opened Wrappers
  import opened SqlScanner
  import opened SqlStructure
  import opened SqlComposition

  const NUL: char := '\0'

  datatype QuoteError = InvalidIdentifier | InvalidLiteral

  function Doubled(s: string, q: char): string {
    if s == "" then "" else (if s[0] == q then [q, q] else [s[0]]) + Doubled(s[1..], q)
  }

  /** Reads a doubled quote as one. */
  function Undoubled(s: string, q: char): string {
    if s == "" then ""
    else if Pair(s, 0, q, q) then [q] + Undoubled(s[2..], q)
    else [s[0]] + Undoubled(s[1..], q)
  }

  function Quoted(s: string, q: char): string { [q] + Doubled(s, q) + [q] }

  predicate ValidIdent(name: string) { name != "" && NUL !in name }

  function QuoteIdent(name: string): Result<string, QuoteError> {
    if ValidIdent(name) then Ok(Quoted(name, '"')) else Err(InvalidIdentifier)
  }

  function QuoteLiteral(value: string): Result<string, QuoteError> {
    if NUL in value then Err(InvalidLiteral) else Ok(Quoted(value, '\''))
  }

  lemma {:induction false} UndoubledDoubled(s: string, q: char)
    ensures Undoubled(Doubled(s, q), q) == s
  {
    if s != "" {
      var d := Doubled(s[1..], q);
      UndoubledDoubled(s[1..], q);
      assert s == [s[0]] + s[1..];
      if s[0] == q {
        assert Doubled(s, q) == [q, q] + d && Doubled(s, q)[2..] == d;
      } else {
        assert Doubled(s, q) == [s[0]] + d && Doubled(s, q)[1..] == d;
      }
    }
  }

  /** Two names or literals print alike only when they are the same. */
  lemma QuotedInjective(s: string, t: string, q: char)
    requires Quoted(s, q) == Quoted(t, q)
    ensures s == t
  {
    UndoubledDoubled(s, q);
    UndoubledDoubled(t, q);
    assert Quoted(s, q)[1..|Quoted(s, q)| - 1] == Doubled(s, q);
    assert Quoted(t, q)[1..|Quoted(t, q)| - 1] == Doubled(t, q);
  }

  /** After `p`, a doubled text closes at its own quote, whatever it contains. */
  lemma {:induction false} CloseOfDoubled(p: string, s: string, rest: string, q: char)
    requires rest == "" || rest[0] != q
    ensures QuoteClose(p + (Doubled(s, q) + [q] + rest), |p|, q) == |p| + |Doubled(s, q)|
    decreases s
  {
    var text := p + (Doubled(s, q) + [q] + rest);
    if s == "" {
      assert text[|p|] == q;
    } else {
      var head := if s[0] == q then [q, q] else [s[0]];
      assert Doubled(s, q) == head + Doubled(s[1..], q);
      assert text == (p + head) + (Doubled(s[1..], q) + [q] + rest);
      assert text[|p|] == head[0];
      CloseOfDoubled(p + head, s[1..], rest, q);
      if s[0] == q {
        assert text[|p| + 1] == q;
      }
    }
  }

  /** A quoted text is one token that closes at its end, and between the quotes stands the text, doubled. */
  lemma QuotedReads(s: string, q: char)
    ensures var t := Quoted(s, q);
            |t| >= 2 && Undoubled(t[1..|t| - 1], q) == s && QuoteClose(t, 1, q) == |t| - 1
  {
    hide QuoteClose;
    UndoubledDoubled(s, q);
    CloseOfDoubled([q], s, "", q);
    assert [q] + (Doubled(s, q) + [q] + "") == Quoted(s, q);
    assert Quoted(s, q)[1..|Quoted(s, q)| - 1] == Doubled(s, q);
  }

  /** An identifier is refused exactly when it is empty or holds a NUL; a quoted one reads back as itself. */
  lemma QuoteIdentReads(name: string)
    ensures QuoteIdent(name).Err? <==> name == "" || '\0' in name
    ensures QuoteIdent(name).Ok? ==>
              var t := QuoteIdent(name).value;
              |t| >= 2 && Undoubled(t[1..|t| - 1], '"') == name && QuoteClose(t, 1, '"') == |t| - 1
  {
    hide Quoted, QuoteClose;
    QuotedReads(name, '"');
  }

  /** A literal is refused exactly when it holds a NUL; a quoted one, the empty one too, reads back as itself. */
  lemma QuoteLiteralReads(value: string)
    ensures QuoteLiteral(value).Err? <==> '\0' in value
    ensures QuoteLiteral(value).Ok? ==>
              var t := QuoteLiteral(value).value;
              |t| >= 2 && Undoubled(t[1..|t| - 1], '\'') == value && QuoteClose(t, 1, '\'') == |t| - 1
  {
    hide Quoted, QuoteClose;
    QuotedReads(value, '\'');
  }

  // ---------------------------------------------------------------------------
  //  Statements made of fixed words and quoted names.
  // ---------------------------------------------------------------------------

  datatype Part = Word(text: string) | Name(name: string)

  function PartText(part: Part): string {
    match part case Word(text) => text case Name(name) => Quoted(name, '"')
  }

  function Render(parts: seq<Part>): string {
    if parts == [] then "" else PartText(parts[0]) + Render(parts[1..])
  }

  /** A character that is white space or one plain token wherever it stands. */
  predicate SafeChar(c: char) { c != '\'' && c != '"' && c != '$' && c != ';' && c != '-' && c != '/' && c != '\r' }

  predicate SafeWord(w: string) { w != "" && forall c | c in w :: SafeChar(c) }

  /** Words are safe, and one follows every name but a last one. */
  predicate Printable(parts: seq<Part>) {
    && (forall k | 0 <= k < |parts| && parts[k].Word? :: SafeWord(parts[k].text))
    && (forall k | 0 <= k < |parts| - 1 && parts[k].Name? :: parts[k + 1].Word?)
  }

  /** Printable, and begun by a word with a first letter. */
  predicate StatementParts(parts: seq<Part>) {
    Printable(parts) && parts != [] && parts[0].Word? && parts[0].text != "" && !IsSpace(parts[0].text[0])
  }

  /** Tokens that neither end a statement nor stay open. */
  predicate Quiet(ts: seq<Token>) {
    ts == [] || (ts[0].closed && !ts[0].kind.Semicolon? && Quiet(ts[1..]))
  }

  lemma SafeTokenAt(s: string, i: nat)
    requires i < |s| && SafeChar(s[i])
    ensures var t := TokenAt(s, i);
            t.closed && !t.kind.Semicolon? && t.end == i + 1 && (!IsSpace(s[i]) ==> t.kind.Code())
  {
  }

  lemma QuietStep(s: string, i: nat)
    requires i < |s|
    requires TokenAt(s, i).closed && !TokenAt(s, i).kind.Semicolon? && Quiet(Lex(s, TokenAt(s, i).end))
    ensures Quiet(Lex(s, i))
  {
  }

  lemma {:induction false} WordQuiet(s: string, i: nat, j: nat)
    requires i <= j <= |s| && (forall k | i <= k < j :: SafeChar(s[k])) && Quiet(Lex(s, j))
    ensures Quiet(Lex(s, i))
    decreases j - i
  {
    if i < j {
      hide Lex, TokenAt;
      WordQuiet(s, i + 1, j);
      SafeTokenAt(s, i);
      QuietStep(s, i);
    }
  }

  lemma NameTokenAt(p: string, name: string, rest: string)
    requires rest == "" || rest[0] != '"'
    ensures TokenAt(p + (Quoted(name, '"') + rest), |p|)
         == Token(Kind.Quoted, |p|, |p| + |Quoted(name, '"')|, true)
  {
    var s := p + (Quoted(name, '"') + rest);
    assert s == (p + ['"']) + (Doubled(name, '"') + ['"'] + rest);
    CloseOfDoubled(p + ['"'], name, rest, '"');
    assert s[|p|] == '"';
  }

  lemma {:induction false} PartsQuiet(p: string, parts: seq<Part>)
    requires Printable(parts)
    ensures Quiet(Lex(p + Render(parts), |p|))
    decreases parts
  {
    hide Lex, TokenAt, Quoted;
    var s := p + Render(parts);
    if parts == [] {
      NothingQuiet(s, |p|);
    } else {
      var text, rest := PartText(parts[0]), Render(parts[1..]);
      assert s == (p + text) + rest && s == p + (text + rest);
      RestPrintable(parts);
      PartsQuiet(p + text, parts[1..]);
      if parts[0].Word? {
        assert forall k | |p| <= k < |p| + |text| :: s[k] == text[k - |p|];
        WordQuiet(s, |p|, |p| + |text|);
      } else {
        RestUnquoted(parts);
        NameTokenAt(p, parts[0].name, rest);
        QuietStep(s, |p|);
      }
    }
  }

  lemma NothingQuiet(s: string, i: nat)
    requires i >= |s|
    ensures Quiet(Lex(s, i))
  {
  }

  lemma RestPrintable(parts: seq<Part>)
    requires Printable(parts) && parts != []
    ensures Printable(parts[1..])
  {
  }

  lemma RestUnquoted(parts: seq<Part>)
    requires Printable(parts) && parts != [] && parts[0].Name?
    ensures var rest := Render(parts[1..]); rest == "" || rest[0] != '"'
  {
    if |parts| > 1 {
      var w := parts[1].text;
      assert parts[1..][0] == parts[1] && SafeWord(w);
      assert w[0] in w;
    }
  }

  /** Quiet tokens, the first of them code, are one piece. */
  lemma {:induction false} QuietPieces(ts: seq<Token>, n: nat, first: nat)
    requires Quiet(ts)
    ensures Pieces(ts, n, 0, first) == [Piece(0, first, n)]
    ensures AllClosed(ts)
    decreases ts
  {
    if ts != [] {
      QuietPieces(ts[1..], n, first);
    }
  }

  /** A printed statement is one piece, from its first character to its last, and ends at top level. */
  lemma StatementIsOnePiece(parts: seq<Part>)
    requires StatementParts(parts)
    ensures PiecesOf(Render(parts)) == [Piece(0, 0, |Render(parts)|)]
    ensures EndsAtTop(Render(parts))
  {
    var s := Render(parts);
    assert parts[0].text[0] in parts[0].text && s[0] == parts[0].text[0];
    SafeTokenAt(s, 0);
    PartsQuiet("", parts);
    assert "" + s == s;
    var ts := Lex(s, 0);
    assert ts[1..] == Lex(s, 1) && ts[0] == TokenAt(s, 0);
    QuietPieces(ts[1..], |s|, 0);
  }

  // ---------------------------------------------------------------------------
  //  Print and scan undo each other.
  // ---------------------------------------------------------------------------

  function PieceTexts(s: string, ps: seq<Piece>): seq<string>
    requires InBounds(ps, |s|)
  {
    if ps == [] then [] else [s[ps[0].first..ps[0].end]] + PieceTexts(s, ps[1..])
  }

  function RawTexts(s: string): seq<string> {
    PiecesInBounds(s);
    PieceTexts(s, PiecesOf(s))
  }

  /** The raw text of every statement the splitter finds. */
  function SplitTexts(sql: string): seq<string> { RawTexts(UnixNewlines(sql)) }

  function RenderAll(statements: seq<seq<Part>>): seq<string> {
    if statements == [] then [] else [Render(statements[0])] + RenderAll(statements[1..])
  }

  lemma {:induction false} PieceTextsShift(p: string, b: string, ps: seq<Piece>)
    requires InBounds(ps, |b|) && InBounds(ShiftPieces(ps, |p|), |p + b|)
    ensures PieceTexts(p + b, ShiftPieces(ps, |p|)) == PieceTexts(b, ps)
  {
    if ps != [] {
      var qs := ShiftPieces(ps, |p|);
      assert qs[0] == ShiftPiece(ps[0], |p|) && qs[1..] == ShiftPieces(ps[1..], |p|);
      assert ps[0] in ps;
      SliceShift(p, b, ps[0].first, ps[0].end);
      PieceTextsShift(p, b, ps[1..]);
    }
  }

  lemma OnePieceTexts(a: string)
    requires PiecesOf(a) == [Piece(0, 0, |a|)]
    ensures RawTexts(a) == [a]
  {
    hide PiecesOf;
    var ps := PiecesOf(a);
    assert ps[1..] == [] && a[ps[0].first..ps[0].end] == a;
    assert PieceTexts(a, ps) == [a] + PieceTexts(a, []);
  }

  lemma RawTextsCompose(a: string, b: string)
    requires EndsAtTop(a) && PiecesOf(a) == [Piece(0, 0, |a|)]
    ensures RawTexts(a + ";" + b) == [a] + RawTexts(b)
  {
    hide PiecesOf, EndsAtTop;
    var s, p := a + ";" + b, a + ";";
    PiecesInBounds(s);
    PiecesInBounds(b);
    PiecesCompose(a, b);
    var qs := ShiftPieces(PiecesOf(b), |p|);
    assert PiecesOf(s)[0] == Piece(0, 0, |a|) && PiecesOf(s)[1..] == qs;
    assert s[0..|a|] == a;
    assert forall q | q in qs :: q in PiecesOf(s);
    PieceTextsShift(p, b, PiecesOf(b));
    assert PieceTexts(s, PiecesOf(s)) == [a] + PieceTexts(s, qs);
    assert RawTexts(b) == PieceTexts(b, PiecesOf(b));
  }

  /** Splitting printed statements joined with `;` gives their texts. */
  lemma {:induction false} JoinedTexts(statements: seq<seq<Part>>)
    requires forall st | st in statements :: StatementParts(st)
    ensures RawTexts(Join(RenderAll(statements), ";")) == RenderAll(statements)
  {
    hide PiecesOf, EndsAtTop, RawTexts, StatementParts, Render;
    if statements == [] {
      NoTexts();
    } else {
      var texts, rest := RenderAll(statements), RenderAll(statements[1..]);
      var a := Render(statements[0]);
      assert texts == [a] + rest && texts[1..] == rest;
      StatementIsOnePiece(statements[0]);
      if statements[1..] == [] {
        OnePieceTexts(a);
        assert Join(texts, ";") == a;
      } else {
        assert rest != [];
        JoinedTexts(statements[1..]);
        RawTextsCompose(a, Join(rest, ";"));
      }
    }
  }

  lemma NoTexts()
    ensures RawTexts("") == []
  {
  }

  predicate HasCrlf(s: string) { exists k :: 0 <= k < |s| - 1 && s[k] == '\r' && s[k + 1] == '\n' }

  lemma CrlfTail(s: string)
    requires s != "" && !Pair(s, 0, '\r', '\n')
    ensures HasCrlf(s) == HasCrlf(s[1..])
  {
  }

  /** Rewriting newlines changes a text exactly when it holds one to rewrite. */
  lemma {:induction false} UnixNewlinesChanges(s: string)
    ensures |UnixNewlines(s)| <= |s|
    ensures if HasCrlf(s) then |UnixNewlines(s)| < |s| else UnixNewlines(s) == s
    decreases |s|
  {
    if Pair(s, 0, '\r', '\n') {
      UnixNewlinesChanges(s[2..]);
    } else if s != "" {
      UnixNewlinesChanges(s[1..]);
      CrlfTail(s);
      assert s == [s[0]] + s[1..];
    }
  }

  function UnixParts(parts: seq<Part>): seq<Part> {
    if parts == [] then []
    else
      [match parts[0] case Word(text) => Word(text) case Name(name) => Name(UnixNewlines(name))]
      + UnixParts(parts[1..])
  }

  /** Text that ends in no carriage return, or is followed by no newline, is rewritten on its own. */
  lemma {:induction false} UnixNewlinesAppend(a: string, b: string)
    requires (a != "" && a[|a| - 1] == '\r') ==> b == "" || b[0] != '\n'
    ensures UnixNewlines(a + b) == UnixNewlines(a) + UnixNewlines(b)
    decreases |a|
  {
    if a == "" {
      assert a + b == b;
    } else if Pair(a, 0, '\r', '\n') {
      assert Pair(a + b, 0, '\r', '\n') && (a + b)[2..] == a[2..] + b;
      UnixNewlinesAppend(a[2..], b);
    } else {
      assert !Pair(a + b, 0, '\r', '\n') && (a + b)[0] == a[0] && (a + b)[1..] == a[1..] + b;
      UnixNewlinesAppend(a[1..], b);
    }
  }

  lemma {:induction false} UnixNewlinesPlain(s: string)
    requires '\r' !in s
    ensures UnixNewlines(s) == s
  {
    if s != "" {
      UnixNewlinesPlain(s[1..]);
    }
  }

  lemma {:induction false} UnixNewlinesDoubled(s: string)
    ensures UnixNewlines(Doubled(s, '"')) == Doubled(UnixNewlines(s), '"')
    decreases |s|
  {
    if Pair(s, 0, '\r', '\n') {
      var t := s[2..];
      UnixNewlinesDoubled(t);
      assert Doubled(s, '"') == ['\r'] + Doubled(s[1..], '"');
      assert s[1..][1..] == t && Doubled(s[1..], '"') == ['\n'] + Doubled(t, '"');
      assert Doubled(s, '"')[2..] == Doubled(t, '"');
      assert (['\n'] + UnixNewlines(t))[1..] == UnixNewlines(t);
    } else if s != "" {
      var t := s[1..];
      UnixNewlinesDoubled(t);
      var head := if s[0] == '"' then "\"\"" else [s[0]];
      assert Doubled(s, '"') == head + Doubled(t, '"');
      assert ([s[0]] + UnixNewlines(t))[1..] == UnixNewlines(t);
      UnixNewlinesHead(head, Doubled(t, '"'), t);
    }
  }

  lemma UnixNewlinesHead(head: string, d: string, t: string)
    requires head == "\"\"" || (|head| == 1 && head[0] != '"')
    requires d == Doubled(t, '"')
    requires |head| == 1 && head[0] == '\r' ==> t == "" || t[0] != '\n'
    ensures UnixNewlines(head + d) == head + UnixNewlines(d)
  {
  }

  lemma {:induction false} RenderUnix(parts: seq<Part>)
    requires Printable(parts)
    ensures UnixNewlines(Render(parts)) == Render(UnixParts(parts))
    ensures |UnixParts(parts)| == |parts|
    ensures forall k | 0 <= k < |parts| :: UnixParts(parts)[k].Word? == parts[k].Word?
    ensures forall k | 0 <= k < |parts| && parts[k].Word? :: UnixParts(parts)[k] == parts[k]
    decreases parts
  {
    if parts != [] {
      RestPrintable(parts);
      RenderUnix(parts[1..]);
      var text, rest := PartText(parts[0]), Render(parts[1..]);
      assert UnixParts(parts)[1..] == UnixParts(parts[1..]);
      if parts[0].Word? {
        assert forall c | c in text :: SafeChar(c);
        UnixNewlinesPlain(text);
        assert text[|text| - 1] in text;
        UnixNewlinesAppend(text, rest);
      } else {
        UnixNewlinesAppend(text, rest);
        UnixNewlinesQuoted(parts[0].name);
      }
    }
  }

  lemma UnixNewlinesQuoted(name: string)
    ensures UnixNewlines(Quoted(name, '"')) == Quoted(UnixNewlines(name), '"')
  {
    var d := Doubled(name, '"');
    UnixNewlinesDoubled(name);
    assert UnixNewlines("\"") == "\"" by {
      UnixNewlinesPlain("\"");
    }
    assert "\"" + (d + "\"") == Quoted(name, '"');
    UnixNewlinesAppend("\"", d + "\"");
    UnixNewlinesAppend(d, "\"");
  }

  function UnixAll(texts: seq<string>): seq<string> {
    if texts == [] then [] else [UnixNewlines(texts[0])] + UnixAll(texts[1..])
  }

  function UnixStatements(statements: seq<seq<Part>>): seq<seq<Part>> {
    if statements == [] then [] else [UnixParts(statements[0])] + UnixStatements(statements[1..])
  }

  lemma {:induction false} UnixStatementsPrint(statements: seq<seq<Part>>)
    requires forall st | st in statements :: StatementParts(st)
    ensures forall st | st in UnixStatements(statements) :: StatementParts(st)
    ensures RenderAll(UnixStatements(statements)) == UnixAll(RenderAll(statements))
    ensures UnixNewlines(Join(RenderAll(statements), ";")) == Join(RenderAll(UnixStatements(statements)), ";")
  {
    if statements != [] {
      var st, rest := statements[0], statements[1..];
      assert st in statements;
      RenderUnix(st);
      UnixStatementsPrint(rest);
      var texts, us := RenderAll(statements), UnixStatements(statements);
      assert texts[1..] == RenderAll(rest) && us[1..] == UnixStatements(rest);
      assert RenderAll(us)[1..] == RenderAll(us[1..]);
      UnixPartsPrintable(st);
      if rest != [] {
        UnixNewlinesCompose(Render(st), Join(RenderAll(rest), ";"));
      }
    }
  }

  lemma UnixPartsPrintable(parts: seq<Part>)
    requires StatementParts(parts)
    ensures StatementParts(UnixParts(parts))
  {
    RenderUnix(parts);
    var us := UnixParts(parts);
    forall k | 0 <= k < |us| - 1 && us[k].Name? ensures us[k + 1].Word? {
      assert parts[k].Name?;
    }
  }

  /** Splitting the joined statements gives each of them back, but for the rewriting of its newlines. */
  lemma SplitJoined(statements: seq<seq<Part>>)
    requires forall st | st in statements :: StatementParts(st)
    ensures SplitTexts(Join(RenderAll(statements), ";")) == UnixAll(RenderAll(statements))
  {
    UnixStatementsPrint(statements);
    JoinedTexts(UnixStatements(statements));
  }

  /** Print and scan undo each other exactly when no printed statement holds a CRLF. */
  lemma PrintScanRoundTrip(statements: seq<seq<Part>>)
    requires forall st | st in statements :: StatementParts(st)
    ensures SplitTexts(Join(RenderAll(statements), ";")) == RenderAll(statements)
       <==> forall text | text in RenderAll(statements) :: !HasCrlf(text)
  {
    hide SplitTexts, HasCrlf;
    SplitJoined(statements);
    UnixAllUnchanged(RenderAll(statements));
  }

  lemma {:induction false} UnixAllUnchanged(texts: seq<string>)
    ensures UnixAll(texts) == texts <==> forall text | text in texts :: !HasCrlf(text)
  {
    hide HasCrlf, UnixNewlines;
    if texts != [] {
      UnixNewlinesChanges(texts[0]);
      UnixAllUnchanged(texts[1..]);
      assert UnixAll(texts)[0] == UnixNewlines(texts[0]) && UnixAll(texts)[1..] == UnixAll(texts[1..]);
      assert texts == [texts[0]] + texts[1..];
    }
  }
}
