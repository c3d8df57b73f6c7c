/** What the scanner's dollar quotes are, spelled by their characters. */
module SqlTokens {
  import opened Text
  import opened SqlScanner
  import opened SqlStructure
  import opened SqlComposition
  import opened SqlQuoting

  predicate TagStart(c: char) { 'a' <= c <= 'z' || 'A' <= c <= 'Z' || c == '_' }

  predicate TagChar(c: char) { TagStart(c) || '0' <= c <= '9' }

  /** `$$`, or `$tag$` with a name that starts with no digit; at most 64 characters with its dollars. */
  predicate IsTag(tag: string) {
    && 2 <= |tag| <= 64 && tag[0] == '$' && tag[|tag| - 1] == '$'
    && (|tag| > 2 ==> TagStart(tag[1]))
    && forall k | 1 <= k < |tag| - 1 :: TagChar(tag[k])
  }

  /** A dollar opens a body after anything but a word character or another dollar. */
  predicate Opens(p: string) { p == "" || (!TagChar(p[|p| - 1]) && p[|p| - 1] != '$') }

  predicate StandsAt(text: string, tag: string, k: nat) { k + |tag| <= |text| && text[k..k + |tag|] == tag }

  /** The first `tag` of `text` stands at `at`. */
  predicate FirstAt(text: string, tag: string, at: nat) {
    StandsAt(text, tag, at) && forall k: nat | k < at :: !StandsAt(text, tag, k)
  }

  ghost predicate Nowhere(text: string, tag: string) { forall k: nat :: !StandsAt(text, tag, k) }

  // ---------------------------------------------------------------------------
  //  The tag the scanner finds is the one there is.
  // ---------------------------------------------------------------------------

  lemma WordChars(c: char)
    ensures IsWord(c) <==> TagChar(c)
    ensures TagStart(c) <==> IsWord(c) && !IsDigit(c)
  {
  }

  /** The word from `i` ends where a character of another kind stands. */
  lemma {:induction false} WordEndIs(s: string, i: nat, e: nat)
    requires i <= e < |s| && (forall k | i <= k < e :: TagChar(s[k])) && !TagChar(s[e])
    ensures WordEnd(s, i) == e
    decreases e - i
  {
    WordChars(s[i]);
    if i < e {
      WordEndIs(s, i + 1, e);
    }
  }

  lemma TagAt(s: string, i: nat, e: nat)
    requires i < e <= |s| && IsTag(s[i..e])
    ensures DollarTag(s, i) == s[i..e]
  {
    var tag := s[i..e];
    forall k | i + 1 <= k < e - 1 ensures TagChar(s[k]) {
      assert s[k] == tag[k - i];
    }
    assert s[e - 1] == tag[|tag| - 1] == '$';
    WordEndIs(s, i + 1, e - 1);
    if |tag| > 2 {
      assert s[i + 1] == tag[1];
      WordChars(s[i + 1]);
    }
  }

  lemma TagIsOne(s: string, i: nat)
    requires i < |s| && DollarTag(s, i) != ""
    ensures i + |DollarTag(s, i)| <= |s| && s[i..i + |DollarTag(s, i)|] == DollarTag(s, i) && IsTag(DollarTag(s, i))
  {
    var tag := DollarTag(s, i);
    forall k | 1 <= k < |tag| - 1 ensures TagChar(tag[k]) {
      assert tag[k] == s[i + k];
      WordChars(s[i + k]);
    }
    if |tag| > 2 {
      assert tag[1] == s[i + 1];
      WordChars(s[i + 1]);
    }
  }

  // ---------------------------------------------------------------------------
  //  The token of a dollar.
  // ---------------------------------------------------------------------------

  lemma OpensAt(s: string, i: nat)
    requires i < |s| && s[i] == '$'
    ensures DollarMayOpen(s, i) <==> Opens(s[..i])
  {
    if i > 0 {
      WordChars(s[i - 1]);
      assert s[..i][|s[..i]| - 1] == s[i - 1];
    }
  }

  lemma DollarToken(s: string, i: nat)
    requires i < |s| && s[i] == '$'
    ensures TokenAt(s, i) ==
            if DollarMayOpen(s, i) && DollarTag(s, i) != "" then
              var (end, closed) := DollarEnd(s, i, DollarTag(s, i)); Token(DollarBody, i, end, closed)
            else Token(Plain, i, i + 1, true)
  {
  }

  lemma StandsShift(p: string, text: string, rest: string, tag: string, k: nat)
    requires k + |tag| <= |text|
    ensures MatchesAt(p + text + rest, tag, |p| + k) <==> StandsAt(text, tag, k)
  {
    assert (p + text + rest)[|p| + k..|p| + k + |tag|] == text[k..k + |tag|];
  }

  lemma StandsIn(p: string, text: string, tag: string, k: nat)
    ensures MatchesAt(p + text, tag, |p| + k) <==> StandsAt(text, tag, k)
  {
    if k + |tag| <= |text| {
      StandsShift(p, text, "", tag, k);
      assert p + text + "" == p + text;
    }
  }

  /** A dollar-quoted body is one token, from its tag to the first tag alike after it, whatever stands between. */
  lemma {:induction false} DollarBodyRead(p: string, tag: string, body: string, rest: string)
    requires IsTag(tag) && Opens(p) && FirstAt(body + tag, tag, |body|)
    ensures TokenAt(p + tag + body + tag + rest, |p|)
         == Token(DollarBody, |p|, |p| + 2 * |tag| + |body|, true)
  {
    hide IsTag, Opens, DollarTag, DollarMayOpen, StandsAt, MatchesAt, TokenAt;
    var s := p + tag + body + tag + rest;
    var from := |p| + |tag|;
    assert s == (p + tag) + (body + tag) + rest;
    assert s[|p|..from] == tag && s[..|p|] == p;
    TagDollar(tag);
    assert s[|p|] == tag[0];
    TagAt(s, |p|, from);
    OpensAt(s, |p|);
    DollarToken(s, |p|);
    forall k: nat | from <= k < from + |body| ensures !MatchesAt(s, tag, k) {
      StandsShift(p + tag, body + tag, rest, tag, k - from);
    }
    StandsShift(p + tag, body + tag, rest, tag, |body|);
    IndexOfIs(s, tag, from, from + |body|);
  }

  lemma TagDollar(tag: string)
    requires IsTag(tag)
    ensures tag != "" && tag[0] == '$'
  {
  }

  /** A body whose tag never comes again takes the rest of the text, and stays open. */
  lemma {:induction false} OpenBodyRead(p: string, tag: string, body: string)
    requires IsTag(tag) && Opens(p) && Nowhere(body, tag)
    ensures TokenAt(p + tag + body, |p|) == Token(DollarBody, |p|, |p + tag + body|, false)
  {
    hide IsTag, Opens, DollarTag, DollarMayOpen, StandsAt, MatchesAt, TokenAt;
    var s := p + tag + body;
    var from := |p| + |tag|;
    assert s[|p|..from] == tag && s[..|p|] == p;
    TagDollar(tag);
    assert s[|p|] == tag[0];
    TagAt(s, |p|, from);
    OpensAt(s, |p|);
    DollarToken(s, |p|);
    forall k: nat | from <= k ensures !MatchesAt(s, tag, k) {
      StandsIn(p + tag, body, tag, k - from);
    }
    IndexOfFirst(s, tag, from);
  }

  /** A dollar starts a body exactly where one may open and a tag starts; any other is a plain character. */
  lemma {:induction false} DollarOpensExactlyWhen(s: string, i: nat)
    requires i < |s| && s[i] == '$'
    ensures TokenAt(s, i).kind.DollarBody? <==> Opens(s[..i]) && exists e | i < e <= |s| :: IsTag(s[i..e])
    ensures !TokenAt(s, i).kind.DollarBody? ==> TokenAt(s, i) == Token(Plain, i, i + 1, true)
  {
    hide IsTag, Opens, DollarTag, DollarMayOpen, DollarEnd, TokenAt;
    OpensAt(s, i);
    DollarToken(s, i);
    forall e | i < e <= |s| && IsTag(s[i..e]) ensures DollarTag(s, i) != "" {
      TagAt(s, i, e);
    }
    if DollarTag(s, i) != "" {
      TagIsOne(s, i);
    }
  }

  // ---------------------------------------------------------------------------
  //  A statement with a dollar-quoted body.
  // ---------------------------------------------------------------------------

  /** Printed words and names are quiet where what follows them is. */
  lemma {:induction false} PartsQuietBefore(p: string, parts: seq<Part>, rest: string)
    requires Printable(parts) && (rest == "" || rest[0] != '"')
    requires Quiet(Lex(p + Render(parts) + rest, |p| + |Render(parts)|))
    ensures Quiet(Lex(p + Render(parts) + rest, |p|))
    decreases parts
  {
    hide Lex, TokenAt, SqlQuoting.Quoted;
    if parts != [] {
      var s := p + Render(parts) + rest;
      var text, more := PartText(parts[0]), Render(parts[1..]);
      assert s == (p + text) + more + rest && s == p + (text + (more + rest));
      RestPrintable(parts);
      PartsQuietBefore(p + text, parts[1..], rest);
      if parts[0].Word? {
        assert forall k | |p| <= k < |p| + |text| :: s[k] == text[k - |p|];
        WordQuiet(s, |p|, |p| + |text|);
      } else {
        RestUnquoted(parts);
        assert more + rest == "" || (more + rest)[0] == (if more == "" then rest[0] else more[0]);
        NameTokenAt(p, parts[0].name, more + rest);
        QuietStep(s, |p|);
      }
    }
  }

  /**
    * A statement that holds a dollar-quoted body, separators and quotes and comments in it included, is one piece, and
    * ends at top level, so what follows a separator after it is split on its own.
    */
  lemma {:induction false} BodyIsOnePiece(before: seq<Part>, tag: string, body: string, after: seq<Part>)
    requires StatementParts(before) && Opens(Render(before)) && Printable(after)
    requires IsTag(tag) && FirstAt(body + tag, tag, |body|)
    ensures var s := Render(before) + tag + body + tag + Render(after);
            PiecesOf(s) == [Piece(0, 0, |s|)] && EndsAtTop(s)
  {
    hide TokenAt, Lex, IsTag, Opens, FirstAt, SafeChar, Pieces, Quiet, Render;
    var p, rest := Render(before), Render(after);
    var s := p + tag + body + tag + rest;
    PartsQuiet(p + tag + body + tag, after);
    DollarBodyRead(p, tag, body, rest);
    TagDollar(tag);
    QuietStep(s, |p|);
    assert s == "" + p + (tag + body + tag + rest);
    PartsQuietBefore("", before, tag + body + tag + rest);
    FirstOfParts(before);
    assert s[0] == p[0];
    SafeTokenAt(s, 0);
    QuietAfter(s);
    QuietPieces(Lex(s, 1), |s|, 0);
    OnePieceFrom(s);
  }

  /** So is one that begins with such a body. */
  lemma {:induction false} BodyBegins(tag: string, body: string, after: seq<Part>)
    requires IsTag(tag) && FirstAt(body + tag, tag, |body|) && Printable(after)
    ensures var s := tag + body + tag + Render(after);
            PiecesOf(s) == [Piece(0, 0, |s|)] && EndsAtTop(s)
  {
    hide TokenAt, Lex, IsTag, FirstAt, SafeChar, Pieces, Quiet, Render;
    var rest := Render(after);
    var s := tag + body + tag + rest;
    PartsQuiet(tag + body + tag, after);
    assert "" + tag + body + tag + rest == s;
    DollarBodyRead("", tag, body, rest);
    TagDollar(tag);
    var end := 2 * |tag| + |body|;
    LexFirst(s, 0);
    QuietPieces(Lex(s, end), |s|, 0);
    OnePieceFirst(s, end);
  }

  lemma OnePieceFirst(s: string, end: nat)
    requires s != "" && TokenAt(s, 0) == Token(DollarBody, 0, end, true)
    requires AllClosed(Lex(s, end)) && Pieces(Lex(s, end), |s|, 0, 0) == [Piece(0, 0, |s|)]
    ensures PiecesOf(s) == [Piece(0, 0, |s|)] && EndsAtTop(s)
  {
    var ts := Lex(s, 0);
    assert ts[1..] == Lex(s, end) && ts[0] == TokenAt(s, 0);
  }

  /** So is one that begins with a quoted name. */
  lemma {:induction false} NameBegins(parts: seq<Part>)
    requires Printable(parts) && parts != [] && parts[0].Name?
    ensures PiecesOf(Render(parts)) == [Piece(0, 0, |Render(parts)|)] && EndsAtTop(Render(parts))
  {
    hide TokenAt, Lex, SafeChar, Pieces, Quiet, SqlQuoting.Quoted;
    var s, text, rest := Render(parts), PartText(parts[0]), Render(parts[1..]);
    RestPrintable(parts);
    RestUnquoted(parts);
    assert s == "" + (text + rest) && s == text + rest && text == SqlQuoting.Quoted(parts[0].name, '"');
    NameTokenAt("", parts[0].name, rest);
    PartsQuiet(text, parts[1..]);
    LexFirst(s, 0);
    QuietPieces(Lex(s, |text|), |s|, 0);
    OnePieceQuoted(s, |text|);
  }

  lemma OnePieceQuoted(s: string, end: nat)
    requires s != "" && TokenAt(s, 0) == Token(Kind.Quoted, 0, end, true)
    requires AllClosed(Lex(s, end)) && Pieces(Lex(s, end), |s|, 0, 0) == [Piece(0, 0, |s|)]
    ensures PiecesOf(s) == [Piece(0, 0, |s|)] && EndsAtTop(s)
  {
    var ts := Lex(s, 0);
    assert ts[1..] == Lex(s, end) && ts[0] == TokenAt(s, 0);
  }

  lemma FirstOfParts(parts: seq<Part>)
    requires StatementParts(parts)
    ensures Render(parts) != "" && SafeChar(Render(parts)[0]) && !IsSpace(Render(parts)[0])
  {
    hide SafeChar;
    assert parts[0].text[0] in parts[0].text && Render(parts)[0] == parts[0].text[0];
  }

  lemma QuietAfter(s: string)
    requires s != "" && TokenAt(s, 0).end == 1 && Quiet(Lex(s, 0))
    ensures Quiet(Lex(s, 1))
  {
    LexFirst(s, 0);
    assert Lex(s, 0)[1..] == Lex(s, 1);
  }

  lemma OnePieceFrom(s: string)
    requires s != "" && TokenAt(s, 0).end == 1 && TokenAt(s, 0).kind.Code() && TokenAt(s, 0).closed
    requires TokenAt(s, 0).start == 0 && AllClosed(Lex(s, 1)) && Pieces(Lex(s, 1), |s|, 0, 0) == [Piece(0, 0, |s|)]
    ensures PiecesOf(s) == [Piece(0, 0, |s|)] && EndsAtTop(s)
  {
    var ts := Lex(s, 0);
    assert ts[1..] == Lex(s, 1) && ts[0] == TokenAt(s, 0);
  }

  // ---------------------------------------------------------------------------
  //  Lines.
  // ---------------------------------------------------------------------------

  lemma {:induction false} LinesCount(s: string)
    ensures |SplitOn(s, '\n')| == CountChar(s, '\n') + 1
  {
    if s != "" {
      LinesCount(s[1..]);
    }
  }

  /** A statement's line is the number of lines its first token's text reaches: the first is 1. */
  lemma LineReads(s: string, i: nat)
    requires i <= |s|
    ensures LineAt(s, i) == |SplitOn(s[..i], '\n')|
  {
    LinesCount(s[..i]);
  }
}
