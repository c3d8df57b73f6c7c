/** What the pieces of a text are: ordered, disjoint, and all of its code. */
module SqlStructure {
  import opened Text
  import opened SqlScanner

  /** The tokens cover `[from, to)` end to end. */
  predicate Tiles(ts: seq<Token>, from: nat, to: nat) {
    if ts == [] then from == to
    else ts[0].start == from < ts[0].end && Tiles(ts[1..], ts[0].end, to)
  }

  lemma {:induction false} LexTiles(s: string, i: nat)
    requires i <= |s|
    ensures Tiles(Lex(s, i), i, |s|)
    decreases |s| - i
  {
    if i < |s| {
      LexTiles(s, TokenAt(s, i).end);
    }
  }

  /**
   * From `lo` on, each piece owns `[segment, end)`: its leading comments, then its statement.
   * The next piece starts after the separator that ends it.
   */
  predicate Ordered(ps: seq<Piece>, lo: nat, n: nat) {
    && (forall k | 0 <= k < |ps| :: lo <= ps[k].segment <= ps[k].first < ps[k].end <= n)
    && (forall k, l | 0 <= k < l < |ps| :: ps[k].end < ps[l].segment)
  }

  lemma {:induction false} PiecesOrdered(ts: seq<Token>, from: nat, n: nat, segment: nat, first: int)
    requires Tiles(ts, from, n) && from <= n
    requires segment <= from && first >= -1 && (first != -1 ==> segment <= first < from)
    ensures Ordered(Pieces(ts, n, segment, first), segment, n)
    decreases ts
  {
    if ts != [] {
      var t := ts[0];
      TilesBound(ts[1..], t.end, n);
      if t.kind.Semicolon? {
        PiecesOrdered(ts[1..], t.end, n, t.end, -1);
      } else {
        PiecesOrdered(ts[1..], t.end, n, segment, if first == -1 && t.kind.Code() then t.start else first);
      }
    }
  }

  lemma {:induction false} TilesBound(ts: seq<Token>, from: nat, to: nat)
    requires Tiles(ts, from, to)
    ensures from <= to
    ensures forall t | t in ts :: from <= t.start < t.end <= to
    decreases ts
  {
    if ts != [] {
      TilesBound(ts[1..], ts[0].end, to);
    }
  }

  ghost predicate Holds(p: Piece, t: Token) { p.first <= t.start && t.end <= p.end }

  ghost predicate Covered(ps: seq<Piece>, t: Token) { exists p | p in ps :: Holds(p, t) }

  ghost predicate Outside(p: Piece, t: Token) { t.end <= p.segment || p.end <= t.start }

  /** A statement already begun at `first` is the first piece, and reaches the rest of the tokens. */
  lemma {:induction false} FirstPiece(ts: seq<Token>, from: nat, n: nat, segment: nat, first: nat)
    requires Tiles(ts, from, n) && segment <= first < from <= n
    ensures var ps := Pieces(ts, n, segment, first);
            |ps| > 0 && ps[0].first == first && ps[0].end >= from
    decreases ts
  {
    if ts != [] && !ts[0].kind.Semicolon? {
      TilesBound(ts[1..], ts[0].end, n);
      FirstPiece(ts[1..], ts[0].end, n, segment, first);
    }
  }

  /** Every code token lies inside a piece. */
  lemma {:induction false} CodeCovered(ts: seq<Token>, from: nat, n: nat, segment: nat, first: int)
    requires Tiles(ts, from, n) && from <= n
    requires segment <= from && first >= -1 && (first != -1 ==> segment <= first < from)
    ensures forall t | t in ts && t.kind.Code() :: Covered(Pieces(ts, n, segment, first), t)
    decreases ts
  {
    if ts != [] {
      var t, rest := ts[0], ts[1..];
      var ps := Pieces(ts, n, segment, first);
      TilesBound(rest, t.end, n);
      if t.kind.Semicolon? {
        CodeCovered(rest, t.end, n, t.end, -1);
        var qs := Pieces(rest, n, t.end, -1);
        assert ps == Flushed(segment, first, t.start) + qs;
        forall u | u in ts && u.kind.Code() ensures Covered(ps, u) {
          assert u in rest;
          var p :| p in qs && Holds(p, u);
          assert p in ps;
        }
      } else {
        var begun := if first == -1 && t.kind.Code() then t.start else first;
        CodeCovered(rest, t.end, n, segment, begun);
        if t.kind.Code() {
          FirstPiece(rest, t.end, n, segment, begun);
          assert ps[0] in ps && Holds(ps[0], t);
        }
      }
    }
  }

  /** Every separator lies outside every piece. */
  lemma {:induction false} SeparatorsOutside(ts: seq<Token>, from: nat, n: nat, segment: nat, first: int)
    requires Tiles(ts, from, n) && from <= n
    requires segment <= from && first >= -1 && (first != -1 ==> segment <= first < from)
    ensures forall t, p | t in ts && t.kind.Semicolon? && p in Pieces(ts, n, segment, first) :: Outside(p, t)
    decreases ts
  {
    if ts != [] {
      var t, rest := ts[0], ts[1..];
      var ps := Pieces(ts, n, segment, first);
      TilesBound(rest, t.end, n);
      if t.kind.Semicolon? {
        SeparatorsOutside(rest, t.end, n, t.end, -1);
        PiecesOrdered(rest, t.end, n, t.end, -1);
        var qs := Pieces(rest, n, t.end, -1);
        assert ps == Flushed(segment, first, t.start) + qs;
        forall u, p | u in ts && u.kind.Semicolon? && p in ps ensures Outside(p, u) {
          assert u == t || u in rest;
          assert p in Flushed(segment, first, t.start) || p in qs;
        }
      } else {
        SeparatorsOutside(rest, t.end, n, segment, if first == -1 && t.kind.Code() then t.start else first);
      }
    }
  }

  /** A character in no piece belongs to white space, a comment or a separator. */
  ghost predicate Idle(s: string, k: nat) {
    exists t | t in Lex(s, 0) :: t.start <= k < t.end && !t.kind.Code()
  }

  lemma {:induction false} TileAt(ts: seq<Token>, from: nat, to: nat, k: nat)
    requires Tiles(ts, from, to) && from <= k < to
    ensures exists t | t in ts :: t.start <= k < t.end
    decreases ts
  {
    if k < ts[0].end {
      assert ts[0] in ts;
    } else {
      TileAt(ts[1..], ts[0].end, to, k);
      var t :| t in ts[1..] && t.start <= k < t.end;
      assert t in ts;
    }
  }

  /** The splitter drops nothing but white space, comments and separators, and cuts at every separator. */
  lemma SplitPartition(s: string)
    ensures Ordered(PiecesOf(s), 0, |s|)
    ensures forall t | t in Lex(s, 0) && t.kind.Code() :: Covered(PiecesOf(s), t)
    ensures forall t, p | t in Lex(s, 0) && t.kind.Semicolon? && p in PiecesOf(s) :: Outside(p, t)
    ensures forall k: nat | k < |s| && (forall p | p in PiecesOf(s) :: !(p.first <= k < p.end)) :: Idle(s, k)
  {
    LexTiles(s, 0);
    PiecesOrdered(Lex(s, 0), 0, |s|, 0, -1);
    CodeCovered(Lex(s, 0), 0, |s|, 0, -1);
    SeparatorsOutside(Lex(s, 0), 0, |s|, 0, -1);
    forall k: nat | k < |s| && (forall p | p in PiecesOf(s) :: !(p.first <= k < p.end)) ensures Idle(s, k) {
      TileAt(Lex(s, 0), 0, |s|, k);
      var t :| t in Lex(s, 0) && t.start <= k < t.end;
      assert t.kind.Code() ==> Covered(PiecesOf(s), t);
    }
  }
}
