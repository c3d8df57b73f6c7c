/** What the guard promises: it composes, and a marker only waives, and only the statement below it. */
module SqlGuard {
  import opened Text
  import opened SqlScanner
  import opened SqlStructure
  import opened SqlComposition
  import opened SqlCompat

  // ---------------------------------------------------------------------------
  //  Composition.
  // ---------------------------------------------------------------------------

  function ShiftViolations(vs: seq<Violation>, d: nat): seq<Violation> {
    if vs == [] then [] else [vs[0].(line := vs[0].line + d)] + ShiftViolations(vs[1..], d)
  }

  lemma {:induction false} ShiftViolationsAppend(x: seq<Violation>, y: seq<Violation>, d: nat)
    ensures ShiftViolations(x + y, d) == ShiftViolations(x, d) + ShiftViolations(y, d)
  {
    if x == [] {
      assert x + y == y;
    } else {
      assert (x + y)[0] == x[0] && (x + y)[1..] == x[1..] + y;
      ShiftViolationsAppend(x[1..], y, d);
    }
  }

  lemma {:induction false} UnwaivedShift(reports: seq<(Rule, string)>, m: Marker, line: nat, q: string, d: nat)
    ensures Unwaived(reports, m, line + d, q) == ShiftViolations(Unwaived(reports, m, line, q), d)
  {
    if reports != [] {
      UnwaivedShift(reports[1..], m, line, q, d);
      ShiftViolationsAppend(
        if Waived(reports[0].0, m) then [] else [Violation(line, reports[0].0, reports[0].1, q)],
        Unwaived(reports[1..], m, line, q), d);
    }
  }

  lemma StatementViolationsShift(rules: Rules, st: Statement, d: nat)
    ensures StatementViolations(rules, st.(line := st.line + d)) == ShiftViolations(StatementViolations(rules, st), d)
  {
    hide Reports, MarkerAmong, Quote, Unwaived, ShiftViolations;
    var text := rules.withColumnKeyword(st.text);
    UnwaivedShift(Reports(rules, text), MarkerAmong(rules, st.leading), st.line, Quote(text), d);
  }

  lemma {:induction false} ViolationsShift(rules: Rules, ss: seq<Statement>, d: nat)
    ensures Violations(rules, ShiftLines(ss, d)) == ShiftViolations(Violations(rules, ss), d)
  {
    hide StatementViolations;
    if ss != [] {
      var ts := ShiftLines(ss, d);
      assert ts[0] == ss[0].(line := ss[0].line + d) && ts[1..] == ShiftLines(ss[1..], d);
      StatementViolationsShift(rules, ss[0], d);
      ViolationsShift(rules, ss[1..], d);
      ShiftViolationsAppend(StatementViolations(rules, ss[0]), Violations(rules, ss[1..]), d);
    }
  }

  /** The guard judges a file part by part: `a` closed, a separator, then anything. */
  lemma {:induction false} ViolationsCompose(rules: Rules, a: string, b: string)
    requires EndsAtTop(UnixNewlines(a))
    ensures CompatViolations(rules, a + ";" + b)
         == CompatViolations(rules, a)
            + ShiftViolations(CompatViolations(rules, b), CountChar(UnixNewlines(a), '\n'))
  {
    hide Split, Violations, ShiftLines;
    var d := CountChar(UnixNewlines(a), '\n');
    SplitCompose(a, b, rules.normalize);
    ViolationsAppend(rules, Split(a, rules.normalize), ShiftLines(Split(b, rules.normalize), d));
    ViolationsShift(rules, Split(b, rules.normalize), d);
  }

  // ---------------------------------------------------------------------------
  //  Raising a marker.
  // ---------------------------------------------------------------------------

  /** What is left of `vs` once `m` waives what it may. */
  function Remaining(vs: seq<Violation>, m: Marker): seq<Violation> {
    if vs == [] then []
    else (if Waived(vs[0].rule, m) then [] else [vs[0]]) + Remaining(vs[1..], m)
  }

  lemma {:induction false} RemainingAppend(x: seq<Violation>, y: seq<Violation>, m: Marker)
    ensures Remaining(x + y, m) == Remaining(x, m) + Remaining(y, m)
  {
    if x == [] {
      assert x + y == y;
    } else {
      assert (x + y)[0] == x[0] && (x + y)[1..] == x[1..] + y;
      RemainingAppend(x[1..], y, m);
    }
  }

  lemma {:induction false} UnwaivedRaised(reports: seq<(Rule, string)>, m: Marker, m': Marker, line: nat, q: string)
    requires m.Rank() <= m'.Rank()
    ensures Unwaived(reports, m', line, q) == Remaining(Unwaived(reports, m, line, q), m')
  {
    if reports != [] {
      UnwaivedRaised(reports[1..], m, m', line, q);
      RemainingAppend(
        if Waived(reports[0].0, m) then [] else [Violation(line, reports[0].0, reports[0].1, q)],
        Unwaived(reports[1..], m, line, q), m');
    }
  }

  /** Raising a statement's marker leaves exactly the violations the new marker does not waive. */
  lemma MarkerRaised(rules: Rules, st: Statement, leading': seq<string>)
    requires MarkerAmong(rules, st.leading).Rank() <= MarkerAmong(rules, leading').Rank()
    ensures StatementViolations(rules, st.(leading := leading'))
         == Remaining(StatementViolations(rules, st), MarkerAmong(rules, leading'))
  {
    hide Reports, MarkerAmong;
    var text := rules.withColumnKeyword(st.text);
    UnwaivedRaised(Reports(rules, text), MarkerAmong(rules, st.leading), MarkerAmong(rules, leading'), st.line,
                   Quote(text));
  }

  /** What no marker waives. */
  function Hard(vs: seq<Violation>): seq<Violation> {
    if vs == [] then []
    else (if vs[0].rule == Forbidden || vs[0].rule == Idempotency then [vs[0]] else []) + Hard(vs[1..])
  }

  /** `xs` is what is left of `ys` after removing some elements. */
  ghost predicate Within(xs: seq<Violation>, ys: seq<Violation>) {
    if xs == [] then true
    else if ys == [] then false
    else (xs[0] == ys[0] && Within(xs[1..], ys[1..])) || Within(xs, ys[1..])
  }

  lemma {:induction false} WithinAppend(a: seq<Violation>, b: seq<Violation>, c: seq<Violation>, d: seq<Violation>)
    requires Within(a, b) && Within(c, d)
    ensures Within(a + c, b + d)
    decreases |a| + |b|
  {
    if b == [] {
      assert a == [] && a + c == c && b + d == d;
    } else {
      assert (b + d)[0] == b[0] && (b + d)[1..] == b[1..] + d;
      if a == [] {
        WithinAppend(a, b[1..], c, d);
        assert a + c == c;
      } else {
        assert (a + c)[0] == a[0] && (a + c)[1..] == a[1..] + c;
        if a[0] == b[0] && Within(a[1..], b[1..]) {
          WithinAppend(a[1..], b[1..], c, d);
        } else {
          WithinAppend(a, b[1..], c, d);
        }
      }
    }
  }

  lemma {:induction false} HardAppend(x: seq<Violation>, y: seq<Violation>)
    ensures Hard(x + y) == Hard(x) + Hard(y)
  {
    if x == [] {
      assert x + y == y;
    } else {
      assert (x + y)[0] == x[0] && (x + y)[1..] == x[1..] + y;
      HardAppend(x[1..], y);
    }
  }

  lemma {:induction false} RemainingKeepsHard(vs: seq<Violation>, m: Marker)
    ensures Within(Remaining(vs, m), vs) && Hard(Remaining(vs, m)) == Hard(vs)
  {
    if vs != [] {
      RemainingKeepsHard(vs[1..], m);
      var keep := if Waived(vs[0].rule, m) then [] else [vs[0]];
      HardAppend(keep, Remaining(vs[1..], m));
      if keep == [] {
        assert Remaining(vs, m) == Remaining(vs[1..], m);
      } else {
        assert Remaining(vs, m)[1..] == Remaining(vs[1..], m);
      }
    }
  }

  /** The same statements, each under a marker at least as strong. */
  ghost predicate Raised(rules: Rules, ss: seq<Statement>, ss': seq<Statement>) {
    && |ss'| == |ss|
    && forall k | 0 <= k < |ss| ::
         && ss'[k].text == ss[k].text && ss'[k].line == ss[k].line
         && MarkerAmong(rules, ss[k].leading).Rank() <= MarkerAmong(rules, ss'[k].leading).Rank()
  }

  /** Raising markers only removes violations, and never a forbidden or idempotency one. */
  lemma {:induction false} MarkersOnlyWaive(rules: Rules, ss: seq<Statement>, ss': seq<Statement>)
    requires Raised(rules, ss, ss')
    ensures Within(Violations(rules, ss'), Violations(rules, ss))
    ensures Hard(Violations(rules, ss')) == Hard(Violations(rules, ss))
  {
    hide StatementViolations, MarkerAmong, Within, Hard;
    if ss == [] {
      NothingWithin([]);
    } else {
      var v := StatementViolations(rules, ss[0]);
      MarkerRaised(rules, ss[0], ss'[0].leading);
      assert ss[0].(leading := ss'[0].leading) == ss'[0];
      var v' := StatementViolations(rules, ss'[0]);
      RemainingKeepsHard(v, MarkerAmong(rules, ss'[0].leading));
      MarkersOnlyWaive(rules, ss[1..], ss'[1..]);
      WithinAppend(v', v, Violations(rules, ss'[1..]), Violations(rules, ss[1..]));
      HardAppend(v, Violations(rules, ss[1..]));
      HardAppend(v', Violations(rules, ss'[1..]));
    }
  }

  lemma NothingWithin(ys: seq<Violation>)
    ensures Within([], ys)
  {
  }

  // ---------------------------------------------------------------------------
  //  A comment line written above a file.
  // ---------------------------------------------------------------------------

  /** One line that the lexer reads as a comment. */
  predicate CommentLine(m: string) { "--" <= m && '\n' !in m && '\r' !in m }

  predicate AllComments(lines: seq<string>) { forall l | l in lines :: IsCommentLine(l) }

  lemma {:induction false} LeadingRunUnder(x: string, lines: seq<string>)
    requires IsCommentLine(x)
    ensures LeadingRun([x] + lines) == if AllComments(lines) then [Trim(x)] + LeadingRun(lines) else LeadingRun(lines)
  {
    hide IsCommentLine;
    if lines == [] {
      assert ([x] + lines)[..0] == [];
      assert LeadingRun([x] + lines) == LeadingRun([]) + [Trim(x)];
    } else {
      var init, last := lines[..|lines| - 1], lines[|lines| - 1];
      assert ([x] + lines)[..|lines|] == [x] + init && lines == init + [last];
      if IsCommentLine(last) {
        LeadingRunUnder(x, init);
        assert AllComments(lines) <==> AllComments(init);
      } else {
        assert last in lines;
      }
    }
  }

  /** A comment line counts for the statement below exactly when only comment lines come between them. */
  lemma LeadingUnder(m: string, prefix: string)
    requires CommentLine(m) && IsCommentLine(m)
    ensures Leading(m + "\n" + prefix)
         == if AllComments(LinesAbove(prefix)) then [Trim(m)] + Leading(prefix) else Leading(prefix)
  {
    hide LeadingRun, IsCommentLine, AllComments, SplitOn;
    SplitOnSep(m, '\n', prefix);
    SplitOnNone(m, '\n');
    assert "\n" == ['\n'];
    var lines := SplitOn(prefix, '\n');
    assert ([m] + lines)[..|lines|] == [m] + LinesAbove(prefix);
    LeadingRunUnder(m, LinesAbove(prefix));
  }

  lemma {:induction false} TrimEndKeeps(m: string)
    requires "--" <= m
    ensures "--" <= TrimEnd(m)
  {
    if IsSpace(m[|m| - 1]) {
      assert m[0] == '-' && m[1] == '-';
      TrimEndKeeps(m[..|m| - 1]);
    }
  }

  lemma CommentLineIs(m: string)
    requires CommentLine(m)
    ensures IsCommentLine(m)
  {
    TrimEndKeeps(m);
    assert TrimStart(m) == m;
  }

  /** The line and its newline are two tokens; what follows only shifts. */
  lemma LexUnderLine(m: string, b: string)
    requires CommentLine(m)
    ensures Lex(m + "\n" + b, 0)
         == [Token(LineComment, 0, |m|, true), Token(Space, |m|, |m| + 1, true)] + ShiftTokens(Lex(b, 0), |m| + 1)
  {
    hide Lex, TokenAt, ShiftTokens;
    var s, p := m + "\n" + b, m + "\n";
    CommentTokenAt(m, b);
    LexIs(s, 0, Token(LineComment, 0, |m|, true));
    SpaceTokenAt(s, |m|);
    LexIs(s, |m|, Token(Space, |m|, |m| + 1, true));
    LexShifts(p, b, 0);
  }

  lemma CommentTokenAt(m: string, b: string)
    requires CommentLine(m)
    ensures TokenAt(m + "\n" + b, 0) == Token(LineComment, 0, |m|, true)
  {
    var s := m + "\n" + b;
    assert s[0] == '-' && s[1] == '-';
    forall k: nat | k < |m| ensures !MatchesAt(s, "\n", k) {
      assert s[k] == m[k] && s[k..k + 1][0] == s[k];
    }
    assert s[|m|..|m| + 1] == "\n";
    IndexOfIs(s, "\n", 0, |m|);
  }

  lemma SpaceTokenAt(s: string, i: nat)
    requires i < |s| && s[i] == '\n'
    ensures TokenAt(s, i) == Token(Space, i, i + 1, true)
  {
  }

  /** The same pieces, but that a first piece in the segment at `from` now has it start at `to`. */
  ghost predicate Resegmented(ps: seq<Piece>, from: nat, to: nat, ps': seq<Piece>) {
    ps' == ps || (ps != [] && ps[0].segment == from && ps' == [ps[0].(segment := to)] + ps[1..])
  }

  /** Where the first segment starts shows only in a first piece that lies in it. */
  lemma {:induction false} PiecesResegment(ts: seq<Token>, n: nat, segment: nat, segment': nat, first: int)
    requires first >= -1
    ensures Resegmented(Pieces(ts, n, segment, first), segment, segment', Pieces(ts, n, segment', first))
    decreases ts
  {
    if ts != [] && !ts[0].kind.Semicolon? {
      PiecesResegment(ts[1..], n, segment, segment', if first == -1 && ts[0].kind.Code() then ts[0].start else first);
    }
  }

  lemma {:induction false} PiecesUnderLine(m: string, b: string)
    requires CommentLine(m)
    ensures Resegmented(ShiftPieces(PiecesOf(b), |m| + 1), |m| + 1, 0, PiecesOf(m + "\n" + b))
  {
    hide Lex, ShiftTokens, Pieces, Resegmented;
    var d := |m| + 1;
    var us := ShiftTokens(Lex(b, 0), d);
    LexUnderLine(m, b);
    SkipIdle([Token(LineComment, 0, |m|, true), Token(Space, |m|, d, true)], us, |b| + d, 0);
    PiecesResegment(us, |b| + d, d, 0, -1);
    ShiftedPieces(b, d, |b| + d);
  }

  lemma SkipIdle(idle: seq<Token>, us: seq<Token>, n: nat, segment: nat)
    requires |idle| == 2 && idle[0].kind.LineComment? && idle[1].kind.Space?
    ensures Pieces(idle + us, n, segment, -1) == Pieces(us, n, segment, -1)
  {
  }

  lemma {:induction false} UnixNewlinesUnderLine(m: string, b: string)
    requires '\n' !in m && '\r' !in m
    ensures UnixNewlines(m + "\n" + b) == m + "\n" + UnixNewlines(b)
  {
    var s := m + "\n" + b;
    if m == "" {
      assert s[0] == '\n' && s[1..] == b;
    } else {
      assert s[0] == m[0] && s[1..] == m[1..] + "\n" + b;
      UnixNewlinesUnderLine(m[1..], b);
      assert [m[0]] + (m[1..] + "\n" + UnixNewlines(b)) == m + "\n" + UnixNewlines(b);
    }
  }

  lemma {:induction false} CountNone(m: string, c: char)
    requires c !in m
    ensures CountChar(m, c) == 0
  {
    if m != "" {
      CountNone(m[1..], c);
    }
  }

  /** At most the first statement's comments change, and at most by the new line on top of them. */
  ghost predicate OnlyFirstLeading(m: string, ss: seq<Statement>, ss': seq<Statement>) {
    ss' == ss
    || (ss != [] && ss' == [ss[0].(leading := [Trim(m)] + ss[0].leading)] + ss[1..])
  }

  /** The first piece of `m`, newline, `b`: its comments gain `m` when nothing but comments lies between. */
  lemma FirstUnderLine(m: string, b: string, normalize: string -> string, q: Piece)
    requires CommentLine(m) && q.segment == 0 && q.first <= q.end <= |b|
    ensures OnlyFirstLeading(m, ShiftLines(StatementOf(b, normalize, q), 1),
                             StatementOf(m + "\n" + b, normalize, ShiftPiece(q, |m| + 1).(segment := 0)))
  {
    hide Leading, LineAt, AllComments, CountChar, IsCommentLine;
    var p := m + "\n";
    var r := ShiftPiece(q, |p|).(segment := 0);
    assert (p + b)[0..r.first] == m + "\n" + b[0..q.first];
    CommentLineIs(m);
    LeadingUnder(m, b[0..q.first]);
    SliceShift(p, b, q.first, q.end);
    LineShift(p, b, q.first);
    OneNewline(m);
  }

  lemma OneNewline(m: string)
    requires '\n' !in m
    ensures CountChar(m + "\n", '\n') == 1
  {
    CountCharAppend(m, "\n", '\n');
    CountNone(m, '\n');
  }

  lemma StatementsUnderLine(m: string, b: string, normalize: string -> string)
    requires CommentLine(m)
    ensures OnlyFirstLeading(m, ShiftLines(Split(b, normalize), 1), Split(m + "\n" + b, normalize))
  {
    hide PiecesOf, StatementOf, ShiftLines;
    var y, p := UnixNewlines(b), m + "\n";
    UnixNewlinesUnderLine(m, b);
    PiecesUnderLine(m, y);
    PiecesInBounds(y);
    OneNewline(m);
    var ps := PiecesOf(y);
    StatementsShift(p, y, normalize, ps);
    var shifted, qs := ShiftPieces(ps, |p|), PiecesOf(p + y);
    if qs != shifted {
      assert ps[0] in ps;
      assert qs[0] == ShiftPiece(ps[0], |p|).(segment := 0) && qs[1..] == ShiftPieces(ps[1..], |p|);
      StatementsShift(p, y, normalize, ps[1..]);
      FirstUnderLine(m, y, normalize, ps[0]);
      ShiftLinesAppend(StatementOf(y, normalize, ps[0]), StatementsOf(y, normalize, ps[1..]), 1);
    }
  }

  lemma RaisedByLine(rules: Rules, m: string, ss: seq<Statement>, ss': seq<Statement>)
    requires OnlyFirstLeading(m, ss, ss')
    ensures Raised(rules, ss, ss')
  {
  }

  /**
   * A comment line on top of a file only waives: the violations that remain are among the
   * old ones, a line further down, and every forbidden or idempotency one is still there.
   */
  lemma CommentLineOnlyWaives(rules: Rules, m: string, b: string)
    requires CommentLine(m)
    ensures Within(CompatViolations(rules, m + "\n" + b), ShiftViolations(CompatViolations(rules, b), 1))
    ensures Hard(CompatViolations(rules, m + "\n" + b)) == Hard(ShiftViolations(CompatViolations(rules, b), 1))
  {
    hide Split, Violations, ShiftLines, ShiftViolations, Within, Hard, OnlyFirstLeading, Raised;
    var ss, ss' := ShiftLines(Split(b, rules.normalize), 1), Split(m + "\n" + b, rules.normalize);
    StatementsUnderLine(m, b, rules.normalize);
    RaisedByLine(rules, m, ss, ss');
    MarkersOnlyWaive(rules, ss, ss');
    ViolationsShift(rules, Split(b, rules.normalize), 1);
  }

  // ---------------------------------------------------------------------------
  //  What is reported, rule by rule.
  // ---------------------------------------------------------------------------

  /** The statement does what a pattern names, or one of its clauses tightens a column or a constraint. */
  ghost predicate Does(rules: Rules, text: string, rule: Rule, what: string) {
    || (exists p | p in rules.patterns ::
          && p.rule == rule && p.what == what
          && if !rules.isDo(text) then p.test(text)
             else if what == "transaction control" then rules.doBodyTransactionControl(text)
             else p.unanchored(text))
    || (exists clause | clause in ClausesFrom(text, 0, 0) ::
          && rule == Tighten
          && (|| (what == "not null column added without a default" && rules.notNullWithoutDefault(clause))
              || (what == "constraint added without not valid" && rules.constraintNotValid(clause))))
  }

  /** A line above says so: a contract marker excuses what contracts or tightens, an expand marker what tightens. */
  ghost predicate Excused(rules: Rules, leading: seq<string>, rule: Rule) {
    || (rule == Contracting && exists line | line in leading :: rules.markerKind(line) == Contract)
    || (rule == Tighten && exists line | line in leading :: rules.markerKind(line) in {Expand, Contract})
  }

  lemma {:induction false} PatternReportsAre(rules: Rules, isDo: bool, patterns: seq<Pattern>, text: string, rule: Rule,
                                             what: string)
    ensures (rule, what) in PatternReports(rules, isDo, patterns, text)
       <==> exists p | p in patterns ::
              && p.rule == rule && p.what == what
              && if !isDo then p.test(text)
                 else if what == "transaction control" then rules.doBodyTransactionControl(text)
                 else p.unanchored(text)
  {
    if patterns != [] {
      assert patterns == [patterns[0]] + patterns[1..];
      PatternReportsAre(rules, isDo, patterns[1..], text, rule, what);
    }
  }

  lemma {:induction false} ClauseReportsAre(rules: Rules, clauses: seq<string>, rule: Rule, what: string)
    ensures (rule, what) in ClauseReports(rules, clauses)
       <==> exists clause | clause in clauses ::
              && rule == Tighten
              && (|| (what == "not null column added without a default" && rules.notNullWithoutDefault(clause))
                  || (what == "constraint added without not valid" && rules.constraintNotValid(clause)))
  {
    if clauses != [] {
      assert clauses == [clauses[0]] + clauses[1..];
      ClauseReportsAre(rules, clauses[1..], rule, what);
    }
  }

  lemma ReportsAre(rules: Rules, text: string, rule: Rule, what: string)
    ensures (rule, what) in Reports(rules, text) <==> Does(rules, text, rule, what)
  {
    hide ClausesFrom, PatternReports, ClauseReports;
    PatternReportsAre(rules, rules.isDo(text), rules.patterns, text, rule, what);
    ClauseReportsAre(rules, ClausesFrom(text, 0, 0), rule, what);
  }

  lemma ExcusedIs(rules: Rules, leading: seq<string>, rule: Rule)
    ensures Waived(rule, MarkerAmong(rules, leading)) <==> Excused(rules, leading, rule)
  {
  }

  lemma {:induction false} UnwaivedAre(reports: seq<(Rule, string)>, marker: Marker, line: nat, quote: string,
                                       v: Violation)
    ensures v in Unwaived(reports, marker, line, quote)
       <==> v.line == line && v.statement == quote && (v.rule, v.what) in reports && !Waived(v.rule, marker)
  {
    if reports != [] {
      assert reports == [reports[0]] + reports[1..];
      UnwaivedAre(reports[1..], marker, line, quote, v);
    }
  }

  lemma {:induction false} ViolationsAre(rules: Rules, ss: seq<Statement>, v: Violation)
    ensures v in Violations(rules, ss) <==> exists st | st in ss :: v in StatementViolations(rules, st)
  {
    hide StatementViolations;
    if ss != [] {
      assert ss == [ss[0]] + ss[1..];
      ViolationsAre(rules, ss[1..], v);
    }
  }

  /**
    * The guard reports, of each statement, exactly what it does that no line above it excuses, on the statement's line,
    * with at most the first 120 characters of it. What is forbidden, or cannot run twice, nothing excuses.
    */
  lemma {:induction false} GuardReportsExactly(rules: Rules, sql: string, v: Violation)
    ensures v in CompatViolations(rules, sql)
       <==> exists st | st in Split(sql, rules.normalize) ::
              var text := rules.withColumnKeyword(st.text);
              && v.line == st.line && Does(rules, text, v.rule, v.what) && !Excused(rules, st.leading, v.rule)
              && v.statement <= text && |v.statement| == (if |text| <= 120 then |text| else 120)
  {
    hide Reports, MarkerAmong, Unwaived, Does, Excused, Waived, Split;
    var ss := Split(sql, rules.normalize);
    ViolationsAre(rules, ss, v);
    forall st | st in ss
      ensures var text := rules.withColumnKeyword(st.text);
              v in StatementViolations(rules, st)
              <==> && v.line == st.line && Does(rules, text, v.rule, v.what) && !Excused(rules, st.leading, v.rule)
                   && v.statement <= text && |v.statement| == (if |text| <= 120 then |text| else 120)
    {
      var text := rules.withColumnKeyword(st.text);
      UnwaivedAre(Reports(rules, text), MarkerAmong(rules, st.leading), st.line, Quote(text), v);
      ReportsAre(rules, text, v.rule, v.what);
      ExcusedIs(rules, st.leading, v.rule);
    }
  }
}
