/** The expand/contract guard: markers, clauses, and the violations of a migration. */
module SqlCompat {
  import opened Text
  import opened SqlScanner
  import opened SqlComposition

  datatype Rule = Forbidden | Idempotency | Contracting | Tighten

  datatype Marker = NoMarker | Expand | Contract {
    function Rank(): nat { match this case NoMarker => 0 case Expand => 1 case Contract => 2 }
  }

  /** A pattern, as it applies to a statement and, anchored at a word, to the body of a `do`. */
  datatype Pattern = Pattern(rule: Rule, what: string, test: string -> bool, unanchored: string -> bool)

  /** The regular expressions of the guard, as arbitrary predicates and rewrites of text. */
  datatype Rules = Rules(
    normalize: string -> string,
    withColumnKeyword: string -> string,
    isDo: string -> bool,
    doBodyTransactionControl: string -> bool,
    patterns: seq<Pattern>,
    notNullWithoutDefault: string -> bool,
    constraintNotValid: string -> bool,
    markerKind: string -> Marker)

  datatype Violation = Violation(line: nat, rule: Rule, what: string, statement: string)

  const TRANSACTION_CONTROL := "transaction control"
  const NO_DEFAULT := "not null column added without a default"
  const NOT_VALIDATED := "constraint added without not valid"

  /** How much of the statement a violation quotes. */
  const QUOTED := 120

  // ---------------------------------------------------------------------------
  //  Clauses: the text cut at every `,` and `;` outside parentheses.
  // ---------------------------------------------------------------------------

  /** The nesting of the first `k` characters; a stray `)` does not go below zero. */
  function Depth(text: string, k: nat): nat
    requires k <= |text|
  {
    if k == 0 then 0
    else
      var d := Depth(text, k - 1);
      if text[k - 1] == '(' then d + 1
      else if text[k - 1] == ')' then (if d == 0 then 0 else d - 1)
      else d
  }

  predicate IsCut(text: string, k: nat)
    requires k < |text|
  {
    (text[k] == ',' || text[k] == ';') && Depth(text, k) == 0
  }

  /** `parts` are the stretches of `text` from `start` on between consecutive cuts. */
  ghost predicate CutsInto(text: string, start: nat, parts: seq<string>)
    decreases |parts|
  {
    start <= |text| && parts != [] &&
    var e := start + |parts[0]|;
    && e <= |text|
    && parts[0] == text[start..e]
    && (forall k | start <= k < e :: !IsCut(text, k))
    && if |parts| == 1 then e == |text|
       else e < |text| && IsCut(text, e) && CutsInto(text, e + 1, parts[1..])
  }

  function ClausesFrom(text: string, start: nat, k: nat): (parts: seq<string>)
    requires start <= k <= |text|
    requires forall j | start <= j < k :: !IsCut(text, j)
    ensures CutsInto(text, start, parts)
    decreases |text| - k
  {
    if k == |text| then [text[start..]]
    else if IsCut(text, k) then
      var rest := ClausesFrom(text, k + 1, k + 1);
      assert ([text[start..k]] + rest)[1..] == rest;
      [text[start..k]] + rest
    else ClausesFrom(text, start, k + 1)
  }

  /** There is one way to cut a text. */
  lemma {:induction false} CutsIntoUnique(text: string, start: nat, p: seq<string>, q: seq<string>)
    requires CutsInto(text, start, p) && CutsInto(text, start, q)
    ensures p == q
    decreases |p|
  {
    var e, f := start + |p[0]|, start + |q[0]|;
    assert |p| > 1 ==> IsCut(text, e);
    assert |q| > 1 ==> IsCut(text, f);
    assert e == f;
    if |p| > 1 {
      CutsIntoUnique(text, e + 1, p[1..], q[1..]);
      assert p == [p[0]] + p[1..] && q == [q[0]] + q[1..];
    }
  }

  method Clauses(text: string) returns (out: seq<string>)
    ensures CutsInto(text, 0, out)
    ensures out == ClausesFrom(text, 0, 0)
  {
    out := [];
    var depth: nat, start := 0, 0;
    for k := 0 to |text|
      invariant start <= k && depth == Depth(text, k)
      invariant forall j | start <= j < k :: !IsCut(text, j)
      invariant ClausesFrom(text, 0, 0) == out + ClausesFrom(text, start, k)
    {
      var c := text[k];
      if c == '(' {
        depth := depth + 1;
      } else if c == ')' {
        depth := if depth == 0 then 0 else depth - 1;
      } else if (c == ',' || c == ';') && depth == 0 {
        out := out + [text[start..k]];
        start := k + 1;
      }
    }
    out := out + [text[start..]];
  }

  // ---------------------------------------------------------------------------
  //  Markers.
  // ---------------------------------------------------------------------------

  /** The strongest marker among `lines`. */
  function MarkerAmong(rules: Rules, lines: seq<string>): Marker {
    if exists line | line in lines :: rules.markerKind(line) == Contract then Contract
    else if exists line | line in lines :: rules.markerKind(line) == Expand then Expand
    else NoMarker
  }

  method MarkerOf(rules: Rules, leading: seq<string>) returns (found: Marker)
    ensures found == MarkerAmong(rules, leading)
  {
    found := NoMarker;
    for k := 0 to |leading|
      invariant found == MarkerAmong(rules, leading[..k]) && found != Contract
    {
      assert leading[..k + 1] == leading[..k] + [leading[k]];
      var kind := rules.markerKind(leading[k]);
      if kind == Contract {
        return Contract;
      }
      if kind == Expand {
        found := Expand;
      }
    }
    assert leading[..|leading|] == leading;
  }

  predicate Waived(rule: Rule, marker: Marker) {
    match rule
    case Contracting => marker == Contract
    case Tighten => marker != NoMarker
    case _ => false
  }

  // ---------------------------------------------------------------------------
  //  Violations of one statement, and of all.
  // ---------------------------------------------------------------------------

  predicate Applies(rules: Rules, isDo: bool, p: Pattern, text: string) {
    if isDo && p.what == TRANSACTION_CONTROL then rules.doBodyTransactionControl(text)
    else if isDo then p.unanchored(text)
    else p.test(text)
  }

  function PatternReports(rules: Rules, isDo: bool, patterns: seq<Pattern>, text: string): seq<(Rule, string)> {
    if patterns == [] then []
    else
      (if Applies(rules, isDo, patterns[0], text) then [(patterns[0].rule, patterns[0].what)] else [])
      + PatternReports(rules, isDo, patterns[1..], text)
  }

  function ClauseReport(rules: Rules, clause: string): seq<(Rule, string)> {
    (if rules.notNullWithoutDefault(clause) then [(Tighten, NO_DEFAULT)] else [])
    + (if rules.constraintNotValid(clause) then [(Tighten, NOT_VALIDATED)] else [])
  }

  function ClauseReports(rules: Rules, clauses: seq<string>): seq<(Rule, string)> {
    if clauses == [] then [] else ClauseReport(rules, clauses[0]) + ClauseReports(rules, clauses[1..])
  }

  /** Everything the statement does, whatever may waive it. */
  function Reports(rules: Rules, text: string): seq<(Rule, string)> {
    PatternReports(rules, rules.isDo(text), rules.patterns, text) + ClauseReports(rules, ClausesFrom(text, 0, 0))
  }

  function Quote(text: string): string { if |text| <= QUOTED then text else text[..QUOTED] }

  function Unwaived(reports: seq<(Rule, string)>, marker: Marker, line: nat, quote: string): seq<Violation> {
    if reports == [] then []
    else
      (if Waived(reports[0].0, marker) then [] else [Violation(line, reports[0].0, reports[0].1, quote)])
      + Unwaived(reports[1..], marker, line, quote)
  }

  function StatementViolations(rules: Rules, st: Statement): seq<Violation> {
    var text := rules.withColumnKeyword(st.text);
    Unwaived(Reports(rules, text), MarkerAmong(rules, st.leading), st.line, Quote(text))
  }

  function Violations(rules: Rules, ss: seq<Statement>): seq<Violation> {
    if ss == [] then [] else StatementViolations(rules, ss[0]) + Violations(rules, ss[1..])
  }

  /** What the guard reports for a migration file. */
  function CompatViolations(rules: Rules, sql: string): seq<Violation> {
    Violations(rules, Split(sql, rules.normalize))
  }

  lemma {:induction false} UnwaivedAppend(x: seq<(Rule, string)>, y: seq<(Rule, string)>, m: Marker, line: nat,
                                          q: string)
    ensures Unwaived(x + y, m, line, q) == Unwaived(x, m, line, q) + Unwaived(y, m, line, q)
  {
    if x == [] {
      assert x + y == y;
    } else {
      assert (x + y)[0] == x[0] && (x + y)[1..] == x[1..] + y;
      UnwaivedAppend(x[1..], y, m, line, q);
    }
  }

  lemma {:induction false} ViolationsAppend(rules: Rules, x: seq<Statement>, y: seq<Statement>)
    ensures Violations(rules, x + y) == Violations(rules, x) + Violations(rules, y)
  {
    hide StatementViolations;
    if x == [] {
      assert x + y == y;
    } else {
      assert (x + y)[0] == x[0] && (x + y)[1..] == x[1..] + y;
      ViolationsAppend(rules, x[1..], y);
    }
  }

  lemma UnwaivedNone(m: Marker, line: nat, q: string)
    ensures Unwaived([], m, line, q) == []
  {
  }

  lemma UnwaivedOne(done: seq<(Rule, string)>, rule: Rule, what: string, m: Marker, line: nat, q: string)
    ensures Unwaived(done + [(rule, what)], m, line, q)
         == Unwaived(done, m, line, q) + if Waived(rule, m) then [] else [Violation(line, rule, what, q)]
  {
    UnwaivedAppend(done, [(rule, what)], m, line, q);
  }

  method ReportPatterns(rules: Rules, isDo: bool, text: string, marker: Marker, line: nat)
    returns (found: seq<Violation>)
    ensures found == Unwaived(PatternReports(rules, isDo, rules.patterns, text), marker, line, Quote(text))
  {
    hide Applies, Waived, Quote, Unwaived;
    UnwaivedNone(marker, line, Quote(text));
    found := [];
    ghost var done: seq<(Rule, string)> := [];
    for k := 0 to |rules.patterns|
      invariant PatternReports(rules, isDo, rules.patterns, text)
             == done + PatternReports(rules, isDo, rules.patterns[k..], text)
      invariant found == Unwaived(done, marker, line, Quote(text))
    {
      var p := rules.patterns[k];
      assert rules.patterns[k..][0] == p && rules.patterns[k..][1..] == rules.patterns[k + 1..];
      if Applies(rules, isDo, p, text) {
        UnwaivedOne(done, p.rule, p.what, marker, line, Quote(text));
        done := done + [(p.rule, p.what)];
        if !Waived(p.rule, marker) {
          found := found + [Violation(line, p.rule, p.what, Quote(text))];
        }
      }
    }
    assert rules.patterns[|rules.patterns|..] == [];
    assert PatternReports(rules, isDo, rules.patterns, text) == done;
  }

  method ReportClause(rules: Rules, clause: string, marker: Marker, line: nat, quote: string)
    returns (found: seq<Violation>)
    ensures found == Unwaived(ClauseReport(rules, clause), marker, line, quote)
  {
    hide Waived, Unwaived;
    found := [];
    ghost var done: seq<(Rule, string)> := [];
    UnwaivedNone(marker, line, quote);
    if rules.notNullWithoutDefault(clause) {
      UnwaivedOne(done, Tighten, NO_DEFAULT, marker, line, quote);
      done := done + [(Tighten, NO_DEFAULT)];
      if !Waived(Tighten, marker) {
        found := [Violation(line, Tighten, NO_DEFAULT, quote)];
      }
    }
    if rules.constraintNotValid(clause) {
      UnwaivedOne(done, Tighten, NOT_VALIDATED, marker, line, quote);
      done := done + [(Tighten, NOT_VALIDATED)];
      if !Waived(Tighten, marker) {
        found := found + [Violation(line, Tighten, NOT_VALIDATED, quote)];
      }
    }
    assert done == ClauseReport(rules, clause);
  }

  method ReportClauses(rules: Rules, text: string, marker: Marker, line: nat) returns (found: seq<Violation>)
    ensures found == Unwaived(ClauseReports(rules, ClausesFrom(text, 0, 0)), marker, line, Quote(text))
  {
    hide ClausesFrom, CutsInto, Waived, Quote, Unwaived, ClauseReport;
    found := [];
    var clauses := Clauses(text);
    ghost var done: seq<(Rule, string)> := [];
    UnwaivedNone(marker, line, Quote(text));
    for k := 0 to |clauses|
      invariant ClauseReports(rules, clauses) == done + ClauseReports(rules, clauses[k..])
      invariant found == Unwaived(done, marker, line, Quote(text))
    {
      assert clauses[k..][0] == clauses[k] && clauses[k..][1..] == clauses[k + 1..];
      var more := ReportClause(rules, clauses[k], marker, line, Quote(text));
      UnwaivedAppend(done, ClauseReport(rules, clauses[k]), marker, line, Quote(text));
      found := found + more;
      done := done + ClauseReport(rules, clauses[k]);
    }
    assert clauses[|clauses|..] == [];
    assert ClauseReports(rules, clauses) == done;
  }

  method ReportStatement(rules: Rules, st: Statement) returns (found: seq<Violation>)
    ensures found == StatementViolations(rules, st)
  {
    hide MarkerAmong, Quote, PatternReports, ClauseReports, ClausesFrom, Unwaived;
    var text := rules.withColumnKeyword(st.text);
    var marker := MarkerOf(rules, st.leading);
    var byPattern := ReportPatterns(rules, rules.isDo(text), text, marker, st.line);
    var byClause := ReportClauses(rules, text, marker, st.line);
    UnwaivedAppend(PatternReports(rules, rules.isDo(text), rules.patterns, text),
                   ClauseReports(rules, ClausesFrom(text, 0, 0)), marker, st.line, Quote(text));
    found := byPattern + byClause;
  }

  method FindCompatViolations(rules: Rules, sql: string) returns (violations: seq<Violation>)
    ensures violations == CompatViolations(rules, sql)
  {
    hide StatementViolations, Split;
    violations := [];
    var statements := SplitStatements(sql, rules.normalize);
    for k := 0 to |statements|
      invariant Violations(rules, statements) == violations + Violations(rules, statements[k..])
    {
      assert statements[k..][0] == statements[k] && statements[k..][1..] == statements[k + 1..];
      var found := ReportStatement(rules, statements[k]);
      violations := violations + found;
    }
    assert statements[|statements|..] == [];
  }
}
