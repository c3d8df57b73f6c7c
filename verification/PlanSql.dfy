/** The SQL of the reconcile's plan, and what a splitter reads back from it. */
module PlanSql {
  import opened Wrappers
  import opened Text
  import opened Privileges
  import opened SqlScanner
  import opened SqlQuoting

  function PrivilegeWord(p: Privilege): string {
    match p
    case Select => "select"
    case Insert => "insert"
    case Update => "update"
    case Delete => "delete"
    case Truncate => "truncate"
    case References => "references"
    case Trigger => "trigger"
  }

  function PrivilegeList(ps: seq<Privilege>): string {
    Join(seq(|ps|, i requires 0 <= i < |ps| => PrivilegeWord(ps[i])), ", ")
  }

  /** The names a statement interpolates besides the schema and the role. */
  function NamesOf(st: Privileges.Statement): seq<string> {
    match st
    case RevokeOn(e) => [e.table]
    case GrantOn(e) => [e.table]
    case GrantExecute(fn) => [fn.name]
    case _ => []
  }

  const GRANT_TABLES := " grant select, insert, update, delete on tables to "
  const GRANT_SEQUENCES := " grant usage, select on sequences to "

  function Ident(name: string): string { SqlQuoting.Quoted(name, '"') }

  /** The statement's text, or the refusal of a name that cannot be quoted. */
  function RenderStatement(schema: string, role: string, st: Privileges.Statement): Result<string, QuoteError> {
    if !ValidIdent(schema) || !ValidIdent(role) || exists n | n in NamesOf(st) :: !ValidIdent(n) then
      Err(InvalidIdentifier)
    else
      var on, to := Ident(schema), Ident(role);
      Ok(match st
         case RevokeOn(e) =>
           "revoke " + PrivilegeList(e.privileges) + " on " + on + "." + Ident(e.table) + " from " + to
         case GrantOn(e) => "grant " + PrivilegeList(e.privileges) + " on " + on + "." + Ident(e.table) + " to " + to
         case GrantUsage => "grant usage on schema " + on + " to " + to
         case RevokeCreate => "revoke create on schema " + on + " from " + to
         case GrantExecute(fn) =>
           "grant execute on function " + on + "." + Ident(fn.name) + ("(" + Join(fn.args, ", ") + ") to ") + to
         case DefaultTables =>
           "alter default privileges in schema " + on + GRANT_TABLES + to
         case DefaultSequences =>
           "alter default privileges in schema " + on + GRANT_SEQUENCES + to)
  }

  /** The same text as fixed words and names. */
  function PartsOf(schema: string, role: string, st: Privileges.Statement): seq<Part> {
    match st
    case RevokeOn(e) =>
      [Word("revoke " + PrivilegeList(e.privileges) + " on "), Name(schema), Word("."), Name(e.table),
       Word(" from "), Name(role)]
    case GrantOn(e) =>
      [Word("grant " + PrivilegeList(e.privileges) + " on "), Name(schema), Word("."), Name(e.table),
       Word(" to "), Name(role)]
    case GrantUsage => [Word("grant usage on schema "), Name(schema), Word(" to "), Name(role)]
    case RevokeCreate => [Word("revoke create on schema "), Name(schema), Word(" from "), Name(role)]
    case GrantExecute(fn) =>
      [Word("grant execute on function "), Name(schema), Word("."), Name(fn.name),
       Word("(" + Join(fn.args, ", ") + ") to "),
       Name(role)]
    case DefaultTables =>
      [Word("alter default privileges in schema "), Name(schema), Word(GRANT_TABLES),
       Name(role)]
    case DefaultSequences =>
      [Word("alter default privileges in schema "), Name(schema), Word(GRANT_SEQUENCES), Name(role)]
  }

  predicate AllSafe(w: string) { forall c | c in w :: SafeChar(c) }

  lemma AllSafeAppend(a: string, b: string)
    ensures AllSafe(a + b) <==> AllSafe(a) && AllSafe(b)
  {
  }

  lemma PrivilegeWordSafe(p: Privilege)
    ensures AllSafe(PrivilegeWord(p))
  {
  }

  lemma CommaSafe()
    ensures AllSafe(", ")
  {
  }

  lemma {:induction false} ArgsSafe(args: seq<string>)
    requires forall a | a in args :: AllSafe(a)
    ensures AllSafe(Join(args, ", "))
  {
    hide SafeChar;
    if |args| > 1 {
      assert args[0] in args && forall a | a in args[1..] :: a in args;
      ArgsSafe(args[1..]);
      CommaSafe();
      AllSafeAppend(args[0], ", ");
      AllSafeAppend(args[0] + ", ", Join(args[1..], ", "));
    } else if |args| == 1 {
      assert args[0] in args;
    }
  }

  /** A function's argument types print as the manifest's do: words no quote or separator is in. */
  predicate PlainArgs(st: Privileges.Statement) {
    st.GrantExecute? ==> forall a | a in st.fn.args :: AllSafe(a)
  }

  lemma WrappedSafe(verb: string, ps: seq<Privilege>)
    requires AllSafe(verb)
    ensures AllSafe(verb + PrivilegeList(ps) + " on ")
  {
    forall p ensures AllSafe(PrivilegeWord(p)) {
      PrivilegeWordSafe(p);
    }
    ArgsSafe(seq(|ps|, i requires 0 <= i < |ps| => PrivilegeWord(ps[i])));
    AllSafeAppend(verb, PrivilegeList(ps));
    AllSafeAppend(verb + PrivilegeList(ps), " on ");
  }

  lemma ShortWordsSafe()
    ensures AllSafe("revoke ") && AllSafe("grant ") && AllSafe(" on ") && AllSafe(".") && AllSafe(" from ")
       && AllSafe(" to ")
    ensures AllSafe("(") && AllSafe(") to ")
  {
  }

  lemma SchemaWordsSafe()
    ensures AllSafe("grant usage on schema ")
    ensures AllSafe("revoke create on schema ")
    ensures AllSafe("grant execute on function ")
  {
  }

  lemma DefaultWordsSafe()
    ensures AllSafe("alter default privileges in schema ")
  {
  }

  lemma SelectInsertSafe()
    ensures AllSafe(" grant select, insert, ")
  {
  }

  lemma UpdateDeleteSafe()
    ensures AllSafe("update, delete on tables to ")
  {
  }

  lemma TableWordsSafe()
    ensures AllSafe(GRANT_TABLES)
  {
    hide AllSafe;
    SelectInsertSafe();
    UpdateDeleteSafe();
    assert GRANT_TABLES == " grant select, insert, " + "update, delete on tables to ";
    AllSafeAppend(" grant select, insert, ", "update, delete on tables to ");
  }

  lemma SequenceWordsSafe()
    ensures AllSafe(GRANT_SEQUENCES)
  {
  }

  /** Every word is safe, whatever the names are. */
  lemma {:induction false} WordsSafe(schema: string, role: string, st: Privileges.Statement)
    requires PlainArgs(st)
    ensures forall part | part in PartsOf(schema, role, st) && part.Word? :: AllSafe(part.text)
  {
    hide AllSafe, PrivilegeList;
    ShortWordsSafe();
    SchemaWordsSafe();
    DefaultWordsSafe();
    TableWordsSafe();
    SequenceWordsSafe();
    match st
    case RevokeOn(e) => WrappedSafe("revoke ", e.privileges);
    case GrantOn(e) => WrappedSafe("grant ", e.privileges);
    case GrantUsage =>
    case RevokeCreate =>
    case GrantExecute(fn) =>
      ArgsSafe(fn.args);
      AllSafeAppend("(", Join(fn.args, ", "));
      AllSafeAppend("(" + Join(fn.args, ", "), ") to ");
    case DefaultTables =>
    case DefaultSequences =>
  }

  lemma PlanShape(schema: string, role: string, st: Privileges.Statement)
    ensures var parts := PartsOf(schema, role, st);
            && |parts| >= 4 && parts[0].Word? && parts[0].text != "" && !IsSpace(parts[0].text[0])
            && (forall k | 0 <= k < |parts| && parts[k].Word? :: parts[k].text != "")
            && (forall k | 0 <= k < |parts| - 1 && parts[k].Name? :: parts[k + 1].Word?)
  {
    hide PrivilegeList, Join;
  }

  lemma {:induction false} PlanParts(schema: string, role: string, st: Privileges.Statement)
    requires PlainArgs(st)
    ensures StatementParts(PartsOf(schema, role, st))
  {
    hide PartsOf, SafeChar, IsSpace;
    var parts := PartsOf(schema, role, st);
    WordsSafe(schema, role, st);
    PlanShape(schema, role, st);
    forall k | 0 <= k < |parts| && parts[k].Word? ensures SafeWord(parts[k].text) {
      assert parts[k] in parts && AllSafe(parts[k].text);
    }
  }

  lemma FourParts(a: string, x: string, b: string, y: string)
    ensures Render([Word(a), Name(x), Word(b), Name(y)]) == a + Ident(x) + b + Ident(y)
  {
    hide SqlQuoting.Quoted;
    var ps := [Word(a), Name(x), Word(b), Name(y)];
    TwoParts(b, y);
    assert ps[1..] == [Name(x), Word(b), Name(y)] && ps[1..][1..] == [Word(b), Name(y)];
    assert Render(ps) == a + (Ident(x) + (b + Ident(y)));
    assert a + (Ident(x) + (b + Ident(y))) == a + Ident(x) + b + Ident(y);
  }

  lemma TwoParts(a: string, x: string)
    ensures Render([Word(a), Name(x)]) == a + Ident(x)
  {
    hide SqlQuoting.Quoted;
    var ps := [Word(a), Name(x)];
    assert ps[1..] == [Name(x)] && ps[1..][1..] == [];
    assert Render(ps[1..]) == Ident(x) + "";
    assert Render(ps) == a + (Ident(x) + "");
    assert Ident(x) + "" == Ident(x);
  }

  lemma SixParts(a: string, x: string, b: string, y: string, c: string, z: string)
    ensures Render([Word(a), Name(x), Word(b), Name(y), Word(c), Name(z)]) == a + Ident(x) + b + Ident(y) + c + Ident(z)
  {
    hide SqlQuoting.Quoted;
    var ps := [Word(a), Name(x), Word(b), Name(y), Word(c), Name(z)];
    assert ps[1..] == [Name(x), Word(b), Name(y), Word(c), Name(z)];
    assert ps[1..][1..] == [Word(b), Name(y), Word(c), Name(z)];
    FourParts(b, y, c, z);
    assert Render(ps) == a + (Ident(x) + Render(ps[1..][1..]));
    assert a + (Ident(x) + (b + Ident(y) + c + Ident(z))) == a + Ident(x) + b + Ident(y) + c + Ident(z);
  }

  /** The text of a statement whose names can be quoted is the print of its parts. */
  lemma RenderIs(schema: string, role: string, st: Privileges.Statement)
    requires RenderStatement(schema, role, st).Ok?
    ensures RenderStatement(schema, role, st).value == Render(PartsOf(schema, role, st))
  {
    hide Ident, PrivilegeList, Render, Join, GRANT_TABLES, GRANT_SEQUENCES;
    match st
    case RevokeOn(e) =>
      SixParts("revoke " + PrivilegeList(e.privileges) + " on ", schema, ".", e.table, " from ", role);
    case GrantOn(e) => SixParts("grant " + PrivilegeList(e.privileges) + " on ", schema, ".", e.table, " to ", role);
    case GrantUsage => FourParts("grant usage on schema ", schema, " to ", role);
    case RevokeCreate => FourParts("revoke create on schema ", schema, " from ", role);
    case GrantExecute(fn) =>
      SixParts("grant execute on function ", schema, ".", fn.name, "(" + Join(fn.args, ", ") + ") to ", role);
    case DefaultTables => FourParts("alter default privileges in schema ", schema, GRANT_TABLES, role);
    case DefaultSequences => FourParts("alter default privileges in schema ", schema, GRANT_SEQUENCES, role);
  }

  // ---------------------------------------------------------------------------
  //  A CRLF in a print is one in a name.
  // ---------------------------------------------------------------------------

  lemma QuotedCrlf(name: string)
    ensures HasCrlf(Ident(name)) <==> HasCrlf(name)
  {
    hide HasCrlf, UnixNewlines;
    UnixNewlinesQuoted(name);
    UnixNewlinesChanges(name);
    UnixNewlinesChanges(Ident(name));
    if HasCrlf(name) && UnixNewlines(Ident(name)) == Ident(name) {
      QuotedInjective(UnixNewlines(name), name, '"');
    }
  }

  lemma {:induction false} RenderCrlf(parts: seq<Part>)
    requires Printable(parts)
    ensures HasCrlf(Render(parts)) <==> exists part | part in parts :: part.Name? && HasCrlf(part.name)
  {
    if parts == [] {
    } else {
      RestPrintable(parts);
      RenderCrlf(parts[1..]);
      RenderCrlfHead(parts);
      assert parts == [parts[0]] + parts[1..];
    }
  }

  lemma {:induction false} RenderCrlfHead(parts: seq<Part>)
    requires Printable(parts) && parts != []
    ensures HasCrlf(Render(parts))
       <==> (parts[0].Name? && HasCrlf(parts[0].name)) || HasCrlf(Render(parts[1..]))
  {
    hide HasCrlf, UnixNewlines;
    RestPrintable(parts);
    var text, rest := PartText(parts[0]), Render(parts[1..]);
    if parts[0].Word? {
      assert forall c | c in text :: SafeChar(c);
      UnixNewlinesPlain(text);
      assert text[|text| - 1] in text;
    } else {
      QuotedCrlf(parts[0].name);
    }
    UnixNewlinesAppend(text, rest);
    UnixNewlinesChanges(text);
    UnixNewlinesChanges(rest);
    UnixNewlinesChanges(text + rest);
  }

  // ---------------------------------------------------------------------------
  //  The whole plan.
  // ---------------------------------------------------------------------------

  function RenderStatements(schema: string, role: string, ss: seq<Privileges.Statement>)
    : Result<seq<string>, QuoteError>
  {
    if ss == [] then Ok([])
    else
      match RenderStatement(schema, role, ss[0])
      case Err(e) => Err(e)
      case Ok(text) =>
        match RenderStatements(schema, role, ss[1..])
        case Err(e) => Err(e)
        case Ok(texts) => Ok([text] + texts)
  }

  function PartsOfAll(schema: string, role: string, ss: seq<Privileges.Statement>): seq<seq<Part>> {
    if ss == [] then [] else [PartsOf(schema, role, ss[0])] + PartsOfAll(schema, role, ss[1..])
  }

  lemma {:induction false} RenderedPlan(schema: string, role: string, ss: seq<Privileges.Statement>)
    requires forall st | st in ss :: PlainArgs(st)
    requires RenderStatements(schema, role, ss).Ok?
    ensures forall parts | parts in PartsOfAll(schema, role, ss) :: StatementParts(parts)
    ensures RenderStatements(schema, role, ss).value == RenderAll(PartsOfAll(schema, role, ss))
    ensures (exists text | text in RenderStatements(schema, role, ss).value :: HasCrlf(text))
       <==> || (ss != [] && (HasCrlf(schema) || HasCrlf(role)))
            || exists st, n | st in ss && n in NamesOf(st) :: HasCrlf(n)
  {
    hide HasCrlf, RenderStatement, PartsOf, Render, StatementParts;
    if ss != [] {
      var st, rest := ss[0], ss[1..];
      assert ss == [st] + rest;
      RenderedPlan(schema, role, rest);
      PlanParts(schema, role, st);
      RenderIs(schema, role, st);
      var all := PartsOfAll(schema, role, ss);
      assert all[0] == PartsOf(schema, role, st) && all[1..] == PartsOfAll(schema, role, rest);
      StatementCrlf(schema, role, st);
    }
  }

  lemma StatementCrlf(schema: string, role: string, st: Privileges.Statement)
    requires PlainArgs(st)
    ensures HasCrlf(Render(PartsOf(schema, role, st)))
       <==> HasCrlf(schema) || HasCrlf(role) || exists n | n in NamesOf(st) :: HasCrlf(n)
  {
    hide HasCrlf, Render, StatementParts;
    PlanParts(schema, role, st);
    var parts := PartsOf(schema, role, st);
    PlanPrintable(parts);
    RenderCrlf(parts);
    assert parts[1] == Name(schema) && parts[|parts| - 1] == Name(role);
    if NamesOf(st) != [] {
      assert parts[3] == Name(NamesOf(st)[0]) && NamesOf(st)[0] in NamesOf(st);
    }
  }

  lemma PlanPrintable(parts: seq<Part>)
    requires StatementParts(parts)
    ensures Printable(parts)
  {
  }

  /**
    * The plan's statements, joined and split again, are the same statements: for every schema, role, table and
    * function name that can be quoted, exactly when none used holds a CRLF.
    */
  lemma {:induction false} PlanReadsBack(schema: string, role: string, ss: seq<Privileges.Statement>)
    requires forall st | st in ss :: PlainArgs(st)
    requires RenderStatements(schema, role, ss).Ok?
    ensures SplitTexts(Join(RenderStatements(schema, role, ss).value, ";")) == RenderStatements(schema, role, ss).value
       <==> && (ss == [] || (!HasCrlf(schema) && !HasCrlf(role)))
            && forall st, n | st in ss && n in NamesOf(st) :: !HasCrlf(n)
  {
    hide HasCrlf, RenderStatements, PartsOfAll, SplitTexts, NamesOf, StatementParts;
    RenderedPlan(schema, role, ss);
    PrintScanRoundTrip(PartsOfAll(schema, role, ss));
  }

  /** A plan renders unless it uses a name that is empty or holds a NUL. */
  lemma {:induction false} PlanRenders(schema: string, role: string, ss: seq<Privileges.Statement>)
    ensures RenderStatements(schema, role, ss).Ok?
       <==> && (ss == [] || (ValidIdent(schema) && ValidIdent(role)))
            && forall st, n | st in ss && n in NamesOf(st) :: ValidIdent(n)
  {
    hide NamesOf, ValidIdent, PrivilegeList, Ident;
    if ss != [] {
      assert ss == [ss[0]] + ss[1..];
      PlanRenders(schema, role, ss[1..]);
    }
  }
}
