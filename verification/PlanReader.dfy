/** What the plan's text means: a reader of it with its own vocabulary, and the reconcile run as text. */
module PlanReader {
  import opened Wrappers
  import opened Text
  import opened Privileges
  import opened Reconcile
  import opened SqlScanner
  import opened SqlQuoting
  import PlanSql

  // ---------------------------------------------------------------------------
  //  Words and quoted names.
  // ---------------------------------------------------------------------------

  /** The text cut at its double quotes: what stands between two is a name, the rest words. */
  function ReadParts(text: string): Option<seq<Part>>
    decreases |text|
  {
    if text == "" then Some([])
    else if text[0] == '"' then
      var close := QuoteClose(text, 1, '"');
      if close >= |text| then None
      else
        match ReadParts(text[close + 1..])
        case None => None
        case Some(rest) => Some([Name(Undoubled(text[1..close], '"'))] + rest)
    else
      var word := UpToQuote(text);
      match ReadParts(text[|word|..])
      case None => None
      case Some(rest) => Some([Word(word)] + rest)
  }

  function UpToQuote(text: string): (word: string)
    ensures word <= text
    ensures text != "" && text[0] != '"' ==> word != ""
  {
    if text == "" || text[0] == '"' then "" else [text[0]] + UpToQuote(text[1..])
  }

  lemma {:induction false} UpToQuoteIs(word: string, rest: string)
    requires '"' !in word && (rest == "" || rest[0] == '"')
    ensures UpToQuote(word + rest) == word
  {
    if word == "" {
      assert word + rest == rest;
    } else {
      assert (word + rest)[1..] == word[1..] + rest;
      UpToQuoteIs(word[1..], rest);
    }
  }

  /** A name follows every word but a last one. */
  predicate Alternating(parts: seq<Part>) { forall k | 0 <= k < |parts| - 1 && parts[k].Word? :: parts[k + 1].Name? }

  lemma NameRead(name: string, rest: string)
    requires rest == "" || rest[0] != '"'
    ensures var text := SqlQuoting.Quoted(name, '"') + rest;
            var close := |SqlQuoting.Quoted(name, '"')| - 1;
            && text[0] == '"' && QuoteClose(text, 1, '"') == close
            && Undoubled(text[1..close], '"') == name && text[close + 1..] == rest
  {
    hide QuoteClose;
    var d := Doubled(name, '"');
    CloseOfDoubled(['"'], name, rest, '"');
    assert ['"'] + (d + ['"'] + rest) == SqlQuoting.Quoted(name, '"') + rest;
    UndoubledDoubled(name, '"');
    assert (SqlQuoting.Quoted(name, '"') + rest)[1..|d| + 1] == d;
  }

  lemma {:induction false} PartsRead(parts: seq<Part>)
    requires Printable(parts) && Alternating(parts)
    ensures ReadParts(Render(parts)) == Some(parts)
  {
    hide SqlQuoting.Quoted, QuoteClose, Undoubled;
    if parts != [] {
      var rest := Render(parts[1..]);
      RestPrintable(parts);
      assert Alternating(parts[1..]) by {
        forall k | 0 <= k < |parts[1..]| - 1 && parts[1..][k].Word? ensures parts[1..][k + 1].Name? {
          assert parts[k + 1].Word?;
        }
      }
      PartsRead(parts[1..]);
      assert parts == [parts[0]] + parts[1..];
      if parts[0].Name? {
        RestUnquoted(parts);
        NameRead(parts[0].name, rest);
      } else {
        WordThenQuote(parts);
        var word := parts[0].text;
        UpToQuoteIs(word, rest);
        assert (word + rest)[|word|..] == rest && (word + rest)[0] == word[0] && word[0] in word;
      }
    }
  }

  lemma WordThenQuote(parts: seq<Part>)
    requires Printable(parts) && Alternating(parts) && parts != [] && parts[0].Word?
    ensures '"' !in parts[0].text && parts[0].text != ""
    ensures Render(parts[1..]) == "" || Render(parts[1..])[0] == '"'
  {
    assert SafeWord(parts[0].text);
    if |parts| > 1 {
      assert parts[1..][0] == parts[1] && parts[1].Name?;
    }
  }

  // ---------------------------------------------------------------------------
  //  The vocabulary.
  // ---------------------------------------------------------------------------

  /** What stands between two fixed texts. */
  function Between(first: string, s: string, last: string): Option<string> {
    if |first| + |last| <= |s| && first == s[..|first|] && s[|s| - |last|..] == last
    then Some(s[|first|..|s| - |last|]) else None
  }

  lemma BetweenIs(first: string, middle: string, last: string)
    ensures Between(first, first + middle + last, last) == Some(middle)
  {
    var s := first + middle + last;
    assert s[..|first|] == first && s[|s| - |last|..] == last && s[|first|..|s| - |last|] == middle;
  }

  /** The privilege whose word the text starts with, and the text after it. */
  function ReadPrivilege(s: string): Option<(Privilege, string)> {
    if "select" <= s then Some((Select, s[6..]))
    else if "insert" <= s then Some((Insert, s[6..]))
    else if "update" <= s then Some((Update, s[6..]))
    else if "delete" <= s then Some((Delete, s[6..]))
    else if "truncate" <= s then Some((Truncate, s[8..]))
    else if "references" <= s then Some((References, s[10..]))
    else if "trigger" <= s then Some((Trigger, s[7..]))
    else None
  }

  function ReadPrivileges(s: string): Option<seq<Privilege>>
    decreases |s|
  {
    if s == "" then Some([])
    else
      match ReadPrivilege(s)
      case None => None
      case Some((p, rest)) =>
        if rest == "" then Some([p])
        else if ", " <= rest && |rest| > 2 then
          match ReadPrivileges(rest[2..])
          case None => None
          case Some(ps) => Some([p] + ps)
        else None
  }

  lemma Letters(v: string, s: string)
    ensures v <= s && |v| > 2 ==> |s| > 2 && s[0] == v[0] && s[2] == v[2]
  {
  }

  lemma PrivilegeRead(p: Privilege, rest: string)
    ensures PlanSql.PrivilegeWord(p) != ""
    ensures ReadPrivilege(PlanSql.PrivilegeWord(p) + rest) == Some((p, rest))
  {
    var w := PlanSql.PrivilegeWord(p);
    var s := w + rest;
    assert s[|w|..] == rest && w <= s && s[0] == w[0] && s[2] == w[2];
    Letters("select", s);
    Letters("insert", s);
    Letters("update", s);
    Letters("delete", s);
    Letters("truncate", s);
    Letters("references", s);
    Letters("trigger", s);
  }

  function Words(ps: seq<Privilege>): seq<string> {
    seq(|ps|, i requires 0 <= i < |ps| => PlanSql.PrivilegeWord(ps[i]))
  }

  lemma {:induction false} PrivilegesRead(ps: seq<Privilege>)
    ensures ReadPrivileges(PlanSql.PrivilegeList(ps)) == Some(ps)
    ensures ps != [] ==> PlanSql.PrivilegeList(ps) != ""
  {
    hide ReadPrivilege, PlanSql.PrivilegeWord;
    if |ps| == 1 {
      PrivilegeRead(ps[0], "");
      assert PlanSql.PrivilegeList(ps) == PlanSql.PrivilegeWord(ps[0]) + "" && ps == [ps[0]];
    } else if |ps| > 1 {
      var list := PlanSql.PrivilegeList(ps[1..]);
      assert Words(ps)[1..] == Words(ps[1..]);
      assert PlanSql.PrivilegeList(ps) == PlanSql.PrivilegeWord(ps[0]) + ", " + list;
      PrivilegesRead(ps[1..]);
      PrivilegeRead(ps[0], ", " + list);
      assert PlanSql.PrivilegeList(ps) == PlanSql.PrivilegeWord(ps[0]) + (", " + list);
      assert (", " + list)[2..] == list && ps == [ps[0]] + ps[1..];
    }
  }

  /** A list cut at its commas and single blanks. */
  function ReadList(s: string): seq<string>
    decreases |s|
  {
    if s == "" then []
    else
      var at := IndexOf(s, ", ", 0);
      if at < 0 then [s] else [s[..at]] + (if s[at + 2..] == "" then [""] else ReadList(s[at + 2..]))
  }

  /** Whatever the arguments were, the list read prints as they did. */
  lemma {:induction false} ListPrints(s: string)
    ensures Join(ReadList(s), ", ") == s
    ensures s != "" ==> ReadList(s) != []
    decreases |s|
  {
    hide IndexOf;
    if s != "" {
      var at := IndexOf(s, ", ", 0);
      if at >= 0 {
        ListPrints(s[at + 2..]);
        assert s[at..at + 2] == ", ";
        var tail := if s[at + 2..] == "" then [""] else ReadList(s[at + 2..]);
        assert ReadList(s) == [s[..at]] + tail && ReadList(s)[1..] == tail;
        assert s == s[..at] + ", " + s[at + 2..];
      }
    }
  }

  /** Arguments with no comma in them, as a manifest's are, are read one by one. */
  predicate Separate(args: seq<string>) { forall a | a in args :: a != "" && ',' !in a }

  lemma CommaThere(s: string, k: nat)
    ensures MatchesAt(s, ", ", k) ==> k < |s| && s[k] == ','
  {
    if MatchesAt(s, ", ", k) {
      assert s[k..k + 2][0] == ',';
    }
  }

  lemma CommaStands(a: string, rest: string)
    ensures MatchesAt(a + (", " + rest), ", ", |a|)
  {
    assert (a + (", " + rest))[|a|..|a| + 2] == ", ";
  }

  lemma NoComma(a: string, rest: string)
    requires ',' !in a
    ensures IndexOf(a + (", " + rest), ", ", 0) == |a|
    ensures IndexOf(a, ", ", 0) == -1
  {
    var s := a + (", " + rest);
    hide MatchesAt, IndexOf;
    forall k: nat ensures !MatchesAt(a, ", ", k) && (k < |a| ==> !MatchesAt(s, ", ", k)) {
      CommaThere(a, k);
      CommaThere(s, k);
      if k < |a| {
        assert s[k] == a[k] && a[k] in a;
      }
    }
    CommaStands(a, rest);
    IndexOfIs(s, ", ", 0, |a|);
    IndexOfFirst(a, ", ", 0);
  }

  lemma ListOne(a: string)
    requires ',' !in a && a != ""
    ensures ReadList(a) == [a]
  {
    hide IndexOf;
    NoComma(a, "");
  }

  lemma ListMore(a: string, rest: string)
    requires ',' !in a && rest != ""
    ensures ReadList(a + (", " + rest)) == [a] + ReadList(rest)
  {
    hide IndexOf;
    NoComma(a, rest);
    var s := a + (", " + rest);
    assert s[|a| + 2..] == rest && s[..|a|] == a;
  }

  lemma {:induction false} ListRead(args: seq<string>)
    requires Separate(args)
    ensures ReadList(Join(args, ", ")) == args
    ensures args != [] ==> Join(args, ", ") != ""
  {
    hide ReadList;
    if args == [] {
      NothingListed();
    } else if |args| == 1 {
      assert args[0] in args;
      ListOne(args[0]);
    } else {
      assert args[0] in args && forall a | a in args[1..] :: a in args;
      var rest := Join(args[1..], ", ");
      ListRead(args[1..]);
      ListMore(args[0], rest);
      assert Join(args, ", ") == args[0] + ", " + rest == args[0] + (", " + rest);
    }
  }

  lemma NothingListed()
    ensures ReadList("") == []
  {
  }

  /** The names Postgres lists table privileges by. */
  function Listed(ps: seq<Privilege>): seq<string> {
    if ps == [] then []
    else
      [match ps[0]
       case Select => "SELECT"
       case Insert => "INSERT"
       case Update => "UPDATE"
       case Delete => "DELETE"
       case Truncate => "TRUNCATE"
       case References => "REFERENCES"
       case Trigger => "TRIGGER"] + Listed(ps[1..])
  }

  // ---------------------------------------------------------------------------
  //  Statements.
  // ---------------------------------------------------------------------------

  /** On a table or a function: the words before its name, the name, the words after it. */
  function ReadOn(before: string, name: string, after: string): Option<Privileges.Statement> {
    if before == "grant execute on function " then
      match Between("(", after, ") to ")
      case None => None
      case Some(args) => Some(GrantExecute(FunctionGrant(name, ReadList(args))))
    else if Between("grant ", before, " on ").Some? && after == " to " then
      match ReadPrivileges(Between("grant ", before, " on ").value)
      case None => None
      case Some(ps) => Some(GrantOn(TablePrivileges(name, ps)))
    else if Between("revoke ", before, " on ").Some? && after == " from " then
      match ReadPrivileges(Between("revoke ", before, " on ").value)
      case None => None
      case Some(ps) => Some(RevokeOn(TablePrivileges(name, ps)))
    else None
  }

  /** On the schema: the words before its name and after it. A default is one of all the privileges the kit grants. */
  function ReadIn(before: string, after: string): Option<Privileges.Statement> {
    if before == "grant usage on schema " && after == " to " then Some(GrantUsage)
    else if before == "revoke create on schema " && after == " from " then Some(RevokeCreate)
    else if before == "alter default privileges in schema " then
      if Between(" grant ", after, " on tables to ").Some? then
        match ReadPrivileges(Between(" grant ", after, " on tables to ").value)
        case None => None
        case Some(ps) => if Listed(ps) == DEFAULT_TABLE_PRIVILEGES then Some(DefaultTables) else None
      else if after == " grant usage, select on sequences to "
              && DEFAULT_SEQUENCE_PRIVILEGES == ["USAGE", "SELECT"] then
        Some(DefaultSequences)
      else None
    else None
  }

  /** A statement, and the schema and the role it is about. */
  datatype Meaning = Meaning(schema: string, role: string, statement: Privileges.Statement)

  function ReadStatement(text: string): Option<Meaning> {
    match ReadParts(text)
    case None => None
    case Some(parts) =>
      if |parts| == 4 && parts[0].Word? && parts[1].Name? && parts[2].Word? && parts[3].Name? then
        match ReadIn(parts[0].text, parts[2].text)
        case None => None
        case Some(st) => Some(Meaning(parts[1].name, parts[3].name, st))
      else if |parts| == 6 && parts[0].Word? && parts[1].Name? && parts[2] == Word(".") && parts[3].Name?
              && parts[4].Word? && parts[5].Name? then
        match ReadOn(parts[0].text, parts[3].name, parts[4].text)
        case None => None
        case Some(st) => Some(Meaning(parts[1].name, parts[5].name, st))
      else None
  }

  /** The same statement, but for how a function's argument list is cut. */
  predicate Alike(a: Privileges.Statement, b: Privileges.Statement) {
    a == b || (&& a.GrantExecute? && b.GrantExecute? && a.fn.name == b.fn.name
               && Join(a.fn.args, ", ") == Join(b.fn.args, ", "))
  }

  lemma TableWordsRead(verb: string, ps: seq<Privilege>)
    ensures Between(verb, verb + PlanSql.PrivilegeList(ps) + " on ", " on ") == Some(PlanSql.PrivilegeList(ps))
    ensures verb + PlanSql.PrivilegeList(ps) + " on " != "grant execute on function "
  {
    hide PlanSql.PrivilegeList;
    var w := verb + PlanSql.PrivilegeList(ps) + " on ";
    BetweenIs(verb, PlanSql.PrivilegeList(ps), " on ");
    assert w[|w| - 4] == ' ';
    EndsApart(w);
  }

  lemma EndsApart(w: string)
    requires |w| >= 4 && w[|w| - 4] == ' '
    ensures w != "grant execute on function "
  {
  }

  lemma VerbsApart(ps: seq<Privilege>)
    ensures Between("grant ", "revoke " + PlanSql.PrivilegeList(ps) + " on ", " on ") == None
  {
    hide PlanSql.PrivilegeList;
    var w := "revoke " + PlanSql.PrivilegeList(ps) + " on ";
    assert w[0] == 'r' && w[..6][0] == 'r';
  }

  lemma OnRead(verb: string, ps: seq<Privilege>, table: string)
    requires verb == "grant " || verb == "revoke "
    ensures ReadOn(verb + PlanSql.PrivilegeList(ps) + " on ", table, if verb == "grant " then " to " else " from ")
         == Some(if verb == "grant " then GrantOn(TablePrivileges(table, ps)) else RevokeOn(TablePrivileges(table, ps)))
  {
    hide PlanSql.PrivilegeList, Between, ReadPrivileges;
    TableWordsRead(verb, ps);
    PrivilegesRead(ps);
    VerbsApart(ps);
  }

  lemma ExecuteRead(fn: FunctionGrant)
    ensures var st := ReadOn("grant execute on function ", fn.name, "(" + Join(fn.args, ", ") + ") to ");
            && st.Some? && Alike(st.value, GrantExecute(fn))
            && (Separate(fn.args) ==> st.value == GrantExecute(fn))
  {
    hide Between, ReadList, Join;
    BetweenIs("(", Join(fn.args, ", "), ") to ");
    ListPrints(Join(fn.args, ", "));
    if Separate(fn.args) {
      ListRead(fn.args);
    }
  }

  lemma DefaultTablesRead()
    ensures ReadIn("alter default privileges in schema ", PlanSql.GRANT_TABLES) == Some(DefaultTables)
  {
    hide Between, ReadPrivileges, PlanSql.GRANT_TABLES;
    var four := [Select, Insert, Update, Delete];
    PrivilegesRead(four);
    FourListed();
    FourNamed();
    BetweenIs(" grant ", PlanSql.PrivilegeList(four), " on tables to ");
    GrantTablesIs();
  }

  lemma GrantTablesIs()
    ensures PlanSql.GRANT_TABLES == " grant " + "select, insert, update, delete" + " on tables to "
  {
    GrantFour();
    assert " grant select, insert, update, delete" + " on tables to " == PlanSql.GRANT_TABLES;
  }

  lemma GrantFour()
    ensures " grant " + "select, insert, update, delete" == " grant select, insert, update, delete"
  {
  }

  lemma FourListed()
    ensures PlanSql.PrivilegeList([Select, Insert, Update, Delete]) == "select, insert, update, delete"
  {
    var words := Words([Select, Insert, Update, Delete]);
    assert words == ["select", "insert", "update", "delete"];
    assert words[1..] == ["insert", "update", "delete"] && words[1..][1..] == ["update", "delete"];
    assert words[1..][1..][1..] == ["delete"];
    assert Join(words[1..][1..], ", ") == "update, delete";
  }

  lemma FourNamed()
    ensures Listed([Select, Insert, Update, Delete]) == ["SELECT", "INSERT", "UPDATE", "DELETE"]
  {
    var four := [Select, Insert, Update, Delete];
    assert four[1..] == [Insert, Update, Delete] && four[1..][1..] == [Update, Delete];
    assert four[1..][1..][1..] == [Delete] && four[1..][1..][1..][1..] == [];
    assert Listed([Delete]) == ["DELETE"];
    assert Listed([Update, Delete]) == ["UPDATE"] + ["DELETE"];
    assert Listed([Insert, Update, Delete]) == ["INSERT"] + Listed([Update, Delete]);
  }

  lemma SequencesRead()
    ensures ReadIn("alter default privileges in schema ", PlanSql.GRANT_SEQUENCES) == Some(DefaultSequences)
  {
  }

  lemma PartsAlternate(schema: string, role: string, st: Privileges.Statement)
    ensures Alternating(PlanSql.PartsOf(schema, role, st))
  {
    hide PlanSql.PrivilegeList, Join;
  }

  /** The text of a statement reads as that statement, about that schema and that role. */
  lemma {:induction false} TextMeansStatement(schema: string, role: string, st: Privileges.Statement)
    requires PlanSql.PlainArgs(st) && PlanSql.RenderStatement(schema, role, st).Ok?
    ensures var read := ReadStatement(PlanSql.RenderStatement(schema, role, st).value);
            && read.Some? && read.value.schema == schema && read.value.role == role
            && Alike(read.value.statement, st)
            && ((st.GrantExecute? ==> Separate(st.fn.args)) ==> read.value.statement == st)
  {
    hide PlanSql.RenderStatement, Render, PlanSql.PrivilegeList, Join, ReadOn, ReadIn, StatementParts, Alternating,
         ReadParts, Separate;
    var parts := PlanSql.PartsOf(schema, role, st);
    PlanSql.RenderIs(schema, role, st);
    PlanSql.PlanParts(schema, role, st);
    PlanSql.PlanPrintable(parts);
    PartsAlternate(schema, role, st);
    PartsRead(parts);
    match st
    case RevokeOn(e) => OnRead("revoke ", e.privileges, e.table);
    case GrantOn(e) => OnRead("grant ", e.privileges, e.table);
    case GrantUsage => SchemaRead();
    case RevokeCreate => SchemaRead();
    case GrantExecute(fn) => ExecuteRead(fn);
    case DefaultTables => DefaultTablesRead();
    case DefaultSequences => SequencesRead();
  }

  lemma SchemaRead()
    ensures ReadIn("grant usage on schema ", " to ") == Some(GrantUsage)
    ensures ReadIn("revoke create on schema ", " from ") == Some(RevokeCreate)
  {
  }

  // ---------------------------------------------------------------------------
  //  Running the text.
  // ---------------------------------------------------------------------------

  /** A database that runs what a text says of this schema and role, and nothing it cannot read. */
  function ExecuteText(c: Catalog, schema: string, role: string, text: string): Catalog {
    match ReadStatement(text)
    case None => c
    case Some(meaning) =>
      if meaning.schema == schema && meaning.role == role then Reconcile.Execute(c, meaning.statement) else c
  }

  function ExecuteTexts(c: Catalog, schema: string, role: string, texts: seq<string>): Catalog
    decreases texts
  {
    if texts == [] then c else ExecuteTexts(ExecuteText(c, schema, role, texts[0]), schema, role, texts[1..])
  }

  lemma AlikeExecutes(c: Catalog, a: Privileges.Statement, b: Privileges.Statement)
    requires Alike(a, b)
    ensures Reconcile.Execute(c, a) == Reconcile.Execute(c, b)
  {
    hide Join;
  }

  /** Running a rendered plan's texts is running its statements. */
  lemma {:induction false} TextsExecute(c: Catalog, schema: string, role: string, ss: seq<Privileges.Statement>)
    requires forall st | st in ss :: PlanSql.PlainArgs(st)
    requires PlanSql.RenderStatements(schema, role, ss).Ok?
    ensures ExecuteTexts(c, schema, role, PlanSql.RenderStatements(schema, role, ss).value) == ExecuteAll(c, ss)
    decreases ss
  {
    hide Reconcile.Execute, PlanSql.RenderStatement, ReadStatement, PlanSql.PlainArgs, Alike;
    if ss != [] {
      var st, rest := ss[0], ss[1..];
      assert ss == [st] + rest;
      TextMeansStatement(schema, role, st);
      AlikeExecutes(c, ReadStatement(PlanSql.RenderStatement(schema, role, st).value).value.statement, st);
      TextsExecute(Reconcile.Execute(c, st), schema, role, rest);
      var texts := PlanSql.RenderStatements(schema, role, ss).value;
      assert texts[1..] == PlanSql.RenderStatements(schema, role, rest).value;
    }
  }

  lemma {:induction false} ExecutesListed(states: seq<FunctionState>, functions: seq<FunctionGrant>)
    ensures forall st | st in ExecutesFor(states, functions) :: st.GrantExecute? && st.fn in functions
  {
    if functions != [] {
      assert functions == [functions[0]] + functions[1..];
      ExecutesListed(states, functions[1..]);
    }
  }

  /** The manifest's functions take plain argument types. */
  predicate PlainManifest(m: Manifest) { forall fn | fn in m.functions :: PlanSql.PlainArgs(GrantExecute(fn)) }

  lemma {:induction false} PlanIsPlain(m: Manifest, state: RoleState)
    requires PlainManifest(m)
    ensures forall st | st in PlanFor(m, state).statements :: PlanSql.PlainArgs(st)
  {
    hide TableStatements, SchemaStatements, ExecutesFor, DefaultStatements, PlanSql.AllSafe;
    OnlyTableStatements(m, state);
    NoExecutes(m, state);
    ExecutesListed(state.functions, m.functions);
  }

  lemma NoExecutes(m: Manifest, state: RoleState)
    ensures forall st | st in TableStatements(m, state) :: !st.GrantExecute?
    ensures forall st | st in SchemaStatements(state) + DefaultStatements(state) :: !st.GrantExecute?
  {
    hide TableStatements;
    OnlyTableStatements(m, state);
  }

  /**
    * The reconcile as the database meets it: the plan's texts, joined with separators, split again and run one by one
    * on any catalog, bring the role's grants to the manifest and change nothing else, where no name used holds a CRLF.
    */
  lemma {:induction false} TextReaches(m: Manifest, c: Catalog, state: RoleState, schema: string, role: string)
    requires m.Valid() && PlainManifest(m) && Reads(m, c, state)
    requires PlanSql.RenderStatements(schema, role, PlanFor(m, state).statements).Ok?
    requires var ss := PlanFor(m, state).statements;
             && (ss == [] || (!HasCrlf(schema) && !HasCrlf(role)))
             && forall st, n | st in ss && n in PlanSql.NamesOf(st) :: !HasCrlf(n)
    ensures var texts := PlanSql.RenderStatements(schema, role, PlanFor(m, state).statements).value;
            && SplitTexts(Join(texts, ";")) == texts
            && AtManifest(m, c, ExecuteTexts(c, schema, role, SplitTexts(Join(texts, ";"))))
  {
    hide PlanSql.RenderStatements, SplitTexts, Join, ExecuteTexts, ExecuteAll, StatementsFor, UnexplainedIn, UnlistedIn,
         CountRevokes, AtManifest, Reads, HasCrlf, PlanSql.NamesOf;
    var ss := PlanFor(m, state).statements;
    PlanIsPlain(m, state);
    PlanSql.PlanReadsBack(schema, role, ss);
    TextsExecute(c, schema, role, ss);
    ReconcileReaches(m, c, state);
  }
}
