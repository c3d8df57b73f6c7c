/** Running the plan on a catalog: one run reaches the manifest, and a second has nothing to do. */
module Reconcile {
  import opened Wrappers
  import opened Privileges

  /** What the role holds on one table, by where it comes from. */
  datatype Grants = Grants(direct: set<Privilege>, public: set<Privilege>, inherited: set<Privilege>) {
    function Effective(): set<Privilege> { direct + public + inherited }
  }

  /** Grants per table, on the schema, per existing function, and the default ones. */
  datatype Catalog = Catalog(tables: map<string, Grants>, schema: set<string>, functions: map<string, set<string>>,
                             defaultTables: set<string>, defaultSequences: set<string>)

  function SetOf<T>(s: seq<T>): set<T> { set x | x in s }

  function Execute(c: Catalog, st: Statement): Catalog {
    match st
    case RevokeOn(e) =>
      if e.table !in c.tables then c
      else
        var g := c.tables[e.table];
        c.(tables := c.tables[e.table := g.(direct := g.direct - SetOf(e.privileges))])
    case GrantOn(e) =>
      if e.table !in c.tables then c
      else
        var g := c.tables[e.table];
        c.(tables := c.tables[e.table := g.(direct := g.direct + SetOf(e.privileges))])
    case GrantUsage => c.(schema := c.schema + {"USAGE"})
    case RevokeCreate => c.(schema := c.schema - {"CREATE"})
    case GrantExecute(fn) =>
      var sig := fn.Signature();
      if sig !in c.functions then c else c.(functions := c.functions[sig := c.functions[sig] + {"EXECUTE"}])
    case DefaultTables => c.(defaultTables := c.defaultTables + SetOf(DEFAULT_TABLE_PRIVILEGES))
    case DefaultSequences => c.(defaultSequences := c.defaultSequences + SetOf(DEFAULT_SEQUENCE_PRIVILEGES))
  }

  function ExecuteAll(c: Catalog, ss: seq<Statement>): Catalog
    decreases ss
  {
    if ss == [] then c else ExecuteAll(Execute(c, ss[0]), ss[1..])
  }

  /** `state` lists what the catalog holds, each table once, in any order. */
  ghost predicate Reads(m: Manifest, c: Catalog, state: RoleState) {
    && (forall i, j | 0 <= i < j < |state.tables| :: state.tables[i].table != state.tables[j].table)
    && (forall t | t in state.tables :: t.table in c.tables && ReadsTable(c.tables[t.table], t))
    && (forall name | name in c.tables :: exists t | t in state.tables :: t.table == name)
    && SetOf(state.schemaDirect) == c.schema
    && (forall fn | fn in m.functions :: ReadsFunction(c, state.functions, fn.Signature()))
    && SetOf(state.defaultTables) == c.defaultTables
    && SetOf(state.defaultSequences) == c.defaultSequences
  }

  ghost predicate ReadsTable(g: Grants, t: TableState) {
    && SetOf(t.direct) == g.direct
    && SetOf(t.publicGrants) == g.public
    && SetOf(t.effective) == g.Effective()
  }

  /** Every entry of the function tells whether it exists and what it grants; one that exists has an entry. */
  ghost predicate ReadsFunction(c: Catalog, states: seq<FunctionState>, signature: string) {
    && (forall s | s in states && s.signature == signature ::
          && (s.present <==> signature in c.functions)
          && (s.present ==> SetOf(s.direct) == c.functions[signature]))
    && (signature in c.functions ==> exists s | s in states :: s.signature == signature)
  }

  /** The entry found is one of the signature's own, whenever it has any. */
  lemma {:induction false} FindIs(states: seq<FunctionState>, signature: string)
    ensures Find(states, signature).None? <==> forall s | s in states :: s.signature != signature
    ensures Find(states, signature).Some? ==>
              Find(states, signature).value in states && Find(states, signature).value.signature == signature
  {
    if states != [] {
      assert states == [states[0]] + states[1..];
      FindIs(states[1..], signature);
    }
  }

  /** `after` is `before` with the role's own grants brought to the manifest, and nothing else changed. */
  ghost predicate AtManifest(m: Manifest, before: Catalog, after: Catalog) {
    && after.tables.Keys == before.tables.Keys
    && (forall name | name in after.tables ::
          && after.tables[name].public == before.tables[name].public
          && after.tables[name].inherited == before.tables[name].inherited
          && after.tables[name].direct ==
             if Lists(m.tables, name) then SetOf(Allowed(m.tables, name)) else before.tables[name].direct)
    && after.schema == before.schema + {"USAGE"} - {"CREATE"}
    && after.functions.Keys == before.functions.Keys
    && (forall sig | sig in after.functions ::
          after.functions[sig] ==
          if Named(m.functions, sig) then before.functions[sig] + {"EXECUTE"} else before.functions[sig])
    && after.defaultTables == before.defaultTables + SetOf(DEFAULT_TABLE_PRIVILEGES)
    && after.defaultSequences == before.defaultSequences + SetOf(DEFAULT_SEQUENCE_PRIVILEGES)
  }

  predicate Named(functions: seq<FunctionGrant>, signature: string) {
    exists fn | fn in functions :: fn.Signature() == signature
  }

  // ---------------------------------------------------------------------------
  //  Table grants.
  // ---------------------------------------------------------------------------

  lemma {:induction false} BeyondIs(from: seq<Privilege>, have: seq<Privilege>, want: seq<Privilege>)
    ensures forall p :: p in Beyond(from, have, want) <==> p in from && p in have && p !in want
  {
    if from != [] {
      BeyondIs(from[1..], have, want);
      assert from == [from[0]] + from[1..];
    }
  }

  lemma EveryPrivilege(p: Privilege)
    ensures p in ALL_PRIVILEGES
  {
  }

  lemma BeyondAll(have: seq<Privilege>, want: seq<Privilege>)
    ensures SetOf(Beyond(ALL_PRIVILEGES, have, want)) == SetOf(have) - SetOf(want)
  {
    BeyondIs(ALL_PRIVILEGES, have, want);
    forall p ensures p in ALL_PRIVILEGES {
      EveryPrivilege(p);
    }
  }

  /** What the statements do to the direct grants of one table. */
  function DirectAfter(ss: seq<Statement>, name: string, direct: set<Privilege>): set<Privilege> {
    if ss == [] then direct
    else
      DirectAfter(ss[1..], name,
                  match ss[0]
                  case RevokeOn(e) => if e.table == name then direct - SetOf(e.privileges) else direct
                  case GrantOn(e) => if e.table == name then direct + SetOf(e.privileges) else direct
                  case _ => direct)
  }

  lemma {:induction false} DirectAfterAppend(x: seq<Statement>, y: seq<Statement>, name: string, d: set<Privilege>)
    ensures DirectAfter(x + y, name, d) == DirectAfter(y, name, DirectAfter(x, name, d))
    decreases x
  {
    if x == [] {
      assert x + y == y;
    } else {
      assert (x + y)[0] == x[0] && (x + y)[1..] == x[1..] + y;
      match x[0] {
        case RevokeOn(e) => DirectAfterAppend(x[1..], y, name, if e.table == name then d - SetOf(e.privileges) else d);
        case GrantOn(e) => DirectAfterAppend(x[1..], y, name, if e.table == name then d + SetOf(e.privileges) else d);
        case _ => DirectAfterAppend(x[1..], y, name, d);
      }
    }
  }

  lemma {:induction false} ExecuteAllAppend(c: Catalog, x: seq<Statement>, y: seq<Statement>)
    ensures ExecuteAll(c, x + y) == ExecuteAll(ExecuteAll(c, x), y)
    decreases x
  {
    hide Execute;
    if x == [] {
      assert x + y == y;
    } else {
      assert (x + y)[0] == x[0] && (x + y)[1..] == x[1..] + y;
      ExecuteAllAppend(Execute(c, x[0]), x[1..], y);
    }
  }

  predicate OnlyTables(ss: seq<Statement>) { forall st | st in ss :: st.RevokeOn? || st.GrantOn? }

  /** Table statements change direct grants, each its own table's, and nothing else. */
  lemma {:induction false} ExecuteTables(c: Catalog, ss: seq<Statement>)
    requires OnlyTables(ss)
    ensures var r := ExecuteAll(c, ss);
            && r == c.(tables := r.tables)
            && r.tables.Keys == c.tables.Keys
            && forall name | name in c.tables ::
                 r.tables[name] == c.tables[name].(direct := DirectAfter(ss, name, c.tables[name].direct))
    decreases ss
  {
    if ss != [] {
      assert ss[0] in ss && forall st | st in ss[1..] :: st in ss;
      ExecuteTables(Execute(c, ss[0]), ss[1..]);
    }
  }

  predicate Distinct(tables: seq<TablePrivileges>) {
    forall i, j | 0 <= i < j < |tables| :: tables[i].table != tables[j].table
  }

  lemma {:induction false} LookupFails(tables: seq<TablePrivileges>, name: string)
    requires forall k | 0 <= k < |tables| :: tables[k].table != name
    ensures Lookup(tables, name) == None
  {
    if tables != [] {
      LookupFails(tables[1..], name);
    }
  }

  /** The first entry of a record's list is the only one for its table. */
  lemma OnlyEntry(tables: seq<TablePrivileges>)
    requires Distinct(tables) && tables != []
    ensures Distinct(tables[1..]) && Lookup(tables[1..], tables[0].table) == None
  {
    LookupFails(tables[1..], tables[0].table);
  }

  /** What the entry of one table takes away from, and adds to, the direct grants of `name`. */
  function TakenBy(actual: map<string, seq<Privilege>>, t: TablePrivileges, name: string): set<Privilege> {
    if t.table == name && name in actual then SetOf(Beyond(ALL_PRIVILEGES, actual[name], t.privileges)) else {}
  }

  function AddedBy(actual: map<string, seq<Privilege>>, t: TablePrivileges, name: string): set<Privilege> {
    if t.table == name && name in actual then SetOf(Beyond(ALL_PRIVILEGES, t.privileges, actual[name])) else {}
  }

  lemma RevokeEntry(t: string, ps: seq<Privilege>, rest: seq<TablePrivileges>, name: string, d: set<Privilege>)
    ensures DirectAfter(RevokeStatements(Entry(t, ps) + rest), name, d)
         == DirectAfter(RevokeStatements(rest), name, if t == name then d - SetOf(ps) else d)
  {
    if ps == [] {
      assert Entry(t, ps) + rest == rest && d - SetOf(ps) == d;
    } else {
      var e := TablePrivileges(t, ps);
      assert Entry(t, ps) + rest == [e] + rest && ([e] + rest)[1..] == rest;
      assert RevokeStatements([e] + rest)[1..] == RevokeStatements(rest);
    }
  }

  lemma GrantEntry(t: string, ps: seq<Privilege>, rest: seq<TablePrivileges>, name: string, d: set<Privilege>)
    ensures DirectAfter(GrantStatements(Entry(t, ps) + rest), name, d)
         == DirectAfter(GrantStatements(rest), name, if t == name then d + SetOf(ps) else d)
  {
    if ps == [] {
      assert Entry(t, ps) + rest == rest && d + SetOf(ps) == d;
    } else {
      var e := TablePrivileges(t, ps);
      assert Entry(t, ps) + rest == [e] + rest && ([e] + rest)[1..] == rest;
      assert GrantStatements([e] + rest)[1..] == GrantStatements(rest);
    }
  }

  lemma RevokeStep(actual: map<string, seq<Privilege>>, tables: seq<TablePrivileges>, name: string, d: set<Privilege>)
    requires tables != []
    ensures DirectAfter(RevokeStatements(RevokesFor(actual, tables)), name, d)
         == DirectAfter(RevokeStatements(RevokesFor(actual, tables[1..])), name, d - TakenBy(actual, tables[0], name))
  {
    hide Beyond, DirectAfter, RevokeStatements, Entry, SetOf;
    var t, rest := tables[0], RevokesFor(actual, tables[1..]);
    if t.table in actual {
      RevokeEntry(t.table, Beyond(ALL_PRIVILEGES, actual[t.table], t.privileges), rest, name, d);
    } else {
      assert [] + rest == rest;
    }
    if t.table != name || t.table !in actual {
      assert d - {} == d;
    }
  }

  lemma GrantStep(actual: map<string, seq<Privilege>>, tables: seq<TablePrivileges>, name: string, d: set<Privilege>)
    requires tables != []
    ensures DirectAfter(GrantStatements(GrantsFor(actual, tables)), name, d)
         == DirectAfter(GrantStatements(GrantsFor(actual, tables[1..])), name, d + AddedBy(actual, tables[0], name))
  {
    hide Beyond, DirectAfter, GrantStatements, Entry, SetOf;
    var t, rest := tables[0], GrantsFor(actual, tables[1..]);
    if t.table in actual {
      GrantEntry(t.table, Beyond(ALL_PRIVILEGES, t.privileges, actual[t.table]), rest, name, d);
    } else {
      assert [] + rest == rest;
    }
    if t.table != name || t.table !in actual {
      assert d + {} == d;
    }
  }

  lemma {:induction false} RevokesUnlisted(actual: map<string, seq<Privilege>>, tables: seq<TablePrivileges>,
                                           name: string, d: set<Privilege>)
    requires Lookup(tables, name) == None
    ensures DirectAfter(RevokeStatements(RevokesFor(actual, tables)), name, d) == d
    ensures DirectAfter(GrantStatements(GrantsFor(actual, tables)), name, d) == d
    decreases tables
  {
    if tables != [] {
      RevokeStep(actual, tables, name, d);
      GrantStep(actual, tables, name, d);
      assert d - {} == d && d + {} == d;
      RevokesUnlisted(actual, tables[1..], name, d);
    }
  }

  /** The revokes of a listed table take away exactly what the manifest does not allow. */
  lemma {:induction false} RevokesListed(actual: map<string, seq<Privilege>>, tables: seq<TablePrivileges>,
                                         name: string, d: set<Privilege>)
    requires Distinct(tables) && Lists(tables, name) && name in actual
    ensures DirectAfter(RevokeStatements(RevokesFor(actual, tables)), name, d)
         == d - (SetOf(actual[name]) - SetOf(Allowed(tables, name)))
    decreases tables
  {
    hide Beyond, RevokesFor, RevokeStatements, DirectAfter, SetOf;
    var t := tables[0];
    RevokeStep(actual, tables, name, d);
    OnlyEntry(tables);
    if t.table == name {
      BeyondAll(actual[name], t.privileges);
      RevokesUnlisted(actual, tables[1..], name, d - TakenBy(actual, t, name));
    } else {
      assert d - {} == d;
      RevokesListed(actual, tables[1..], name, d);
    }
  }

  lemma {:induction false} GrantsListed(actual: map<string, seq<Privilege>>, tables: seq<TablePrivileges>, name: string,
                                        d: set<Privilege>)
    requires Distinct(tables) && Lists(tables, name) && name in actual
    ensures DirectAfter(GrantStatements(GrantsFor(actual, tables)), name, d)
         == d + (SetOf(Allowed(tables, name)) - SetOf(actual[name]))
    decreases tables
  {
    hide Beyond, GrantsFor, GrantStatements, DirectAfter, SetOf;
    var t := tables[0];
    GrantStep(actual, tables, name, d);
    OnlyEntry(tables);
    if t.table == name {
      BeyondAll(t.privileges, actual[name]);
      RevokesUnlisted(actual, tables[1..], name, d + AddedBy(actual, t, name));
    } else {
      assert d + {} == d;
      GrantsListed(actual, tables[1..], name, d);
    }
  }

  /** The direct grants the planner works from are those of the listed tables. */
  lemma {:induction false} DirectOfIs(tables: seq<TablePrivileges>, states: seq<TableState>)
    requires forall i, j | 0 <= i < j < |states| :: states[i].table != states[j].table
    ensures forall t | t in states && Lists(tables, t.table) ::
              t.table in DirectOf(tables, states) && DirectOf(tables, states)[t.table] == t.direct
    ensures forall name | name in DirectOf(tables, states) ::
              Lists(tables, name) && exists t | t in states :: t.table == name
  {
    hide Lookup;
    if states != [] {
      var init, last := states[..|states| - 1], states[|states| - 1];
      DirectOfIs(tables, init);
      assert states == init + [last];
    }
  }

  /** The planner sees a listed table's direct grants as the catalog holds them. */
  lemma DirectRead(m: Manifest, c: Catalog, state: RoleState, name: string)
    requires Reads(m, c, state) && name in c.tables && Lists(m.tables, name)
    ensures name in DirectOf(m.tables, state.tables)
    ensures SetOf(DirectOf(m.tables, state.tables)[name]) == c.tables[name].direct
  {
    hide DirectOf, Lookup, SetOf;
    DirectOfIs(m.tables, state.tables);
    var t :| t in state.tables && t.table == name;
  }

  /** Every table statement together: a listed table ends at the manifest, any other as it was. */
  lemma TableStatementsReach(m: Manifest, c: Catalog, state: RoleState, name: string)
    requires m.Valid() && Reads(m, c, state) && name in c.tables
    ensures Lists(m.tables, name) ==>
              DirectAfter(TableStatements(m, state), name, c.tables[name].direct) == SetOf(Allowed(m.tables, name))
    ensures !Lists(m.tables, name) ==>
              DirectAfter(TableStatements(m, state), name, c.tables[name].direct) == c.tables[name].direct
  {
    hide RevokesFor, GrantsFor, Lookup, DirectOf, Reads, RevokeStatements, GrantStatements, DirectAfter, Allowed, SetOf;
    var actual := DirectOf(m.tables, state.tables);
    var rs, gs := RevokeStatements(RevokesFor(actual, m.tables)), GrantStatements(GrantsFor(actual, m.tables));
    var d := c.tables[name].direct;
    DirectAfterAppend(rs, gs, name, d);
    if Lists(m.tables, name) {
      DirectRead(m, c, state, name);
      var a := SetOf(Allowed(m.tables, name));
      RevokesListed(actual, m.tables, name, d);
      GrantsListed(actual, m.tables, name, d - (d - a));
      assert d - (d - a) + (a - d) == a;
    } else {
      RevokesUnlisted(actual, m.tables, name, d);
    }
  }

  lemma {:induction false} OnlyTablesOf(entries: seq<TablePrivileges>)
    ensures OnlyTables(RevokeStatements(entries)) && OnlyTables(GrantStatements(entries))
  {
    if entries != [] {
      OnlyTablesOf(entries[1..]);
    }
  }

  // ---------------------------------------------------------------------------
  //  Functions.
  // ---------------------------------------------------------------------------

  /** Asking for one function's grant leaves it granted, and every other as it was. */
  lemma {:induction false} ExecuteFunction(c: Catalog, states: seq<FunctionState>, fn: FunctionGrant, d: Catalog,
                                           rest: seq<Statement>)
    returns (e: Catalog)
    requires d.functions.Keys == c.functions.Keys
    requires ReadsFunction(c, states, fn.Signature())
    requires Between(c, d)
    ensures ExecuteAll(d, (if NeedsExecute(states, fn) then [GrantExecute(fn)] else []) + rest) == ExecuteAll(e, rest)
    ensures e == d.(functions := e.functions) && e.functions.Keys == c.functions.Keys && Between(c, e)
    ensures forall sig | sig in c.functions && sig != fn.Signature() :: e.functions[sig] == d.functions[sig]
    ensures fn.Signature() in c.functions ==> e.functions[fn.Signature()] == c.functions[fn.Signature()] + {"EXECUTE"}
  {
    hide Find;
    var sig := fn.Signature();
    FindIs(states, sig);
    if NeedsExecute(states, fn) {
      e := Execute(d, GrantExecute(fn));
      assert ([GrantExecute(fn)] + rest)[1..] == rest;
    } else {
      e := d;
      assert [] + rest == rest;
      if sig in c.functions {
        assert "EXECUTE" in SetOf(Find(states, sig).value.direct);
        assert c.functions[sig] + {"EXECUTE"} == c.functions[sig];
      }
    }
  }

  /** Every function of `d` is as in `c`, or granted EXECUTE besides. */
  ghost predicate Between(c: Catalog, d: Catalog)
    requires d.functions.Keys == c.functions.Keys
  {
    forall sig | sig in c.functions ::
      d.functions[sig] == c.functions[sig] || d.functions[sig] == c.functions[sig] + {"EXECUTE"}
  }

  lemma Untouched(c: Catalog, d: Catalog)
    requires d.functions == c.functions
    ensures Between(c, d)
  {
  }

  lemma {:induction false} ExecuteFunctions(c: Catalog, states: seq<FunctionState>, functions: seq<FunctionGrant>,
                                            d: Catalog)
    returns (r: Catalog)
    requires d.functions.Keys == c.functions.Keys && Between(c, d)
    requires forall fn | fn in functions :: ReadsFunction(c, states, fn.Signature())
    ensures r == ExecuteAll(d, ExecutesFor(states, functions))
    ensures r == d.(functions := r.functions) && r.functions.Keys == c.functions.Keys
    ensures Between(c, r)
    ensures forall sig | sig in c.functions && Named(functions, sig) ::
              r.functions[sig] == c.functions[sig] + {"EXECUTE"}
    ensures forall sig | sig in c.functions && !Named(functions, sig) :: r.functions[sig] == d.functions[sig]
    decreases functions
  {
    hide NeedsExecute, Execute, ReadsFunction, Between;
    if functions == [] {
      r := d;
    } else {
      var fn, rest := functions[0], functions[1..];
      assert functions == [fn] + rest;
      var e := ExecuteFunction(c, states, fn, d, ExecutesFor(states, rest));
      r := ExecuteFunctions(c, states, rest, e);
      forall sig ensures Named(functions, sig) <==> sig == fn.Signature() || Named(rest, sig) {
        NamedHead(functions, sig);
      }
    }
  }

  lemma NamedHead(functions: seq<FunctionGrant>, sig: string)
    requires functions != []
    ensures Named(functions, sig) <==> sig == functions[0].Signature() || Named(functions[1..], sig)
  {
  }

  // ---------------------------------------------------------------------------
  //  One run.
  // ---------------------------------------------------------------------------

  lemma ExecuteSchema(c: Catalog, state: RoleState)
    requires SetOf(state.schemaDirect) == c.schema
    ensures ExecuteAll(c, SchemaStatements(state)) == c.(schema := c.schema + {"USAGE"} - {"CREATE"})
  {
    var have := SetOf(state.schemaDirect);
    assert "USAGE" in state.schemaDirect <==> "USAGE" in have;
    assert "CREATE" in state.schemaDirect <==> "CREATE" in have;
    var u: seq<Statement> := if "USAGE" !in state.schemaDirect then [GrantUsage] else [];
    var k: seq<Statement> := if "CREATE" in state.schemaDirect then [RevokeCreate] else [];
    ExecuteAllAppend(c, u, k);
    var c1 := c.(schema := c.schema + {"USAGE"});
    if "USAGE" in have {
      assert c.schema + {"USAGE"} == c.schema;
    }
    ExecuteOne(c, GrantUsage);
    ExecuteOne(c1, RevokeCreate);
    if "CREATE" !in have {
      assert c1.schema - {"CREATE"} == c1.schema;
    }
  }

  lemma ExecuteOne(c: Catalog, st: Statement)
    ensures ExecuteAll(c, [st]) == Execute(c, st)
  {
  }

  lemma ExecuteDefaults(c: Catalog, state: RoleState)
    requires SetOf(state.defaultTables) == c.defaultTables && SetOf(state.defaultSequences) == c.defaultSequences
    ensures ExecuteAll(c, DefaultStatements(state))
         == c.(defaultTables := c.defaultTables + SetOf(DEFAULT_TABLE_PRIVILEGES),
               defaultSequences := c.defaultSequences + SetOf(DEFAULT_SEQUENCE_PRIVILEGES))
  {
    hide DEFAULT_TABLE_PRIVILEGES, DEFAULT_SEQUENCE_PRIVILEGES;
    var t: seq<Statement> := if Includes(state.defaultTables, DEFAULT_TABLE_PRIVILEGES) then [] else [DefaultTables];
    var q: seq<Statement> :=
      if Includes(state.defaultSequences, DEFAULT_SEQUENCE_PRIVILEGES) then [] else [DefaultSequences];
    ExecuteAllAppend(c, t, q);
    var c1 := c.(defaultTables := c.defaultTables + SetOf(DEFAULT_TABLE_PRIVILEGES));
    ExecuteOne(c, DefaultTables);
    ExecuteOne(c1, DefaultSequences);
    if t == [] {
      Absorbed(state.defaultTables, DEFAULT_TABLE_PRIVILEGES);
    }
    if q == [] {
      Absorbed(state.defaultSequences, DEFAULT_SEQUENCE_PRIVILEGES);
    }
  }

  lemma Absorbed(have: seq<string>, all: seq<string>)
    requires Includes(have, all)
    ensures SetOf(have) + SetOf(all) == SetOf(have)
  {
  }

  /** One run of the plan brings the role's own grants to the manifest and touches nothing else. */
  lemma ReconcileReaches(m: Manifest, c: Catalog, state: RoleState)
    requires m.Valid() && Reads(m, c, state)
    ensures AtManifest(m, c, ExecuteAll(c, PlanFor(m, state).statements))
  {
    hide ExecuteAll, TableStatements, SchemaStatements, ExecutesFor, DefaultStatements, Lookup, Includes, UnexplainedIn,
         UnlistedIn, CountRevokes, DirectAfter, SetOf, Allowed, OnlyTables, Named, ReadsTable, Between,
         DEFAULT_TABLE_PRIVILEGES, DEFAULT_SEQUENCE_PRIVILEGES;
    var ts, ss := TableStatements(m, state), SchemaStatements(state);
    var fs, ds := ExecutesFor(state.functions, m.functions), DefaultStatements(state);
    ExecuteAllAppend(c, ts + ss + fs, ds);
    ExecuteAllAppend(c, ts + ss, fs);
    ExecuteAllAppend(c, ts, ss);
    OnlyTableStatements(m, state);
    ExecuteTables(c, ts);
    forall name | name in c.tables
      ensures Lists(m.tables, name) ==> DirectAfter(ts, name, c.tables[name].direct) == SetOf(Allowed(m.tables, name))
      ensures !Lists(m.tables, name) ==> DirectAfter(ts, name, c.tables[name].direct) == c.tables[name].direct
    {
      TableStatementsReach(m, c, state, name);
    }
    var c1 := ExecuteAll(c, ts);
    ExecuteSchema(c1, state);
    var c2 := ExecuteAll(c1, ss);
    assert Between(c, c2) by { Untouched(c, c2); }
    var c3 := ExecuteFunctions(c, state.functions, m.functions, c2);
    ExecuteDefaults(c3, state);
  }

  lemma OnlyTableStatements(m: Manifest, state: RoleState)
    ensures OnlyTables(TableStatements(m, state))
  {
    var direct := DirectOf(m.tables, state.tables);
    OnlyTablesOf(RevokesFor(direct, m.tables));
    OnlyTablesOf(GrantsFor(direct, m.tables));
  }

  lemma {:induction false} NothingBeyond(from: seq<Privilege>, have: seq<Privilege>, want: seq<Privilege>)
    requires SetOf(have) <= SetOf(want)
    ensures Beyond(from, have, want) == []
  {
    if from != [] {
      assert from[0] in SetOf(have) ==> from[0] in SetOf(want);
      NothingBeyond(from[1..], have, want);
    }
  }

  lemma {:induction false} NothingToRepair(actual: map<string, seq<Privilege>>, tables: seq<TablePrivileges>)
    requires forall k | 0 <= k < |tables| && tables[k].table in actual ::
              SetOf(actual[tables[k].table]) == SetOf(tables[k].privileges)
    ensures RevokesFor(actual, tables) == [] && GrantsFor(actual, tables) == []
    decreases tables
  {
    hide Beyond, SetOf;
    if tables != [] {
      NothingToRepair(actual, tables[1..]);
      var t := tables[0];
      if t.table in actual {
        var a := actual[t.table];
        NothingBeyond(ALL_PRIVILEGES, a, t.privileges);
        NothingBeyond(ALL_PRIVILEGES, t.privileges, a);
      }
    }
  }

  lemma {:induction false} LookupIs(tables: seq<TablePrivileges>, k: nat)
    requires Distinct(tables) && k < |tables|
    ensures Lookup(tables, tables[k].table) == Some(tables[k].privileges)
  {
    if k > 0 {
      LookupIs(tables[1..], k - 1);
    }
  }

  lemma {:induction false} NothingToExecute(states: seq<FunctionState>, functions: seq<FunctionGrant>)
    requires forall fn | fn in functions :: !NeedsExecute(states, fn)
    ensures ExecutesFor(states, functions) == []
  {
    if functions != [] {
      NothingToExecute(states, functions[1..]);
    }
  }

  /** At the manifest, no direct grant of a listed table differs from it. */
  lemma SettledTables(m: Manifest, before: Catalog, after: Catalog, state: RoleState)
    requires m.Valid() && AtManifest(m, before, after) && Reads(m, after, state)
    ensures TableStatements(m, state) == []
  {
    hide DirectOf, Lookup, SetOf, Beyond, ReadsTable, Reads, RevokesFor, GrantsFor;
    var direct := DirectOf(m.tables, state.tables);
    forall k | 0 <= k < |m.tables| && m.tables[k].table in direct
      ensures SetOf(direct[m.tables[k].table]) == SetOf(m.tables[k].privileges)
    {
      LookupIs(m.tables, k);
      InCatalog(m, after, state, m.tables[k].table);
      DirectRead(m, after, state, m.tables[k].table);
    }
    NothingToRepair(direct, m.tables);
  }

  lemma InCatalog(m: Manifest, c: Catalog, state: RoleState, name: string)
    requires Reads(m, c, state) && name in DirectOf(m.tables, state.tables)
    ensures name in c.tables
  {
    hide Lookup, SetOf;
    DirectOfIs(m.tables, state.tables);
  }

  lemma SettledFunctions(m: Manifest, before: Catalog, after: Catalog, state: RoleState)
    requires AtManifest(m, before, after) && Reads(m, after, state)
    ensures ExecutesFor(state.functions, m.functions) == []
  {
    forall fn | fn in m.functions ensures !NeedsExecute(state.functions, fn) {
      var sig := fn.Signature();
      FindIs(state.functions, sig);
      assert ReadsFunction(after, state.functions, sig) && Named(m.functions, sig);
      if sig in after.functions {
        assert "EXECUTE" in SetOf(Find(state.functions, sig).value.direct);
      }
    }
    NothingToExecute(state.functions, m.functions);
  }

  lemma SettledDefaults(state: RoleState)
    requires SetOf(DEFAULT_TABLE_PRIVILEGES) <= SetOf(state.defaultTables)
    requires SetOf(DEFAULT_SEQUENCE_PRIVILEGES) <= SetOf(state.defaultSequences)
    requires "USAGE" in SetOf(state.schemaDirect) && "CREATE" !in SetOf(state.schemaDirect)
    ensures DefaultStatements(state) == [] && SchemaStatements(state) == []
  {
    hide DEFAULT_TABLE_PRIVILEGES, DEFAULT_SEQUENCE_PRIVILEGES;
    assert forall p | p in DEFAULT_TABLE_PRIVILEGES :: p in SetOf(DEFAULT_TABLE_PRIVILEGES);
    assert forall p | p in DEFAULT_SEQUENCE_PRIVILEGES :: p in SetOf(DEFAULT_SEQUENCE_PRIVILEGES);
  }

  /** Once at the manifest, whatever order the catalog is read in, the plan has no statement. */
  lemma ReconcileSettles(m: Manifest, before: Catalog, after: Catalog, state: RoleState)
    requires m.Valid() && AtManifest(m, before, after) && Reads(m, after, state)
    ensures PlanFor(m, state).statements == []
  {
    hide TableStatements, SchemaStatements, ExecutesFor, DefaultStatements, UnexplainedIn, UnlistedIn, SetOf,
         DEFAULT_TABLE_PRIVILEGES, DEFAULT_SEQUENCE_PRIVILEGES, ReadsTable, ReadsFunction;
    SettledTables(m, before, after, state);
    SettledFunctions(m, before, after, state);
    SettledDefaults(state);
  }
}
