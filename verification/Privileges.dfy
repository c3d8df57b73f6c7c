/** The runtime role's privileges: the plan that repairs them and the comparison that judges them. */
module Privileges {
  import opened Wrappers
  import Text

  datatype Privilege = Select | Insert | Update | Delete | Truncate | References | Trigger

  /** Every table privilege, in the order the plan and the comparison read them. */
  const ALL_PRIVILEGES: seq<Privilege> := [Select, Insert, Update, Delete, Truncate, References, Trigger]

  datatype TablePrivileges = TablePrivileges(table: string, privileges: seq<Privilege>)

  datatype FunctionGrant = FunctionGrant(name: string, args: seq<string>) {
    function Signature(): string { name + "(" + Text.Join(args, ", ") + ")" }
  }

  /** What the role may do: per table, in order, and the functions it may execute. */
  datatype Manifest = Manifest(tables: seq<TablePrivileges>, functions: seq<FunctionGrant>) {
    /** A record has one entry a key. */
    predicate Valid() {
      forall i, j | 0 <= i < j < |tables| :: tables[i].table != tables[j].table
    }
  }

  /** The entry of `table`, or none. */
  function Lookup(entries: seq<TablePrivileges>, table: string): Option<seq<Privilege>> {
    if entries == [] then None
    else if entries[0].table == table then Some(entries[0].privileges)
    else Lookup(entries[1..], table)
  }

  predicate Lists(entries: seq<TablePrivileges>, table: string) { Lookup(entries, table).Some? }

  /** The privileges of `from` that are in `have` and not in `want`. */
  function Beyond(from: seq<Privilege>, have: seq<Privilege>, want: seq<Privilege>): seq<Privilege> {
    if from == [] then []
    else (if from[0] in have && from[0] !in want then [from[0]] else []) + Beyond(from[1..], have, want)
  }

  // ---------------------------------------------------------------------------
  //  Repair: from direct grants to the manifest.
  // ---------------------------------------------------------------------------

  datatype Repair = Repair(grants: seq<TablePrivileges>, revokes: seq<TablePrivileges>)

  function Entry(table: string, privileges: seq<Privilege>): seq<TablePrivileges> {
    if privileges == [] then [] else [TablePrivileges(table, privileges)]
  }

  function GrantsFor(actual: map<string, seq<Privilege>>, tables: seq<TablePrivileges>): seq<TablePrivileges> {
    if tables == [] then []
    else
      var t := tables[0];
      (if t.table in actual then Entry(t.table, Beyond(ALL_PRIVILEGES, t.privileges, actual[t.table])) else [])
      + GrantsFor(actual, tables[1..])
  }

  function RevokesFor(actual: map<string, seq<Privilege>>, tables: seq<TablePrivileges>): seq<TablePrivileges> {
    if tables == [] then []
    else
      var t := tables[0];
      (if t.table in actual then Entry(t.table, Beyond(ALL_PRIVILEGES, actual[t.table], t.privileges)) else [])
      + RevokesFor(actual, tables[1..])
  }

  lemma RepairStep(actual: map<string, seq<Privilege>>, tables: seq<TablePrivileges>, k: nat)
    requires k < |tables|
    ensures var t := tables[k];
            && GrantsFor(actual, tables[k..])
               == (if t.table in actual then Entry(t.table, Beyond(ALL_PRIVILEGES, t.privileges, actual[t.table]))
                   else [])
                  + GrantsFor(actual, tables[k + 1..])
            && RevokesFor(actual, tables[k..])
               == (if t.table in actual then Entry(t.table, Beyond(ALL_PRIVILEGES, actual[t.table], t.privileges))
                   else [])
                  + RevokesFor(actual, tables[k + 1..])
  {
    hide Beyond, Entry;
    assert tables[k..][1..] == tables[k + 1..];
  }

  method PlanPrivilegeRepair(actualDirect: map<string, seq<Privilege>>, tables: seq<TablePrivileges>)
    returns (repair: Repair)
    ensures repair == Repair(GrantsFor(actualDirect, tables), RevokesFor(actualDirect, tables))
  {
    hide Beyond, GrantsFor, RevokesFor;
    var grants, revokes := [], [];
    for k := 0 to |tables|
      invariant GrantsFor(actualDirect, tables) == grants + GrantsFor(actualDirect, tables[k..])
      invariant RevokesFor(actualDirect, tables) == revokes + RevokesFor(actualDirect, tables[k..])
    {
      var t := tables[k];
      RepairStep(actualDirect, tables, k);
      if t.table !in actualDirect {
        continue;
      }
      var actual := actualDirect[t.table];
      var grant := Beyond(ALL_PRIVILEGES, t.privileges, actual);
      var revoke := Beyond(ALL_PRIVILEGES, actual, t.privileges);
      if |grant| > 0 {
        grants := grants + [TablePrivileges(t.table, grant)];
      }
      if |revoke| > 0 {
        revokes := revokes + [TablePrivileges(t.table, revoke)];
      }
    }
    assert tables[|tables|..] == [];
    NothingToPlan(actualDirect);
    repair := Repair(grants, revokes);
  }

  lemma NothingToPlan(actual: map<string, seq<Privilege>>)
    ensures GrantsFor(actual, []) == [] && RevokesFor(actual, []) == []
  {
  }

  // ---------------------------------------------------------------------------
  //  The reconcile's plan.
  // ---------------------------------------------------------------------------

  datatype TableState = TableState(table: string, direct: seq<Privilege>, publicGrants: seq<Privilege>,
                                   effective: seq<Privilege>)

  datatype FunctionState = FunctionState(signature: string, present: bool, direct: seq<string>)

  /** The role as the catalog shows it. */
  datatype RoleState = RoleState(tables: seq<TableState>, schemaDirect: seq<string>, functions: seq<FunctionState>,
                                 defaultTables: seq<string>, defaultSequences: seq<string>)

  datatype Unexplained = Unexplained(table: string, privilege: Privilege, fromPublic: bool)

  datatype Statement =
    | RevokeOn(entry: TablePrivileges)
    | GrantOn(entry: TablePrivileges)
    | GrantUsage
    | RevokeCreate
    | GrantExecute(fn: FunctionGrant)
    | DefaultTables
    | DefaultSequences
  {
    predicate Revokes() { RevokeOn? || RevokeCreate? }
  }

  datatype Plan = Plan(statements: seq<Statement>, grants: nat, revokes: nat, unlisted: seq<string>,
                       unexplained: seq<Unexplained>)

  const DEFAULT_TABLE_PRIVILEGES: seq<string> := ["SELECT", "INSERT", "UPDATE", "DELETE"]
  const DEFAULT_SEQUENCE_PRIVILEGES: seq<string> := ["USAGE", "SELECT"]

  predicate Includes(have: seq<string>, all: seq<string>) { forall p | p in all :: p in have }

  function UnexplainedAt(allowed: seq<Privilege>, t: TableState, p: Privilege): seq<Unexplained> {
    // Taking the direct grant away is of no use while PUBLIC has the privilege too.
    var revocable := p in t.direct && p !in t.publicGrants;
    if p !in allowed && !revocable then [Unexplained(t.table, p, p in t.publicGrants)] else []
  }

  function UnexplainedOn(allowed: seq<Privilege>, t: TableState, effective: seq<Privilege>): seq<Unexplained> {
    if effective == [] then []
    else UnexplainedAt(allowed, t, effective[0]) + UnexplainedOn(allowed, t, effective[1..])
  }

  function UnexplainedIn(tables: seq<TablePrivileges>, states: seq<TableState>): seq<Unexplained> {
    if states == [] then []
    else
      var t := states[0];
      (match Lookup(tables, t.table) case None => [] case Some(allowed) => UnexplainedOn(allowed, t, t.effective))
      + UnexplainedIn(tables, states[1..])
  }

  function UnlistedIn(tables: seq<TablePrivileges>, states: seq<TableState>): seq<string> {
    if states == [] then []
    else (if Lists(tables, states[0].table) then [] else [states[0].table]) + UnlistedIn(tables, states[1..])
  }

  /** The direct grants of the listed tables, by name. */
  function DirectOf(tables: seq<TablePrivileges>, states: seq<TableState>): map<string, seq<Privilege>> {
    if states == [] then map[]
    else
      var last := states[|states| - 1];
      var before := DirectOf(tables, states[..|states| - 1]);
      if Lists(tables, last.table) then before[last.table := last.direct] else before
  }

  function Find(states: seq<FunctionState>, signature: string): Option<FunctionState> {
    if states == [] then None
    else if states[0].signature == signature then Some(states[0])
    else Find(states[1..], signature)
  }

  predicate NeedsExecute(states: seq<FunctionState>, fn: FunctionGrant) {
    var found := Find(states, fn.Signature());
    found.Some? && found.value.present && "EXECUTE" !in found.value.direct
  }

  function ExecutesFor(states: seq<FunctionState>, functions: seq<FunctionGrant>): seq<Statement> {
    if functions == [] then []
    else (if NeedsExecute(states, functions[0]) then [GrantExecute(functions[0])] else [])
         + ExecutesFor(states, functions[1..])
  }

  function RevokeStatements(entries: seq<TablePrivileges>): seq<Statement> {
    if entries == [] then [] else [RevokeOn(entries[0])] + RevokeStatements(entries[1..])
  }

  function GrantStatements(entries: seq<TablePrivileges>): seq<Statement> {
    if entries == [] then [] else [GrantOn(entries[0])] + GrantStatements(entries[1..])
  }

  function TableStatements(m: Manifest, state: RoleState): seq<Statement> {
    var direct := DirectOf(m.tables, state.tables);
    RevokeStatements(RevokesFor(direct, m.tables)) + GrantStatements(GrantsFor(direct, m.tables))
  }

  function SchemaStatements(state: RoleState): seq<Statement> {
    (if "USAGE" !in state.schemaDirect then [GrantUsage] else [])
    + (if "CREATE" in state.schemaDirect then [RevokeCreate] else [])
  }

  function DefaultStatements(state: RoleState): seq<Statement> {
    (if !Includes(state.defaultTables, DEFAULT_TABLE_PRIVILEGES) then [DefaultTables] else [])
    + (if !Includes(state.defaultSequences, DEFAULT_SEQUENCE_PRIVILEGES) then [DefaultSequences] else [])
  }

  function StatementsFor(m: Manifest, state: RoleState): seq<Statement> {
    TableStatements(m, state) + SchemaStatements(state) + ExecutesFor(state.functions, m.functions)
    + DefaultStatements(state)
  }

  function CountRevokes(ss: seq<Statement>): nat {
    if ss == [] then 0 else (if ss[0].Revokes() then 1 else 0) + CountRevokes(ss[1..])
  }

  function PlanFor(m: Manifest, state: RoleState): Plan {
    var ss := StatementsFor(m, state);
    var revokes := CountRevokes(ss);
    Plan(ss, if revokes <= |ss| then |ss| - revokes else 0, revokes, UnlistedIn(m.tables, state.tables),
         UnexplainedIn(m.tables, state.tables))
  }

  lemma {:induction false} CountRevokesAppend(x: seq<Statement>, y: seq<Statement>)
    ensures CountRevokes(x + y) == CountRevokes(x) + CountRevokes(y)
  {
    if x == [] {
      assert x + y == y;
    } else {
      assert (x + y)[0] == x[0] && (x + y)[1..] == x[1..] + y;
      CountRevokesAppend(x[1..], y);
    }
  }

  lemma {:induction false} CountRevokesOf(entries: seq<TablePrivileges>)
    ensures |RevokeStatements(entries)| == CountRevokes(RevokeStatements(entries)) == |entries|
    ensures |GrantStatements(entries)| == |entries| && CountRevokes(GrantStatements(entries)) == 0
  {
    if entries != [] {
      CountRevokesOf(entries[1..]);
      assert RevokeStatements(entries)[1..] == RevokeStatements(entries[1..]);
      assert GrantStatements(entries)[1..] == GrantStatements(entries[1..]);
    }
  }

  method UnexplainedOnTable(allowed: seq<Privilege>, t: TableState) returns (found: seq<Unexplained>)
    ensures found == UnexplainedOn(allowed, t, t.effective)
  {
    hide UnexplainedAt;
    found := [];
    for k := 0 to |t.effective|
      invariant UnexplainedOn(allowed, t, t.effective) == found + UnexplainedOn(allowed, t, t.effective[k..])
    {
      assert t.effective[k..][0] == t.effective[k] && t.effective[k..][1..] == t.effective[k + 1..];
      found := found + UnexplainedAt(allowed, t, t.effective[k]);
    }
    assert t.effective[|t.effective|..] == [];
  }

  lemma DirectStep(tables: seq<TablePrivileges>, states: seq<TableState>, k: nat)
    requires k < |states|
    ensures DirectOf(tables, states[..k + 1])
         == if Lists(tables, states[k].table) then DirectOf(tables, states[..k])[states[k].table := states[k].direct]
            else DirectOf(tables, states[..k])
  {
    hide Lookup;
    assert states[..k + 1][..k] == states[..k];
  }

  lemma RestStep(tables: seq<TablePrivileges>, states: seq<TableState>, k: nat)
    requires k < |states|
    ensures UnlistedIn(tables, states[k..])
         == (if Lists(tables, states[k].table) then [] else [states[k].table]) + UnlistedIn(tables, states[k + 1..])
    ensures UnexplainedIn(tables, states[k..])
         == (match Lookup(tables, states[k].table)
             case None => []
             case Some(allowed) => UnexplainedOn(allowed, states[k], states[k].effective))
            + UnexplainedIn(tables, states[k + 1..])
  {
    hide Lookup, UnexplainedOn;
    assert states[k..][1..] == states[k + 1..];
  }

  method ReadTables(m: Manifest, states: seq<TableState>)
    returns (direct: map<string, seq<Privilege>>, unlisted: seq<string>, unexplained: seq<Unexplained>)
    ensures direct == DirectOf(m.tables, states)
    ensures unlisted == UnlistedIn(m.tables, states)
    ensures unexplained == UnexplainedIn(m.tables, states)
  {
    hide UnexplainedOn, Lookup, DirectOf, UnlistedIn, UnexplainedIn;
    direct, unlisted, unexplained := map[], [], [];
    NoTables(m.tables);
    for k := 0 to |states|
      invariant direct == DirectOf(m.tables, states[..k])
      invariant UnlistedIn(m.tables, states) == unlisted + UnlistedIn(m.tables, states[k..])
      invariant UnexplainedIn(m.tables, states) == unexplained + UnexplainedIn(m.tables, states[k..])
    {
      var t := states[k];
      DirectStep(m.tables, states, k);
      RestStep(m.tables, states, k);
      match Lookup(m.tables, t.table) {
        case None => unlisted := unlisted + [t.table];
        case Some(allowed) =>
          direct := direct[t.table := t.direct];
          var found := UnexplainedOnTable(allowed, t);
          unexplained := unexplained + found;
      }
    }
    assert states[..|states|] == states && states[|states|..] == [];
  }

  lemma NoTables(tables: seq<TablePrivileges>)
    ensures DirectOf(tables, []) == map[] && UnlistedIn(tables, []) == [] && UnexplainedIn(tables, []) == []
  {
  }

  method PlanRuntimeReconcile(m: Manifest, state: RoleState) returns (plan: Plan)
    ensures plan == PlanFor(m, state)
    ensures plan.grants + plan.revokes == |plan.statements|
  {
    var direct, unlisted, unexplained := ReadTables(m, state.tables);
    var repair := PlanPrivilegeRepair(direct, m.tables);
    var statements := RevokeStatements(repair.revokes) + GrantStatements(repair.grants);
    var grants, revokes := |repair.grants|, |repair.revokes|;
    CountRevokesOf(repair.revokes);
    CountRevokesOf(repair.grants);
    CountRevokesAppend(RevokeStatements(repair.revokes), GrantStatements(repair.grants));
    statements, grants, revokes := PlanSchema(state, statements, grants, revokes);
    statements, grants := PlanFunctions(m, state, statements, grants, revokes);
    statements, grants := PlanDefaults(state, statements, grants, revokes);
    plan := Plan(statements, grants, revokes, unlisted, unexplained);
  }

  method PlanSchema(state: RoleState, statements: seq<Statement>, grants: nat, revokes: nat)
    returns (statements': seq<Statement>, grants': nat, revokes': nat)
    requires revokes == CountRevokes(statements) && grants + revokes == |statements|
    ensures statements' == statements + SchemaStatements(state)
    ensures revokes' == CountRevokes(statements') && grants' + revokes' == |statements'|
  {
    statements', grants', revokes' := statements, grants, revokes;
    if "USAGE" !in state.schemaDirect {
      CountRevokesAppend(statements', [GrantUsage]);
      statements', grants' := statements' + [GrantUsage], grants' + 1;
    }
    if "CREATE" in state.schemaDirect {
      CountRevokesAppend(statements', [RevokeCreate]);
      statements', revokes' := statements' + [RevokeCreate], revokes' + 1;
    }
  }

  method PlanFunctions(m: Manifest, state: RoleState, statements: seq<Statement>, grants: nat, ghost revokes: nat)
    returns (statements': seq<Statement>, grants': nat)
    requires revokes == CountRevokes(statements) && grants + revokes == |statements|
    ensures statements' == statements + ExecutesFor(state.functions, m.functions)
    ensures revokes == CountRevokes(statements') && grants' + revokes == |statements'|
  {
    hide NeedsExecute;
    statements', grants' := statements, grants;
    for k := 0 to |m.functions|
      invariant statements + ExecutesFor(state.functions, m.functions)
             == statements' + ExecutesFor(state.functions, m.functions[k..])
      invariant revokes == CountRevokes(statements') && grants' + revokes == |statements'|
    {
      var fn := m.functions[k];
      assert m.functions[k..][0] == fn && m.functions[k..][1..] == m.functions[k + 1..];
      if NeedsExecute(state.functions, fn) {
        CountRevokesAppend(statements', [GrantExecute(fn)]);
        statements', grants' := statements' + [GrantExecute(fn)], grants' + 1;
      }
    }
    assert m.functions[|m.functions|..] == [];
  }

  method PlanDefaults(state: RoleState, statements: seq<Statement>, grants: nat, ghost revokes: nat)
    returns (statements': seq<Statement>, grants': nat)
    requires revokes == CountRevokes(statements) && grants + revokes == |statements|
    ensures statements' == statements + DefaultStatements(state)
    ensures revokes == CountRevokes(statements') && grants' + revokes == |statements'|
  {
    hide Includes;
    statements', grants' := statements, grants;
    if !Includes(state.defaultTables, DEFAULT_TABLE_PRIVILEGES) {
      CountRevokesAppend(statements', [DefaultTables]);
      statements', grants' := statements' + [DefaultTables], grants' + 1;
    }
    if !Includes(state.defaultSequences, DEFAULT_SEQUENCE_PRIVILEGES) {
      CountRevokesAppend(statements', [DefaultSequences]);
      statements', grants' := statements' + [DefaultSequences], grants' + 1;
    }
  }

  // ---------------------------------------------------------------------------
  //  Verification: effective privileges against the manifest.
  // ---------------------------------------------------------------------------

  /** What a role holds, effective privileges included. */
  datatype Facts = Facts(tables: seq<TablePrivileges>, functions: map<string, bool>, schemaUsage: bool,
                         schemaCreate: bool, publicCreate: bool, databaseCreate: bool,
                         attributes: seq<string>, memberships: seq<string>)

  datatype Item =
    | OnTable(privilege: Privilege, table: string)
    | Execute(signature: string, absent: bool)
    | UsageOnSchema
    | CreateOnSchema
    | CreateOnPublic
    | CreateOnDatabase

  datatype Report = Report(missing: seq<Item>, forbidden: seq<Item>, attributes: seq<string>, memberships: seq<string>)

  function ItemsOn(table: string, privileges: seq<Privilege>): seq<Item> {
    if privileges == [] then [] else [OnTable(privileges[0], table)] + ItemsOn(table, privileges[1..])
  }

  function MissingIn(held: map<string, seq<Privilege>>, tables: seq<TablePrivileges>): seq<Item> {
    if tables == [] then []
    else
      var t := tables[0];
      (if t.table in held then ItemsOn(t.table, Beyond(t.privileges, t.privileges, held[t.table])) else [])
      + MissingIn(held, tables[1..])
  }

  function Allowed(tables: seq<TablePrivileges>, table: string): seq<Privilege> {
    match Lookup(tables, table) case None => [] case Some(allowed) => allowed
  }

  function ForbiddenIn(tables: seq<TablePrivileges>, held: seq<TablePrivileges>): seq<Item> {
    if held == [] then []
    else
      var t := held[0];
      ItemsOn(t.table, Beyond(ALL_PRIVILEGES, t.privileges, Allowed(tables, t.table)))
      + ForbiddenIn(tables, held[1..])
  }

  function MissingExecuteOf(facts: Facts, signature: string): seq<Item> {
    if signature !in facts.functions then [Execute(signature, true)]
    else if !facts.functions[signature] then [Execute(signature, false)]
    else []
  }

  function MissingExecute(facts: Facts, functions: seq<FunctionGrant>): seq<Item> {
    if functions == [] then []
    else MissingExecuteOf(facts, functions[0].Signature()) + MissingExecute(facts, functions[1..])
  }

  function HeldMap(held: seq<TablePrivileges>): map<string, seq<Privilege>> {
    if held == [] then map[]
    else HeldMap(held[..|held| - 1])[held[|held| - 1].table := held[|held| - 1].privileges]
  }

  function ReportFor(m: Manifest, facts: Facts): Report {
    Report(
      MissingIn(HeldMap(facts.tables), m.tables)
      + MissingExecute(facts, m.functions)
      + (if facts.schemaUsage then [] else [UsageOnSchema]),
      ForbiddenIn(m.tables, facts.tables)
      + (if facts.schemaCreate then [CreateOnSchema] else [])
      + (if facts.publicCreate then [CreateOnPublic] else [])
      + (if facts.databaseCreate then [CreateOnDatabase] else []),
      facts.attributes, facts.memberships)
  }

  method HeldBy(tables: seq<TablePrivileges>) returns (held: map<string, seq<Privilege>>)
    ensures held == HeldMap(tables)
  {
    held := map[];
    for k := 0 to |tables|
      invariant held == HeldMap(tables[..k])
    {
      assert tables[..k + 1][..k] == tables[..k];
      held := held[tables[k].table := tables[k].privileges];
    }
    assert tables[..|tables|] == tables;
  }

  method MissingTables(held: map<string, seq<Privilege>>, tables: seq<TablePrivileges>) returns (missing: seq<Item>)
    ensures missing == MissingIn(held, tables)
  {
    hide ItemsOn, Beyond;
    missing := [];
    for k := 0 to |tables|
      invariant MissingIn(held, tables) == missing + MissingIn(held, tables[k..])
    {
      var t := tables[k];
      assert tables[k..][0] == t && tables[k..][1..] == tables[k + 1..];
      if t.table in held {
        var items := ItemsBeyond(t.table, t.privileges, t.privileges, held[t.table]);
        missing := missing + items;
      }
    }
    assert tables[|tables|..] == [];
  }

  method ItemsBeyond(table: string, from: seq<Privilege>, have: seq<Privilege>, want: seq<Privilege>)
    returns (items: seq<Item>)
    ensures items == ItemsOn(table, Beyond(from, have, want))
  {
    items := [];
    for k := 0 to |from|
      invariant ItemsOn(table, Beyond(from, have, want)) == items + ItemsOn(table, Beyond(from[k..], have, want))
    {
      assert from[k..][0] == from[k] && from[k..][1..] == from[k + 1..];
      var rest := Beyond(from[k + 1..], have, want);
      if from[k] in have && from[k] !in want {
        assert ([from[k]] + rest)[1..] == rest;
        items := items + [OnTable(from[k], table)];
      } else {
        assert [] + rest == rest;
      }
    }
    assert from[|from|..] == [];
  }

  method ForbiddenTables(tables: seq<TablePrivileges>, held: seq<TablePrivileges>) returns (forbidden: seq<Item>)
    ensures forbidden == ForbiddenIn(tables, held)
  {
    hide ItemsOn, Beyond, Allowed;
    forbidden := [];
    for k := 0 to |held|
      invariant ForbiddenIn(tables, held) == forbidden + ForbiddenIn(tables, held[k..])
    {
      var t := held[k];
      assert held[k..][0] == t && held[k..][1..] == held[k + 1..];
      var items := ItemsBeyond(t.table, ALL_PRIVILEGES, t.privileges, Allowed(tables, t.table));
      forbidden := forbidden + items;
    }
    assert held[|held|..] == [];
  }

  method MissingFunctions(facts: Facts, functions: seq<FunctionGrant>) returns (missing: seq<Item>)
    ensures missing == MissingExecute(facts, functions)
  {
    hide MissingExecuteOf;
    missing := [];
    for k := 0 to |functions|
      invariant MissingExecute(facts, functions) == missing + MissingExecute(facts, functions[k..])
    {
      assert functions[k..][0] == functions[k] && functions[k..][1..] == functions[k + 1..];
      missing := missing + MissingExecuteOf(facts, functions[k].Signature());
    }
    assert functions[|functions|..] == [];
  }

  method ComparePrivileges(m: Manifest, facts: Facts) returns (report: Report)
    ensures report == ReportFor(m, facts)
  {
    hide HeldMap, MissingIn, ForbiddenIn, MissingExecute;
    var held := HeldBy(facts.tables);
    var missing := MissingTables(held, m.tables);
    var forbidden := ForbiddenTables(m.tables, facts.tables);
    var executes := MissingFunctions(facts, m.functions);
    missing := missing + executes;
    if !facts.schemaUsage {
      missing := missing + [UsageOnSchema];
    }
    if facts.schemaCreate {
      forbidden := forbidden + [CreateOnSchema];
    }
    if facts.publicCreate {
      forbidden := forbidden + [CreateOnPublic];
    }
    if facts.databaseCreate {
      forbidden := forbidden + [CreateOnDatabase];
    }
    report := Report(missing, forbidden, facts.attributes, facts.memberships);
  }
}
