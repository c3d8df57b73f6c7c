/** The planner's unexplained privileges against what the comparison calls forbidden. */
module Convergence {
  import opened Privileges
  import opened Reconcile
  import opened Wrappers
  import Text

  /** `facts` lists what the role holds on each table of the catalog, from any source. */
  ghost predicate Holds(c: Catalog, facts: Facts) {
    && (forall t | t in facts.tables :: t.table in c.tables && SetOf(t.privileges) == c.tables[t.table].Effective())
    && (forall name | name in c.tables :: exists t | t in facts.tables :: t.table == name)
  }

  predicate Unexplains(found: seq<Unexplained>, table: string, p: Privilege) {
    exists u | u in found :: u.table == table && u.privilege == p
  }

  /** A direct grant would not survive to explain it: PUBLIC holds it too, or only a membership gives it. */
  predicate Irrevocable(g: Grants, p: Privilege) {
    p in g.Effective() && !(p in g.direct && p !in g.public)
  }

  /** Both the role and a membership hold it, and PUBLIC does not: the direct grant hides the other. */
  predicate Masked(g: Grants, p: Privilege) {
    p in g.direct && p in g.inherited && p !in g.public
  }

  lemma {:induction false} UnexplainedOnIs(allowed: seq<Privilege>, t: TableState, effective: seq<Privilege>,
                                           u: Unexplained)
    ensures u in UnexplainedOn(allowed, t, effective)
       <==> u.privilege in effective && UnexplainedAt(allowed, t, u.privilege) == [u]
  {
    hide UnexplainedAt;
    if effective != [] {
      assert effective == [effective[0]] + effective[1..];
      UnexplainedOnIs(allowed, t, effective[1..], u);
      UnexplainedAtIs(allowed, t, effective[0], u);
    }
  }

  lemma UnexplainedAtIs(allowed: seq<Privilege>, t: TableState, p: Privilege, u: Unexplained)
    ensures u in UnexplainedAt(allowed, t, p) <==> p == u.privilege && UnexplainedAt(allowed, t, u.privilege) == [u]
  {
  }

  lemma {:induction false} UnexplainedInIs(tables: seq<TablePrivileges>, states: seq<TableState>, u: Unexplained)
    ensures u in UnexplainedIn(tables, states)
       <==> Lists(tables, u.table) && exists t | t in states ::
              t.table == u.table && u.privilege in t.effective
              && UnexplainedAt(Allowed(tables, u.table), t, u.privilege) == [u]
  {
    hide UnexplainedAt, UnexplainedOn, Lookup;
    if states != [] {
      var t := states[0];
      assert states == [t] + states[1..];
      UnexplainedInIs(tables, states[1..], u);
      if Lists(tables, t.table) {
        UnexplainedOnIs(Allowed(tables, t.table), t, t.effective, u);
        if u in UnexplainedOn(Allowed(tables, t.table), t, t.effective) {
          UnexplainedTable(Allowed(tables, t.table), t, u);
        }
      }
    }
  }

  lemma UnexplainedTable(allowed: seq<Privilege>, t: TableState, u: Unexplained)
    requires UnexplainedAt(allowed, t, u.privilege) == [u]
    ensures u.table == t.table
  {
  }

  /** A listed table's privilege is unexplained exactly when it is outside the manifest and irrevocable. */
  lemma UnexplainsIs(m: Manifest, c: Catalog, state: RoleState, name: string, p: Privilege)
    requires Reads(m, c, state) && name in c.tables && Lists(m.tables, name)
    ensures Unexplains(UnexplainedIn(m.tables, state.tables), name, p)
       <==> p !in Allowed(m.tables, name) && Irrevocable(c.tables[name], p)
  {
    hide Lookup, UnexplainedIn, Allowed;
    var allowed, found := Allowed(m.tables, name), UnexplainedIn(m.tables, state.tables);
    if Unexplains(found, name, p) {
      var u :| u in found && u.table == name && u.privilege == p;
      UnexplainedInIs(m.tables, state.tables, u);
      var t :| t in state.tables && t.table == name && p in t.effective && UnexplainedAt(allowed, t, p) == [u];
      AtTable(c.tables[name], t, allowed, p);
    }
    if p !in allowed && Irrevocable(c.tables[name], p) {
      var t :| t in state.tables && t.table == name;
      AtTable(c.tables[name], t, allowed, p);
      UnexplainedInIs(m.tables, state.tables, Unexplained(name, p, p in t.publicGrants));
    }
  }

  lemma AtTable(g: Grants, t: TableState, allowed: seq<Privilege>, p: Privilege)
    requires ReadsTable(g, t)
    ensures p in t.effective <==> p in g.Effective()
    ensures p in t.effective ==> (UnexplainedAt(allowed, t, p) != [] <==> p !in allowed && Irrevocable(g, p))
    ensures UnexplainedAt(allowed, t, p) != [] ==>
              UnexplainedAt(allowed, t, p) == [Unexplained(t.table, p, p in t.publicGrants)]
  {
  }

  lemma {:induction false} ItemsOnIs(table: string, ps: seq<Privilege>, item: Item)
    ensures item in ItemsOn(table, ps) <==> item.OnTable? && item.table == table && item.privilege in ps
  {
    if ps != [] {
      assert ps == [ps[0]] + ps[1..];
      ItemsOnIs(table, ps[1..], item);
    }
  }

  lemma {:induction false} ForbiddenInIs(tables: seq<TablePrivileges>, held: seq<TablePrivileges>, name: string,
                                         p: Privilege)
    ensures OnTable(p, name) in ForbiddenIn(tables, held)
       <==> p !in Allowed(tables, name) && exists t | t in held :: t.table == name && p in t.privileges
  {
    hide ItemsOn, Beyond, Allowed;
    if held != [] {
      var t := held[0];
      assert held == [t] + held[1..];
      ForbiddenInIs(tables, held[1..], name, p);
      ItemsOnIs(t.table, Beyond(ALL_PRIVILEGES, t.privileges, Allowed(tables, t.table)), OnTable(p, name));
      BeyondIs(ALL_PRIVILEGES, t.privileges, Allowed(tables, t.table));
      EveryPrivilege(p);
    }
  }

  /** The comparison calls a table privilege forbidden exactly when it is held and outside the manifest. */
  lemma ForbiddenIs(m: Manifest, c: Catalog, facts: Facts, name: string, p: Privilege)
    requires Holds(c, facts) && name in c.tables
    ensures OnTable(p, name) in ReportFor(m, facts).forbidden
       <==> p in c.tables[name].Effective() && p !in Allowed(m.tables, name)
  {
    hide ForbiddenIn, Allowed;
    ForbiddenInIs(m.tables, facts.tables, name, p);
    if p in c.tables[name].Effective() {
      var t :| t in facts.tables && t.table == name;
      assert p in SetOf(t.privileges);
    }
    forall t | t in facts.tables && t.table == name && p in t.privileges ensures p in c.tables[name].Effective() {
      assert p in SetOf(t.privileges);
    }
  }

  /** After a run, the next plan's unexplained privileges are the comparison's forbidden ones on listed tables. */
  lemma {:induction false} UnexplainedIsForbidden(m: Manifest, before: Catalog, after: Catalog, state: RoleState,
                                                  facts: Facts, name: string, p: Privilege)
    requires AtManifest(m, before, after) && Reads(m, after, state) && Holds(after, facts)
    requires name in after.tables && Lists(m.tables, name)
    ensures Unexplains(PlanFor(m, state).unexplained, name, p) <==> OnTable(p, name) in ReportFor(m, facts).forbidden
  {
    hide ReportFor, UnexplainedIn, StatementsFor, Allowed, Reads, Holds, Lookup, Unexplains;
    UnexplainsIs(m, after, state, name, p);
    ForbiddenIs(m, after, facts, name, p);
    assert p in Allowed(m.tables, name) <==> p in SetOf(Allowed(m.tables, name));
  }

  /** The first plan names, of what will be forbidden, all but the masked. */
  lemma {:induction false} FirstPlanMisses(m: Manifest, before: Catalog, after: Catalog, state: RoleState,
                                           facts: Facts, name: string, p: Privilege)
    requires AtManifest(m, before, after) && Reads(m, before, state) && Holds(after, facts)
    requires name in before.tables && Lists(m.tables, name)
    ensures Unexplains(PlanFor(m, state).unexplained, name, p)
       <==> OnTable(p, name) in ReportFor(m, facts).forbidden && !Masked(before.tables[name], p)
  {
    hide ReportFor, UnexplainedIn, StatementsFor, Allowed, Reads, Holds, Lookup, Unexplains;
    UnexplainsIs(m, before, state, name, p);
    ForbiddenIs(m, after, facts, name, p);
    assert p in Allowed(m.tables, name) <==> p in SetOf(Allowed(m.tables, name));
  }

  /**
    * The plan of one run foretells what stays forbidden on the listed tables exactly when no privilege outside
    * the manifest is masked there.
    */
  lemma {:induction false} FirstPlanForetells(m: Manifest, before: Catalog, after: Catalog, state: RoleState,
                                              facts: Facts)
    requires AtManifest(m, before, after) && Reads(m, before, state) && Holds(after, facts)
    ensures (forall name, p | name in before.tables && Lists(m.tables, name) ::
               (Unexplains(PlanFor(m, state).unexplained, name, p)
                <==> OnTable(p, name) in ReportFor(m, facts).forbidden))
       <==> (forall name, p | name in before.tables && Lists(m.tables, name) && p !in Allowed(m.tables, name) ::
               !Masked(before.tables[name], p))
  {
    hide ReportFor, PlanFor, Reads, Holds, Lookup, Unexplains, Allowed;
    forall name, p | name in before.tables && Lists(m.tables, name)
      ensures Unexplains(PlanFor(m, state).unexplained, name, p)
         <==> OnTable(p, name) in ReportFor(m, facts).forbidden && !Masked(before.tables[name], p)
      ensures OnTable(p, name) in ReportFor(m, facts).forbidden
         <==> p in after.tables[name].Effective() && p !in Allowed(m.tables, name)
    {
      FirstPlanMisses(m, before, after, state, facts, name, p);
      ForbiddenIs(m, after, facts, name, p);
    }
  }

  const FULL_DML: seq<Privilege> := [Select, Insert, Update, Delete]

  /**
    * The kit's own entry: no runtime path deletes a user. The role was once granted it, and writes through
    * `pg_write_all_data`.
    */
  const USERS := "app_users"
  const USERS_MANIFEST := Manifest([TablePrivileges(USERS, [Select, Insert, Update])], [])
  const USERS_CATALOG :=
    Catalog(map[USERS := Grants({Select, Insert, Update, Delete}, {}, {Insert, Update, Delete})], {}, map[], {}, {})
  const USERS_STATE := RoleState([TableState(USERS, FULL_DML, [], FULL_DML)], [], [], [], [])

  lemma UsersReads()
    ensures Reads(USERS_MANIFEST, USERS_CATALOG, USERS_STATE)
  {
  }

  lemma {:induction false} AllRevocable(allowed: seq<Privilege>, t: TableState, effective: seq<Privilege>)
    requires t.publicGrants == [] && forall p | p in effective :: p in t.direct
    ensures UnexplainedOn(allowed, t, effective) == []
  {
    if effective != [] {
      assert effective[0] in effective && forall p | p in effective[1..] :: p in effective;
      AllRevocable(allowed, t, effective[1..]);
    }
  }

  lemma {:induction false} UsersExplained()
    ensures UnexplainedIn(USERS_MANIFEST.tables, USERS_STATE.tables) == []
  {
    hide UnexplainedOn;
    var allowed, t := [Select, Insert, Update], TableState(USERS, FULL_DML, [], FULL_DML);
    assert USERS_STATE.tables == [t] && USERS_STATE.tables[1..] == [];
    assert Lookup(USERS_MANIFEST.tables, t.table) == Some(allowed);
    AllRevocable(allowed, t, t.effective);
    assert UnexplainedIn(USERS_MANIFEST.tables, []) == [];
  }

  /**
    * The role and a membership both hold DELETE on the users: the first plan has nothing unexplained, and it stays
    * held.
    */
  lemma {:induction false} MaskedPrivilegeSurvives()
    ensures Reads(USERS_MANIFEST, USERS_CATALOG, USERS_STATE)
    ensures PlanFor(USERS_MANIFEST, USERS_STATE).unexplained == []
    ensures var after := ExecuteAll(USERS_CATALOG, PlanFor(USERS_MANIFEST, USERS_STATE).statements).tables;
            USERS in after && Delete in after[USERS].Effective() && Delete !in Allowed(USERS_MANIFEST.tables, USERS)
  {
    hide Reconcile.Execute, Reads, StatementsFor, SetOf, UnexplainedIn;
    UsersReads();
    UsersExplained();
    assert Lookup(USERS_MANIFEST.tables, USERS) == Some([Select, Insert, Update]);
    ReconcileReaches(USERS_MANIFEST, USERS_CATALOG, USERS_STATE);
    assert Delete in USERS_CATALOG.tables[USERS].inherited;
  }

  /**
    * A run is refused before it changes anything or fails after the repair exactly when PUBLIC or a membership
    * holds, on a listed table, something outside the manifest.
    */
  lemma {:induction false} RunPasses(m: Manifest, before: Catalog, after: Catalog, first: RoleState, second: RoleState)
    requires m.Valid() && AtManifest(m, before, after) && Reads(m, before, first) && Reads(m, after, second)
    ensures PlanFor(m, second).statements == []
    ensures (forall name, p | name in before.tables && Lists(m.tables, name) ::
               && !Unexplains(PlanFor(m, first).unexplained, name, p)
               && !Unexplains(PlanFor(m, second).unexplained, name, p))
       <==> (forall name, p | name in before.tables && Lists(m.tables, name)
                              && p in before.tables[name].public + before.tables[name].inherited ::
               p in Allowed(m.tables, name))
  {
    ReconcileSettles(m, before, after, second);
    hide StatementsFor, UnexplainedIn, Reads, Lookup, Unexplains, Allowed;
    forall name, p | name in before.tables && Lists(m.tables, name)
      ensures (|| Unexplains(PlanFor(m, first).unexplained, name, p)
               || Unexplains(PlanFor(m, second).unexplained, name, p))
         <==> p in before.tables[name].public + before.tables[name].inherited && p !in Allowed(m.tables, name)
    {
      UnexplainsIs(m, before, first, name, p);
      UnexplainsIs(m, after, second, name, p);
      assert p in Allowed(m.tables, name) <==> p in SetOf(Allowed(m.tables, name));
    }
  }

  // ---------------------------------------------------------------------------
  //  What the plan leaves to report, and what it leaves nothing missing of.
  // ---------------------------------------------------------------------------

  /** A table is reported, not touched, exactly when the manifest does not list it. */
  lemma {:induction false} UnlistedIs(tables: seq<TablePrivileges>, states: seq<TableState>, name: string)
    ensures name in UnlistedIn(tables, states) <==> !Lists(tables, name) && exists t | t in states :: t.table == name
  {
    hide Lookup;
    if states != [] {
      assert states == [states[0]] + states[1..];
      UnlistedIs(tables, states[1..], name);
    }
  }

  lemma {:induction false} HeldMapIs(held: seq<TablePrivileges>)
    ensures forall name | name in HeldMap(held) ::
              exists t | t in held :: t.table == name && HeldMap(held)[name] == t.privileges
  {
    if held != [] {
      var init, last := held[..|held| - 1], held[|held| - 1];
      HeldMapIs(init);
      assert held == init + [last];
    }
  }

  lemma {:induction false} MissingInIs(held: map<string, seq<Privilege>>, tables: seq<TablePrivileges>, name: string,
                                       p: Privilege)
    ensures OnTable(p, name) in MissingIn(held, tables)
       <==> name in held && p !in held[name] && exists t | t in tables :: t.table == name && p in t.privileges
  {
    hide ItemsOn, Beyond;
    if tables != [] {
      var t := tables[0];
      assert tables == [t] + tables[1..];
      MissingInIs(held, tables[1..], name, p);
      if t.table in held {
        ItemsOnIs(t.table, Beyond(t.privileges, t.privileges, held[t.table]), OnTable(p, name));
        BeyondIs(t.privileges, t.privileges, held[t.table]);
      }
    }
  }

  lemma {:induction false} MissingFunctions(facts: Facts, functions: seq<FunctionGrant>, item: Item)
    ensures item in MissingExecute(facts, functions)
       <==> exists fn | fn in functions ::
              var signature := fn.name + "(" + Text.Join(fn.args, ", ") + ")";
              || (signature !in facts.functions && item == Item.Execute(signature, true))
              || (signature in facts.functions && !facts.functions[signature] && item == Item.Execute(signature, false))
  {
    if functions != [] {
      assert functions == [functions[0]] + functions[1..];
      MissingFunctions(facts, functions[1..], item);
    }
  }

  lemma {:induction false} OnlyTableItems(m: Manifest, facts: Facts)
    ensures forall item | item in MissingIn(HeldMap(facts.tables), m.tables) :: item.OnTable?
    ensures forall item | item in ForbiddenIn(m.tables, facts.tables) :: item.OnTable?
  {
    MissingAreTables(HeldMap(facts.tables), m.tables);
    ForbiddenAreTables(m.tables, facts.tables);
  }

  lemma {:induction false} ItemsAreTables(table: string, privileges: seq<Privilege>)
    ensures forall item | item in ItemsOn(table, privileges) :: item.OnTable?
  {
    if privileges != [] {
      ItemsAreTables(table, privileges[1..]);
    }
  }

  lemma {:induction false} MissingAreTables(held: map<string, seq<Privilege>>, tables: seq<TablePrivileges>)
    ensures forall item | item in MissingIn(held, tables) :: item.OnTable?
  {
    hide Beyond, ItemsOn;
    if tables != [] {
      MissingAreTables(held, tables[1..]);
      var t := tables[0];
      if t.table in held {
        ItemsAreTables(t.table, Beyond(t.privileges, t.privileges, held[t.table]));
      }
    }
  }

  lemma {:induction false} ForbiddenAreTables(tables: seq<TablePrivileges>, held: seq<TablePrivileges>)
    ensures forall item | item in ForbiddenIn(tables, held) :: item.OnTable?
  {
    hide Beyond, ItemsOn, Allowed;
    if held != [] {
      ForbiddenAreTables(tables, held[1..]);
      ItemsAreTables(held[0].table, Beyond(ALL_PRIVILEGES, held[0].privileges, Allowed(tables, held[0].table)));
    }
  }

  /**
    * Besides tables, the report misses a manifest's function that is absent or not executable and the use of the
    * schema, and forbids creating in the schema, in the public one and in the database.
    */
  lemma {:induction false} ReportReads(m: Manifest, facts: Facts, item: Item)
    requires !item.OnTable?
    ensures item in ReportFor(m, facts).missing
       <==> || (item == UsageOnSchema && !facts.schemaUsage)
            || exists fn | fn in m.functions ::
                 var signature := fn.name + "(" + Text.Join(fn.args, ", ") + ")";
                 || (signature !in facts.functions && item == Item.Execute(signature, true))
                 || (&& signature in facts.functions && !facts.functions[signature]
                     && item == Item.Execute(signature, false))
    ensures item in ReportFor(m, facts).forbidden
       <==> || (item == CreateOnSchema && facts.schemaCreate)
            || (item == CreateOnPublic && facts.publicCreate)
            || (item == CreateOnDatabase && facts.databaseCreate)
    ensures ReportFor(m, facts).attributes == facts.attributes && ReportFor(m, facts).memberships == facts.memberships
  {
    hide MissingIn, ForbiddenIn, MissingExecute, HeldMap;
    OnlyTableItems(m, facts);
    MissingFunctions(facts, m.functions, item);
  }

  lemma {:induction false} MissingExecuteIs(facts: Facts, functions: seq<FunctionGrant>, name: string, p: Privilege)
    ensures OnTable(p, name) !in MissingExecute(facts, functions)
  {
    if functions != [] {
      MissingExecuteIs(facts, functions[1..], name, p);
    }
  }

  /** After a run, the comparison finds no table privilege missing, whichever grants come from elsewhere. */
  lemma NothingMissingAfter(m: Manifest, before: Catalog, after: Catalog, facts: Facts, name: string, p: Privilege)
    requires m.Valid() && AtManifest(m, before, after) && Holds(after, facts)
    ensures OnTable(p, name) !in ReportFor(m, facts).missing
  {
    hide HeldMap, MissingIn, MissingExecute, Lookup, Allowed;
    var held := HeldMap(facts.tables);
    MissingInIs(held, m.tables, name, p);
    MissingExecuteIs(facts, m.functions, name, p);
    HeldMapIs(facts.tables);
    if name in held && p !in held[name] {
      forall t | t in m.tables && t.table == name ensures p !in t.privileges {
        var h :| h in facts.tables && h.table == name && held[name] == h.privileges;
        var k :| 0 <= k < |m.tables| && m.tables[k] == t;
        LookupIs(m.tables, k);
        AllowedIs(m.tables, t);
        assert p in t.privileges <==> p in SetOf(t.privileges);
        assert p in h.privileges <==> p in SetOf(h.privileges);
      }
    }
  }

  lemma AllowedIs(tables: seq<TablePrivileges>, t: TablePrivileges)
    requires Lookup(tables, t.table) == Wrappers.Some(t.privileges)
    ensures Lists(tables, t.table) && Allowed(tables, t.table) == t.privileges
  {
  }
}
