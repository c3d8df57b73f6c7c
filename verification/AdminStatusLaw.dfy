/** The last-superadmin law and the change's answers, in the fields of the rows. */
module AdminStatusLaw {
  import opened Wrappers
  import opened Tenancy
  import opened AdminStatus
  import opened AdminStatusRuns
  import opened AdminStatusStore

  /** A superuser role held directly, through an active membership in an active organization, by one who can sign in. */
  ghost predicate Superadmin(rows: Rows, a: Assignment) {
    && a in rows.direct && a.role in rows.superRoles && a.org in rows.activeOrgs
    && (a.user, a.org) in rows.members && rows.members[(a.user, a.org)].status == Active
    && a.user in rows.accounts && rows.accounts[a.user].status == Active && !rows.accounts[a.user].banned
  }

  lemma SuperadminCounts(rows: Rows, a: Assignment)
    ensures a in ActiveGrants(rows) <==> Superadmin(rows, a)
  {
  }

  ghost predicate SomeSuperadmin(rows: Rows) { exists a :: Superadmin(rows, a) }

  lemma SomeCounts(rows: Rows)
    ensures SomeSuperadmin(rows) <==> ActiveGrants(rows) != {}
  {
    hide ActiveGrants, Superadmin;
    if ActiveGrants(rows) != {} {
      var a :| a in ActiveGrants(rows);
      SuperadminCounts(rows, a);
    }
    if SomeSuperadmin(rows) {
      var a :| Superadmin(rows, a);
      SuperadminCounts(rows, a);
    }
  }

  lemma {:induction false} HarmlessPart(st: State, actions: seq<Action>, k: nat)
    requires HarmlessRun(st, actions) && k <= |actions|
    ensures HarmlessRun(st, actions[..k])
  {
    hide Harmless, Run;
    if k < |actions| {
      var n := |actions| - 1;
      HarmlessPart(st, actions[..n], k);
      assert actions[..n][..k] == actions[..k];
    } else {
      assert actions[..k] == actions;
    }
  }

  /**
    * If some superadmin can sign in at the start, some superadmin can after every step of every run in which no
    * membership appears behind the back of a change that has looked for it elsewhere, or has listed what it would move.
    */
  lemma {:induction false} SomeSuperadminStays(st: State, actions: seq<Action>, k: nat)
    requires Fresh(st) && SomeSuperadmin(st.rows) && HarmlessRun(st, actions) && k <= |actions|
    ensures SomeSuperadmin(Run(st, actions[..k]).rows)
  {
    hide Run, HarmlessRun, SomeSuperadmin, ActiveGrants;
    HarmlessPart(st, actions, k);
    SomeCounts(st.rows);
    LastSuperadminStays(st, actions[..k]);
    SomeCounts(Run(st, actions[..k]).rows);
  }

  /** No version expected, or the row's own to the millisecond; the row keeps microseconds. */
  ghost predicate VersionStands(rows: Rows, c: Change)
    requires c.target in rows.accounts
  {
    c.expected == None || c.expected == Some(rows.accounts[c.target].updatedAt / 1000)
  }

  /**
    * Run alone, the change answers the last superadmin exactly when its version stands, its account is not
    * soft-deleted, it takes the membership away, and those superadmins there are hold their roles through memberships
    * it would move.
    */
  lemma {:induction false} LastSuperadminExactlyWhen(rows: Rows, logins: map<Id, Login>, c: Change, now: nat)
    ensures Alone(rows, logins, Begun(c), now, None).2 == Denied(LastSuperadmin)
       <==> && c.target in rows.accounts && VersionStands(rows, c) && rows.accounts[c.target].status != Deactivated
            && c.newMembership != Active && SomeSuperadmin(rows)
            && forall a | Superadmin(rows, a) :: a.user == c.target && (c.scope == None || c.scope == Some(a.org))
  {
    hide Alone, ActiveGrants, Superadmin;
    AnswersExactly(rows, logins, c, now);
    SomeCounts(rows);
    forall a ensures a in ActiveGrants(rows) <==> Superadmin(rows, a)
      ensures Superadmin(rows, a) ==> (a.user, a.org) in rows.members
    {
      SuperadminCounts(rows, a);
      SuperadminMember(rows, a);
    }
  }

  lemma SuperadminMember(rows: Rows, a: Assignment)
    ensures Superadmin(rows, a) ==> (a.user, a.org) in rows.members
  {
  }

  /** Alone, a change leaves a superadmin who can sign in, if one could. */
  lemma {:induction false} DoneLeavesSome(rows: Rows, logins: map<Id, Login>, c: Change, now: nat)
    requires c.Matched() && SomeSuperadmin(rows)
    ensures SomeSuperadmin(Alone(rows, logins, Begun(c), now, None).0)
  {
    hide Alone, ActiveGrants, Superadmin, Transacted, Moved, IsShared, Listed;
    var r := Alone(rows, logins, Begun(c), now, None);
    AnswersExactly(rows, logins, c, now);
    SomeCounts(rows);
    SomeCounts(r.0);
    if !r.2.Denied? {
      CautiousReadKeepsGrant(rows, c, IsShared(rows, c), false, now);
      NotRefusedMoved(rows, c, AccountWide(c, IsShared(rows, c)), now);
    }
  }

  lemma NotRefusedMoved(rows: Rows, c: Change, wide: bool, now: nat)
    requires Refused(rows, c, false).None?
    ensures Transacted(rows, c, wide, false, now) == Moved(rows, c, wide, now)
  {
  }

  // ---------------------------------------------------------------------------
  //  Sign-in sessions.
  // ---------------------------------------------------------------------------

  /** From an account-wide shut-out's commit on: once it answers ok, none is left but what was signed in to since. */
  lemma {:induction false} OnlySignedInSince(st: State, actions: seq<Action>, sid: Id, login: Id)
    requires sid in st.sessions && st.sessions[sid].phase.EndingOwn?
    requires var r := Run(st, actions);
             && sid in r.sessions && r.sessions[sid].phase.Over? && r.sessions[sid].phase.outcome.Done?
             && login in r.logins
    ensures var target, l := st.sessions[sid].change.target, Run(st, actions).logins[login];
            l.owner == target || l.impersonator == Some(target) ==> SignIn(login, l) in actions
  {
    hide Run;
    ShutOutEndsSessions(st, actions, sid);
  }

  /** Alone, a shut-out of the whole account ends its own sessions and those it borrowed; nothing ends any other. */
  lemma {:induction false} EndsExactly(rows: Rows, logins: map<Id, Login>, c: Change, now: nat, login: Id)
    requires login in logins && Alone(rows, logins, Begun(c), now, None).2 == Done(c.newStatus)
    ensures login !in Alone(rows, logins, Begun(c), now, None).1
       <==> && c.newStatus != Active
            && (c.scope == None
                || forall key | key in rows.members && key.0 == c.target :: c.scope == Some(key.1))
            && (logins[login].owner == c.target || logins[login].impersonator == Some(c.target))
  {
    hide Alone;
    AnswersExactly(rows, logins, c, now);
    SharedReads(rows, c);
  }

  lemma SharedReads(rows: Rows, c: Change)
    ensures AccountWide(c, IsShared(rows, c))
       <==> c.scope == None || forall key | key in rows.members && key.0 == c.target :: c.scope == Some(key.1)
  {
  }
}
