/** A context read off the rows: the organization it resolves to, its decision, and its permissions. */
module AccessPermissions {
  import opened Wrappers
  import opened Tenancy
  import opened Access

  /** A role the user holds in the organization, directly or through a group, carries the key. */
  ghost predicate Confers(d: Directory, user: Id, org: Id, key: string) {
    exists a: Assignment ::
      && (a in d.direct || a in d.viaGroup)
      && a.user == user && a.org == org && a.role in d.roles && key in d.roles[a.role].keys
  }

  /** A role assigned directly carries the marker, in an active organization the user is an active member of. */
  ghost predicate SuperuserSomewhere(d: Directory, user: Id) {
    exists a: Assignment, m: Membership ::
      && a in d.direct && a.user == user && a.role in d.roles && "superuser" in d.roles[a.role].keys
      && m in d.memberships && m.user == user && m.org == a.org && m.status == "active" && m.org in d.activeOrgs
  }

  lemma SuperuserIs(d: Directory, user: Id)
    ensures GlobalSuperuser(d, user) <==> SuperuserSomewhere(d, user)
  {
    if GlobalSuperuser(d, user) {
      var a :| a in d.direct && a.user == user && a.role in d.roles && SUPERUSER in d.roles[a.role].keys
        && ActiveMember(d, user, a.org);
      var m :| m in d.memberships && CountsFor(d, user, m) && m.org == a.org && m.status == "active";
      assert SuperuserSomewhere(d, user);
    }
  }

  // ---------------------------------------------------------------------------
  //  The organization.
  // ---------------------------------------------------------------------------

  /** The borrower, if there is one, is not banned, and an active superuser or an active member of the organization. */
  ghost predicate BorrowerEnters(d: Directory, impersonator: Option<Id>, org: Id) {
    impersonator.Some? ==>
      && var user := impersonator.value;
      && !(user in d.accounts && d.accounts[user].banned)
      && user in d.accounts && d.accounts[user].status == "active"
      && (|| SuperuserSomewhere(d, user)
          || (exists m | m in d.memberships ::
                m.user == user && m.org == org && m.status == "active" && org in d.activeOrgs))
  }

  /** A membership the request may act in: the user's, in an active organization its credential or borrower allows. */
  ghost predicate Enterable(d: Directory, r: Request, m: Membership) {
    && m in d.memberships && m.user == r.user && m.org in d.activeOrgs
    && match r.bound
       case Some(Some(org)) => m.org == org
       case Some(None) => true
       case None => BorrowerEnters(d, r.impersonator, m.org)
  }

  lemma ReachIs(d: Directory, user: Id, org: Id)
    ensures (Reach(d, user).Some? ==> org in Reach(d, user).value) <==> BorrowerEnters(d, Some(user), org)
  {
    hide GlobalSuperuser, SuperuserSomewhere;
    SuperuserIs(d, user);
    if exists m | m in d.memberships :: m.user == user && m.org == org && m.status == "active" && org in d.activeOrgs {
      assert ActiveAccount(d, user) ==> org in ActiveOrgs(d, user);
    }
  }

  lemma CandidateEnters(d: Directory, r: Request, m: Membership)
    ensures m in Candidates(d, r) <==> Enterable(d, r, m)
  {
    hide Reach, BorrowerEnters, Filter;
    match r.bound
    case Some(Some(org)) => FilterIs(d.memberships, m => CountsFor(d, r.user, m) && m.org == org, m);
    case Some(None) => FilterIs(d.memberships, m => CountsFor(d, r.user, m), m);
    case None =>
      CandidateIs(d, r, m);
      if r.impersonator.Some? {
        ReachIs(d, r.impersonator.value, m.org);
      } else {
        NobodyBorrows(d, m.org);
      }
  }

  lemma NobodyBorrows(d: Directory, org: Id)
    ensures BorrowerEnters(d, None, org)
  {
  }

  /**
    * A context acts in an organization exactly when some membership can be entered; the one chosen is active if any is,
    * then the cookie's, then the earliest, identifiers breaking ties; a credential's is the earliest, of any status.
    */
  lemma {:induction false} ResolvesExactly(d: Directory, r: Request)
    requires r.user in d.accounts
    ensures ContextOf(d, r).org.None? <==> forall m :: !Enterable(d, r, m)
    ensures ContextOf(d, r).org.Some? ==>
              exists best ::
                && Enterable(d, r, best) && ContextOf(d, r).org == Some(best.org)
                && ContextOf(d, r).membership == Some(Coerced(best.status))
                && forall m | Enterable(d, r, m) ::
                     if r.bound.None? && (m.status == "active") != (best.status == "active")
                     then best.status == "active"
                     else if r.bound.None? && (r.cookie == Some(m.org)) != (r.cookie == Some(best.org))
                     then r.cookie == Some(best.org)
                     else best.created < m.created || (best.created == m.created && best.id <= m.id)
  {
    hide Candidates, First, Enterable, Permissions, KeysIn;
    forall m ensures m in Candidates(d, r) <==> Enterable(d, r, m) {
      CandidateEnters(d, r, m);
    }
    assert Candidates(d, r) != [] ==> Candidates(d, r)[0] in Candidates(d, r);
    if r.bound.None? {
      FirstIsBest(Candidates(d, r), r.cookie);
    } else {
      FirstIsEarliest(Candidates(d, r));
    }
    if Resolved(d, r).Some? {
      CoercedIs(Resolved(d, r).value.status);
    }
  }

  // ---------------------------------------------------------------------------
  //  The decision.
  // ---------------------------------------------------------------------------

  /** A membership's status; one the kit does not know counts as suspended. */
  function Coerced(raw: string): Status {
    match raw
    case "active" => Active
    case "pending_approval" => PendingApproval
    case "blocked" => Blocked
    case _ => Suspended
  }

  lemma CoercedIs(raw: string)
    ensures MemberStatus(raw) == Coerced(raw)
  {
  }

  /**
    * Allowed: account and membership active. Waiting: nobody signed in, the account pending, or an active account with
    * its membership pending or none. Blocked, otherwise: an unknown status, too.
    */
  lemma DecidesExactly(d: Directory, r: Request)
    ensures var context := ContextOf(d, r);
            var raw := if r.user in d.accounts then Some(d.accounts[r.user].status) else None;
            && (context.Decision() == Allow <==> raw == Some("active") && context.membership == Some(Active))
            && (context.Decision() == Wait
                <==> || raw == None || raw == Some("pending_approval")
                     || (raw == Some("active") && context.membership in {None, Some(PendingApproval)}))
            && (context.status ==
                match raw
                case None => PendingApproval
                case Some(text) =>
                  if text == "active" then Active
                  else if text == "pending_approval" then PendingApproval
                  else if text == "blocked" then Blocked
                  else if text == "suspended" then Suspended
                  else Deactivated)
  {
    hide Permissions, Resolved;
    if Resolved(d, r).Some? {
      CoercedIs(Resolved(d, r).value.status);
    }
  }

  // ---------------------------------------------------------------------------
  //  The permissions.
  // ---------------------------------------------------------------------------

  lemma KeysAre(d: Directory, user: Id, org: Id, key: string)
    ensures key in KeysIn(d, user, org) <==> Confers(d, user, org, key)
  {
    if Confers(d, user, org, key) {
      var a: Assignment :| && (a in d.direct || a in d.viaGroup)
        && a.user == user && a.org == org && a.role in d.roles && key in d.roles[a.role].keys;
      assert a in d.direct ==> key in KeysOf(d, d.direct, user, org);
      assert a in d.viaGroup ==> key in KeysOf(d, d.viaGroup, user, org);
    }
  }

  /**
    * In the organization a request resolves to, a key is among the permissions exactly when a role held there carries
    * it, or it is the shell's of an allowed user, or the user is a superuser, here by the marker or anywhere, and it is
    * one of a superuser's.
    */
  lemma {:induction false} PermittedExactlyWhen(d: Directory, r: Request, org: Id, key: string)
    requires ContextOf(d, r).org == Some(org)
    ensures r.user in d.accounts
    ensures key in ContextOf(d, r).permissions
       <==> || Confers(d, r.user, org, key)
            || (&& key == "shell.view"
                && d.accounts[r.user].status == "active" && ContextOf(d, r).membership == Some(Active))
            || (&& (Confers(d, r.user, org, "superuser") || SuperuserSomewhere(d, r.user))
                && (key == "shell.view" || key == "audit.view" || key == "superuser" || key in d.catalog))
  {
    hide KeysIn, GlobalSuperuser, Resolved, Confers, SuperuserSomewhere;
    SuperuserIs(d, r.user);
    KeysAre(d, r.user, org, key);
    KeysAre(d, r.user, org, SUPERUSER);
  }

  /** With no marker there nor anywhere, a key but the shell's comes from a role held in the organization. */
  lemma {:induction false} OnlyHeldThere(d: Directory, r: Request, org: Id, key: string)
    requires ContextOf(d, r).org == Some(org) && key != "shell.view"
    requires !Confers(d, r.user, org, "superuser") && !SuperuserSomewhere(d, r.user)
    ensures key in ContextOf(d, r).permissions <==> Confers(d, r.user, org, key)
  {
    hide Confers, SuperuserSomewhere, ContextOf;
    PermittedExactlyWhen(d, r, org, key);
  }

  // ---------------------------------------------------------------------------
  //  What other users and other organizations confer makes no difference.
  // ---------------------------------------------------------------------------

  /** The directories differ in nothing but assignments, and in none of the user's in the organization. */
  predicate SameFor(d: Directory, e: Directory, user: Id, org: Option<Id>) {
    && e == d.(direct := e.direct, viaGroup := e.viaGroup)
    && (forall a | a in d.direct + e.direct && a.user == user && Some(a.org) == org :: a in d.direct && a in e.direct)
    && (forall a | a in d.viaGroup + e.viaGroup && a.user == user && Some(a.org) == org ::
          a in d.viaGroup && a in e.viaGroup)
  }

  lemma ConfersSame(d: Directory, e: Directory, user: Id, org: Id, key: string)
    requires SameFor(d, e, user, Some(org))
    ensures Confers(d, user, org, key) == Confers(e, user, org, key)
  {
    forall a: Assignment | a.user == user && a.org == org
      ensures (a in d.direct || a in d.viaGroup) <==> (a in e.direct || a in e.viaGroup)
    {
      assert a in d.direct ==> a in d.direct + e.direct;
      assert a in e.direct ==> a in d.direct + e.direct;
      assert a in d.viaGroup ==> a in d.viaGroup + e.viaGroup;
      assert a in e.viaGroup ==> a in d.viaGroup + e.viaGroup;
    }
  }

  lemma ResolvedSame(d: Directory, e: Directory, r: Request)
    requires r.impersonator.None? && e == d.(direct := e.direct, viaGroup := e.viaGroup)
    ensures Resolved(e, r) == Resolved(d, r)
  {
    hide First, Filter;
    match r.bound
    case Some(Some(org)) =>
      FilterSame(d.memberships, m => CountsFor(d, r.user, m) && m.org == org,
                 m => CountsFor(e, r.user, m) && m.org == org);
    case Some(None) => FilterSame(d.memberships, m => CountsFor(d, r.user, m), m => CountsFor(e, r.user, m));
    case None =>
      var reach: Option<set<Id>> := None;
      FilterSame(d.memberships, m => CountsFor(d, r.user, m) && (reach.Some? ==> m.org in reach.value),
                 m => CountsFor(e, r.user, m) && (reach.Some? ==> m.org in reach.value));
  }

  lemma {:induction false} FilterSame(ms: seq<Membership>, f: Membership -> bool, g: Membership -> bool)
    requires forall m :: f(m) == g(m)
    ensures Filter(ms, f) == Filter(ms, g)
  {
    if ms != [] {
      FilterSame(ms[1..], f, g);
    }
  }

  /**
    * For a user who is a superuser in neither, whatever is assigned to anyone else, or to them in any other
    * organization, leaves the whole context of their own session or credential as it is.
    */
  lemma {:induction false} OthersConferNothing(d: Directory, e: Directory, r: Request)
    requires r.impersonator.None? && SameFor(d, e, r.user, ContextOf(d, r).org)
    requires !SuperuserSomewhere(d, r.user) && !SuperuserSomewhere(e, r.user)
    ensures ContextOf(e, r) == ContextOf(d, r)
  {
    hide Resolved, Confers, SuperuserSomewhere, Permissions;
    ResolvedSame(d, e, r);
    if ContextOf(d, r).org.Some? {
      var org := ContextOf(d, r).org.value;
      forall key ensures key in ContextOf(d, r).permissions <==> key in ContextOf(e, r).permissions {
        PermittedExactlyWhen(d, r, org, key);
        PermittedExactlyWhen(e, r, org, key);
        ConfersSame(d, e, r.user, org, key);
        ConfersSame(d, e, r.user, org, "superuser");
      }
      assert ContextOf(d, r).permissions == ContextOf(e, r).permissions;
    }
  }
}
