/** Which organization a session acts in, what it may do there, and how far a borrowed one reaches. */
module Access {
  import opened Wrappers
  import opened Tenancy

  const SHELL_VIEW := "shell.view"

  datatype Account = Account(status: string, banned: bool)

  datatype Membership = Membership(id: Id, user: Id, org: Id, status: string, created: int)

  /** The tables a request reads; `catalog` is every administrator permission. */
  datatype Directory = Directory(accounts: map<Id, Account>, memberships: seq<Membership>, activeOrgs: set<Id>,
                                 roles: map<Id, Role>, direct: set<Assignment>, viaGroup: set<Assignment>,
                                 catalog: set<string>)
  {
    /** Identifiers are unique, and a user has one membership an organization. */
    predicate Valid() {
      && (forall i, j | 0 <= i < j < |memberships| :: memberships[i].id != memberships[j].id)
      && (forall i, j | 0 <= i < j < |memberships| ::
            memberships[i].user != memberships[j].user || memberships[i].org != memberships[j].org)
    }

    function SuperuserPermissions(): set<string> { {SHELL_VIEW, "audit.view", SUPERUSER} + catalog }
  }

  // ---------------------------------------------------------------------------
  //  Statuses, coerced so that an unknown one never allows.
  // ---------------------------------------------------------------------------

  function UserStatus(raw: string): Status {
    if raw == "active" then Active
    else if raw == "pending_approval" then PendingApproval
    else if raw == "blocked" then Blocked
    else if raw == "suspended" then Suspended
    else Deactivated
  }

  function MemberStatus(raw: string): Status {
    if raw == "active" then Active
    else if raw == "pending_approval" then PendingApproval
    else if raw == "blocked" then Blocked
    else Suspended
  }

  datatype Decision = Allow | Wait | Block

  function Decide(status: Status, membership: Option<Status>): Decision {
    if status == Blocked || status == Suspended || status == Deactivated then Block
    else if status == PendingApproval then Wait
    else if membership.None? || membership.value == PendingApproval then Wait
    else if membership.value == Blocked || membership.value == Suspended then Block
    else if status == Active && membership.value == Active then Allow
    else Wait
  }

  // ---------------------------------------------------------------------------
  //  The ranked choice.
  // ---------------------------------------------------------------------------

  /** A membership counts while its organization is active. */
  predicate CountsFor(d: Directory, user: Id, m: Membership) { m.user == user && m.org in d.activeOrgs }

  function Filter(ms: seq<Membership>, keep: Membership -> bool): seq<Membership> {
    if ms == [] then [] else (if keep(ms[0]) then [ms[0]] else []) + Filter(ms[1..], keep)
  }

  /** An active membership first, then the cookie's organization, then the earliest. */
  predicate Precedes(cookie: Option<Id>, a: Membership, b: Membership) {
    if (a.status == "active") != (b.status == "active") then a.status == "active"
    else if cookie.Some? && (a.org == cookie.value) != (b.org == cookie.value) then a.org == cookie.value
    else Earlier(a, b)
  }

  predicate Earlier(a: Membership, b: Membership) { a.created < b.created || (a.created == b.created && a.id <= b.id) }

  function First(ms: seq<Membership>, before: (Membership, Membership) -> bool): Option<Membership> {
    if ms == [] then None
    else
      match First(ms[1..], before)
      case None => Some(ms[0])
      case Some(m) => if before(ms[0], m) then Some(ms[0]) else Some(m)
  }

  // ---------------------------------------------------------------------------
  //  Permissions and reach.
  // ---------------------------------------------------------------------------

  function KeysOf(d: Directory, assignments: set<Assignment>, user: Id, org: Id): set<string> {
    set a, key | && a in assignments && a.user == user && a.org == org
                 && a.role in d.roles && key in d.roles[a.role].keys :: key
  }

  function KeysIn(d: Directory, user: Id, org: Id): set<string> {
    KeysOf(d, d.direct, user, org) + KeysOf(d, d.viaGroup, user, org)
  }

  predicate ActiveMember(d: Directory, user: Id, org: Id) {
    exists m | m in d.memberships :: CountsFor(d, user, m) && m.org == org && m.status == "active"
  }

  predicate GlobalSuperuser(d: Directory, user: Id) {
    exists a | a in d.direct ::
      a.user == user && a.role in d.roles && SUPERUSER in d.roles[a.role].keys && ActiveMember(d, user, a.org)
  }

  predicate ActiveAccount(d: Directory, user: Id) { user in d.accounts && d.accounts[user].status == "active" }

  function ActiveOrgs(d: Directory, user: Id): set<Id> {
    set m | m in d.memberships && CountsFor(d, user, m) && m.status == "active" && ActiveAccount(d, user) :: m.org
  }

  predicate Banned(d: Directory, user: Id) { user in d.accounts && d.accounts[user].banned }

  /** The organizations a borrowed session may resolve to, or none for no bound; an empty set resolves nothing. */
  function Reach(d: Directory, impersonator: Id): Option<set<Id>> {
    if Banned(d, impersonator) then Some({})
    else if ActiveAccount(d, impersonator) && GlobalSuperuser(d, impersonator) then None
    else Some(ActiveOrgs(d, impersonator))
  }

  // ---------------------------------------------------------------------------
  //  The context.
  // ---------------------------------------------------------------------------

  /** `bound` is a bearer credential's organization, if it names one; a session has no `bound`. */
  datatype Request = Request(user: Id, bound: Option<Option<Id>>, impersonator: Option<Id>, cookie: Option<Id>)

  datatype Context = Context(user: Option<Id>, status: Status, org: Option<Id>, membership: Option<Status>,
                             permissions: set<string>, orgBound: bool)
  {
    function Decision(): Decision { Decide(status, membership) }
  }

  function Candidates(d: Directory, r: Request): seq<Membership> {
    match r.bound
    case Some(Some(org)) => Filter(d.memberships, m => CountsFor(d, r.user, m) && m.org == org)
    case Some(None) => Filter(d.memberships, m => CountsFor(d, r.user, m))
    case None =>
      var reach := if r.impersonator.Some? then Reach(d, r.impersonator.value) else None;
      Filter(d.memberships, m => CountsFor(d, r.user, m) && (reach.Some? ==> m.org in reach.value))
  }

  function Resolved(d: Directory, r: Request): Option<Membership> {
    if r.bound.Some? then First(Candidates(d, r), Earlier)
    else First(Candidates(d, r), (a, b) => Precedes(r.cookie, a, b))
  }

  function Permissions(d: Directory, user: Id, m: Membership): set<string> {
    var held := KeysIn(d, user, m.org);
    var baseline :=
      if user in d.accounts && Decide(UserStatus(d.accounts[user].status), Some(MemberStatus(m.status))) == Allow
      then held + {SHELL_VIEW} else held;
    if SUPERUSER in baseline || GlobalSuperuser(d, user) then baseline + d.SuperuserPermissions() else baseline
  }

  function ContextOf(d: Directory, r: Request): Context {
    if r.user !in d.accounts then Context(None, PendingApproval, None, None, {}, r.bound.Some?)
    else
      var status := UserStatus(d.accounts[r.user].status);
      match Resolved(d, r)
      case None => Context(Some(r.user), status, None, None, {}, r.bound.Some?)
      case Some(m) =>
        Context(Some(r.user), status, Some(m.org), Some(MemberStatus(m.status)), Permissions(d, r.user, m),
                r.bound.Some?)
  }

  method GetUserAccessContext(d: Directory, r: Request) returns (context: Context)
    ensures context == ContextOf(d, r)
  {
    if r.user !in d.accounts {
      return Context(None, PendingApproval, None, None, {}, r.bound.Some?);
    }
    var membership := None;
    if r.bound.Some? {
      membership := First(Candidates(d, r), Earlier);
    } else {
      var confined := None;
      if r.impersonator.Some? {
        confined := Reach(d, r.impersonator.value);
      }
      if confined == Some({}) {
        // Nobody the session was borrowed by can reach anything: it resolves nothing.
        NothingReached(d, r);
      } else {
        membership := First(Candidates(d, r), (a, b) => Precedes(r.cookie, a, b));
      }
    }
    var status := UserStatus(d.accounts[r.user].status);
    var memberStatus := None;
    var permissions: set<string> := {};
    if membership.Some? {
      memberStatus := Some(MemberStatus(membership.value.status));
      permissions := KeysIn(d, r.user, membership.value.org);
    }
    if Decide(status, memberStatus) == Allow && SHELL_VIEW !in permissions {
      permissions := permissions + {SHELL_VIEW};
    }
    if membership.Some? && (SUPERUSER in permissions || GlobalSuperuser(d, r.user)) {
      permissions := permissions + d.SuperuserPermissions();
    }
    var org := if membership.Some? then Some(membership.value.org) else None;
    context := Context(Some(r.user), status, org, memberStatus, permissions, r.bound.Some?);
  }

  // ---------------------------------------------------------------------------
  //  The choice is the best candidate.
  // ---------------------------------------------------------------------------

  lemma {:induction false} FilterIs(ms: seq<Membership>, keep: Membership -> bool, m: Membership)
    ensures m in Filter(ms, keep) <==> m in ms && keep(m)
  {
    if ms != [] {
      assert ms == [ms[0]] + ms[1..];
      FilterIs(ms[1..], keep, m);
    }
  }

  lemma NothingReached(d: Directory, r: Request)
    requires r.bound.None? && r.impersonator.Some? && Reach(d, r.impersonator.value) == Some({})
    ensures Resolved(d, r) == None
  {
    if Resolved(d, r).Some? {
      FirstIsBest(Candidates(d, r), r.cookie);
      CandidateIs(d, r, Resolved(d, r).value);
      assert false;
    }
  }

  /** A session's candidates: the user's memberships that count, within reach of whoever borrowed it. */
  lemma CandidateIs(d: Directory, r: Request, m: Membership)
    requires r.bound.None?
    ensures m in Candidates(d, r) <==>
              m in d.memberships && CountsFor(d, r.user, m)
              && (r.impersonator.Some? && Reach(d, r.impersonator.value).Some? ==>
                  m.org in Reach(d, r.impersonator.value).value)
  {
    var reach := if r.impersonator.Some? then Reach(d, r.impersonator.value) else None;
    FilterIs(d.memberships, m => CountsFor(d, r.user, m) && (reach.Some? ==> m.org in reach.value), m);
  }

  lemma {:induction false} FirstIsBest(ms: seq<Membership>, cookie: Option<Id>)
    ensures var first := First(ms, (a, b) => Precedes(cookie, a, b));
            && (first.None? <==> ms == [])
            && (first.Some? ==> first.value in ms && forall m | m in ms :: Precedes(cookie, first.value, m))
  {
    if ms != [] {
      FirstIsBest(ms[1..], cookie);
      assert ms == [ms[0]] + ms[1..];
    }
  }

  /** The best of the candidates: an active one first, then the cookie's, then the earliest. There is only one. */
  lemma ResolvedIsBest(d: Directory, r: Request)
    requires r.bound.None?
    ensures var best := Resolved(d, r);
            && (best.None? <==> forall m :: m !in Candidates(d, r))
            && (best.Some? ==> best.value in Candidates(d, r)
                               && forall m | m in Candidates(d, r) :: Precedes(r.cookie, best.value, m))
    ensures d.Valid() ==> forall m | m in Candidates(d, r) && forall other | other in Candidates(d, r) ::
                            Precedes(r.cookie, m, other) :: Resolved(d, r) == Some(m)
  {
    hide First, Candidates;
    FirstIsBest(Candidates(d, r), r.cookie);
    assert Candidates(d, r) != [] ==> Candidates(d, r)[0] in Candidates(d, r);
    if d.Valid() {
      forall m | m in Candidates(d, r) && forall other | other in Candidates(d, r) :: Precedes(r.cookie, m, other)
        ensures Resolved(d, r) == Some(m)
      {
        CandidateIs(d, r, m);
        CandidateIs(d, r, Resolved(d, r).value);
        BestIsOne(d, r.cookie, m, Resolved(d, r).value);
      }
    }
  }

  /**
    * In words: active when any candidate is, then of the cookie's organization when one as active is, then the
    * earliest.
    */
  lemma ResolvedReads(d: Directory, r: Request, m: Membership)
    requires r.bound.None? && m in Candidates(d, r)
    ensures Resolved(d, r).Some?
    ensures var best := Resolved(d, r).value;
            && (m.status == "active" ==> best.status == "active")
            && ((m.status == "active") == (best.status == "active") && r.cookie == Some(m.org) ==> best.org == m.org)
            && ((&& (m.status == "active") == (best.status == "active")
                 && (r.cookie == Some(m.org) <==> r.cookie == Some(best.org))) ==>
                  best.created < m.created || (best.created == m.created && best.id <= m.id))
  {
    hide First, Candidates;
    ResolvedIsBest(d, r);
  }

  /** An organization-less credential acts in the earliest membership that counts, whatever its status. */
  lemma UnboundIsEarliest(d: Directory, r: Request, m: Membership)
    requires r.bound == Some(None) && m in d.memberships && CountsFor(d, r.user, m)
    ensures Resolved(d, r).Some? && CountsFor(d, r.user, Resolved(d, r).value)
    ensures var best := Resolved(d, r).value; best.created < m.created || (best.created == m.created && best.id <= m.id)
  {
    var keep := (x: Membership) => CountsFor(d, r.user, x);
    FilterIs(d.memberships, keep, m);
    FirstIsEarliest(Candidates(d, r));
    FilterIs(d.memberships, keep, Resolved(d, r).value);
  }

  lemma {:induction false} FirstIsEarliest(ms: seq<Membership>)
    ensures First(ms, Earlier).None? <==> ms == []
    ensures First(ms, Earlier).Some? ==>
              First(ms, Earlier).value in ms && forall m | m in ms :: Earlier(First(ms, Earlier).value, m)
  {
    if ms != [] {
      FirstIsEarliest(ms[1..]);
      assert ms == [ms[0]] + ms[1..];
    }
  }

  lemma BestIsOne(d: Directory, cookie: Option<Id>, a: Membership, b: Membership)
    requires d.Valid() && a in d.memberships && b in d.memberships
    requires Precedes(cookie, a, b) && Precedes(cookie, b, a)
    ensures a == b
  {
  }

  // ---------------------------------------------------------------------------
  //  The cookie chooses; it neither admits nor shuts out.
  // ---------------------------------------------------------------------------

  predicate SomeActive(d: Directory, r: Request) { exists m | m in Candidates(d, r) :: m.status == "active" }

  function WithCookie(r: Request, cookie: Option<Id>): Request { r.(cookie := cookie) }

  lemma CandidatesSame(d: Directory, r: Request, cookie: Option<Id>)
    ensures Candidates(d, WithCookie(r, cookie)) == Candidates(d, r)
  {
  }

  /** A session is allowed exactly when the account is active and so is some candidate, whatever the cookie says. */
  lemma AllowedExactlyWhen(d: Directory, r: Request)
    requires r.bound.None?
    ensures ContextOf(d, r).Decision() == Allow
       <==> r.user in d.accounts && d.accounts[r.user].status == "active" && SomeActive(d, r)
  {
    hide First, Candidates, Permissions;
    ResolvedIsBest(d, r);
    if SomeActive(d, r) {
      var m :| m in Candidates(d, r) && m.status == "active";
      assert Precedes(r.cookie, Resolved(d, r).value, m);
    }
  }

  lemma AllowIgnoresCookie(d: Directory, r: Request, cookie: Option<Id>)
    requires r.bound.None?
    ensures ContextOf(d, r).Decision() == Allow <==> ContextOf(d, WithCookie(r, cookie)).Decision() == Allow
  {
    hide ContextOf, Candidates;
    AllowedExactlyWhen(d, r);
    AllowedExactlyWhen(d, WithCookie(r, cookie));
    CandidatesSame(d, r, cookie);
  }

  /** Resolving any candidate that is active, or any at all while none is, takes only naming its organization. */
  lemma CookieReaches(d: Directory, r: Request, m: Membership)
    requires d.Valid() && r.bound.None? && m in Candidates(d, r) && (m.status == "active" || !SomeActive(d, r))
    ensures Resolved(d, WithCookie(r, Some(m.org))) == Some(m)
  {
    hide First, Candidates;
    var q := WithCookie(r, Some(m.org));
    CandidatesSame(d, r, Some(m.org));
    ResolvedIsBest(d, q);
    forall other | other in Candidates(d, q) ensures Precedes(q.cookie, m, other) {
      CandidateIs(d, q, m);
      CandidateIs(d, q, other);
      if other.org == m.org {
        SameOrg(d, m, other);
      }
    }
  }

  lemma SameOrg(d: Directory, a: Membership, b: Membership)
    requires d.Valid() && a in d.memberships && b in d.memberships && a.user == b.user && a.org == b.org
    ensures a == b
  {
  }

  predicate Barred(m: Membership) { MemberStatus(m.status) == Blocked || MemberStatus(m.status) == Suspended }

  /**
    * The cookie can turn waiting into blocked exactly when an active account has both kinds of membership and no
    * active one.
    */
  lemma CookieVariesExactlyWhen(d: Directory, r: Request)
    requires d.Valid() && r.bound.None?
    ensures (exists a, b :: ContextOf(d, WithCookie(r, a)).Decision() != ContextOf(d, WithCookie(r, b)).Decision())
       <==> r.user in d.accounts && d.accounts[r.user].status == "active" && !SomeActive(d, r)
            && (exists m | m in Candidates(d, r) :: Barred(m)) && (exists m | m in Candidates(d, r) :: !Barred(m))
  {
    hide First, Candidates, Permissions;
    if r.user in d.accounts && d.accounts[r.user].status == "active" && !SomeActive(d, r) {
      if (exists m | m in Candidates(d, r) :: Barred(m)) && (exists m | m in Candidates(d, r) :: !Barred(m)) {
        var m :| m in Candidates(d, r) && Barred(m);
        var n :| n in Candidates(d, r) && !Barred(n);
        CookieReaches(d, r, m);
        CookieReaches(d, r, n);
        assert ContextOf(d, WithCookie(r, Some(m.org))).Decision() == Block;
        assert ContextOf(d, WithCookie(r, Some(n.org))).Decision() == Wait;
      }
    }
    forall a, b | ContextOf(d, WithCookie(r, a)).Decision() != ContextOf(d, WithCookie(r, b)).Decision()
      ensures r.user in d.accounts && d.accounts[r.user].status == "active" && !SomeActive(d, r)
              && (exists m | m in Candidates(d, r) :: Barred(m)) && (exists m | m in Candidates(d, r) :: !Barred(m))
    {
      AllowedExactlyWhen(d, WithCookie(r, a));
      AllowedExactlyWhen(d, WithCookie(r, b));
      CandidatesSame(d, r, a);
      CandidatesSame(d, r, b);
      ResolvedIsBest(d, WithCookie(r, a));
      ResolvedIsBest(d, WithCookie(r, b));
      UserDecides(d, WithCookie(r, a));
      UserDecides(d, WithCookie(r, b));
    }
  }

  /** How the resolved membership decides for an account, and that nothing but its kind does. */
  lemma UserDecides(d: Directory, r: Request)
    requires r.user in d.accounts
    ensures var status := UserStatus(d.accounts[r.user].status);
            && (status != Active ==> ContextOf(d, r).Decision() == Decide(status, None))
            && (status == Active ==>
                  match Resolved(d, r)
                  case None => ContextOf(d, r).Decision() == Wait
                  case Some(m) =>
                    ContextOf(d, r).Decision() ==
                    if m.status == "active" then Allow else if Barred(m) then Block else Wait)
  {
  }

  /**
    * A bearer credential acts where it is bound, or in its owner's earliest membership that counts; no cookie is
    * read.
    */
  lemma BoundIgnoresCookie(d: Directory, r: Request, cookie: Option<Id>)
    requires r.bound.Some?
    ensures ContextOf(d, WithCookie(r, cookie)) == ContextOf(d, r)
    ensures r.bound.value.Some? && ContextOf(d, r).org.Some? ==> ContextOf(d, r).org == r.bound.value
  {
    hide Permissions;
    CandidatesSame(d, r, cookie);
    if r.bound.value.Some? {
      var org := r.bound.value.value;
      FirstIsIn(Candidates(d, r), Earlier);
      if Resolved(d, r).Some? {
        FilterIs(d.memberships, m => CountsFor(d, r.user, m) && m.org == org, Resolved(d, r).value);
      }
    }
  }

  lemma {:induction false} FirstIsIn(ms: seq<Membership>, before: (Membership, Membership) -> bool)
    ensures First(ms, before).Some? ==> First(ms, before).value in ms
  {
    if ms != [] {
      FirstIsIn(ms[1..], before);
      assert ms == [ms[0]] + ms[1..];
    }
  }

  // ---------------------------------------------------------------------------
  //  What a borrowed session can enter.
  // ---------------------------------------------------------------------------

  function Session(user: Id, cookie: Option<Id>): Request { Request(user, None, None, cookie) }

  function Borrowed(user: Id, impersonator: Id, cookie: Option<Id>): Request {
    Request(user, None, Some(impersonator), cookie)
  }

  /** An active member who names the organization resolves to it, allowed. */
  lemma MemberEnters(d: Directory, user: Id, org: Id)
    requires d.Valid() && ActiveMember(d, user, org) && ActiveAccount(d, user)
    ensures var context := ContextOf(d, Session(user, Some(org)));
            context.org == Some(org) && context.Decision() == Allow
  {
    hide First, Candidates, Permissions;
    var m :| m in d.memberships && CountsFor(d, user, m) && m.org == org && m.status == "active";
    CandidateIs(d, Session(user, Some(org)), m);
    CookieReaches(d, Session(user, Some(org)), m);
    AllowedExactlyWhen(d, Session(user, Some(org)));
  }

  /**
    * Whatever cookie it carries, an organization a borrowed session resolves to is one its borrower, when no global
    * superuser, could enter as themselves by naming it.
    */
  lemma BorrowedReach(d: Directory, user: Id, impersonator: Id, cookie: Option<Id>)
    requires d.Valid() && !(ActiveAccount(d, impersonator) && GlobalSuperuser(d, impersonator))
    ensures var context := ContextOf(d, Borrowed(user, impersonator, cookie));
            context.org.Some? ==>
              && ContextOf(d, Session(impersonator, context.org)).org == context.org
              && ContextOf(d, Session(impersonator, context.org)).Decision() == Allow
  {
    hide First, Candidates, Permissions;
    var r := Borrowed(user, impersonator, cookie);
    ResolvedIsBest(d, r);
    if ContextOf(d, r).org.Some? {
      var m := Resolved(d, r).value;
      CandidateIs(d, r, m);
      assert m.org in ActiveOrgs(d, impersonator);
      MemberEnters(d, impersonator, m.org);
    }
  }

  /** A banned borrower's session resolves nothing and may do nothing, a superuser's too, and is never allowed. */
  lemma BannedReachesNothing(d: Directory, user: Id, impersonator: Id, cookie: Option<Id>)
    requires Banned(d, impersonator)
    ensures var context := ContextOf(d, Borrowed(user, impersonator, cookie));
            context.org == None && context.permissions == {} && context.Decision() != Allow
  {
    hide Candidates, First;
    NothingReached(d, Borrowed(user, impersonator, cookie));
  }

  /** A superuser no ban stops is not confined: the session resolves as the user's own. */
  lemma SuperuserUnconfined(d: Directory, user: Id, impersonator: Id, cookie: Option<Id>)
    requires !Banned(d, impersonator) && ActiveAccount(d, impersonator) && GlobalSuperuser(d, impersonator)
    ensures ContextOf(d, Borrowed(user, impersonator, cookie)) == ContextOf(d, Session(user, cookie))
  {
  }

  // ---------------------------------------------------------------------------
  //  Permissions.
  // ---------------------------------------------------------------------------

  /**
    * No organization, no permission; allowed, at least the shell; a global superuser everything in whatever
    * organization.
    */
  lemma PermissionsFollow(d: Directory, r: Request)
    ensures var context := ContextOf(d, r);
            && (context.org.None? ==> context.permissions == {})
            && (context.Decision() == Allow ==> SHELL_VIEW in context.permissions)
            && (context.org.Some? && GlobalSuperuser(d, r.user) ==> d.SuperuserPermissions() <= context.permissions)
            && ((&& context.org.Some? && !GlobalSuperuser(d, r.user)
                 && SUPERUSER !in KeysIn(d, r.user, context.org.value)) ==>
                  context.permissions <= KeysIn(d, r.user, context.org.value) + {SHELL_VIEW})
  {
  }
}
