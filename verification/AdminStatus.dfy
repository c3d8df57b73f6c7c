/** The shared status change: its transaction, the superuser grants it must not empty, the sessions it ends. */
module AdminStatus {
  import opened Wrappers
  import opened Tenancy

  /** `updatedAt` in microseconds, as the database keeps it. */
  datatype Account = Account(status: Status, banned: bool, updatedAt: nat)

  /** `snapshot` is the status a restore held a membership back from. */
  datatype Member = Member(status: Status, snapshot: Option<Status>)

  datatype Rows = Rows(accounts: map<Id, Account>, members: map<(Id, Id), Member>, activeOrgs: set<Id>,
                       superRoles: set<Id>, direct: set<Assignment>)

  /** `scope` is none for a superadmin, or the one organization the actor is confined to. */
  datatype Change =
    Change(target: Id, scope: Option<Id>, newStatus: Status, newMembership: Status, expected: Option<nat>)
  {
    predicate InScope(org: Id) { scope == None || scope == Some(org) }

    /** The pairs the routes pass: approve and reactivate, block, suspend. */
    predicate Matched() { newStatus == newMembership && newStatus in {Active, Blocked, Suspended} }
  }

  datatype Refusal = NotFound | PreconditionFailed | UseRestore | LastSuperadmin

  // ---------------------------------------------------------------------------
  //  Reads.
  // ---------------------------------------------------------------------------

  predicate Counts(rows: Rows, a: Assignment) {
    && a in rows.direct && a.role in rows.superRoles
    && (a.user, a.org) in rows.members && rows.members[(a.user, a.org)].status == Active
    && a.org in rows.activeOrgs
    && a.user in rows.accounts && rows.accounts[a.user].status == Active && !rows.accounts[a.user].banned
  }

  /** Every grant that confers global superuser on an account that can sign in. */
  function ActiveGrants(rows: Rows): set<Assignment> { set a | a in rows.direct && Counts(rows, a) }

  predicate HasMembershipOutside(rows: Rows, user: Id, org: Id) {
    exists key | key in rows.members :: key.0 == user && key.1 != org
  }

  predicate IsShared(rows: Rows, c: Change) { c.scope.Some? && HasMembershipOutside(rows, c.target, c.scope.value) }

  /** The memberships the change would move, by the keys its check lists first, under no lock. */
  function Listed(rows: Rows, c: Change): set<(Id, Id)> {
    set key | key in rows.members && key.0 == c.target && c.InScope(key.1)
  }

  /** The listed memberships would take every counting grant with them. */
  predicate StripsAll(grants: set<Assignment>, listed: set<(Id, Id)>) {
    grants != {} && forall a | a in grants :: (a.user, a.org) in listed
  }

  predicate StripsLast(rows: Rows, c: Change, listed: set<(Id, Id)>) {
    c.newMembership != Active && StripsAll(ActiveGrants(rows), listed)
  }

  function Milliseconds(t: nat): nat { t / 1000 }

  /** An `If-Match` version claims the row while it is the one read, to the millisecond. */
  predicate Claims(rows: Rows, c: Change) {
    || c.expected.None?
    || (c.target in rows.accounts && Milliseconds(rows.accounts[c.target].updatedAt) == c.expected.value)
  }

  predicate MustUseRestore(rows: Rows, user: Id) { user in rows.accounts && rows.accounts[user].status == Deactivated }

  /** The account-global status follows the action; otherwise a grant may only lift a pending account. */
  predicate AccountWide(c: Change, shared: bool) { c.scope.None? || !shared }

  // ---------------------------------------------------------------------------
  //  The transaction, as one function of the rows it meets.
  // ---------------------------------------------------------------------------

  function Stamped(rows: Rows, user: Id, status: Option<Status>, now: nat): Rows {
    if user !in rows.accounts then rows
    else
      var a := rows.accounts[user];
      rows.(accounts := rows.accounts[user := a.(status := status.GetOr(a.status), updatedAt := now)])
  }

  function Claimed(rows: Rows, c: Change, now: nat): Rows {
    if c.expected.None? then rows else Stamped(rows, c.target, None, now)
  }

  function AccountMoved(rows: Rows, c: Change, accountWide: bool, now: nat): Rows {
    if accountWide then Stamped(rows, c.target, Some(c.newStatus), now)
    else if c.newStatus == Active && c.target in rows.accounts && rows.accounts[c.target].status == PendingApproval then
      Stamped(rows, c.target, Some(Active), now)
    else rows
  }

  function MemberMoved(c: Change, key: (Id, Id), m: Member): Member {
    if key.0 == c.target && c.InScope(key.1) then Member(c.newMembership, None) else m
  }

  function MembersMoved(rows: Rows, c: Change): Rows {
    rows.(members := map key | key in rows.members :: MemberMoved(c, key, rows.members[key]))
  }

  function Moved(rows: Rows, c: Change, accountWide: bool, now: nat): Rows {
    MembersMoved(AccountMoved(Claimed(rows, c, now), c, accountWide, now), c)
  }

  /** Refused in this order: a stale version, a soft-deleted account, the last superadmin. */
  function Refused(rows: Rows, c: Change, strips: bool): Option<Refusal> {
    if !Claims(rows, c) then Some(PreconditionFailed)
    else if MustUseRestore(rows, c.target) then Some(UseRestore)
    else if strips then Some(LastSuperadmin)
    else None
  }

  function Transacted(rows: Rows, c: Change, accountWide: bool, strips: bool, now: nat): Rows {
    if Refused(rows, c, strips).Some? then rows else Moved(rows, c, accountWide, now)
  }

  // ---------------------------------------------------------------------------
  //  What one transaction does, whatever it meets.
  // ---------------------------------------------------------------------------

  predicate Lift(before: Status, after: Status) { after == before || (before == PendingApproval && after == Active) }

  /** The account's status is the same, or has gone from pending to active. */
  predicate AtMostLifted(rows: Rows, after: Rows, user: Id) {
    user in rows.accounts && user in after.accounts ==> Lift(rows.accounts[user].status, after.accounts[user].status)
  }

  /** The change leaves all outside its target and its scope alone, and at most lifts an account it read as shared. */
  lemma Confined(rows: Rows, c: Change, accountWide: bool, strips: bool, now: nat)
    ensures var r := Transacted(rows, c, accountWide, strips, now);
            && r.members.Keys == rows.members.Keys && r.accounts.Keys == rows.accounts.Keys
            && (forall key | key in rows.members && !(key.0 == c.target && c.InScope(key.1)) ::
                  r.members[key] == rows.members[key])
            && (forall user | user in rows.accounts && user != c.target :: r.accounts[user] == rows.accounts[user])
            && (!accountWide ==> AtMostLifted(rows, r, c.target))
            && (r.activeOrgs, r.superRoles, r.direct) == (rows.activeOrgs, rows.superRoles, rows.direct)
  {
  }

  /** One organization's change goes beyond a lift exactly where it saw no sharing and sets another status. */
  lemma BeyondLiftExactlyWhen(rows: Rows, c: Change, shared: bool, strips: bool, now: nat)
    requires c.scope.Some? && c.target in rows.accounts
    ensures !AtMostLifted(rows, Transacted(rows, c, AccountWide(c, shared), strips, now), c.target)
       <==> !shared && Refused(rows, c, strips).None? && !Lift(rows.accounts[c.target].status, c.newStatus)
  {
  }

  /** Nothing but a restore takes an account out of `Deactivated`. */
  lemma DeactivatedStays(rows: Rows, c: Change, accountWide: bool, strips: bool, now: nat, user: Id)
    requires user in rows.accounts && rows.accounts[user].status == Deactivated
    ensures var r := Transacted(rows, c, accountWide, strips, now);
            user in r.accounts && r.accounts[user].status == Deactivated
  {
  }

  /** What a committed change sets, where it reaches. */
  lemma Applied(rows: Rows, c: Change, accountWide: bool, strips: bool, now: nat)
    requires Refused(rows, c, strips).None?
    ensures var r := Transacted(rows, c, accountWide, strips, now);
            && (forall key | key in rows.members && key.0 == c.target && c.InScope(key.1) ::
                  r.members[key] == Member(c.newMembership, None))
            && (c.target in rows.accounts && accountWide ==> r.accounts[c.target].status == c.newStatus)
            && ((c.target in rows.accounts && !accountWide && c.newStatus == Active
                 && rows.accounts[c.target].status == PendingApproval) ==> r.accounts[c.target].status == Active)
            && (c.target in rows.accounts && (c.expected.Some? || accountWide) ==>
                  r.accounts[c.target].updatedAt == now)
  {
  }

  /** After a committed change a second one on the same expected version passes the claim only in that millisecond. */
  lemma SecondClaim(rows: Rows, c: Change, accountWide: bool, strips: bool, now: nat, d: Change)
    requires c.target in rows.accounts && c.expected.Some? && d.target == c.target && d.expected == c.expected
    requires Refused(rows, c, strips).None?
    ensures Claims(Transacted(rows, c, accountWide, strips, now), d) <==> Milliseconds(now) == c.expected.value
  {
  }

  /** The change takes away what the grant rests on: its holder's account, or the membership it is held in. */
  predicate Ends(c: Change, accountWide: bool, a: Assignment) {
    && a.user == c.target
    && ((accountWide && c.newStatus != Active) || (c.newMembership != Active && c.InScope(a.org)))
  }

  /** A grant that counts still does after a committed change exactly when the change does not end it. */
  lemma CountsAfter(rows: Rows, c: Change, accountWide: bool, strips: bool, now: nat, a: Assignment)
    requires Refused(rows, c, strips).None? && a in ActiveGrants(rows)
    ensures a in ActiveGrants(Transacted(rows, c, accountWide, strips, now)) <==> !Ends(c, accountWide, a)
  {
  }

  /** A change that ends a counting grant of its target wakes none. */
  lemma NoneWoken(rows: Rows, c: Change, accountWide: bool, strips: bool, now: nat, ended: Assignment, a: Assignment)
    requires Refused(rows, c, strips).None? && ended in ActiveGrants(rows) && Ends(c, accountWide, ended)
    requires a in ActiveGrants(Transacted(rows, c, accountWide, strips, now))
    ensures a in ActiveGrants(rows)
  {
  }

  /**
    * A transaction that meets a counting grant and commits, whatever its check has read, leaves none exactly when it
    * ends every one. A check that lists and counts what is there at the commit leaves only one way: the change takes
    * the account away, which is not among the memberships it measures.
    */
  lemma LeavesNoneExactlyWhen(rows: Rows, c: Change, accountWide: bool, strips: bool, now: nat)
    requires ActiveGrants(rows) != {} && Refused(rows, c, strips).None?
    ensures ActiveGrants(Transacted(rows, c, accountWide, strips, now)) == {}
       <==> forall a | a in ActiveGrants(rows) :: Ends(c, accountWide, a)
    ensures strips == StripsLast(rows, c, Listed(rows, c)) ==>
              ((forall a | a in ActiveGrants(rows) :: Ends(c, accountWide, a))
               <==> accountWide && c.newStatus != Active && forall a | a in ActiveGrants(rows) :: a.user == c.target)
  {
    hide Transacted, ActiveGrants;
    var after := Transacted(rows, c, accountWide, strips, now);
    var ended :| ended in ActiveGrants(rows);
    forall a | a in ActiveGrants(rows)
      ensures a in ActiveGrants(after) <==> !Ends(c, accountWide, a)
      ensures (a.user, a.org) in rows.members
    {
      CountsAfter(rows, c, accountWide, strips, now, a);
      MemberOfGrant(rows, a);
    }
    if Ends(c, accountWide, ended) {
      forall a | a in ActiveGrants(after) ensures a in ActiveGrants(rows) {
        NoneWoken(rows, c, accountWide, strips, now, ended, a);
      }
    }
  }

  lemma MemberOfGrant(rows: Rows, a: Assignment)
    requires a in ActiveGrants(rows)
    ensures (a.user, a.org) in rows.members
  {
  }

  /**
    * Where the reads of a change that takes away err at most on the side of caution, seeing the account shared wherever
    * it is and the last grant stripped wherever it would be, the check is enough: some grant counts afterwards.
    */
  lemma CautiousReadKeepsGrant(rows: Rows, c: Change, shared: bool, strips: bool, now: nat)
    requires c.Matched() && ActiveGrants(rows) != {}
    requires c.newStatus != Active && IsShared(rows, c) ==> shared
    requires StripsLast(rows, c, Listed(rows, c)) ==> strips
    ensures ActiveGrants(Transacted(rows, c, AccountWide(c, shared), strips, now)) != {}
  {
    hide Transacted, ActiveGrants;
    if Refused(rows, c, strips).None? {
      LeavesNoneExactlyWhen(rows, c, AccountWide(c, shared), strips, now);
      forall a | a in ActiveGrants(rows) ensures (a.user, a.org) in rows.members {
        MemberOfGrant(rows, a);
      }
    } else {
      RefusedUnchanged(rows, c, AccountWide(c, shared), strips, now);
    }
  }

  /** A membership more wakes grants and ends none, so it makes no change the last one's that was not already. */
  lemma MoreMembersStripNoMore(rows: Rows, key: (Id, Id), m: Member, c: Change)
    requires key !in rows.members && ActiveGrants(rows) != {}
    ensures var after := rows.(members := rows.members[key := m]);
            && ActiveGrants(rows) <= ActiveGrants(after)
            && (StripsLast(after, c, Listed(after, c)) ==> StripsLast(rows, c, Listed(rows, c)))
  {
  }

  lemma RefusedUnchanged(rows: Rows, c: Change, accountWide: bool, strips: bool, now: nat)
    requires Refused(rows, c, strips).Some?
    ensures Transacted(rows, c, accountWide, strips, now) == rows
  {
  }
}
