/** Invitations as rows and statements: sessions that consume them, beside everything else that writes. */
module Invitations {
  import opened Wrappers
  import opened Tenancy

  datatype InvitationState = Pending | Accepted(user: Id) | Revoked(admin: Option<string>)

  /** Addresses are held normalised, tokens by their hash. */
  datatype Invitation = Invitation(org: Id, email: string, role: Option<Id>, inviter: Option<Id>,
                                   state: InvitationState, token: Id, expires: int)

  datatype Account = Account(email: string, status: Status, banned: bool)

  datatype Rows = Rows(invitations: map<Id, Invitation>, accounts: map<Id, Account>, members: map<(Id, Id), Status>,
                       activeOrgs: set<Id>, roles: map<Id, Role>, direct: set<Assignment>, viaGroup: set<Assignment>)

  const INVITE_PERMISSION := "admin.orgs.manage"

  // ---------------------------------------------------------------------------
  //  What the statements read.
  // ---------------------------------------------------------------------------

  /** The live invitation a token names: pending, unexpired, into an active organization. */
  predicate Live(rows: Rows, id: Id, token: Id, now: int) {
    && id in rows.invitations
    && rows.invitations[id].token == token
    && rows.invitations[id].state == Pending
    && now < rows.invitations[id].expires
    && rows.invitations[id].org in rows.activeOrgs
  }

  predicate Carries(rows: Rows, role: Id, key: string) { role in rows.roles && key in rows.roles[role].keys }

  predicate ActiveIn(rows: Rows, user: Id, org: Id) { Get(rows.members, (user, org)) == Some(Active) }

  /** A direct grant of the marker, through an active membership in an active organization. */
  predicate GlobalSuperuser(rows: Rows, user: Id) {
    exists a | a in rows.direct ::
      a.user == user && ActiveIn(rows, user, a.org) && a.org in rows.activeOrgs && Carries(rows, a.role, SUPERUSER)
  }

  /** Held in an organization, directly or through a group, by an active member. */
  predicate HeldIn(rows: Rows, user: Id, org: Id, key: string) {
    ActiveIn(rows, user, org)
    && exists a | a in rows.direct + rows.viaGroup :: a.user == user && a.org == org && Carries(rows, a.role, key)
  }

  predicate HasStanding(rows: Rows, invitation: Invitation) {
    && invitation.inviter.Some?
    && var inviter := invitation.inviter.value;
    && inviter in rows.accounts
    && rows.accounts[inviter].status == Active
    && !rows.accounts[inviter].banned
    && (|| GlobalSuperuser(rows, inviter)
        || HeldIn(rows, inviter, invitation.org, INVITE_PERMISSION)
        || HeldIn(rows, inviter, invitation.org, SUPERUSER))
  }

  predicate MayConfer(rows: Rows, invitation: Invitation, role: Id) {
    && invitation.inviter.Some?
    && var inviter := invitation.inviter.value;
    (GlobalSuperuser(rows, inviter)
     || (role in rows.roles ==>
         forall key | key in rows.roles[role].keys :: HeldIn(rows, inviter, invitation.org, key)))
  }

  // ---------------------------------------------------------------------------
  //  Single-statement writes: each guarded on the invitation being pending.
  // ---------------------------------------------------------------------------

  predicate PendingFor(rows: Rows, org: Id, email: string) {
    exists id | id in rows.invitations ::
      rows.invitations[id].state == Pending && rows.invitations[id].org == org && rows.invitations[id].email == email
  }

  /** Refused by the unique index when a pending invitation for the address already stands. */
  function Created(rows: Rows, id: Id, org: Id, email: string, role: Option<Id>, inviter: Option<Id>, token: Id,
                   expires: int): Rows
  {
    if id in rows.invitations || PendingFor(rows, org, email) then rows
    else rows.(invitations := rows.invitations[id := Invitation(org, email, role, inviter, Pending, token, expires)])
  }

  predicate IsPending(rows: Rows, id: Id) { id in rows.invitations && rows.invitations[id].state == Pending }

  function Voided(rows: Rows, id: Id): Rows {
    if !IsPending(rows, id) then rows
    else rows.(invitations := rows.invitations[id := rows.invitations[id].(state := Revoked(None))])
  }

  function RevokedBy(rows: Rows, id: Id, org: Id, admin: string): Rows {
    if !IsPending(rows, id) || rows.invitations[id].org != org then rows
    else rows.(invitations := rows.invitations[id := rows.invitations[id].(state := Revoked(Some(admin)))])
  }

  function Resent(rows: Rows, id: Id, org: Id, token: Id, expires: int): Rows {
    if !IsPending(rows, id) || rows.invitations[id].org != org then rows
    else rows.(invitations := rows.invitations[id := rows.invitations[id].(token := token, expires := expires)])
  }

  function WithoutRole(invitation: Invitation, role: Id): Invitation {
    if invitation.role == Some(role) then invitation.(role := None) else invitation
  }

  /** Deleting a role clears it from its invitations and takes its assignments along. */
  function RoleDeleted(rows: Rows, role: Id): Rows {
    rows.(roles := rows.roles - {role},
          invitations := (map id | id in rows.invitations :: WithoutRole(rows.invitations[id], role)),
          direct := (set a | a in rows.direct && a.role != role),
          viaGroup := (set a | a in rows.viaGroup && a.role != role))
  }

  // ---------------------------------------------------------------------------
  //  A session consuming one invitation.
  // ---------------------------------------------------------------------------

  datatype Refusal = AlreadyConsumed | EmailMismatch | UserNotEligible | InviterLacksStanding

  datatype Outcome = Consumed(roleGranted: bool) | Refused(reason: Refusal) | Failed

  /** The next statement: checks and the inviter's reads on their own, then one transaction. */
  datatype Phase =
    | Checking | Standing | Voiding | Conferring
    | Locking | Flipping | Finding | Inserting | Activating | Lifting | Granting | Committing
    | Done(outcome: Outcome)

  /** What the transaction has written and not committed. */
  datatype Writes = Writes(flipped: bool, joined: bool, lifted: bool, granted: bool)

  const NO_WRITES := Writes(false, false, false, false)

  /** `row` and `account` are as the caller read them; `found` is the membership last read. */
  datatype Session = Session(invitation: Id, row: Invitation, user: Id, account: Account, phase: Phase,
                             mayConfer: bool, role: Option<Id>, heldAccount: bool, found: Option<Status>,
                             writes: Writes)
  {
    function Key(): (Id, Id) { (user, row.org) }

    predicate Open() { !phase.Done? }
  }

  function Begun(rows: Rows, id: Id, user: Id): Session
    requires id in rows.invitations && user in rows.accounts
  {
    Session(id, rows.invitations[id], user, rows.accounts[user], Checking, false, None, false, None, NO_WRITES)
  }

  /** The membership as the transaction sees it. */
  function Seen(rows: Rows, t: Session): Option<Status> {
    if t.writes.joined then Some(Active) else Get(rows.members, t.Key())
  }

  predicate AccountPending(rows: Rows, user: Id) {
    user in rows.accounts && rows.accounts[user].status == PendingApproval
  }

  function FoundRole(rows: Rows, row: Invitation): Option<Id> {
    if row.role.Some? && row.role.value in rows.roles && rows.roles[row.role.value].org == row.org then row.role
    else None
  }

  /** The session after its next statement. */
  function Advanced(rows: Rows, t: Session): Session {
    match t.phase
    case Checking =>
      if t.account.email != t.row.email then t.(phase := Done(Refused(EmailMismatch)))
      else if t.account.status != Active && t.account.status != PendingApproval then
        t.(phase := Done(Refused(UserNotEligible)))
      else t.(phase := Standing)
    case Standing => t.(phase := if HasStanding(rows, t.row) then Conferring else Voiding)
    case Voiding => t.(phase := Done(Refused(InviterLacksStanding)))
    case Conferring =>
      t.(phase := Locking, mayConfer := t.row.role.Some? && MayConfer(rows, t.row, t.row.role.value))
    case Locking =>
      t.(phase := Flipping, role := FoundRole(rows, t.row), heldAccount := AccountPending(rows, t.user))
    case Flipping =>
      if IsPending(rows, t.invitation) && rows.invitations[t.invitation].org in rows.activeOrgs then
        t.(phase := Finding, writes := t.writes.(flipped := true))
      else t.(phase := Done(Refused(AlreadyConsumed)))
    case Finding =>
      var found := Get(rows.members, t.Key());
      t.(found := found, phase := if found.None? then Inserting else Activating)
    case Inserting =>
      // A row that appeared meanwhile is read again instead.
      var found := Get(rows.members, t.Key());
      t.(phase := Activating, found := found, writes := t.writes.(joined := found.None?))
    case Activating =>
      t.(phase := Lifting,
         writes := t.writes.(joined := t.writes.joined
                                       || (t.found == Some(PendingApproval)
                                           && Get(rows.members, t.Key()) == Some(PendingApproval))))
    case Lifting => t.(phase := Granting, writes := t.writes.(lifted := AccountPending(rows, t.user)))
    case Granting =>
      var eligible := t.row.role.None? || Seen(rows, t) == Some(Active);
      t.(phase := Committing, writes := t.writes.(granted := eligible && t.role.Some? && t.mayConfer))
    case Committing => t.(phase := Done(Consumed(t.writes.granted)))
    case Done(_) => t
  }

  /** The rows once the transaction's writes are in. */
  function Committed(rows: Rows, t: Session): Rows {
    rows.(invitations := if t.writes.flipped && t.invitation in rows.invitations
                         then
                           rows.invitations[t.invitation := rows.invitations[t.invitation].(state := Accepted(t.user))]
                         else rows.invitations,
          members := if t.writes.joined then rows.members[t.Key() := Active] else rows.members,
          accounts := if t.writes.lifted && t.user in rows.accounts
                      then rows.accounts[t.user := rows.accounts[t.user].(status := Active)]
                      else rows.accounts,
          direct := if t.writes.granted && t.role.Some? then rows.direct + {Assignment(t.user, t.row.org, t.role.value)}
                    else rows.direct)
  }

  /** What the session's next statement leaves in the tables others read. */
  function RowsAfter(rows: Rows, t: Session): Rows {
    if t.phase.Voiding? then Voided(rows, t.invitation)
    else if t.phase.Committing? then Committed(rows, t)
    else rows
  }

  // ---------------------------------------------------------------------------
  //  Many sessions: row locks, taken by a write or a locking read, kept to commit.
  // ---------------------------------------------------------------------------

  datatype State = State(rows: Rows, sessions: map<Id, Session>)

  predicate HoldsInvitation(t: Session, id: Id) { t.Open() && t.writes.flipped && t.invitation == id }

  predicate HoldsMember(t: Session, key: (Id, Id)) { t.Open() && t.writes.joined && t.Key() == key }

  predicate HoldsAccount(t: Session, user: Id) { t.Open() && (t.heldAccount || t.writes.lifted) && t.user == user }

  predicate HoldsRole(t: Session, role: Id) { t.Open() && t.role == Some(role) }

  predicate InvitationFree(st: State, id: Id) {
    forall s | s in st.sessions :: !HoldsInvitation(st.sessions[s], id)
  }

  predicate MemberFree(st: State, key: (Id, Id)) {
    forall s | s in st.sessions :: !HoldsMember(st.sessions[s], key)
  }

  /** Free of every session but `sid`, which may hold its own lock. */
  predicate AccountFree(st: State, user: Id, sid: Option<Id>) {
    forall s | s in st.sessions && Some(s) != sid :: !HoldsAccount(st.sessions[s], user)
  }

  /** Whether the session's next statement can run, or would wait for another's lock. */
  predicate CanAdvance(st: State, sid: Id)
    requires sid in st.sessions
  {
    var t := st.sessions[sid];
    match t.phase
    case Voiding => InvitationFree(st, t.invitation)
    case Flipping => InvitationFree(st, t.invitation)
    case Locking => AccountPending(st.rows, t.user) ==> AccountFree(st, t.user, Some(sid))
    case Inserting => MemberFree(st, t.Key())
    case Activating => t.found == Some(PendingApproval) ==> MemberFree(st, t.Key())
    case Lifting => AccountFree(st, t.user, Some(sid))
    case _ => true
  }

  /** What anyone may do next: sessions step, and other requests and administrators write. */
  datatype Action =
    | Begin(sid: Id, invitation: Id, user: Id)
    | Advance(sid: Id)
    | Fail(sid: Id)
    | Create(id: Id, org: Id, email: string, role: Option<Id>, inviter: Option<Id>, token: Id, expires: int)
    | Resend(id: Id, org: Id, token: Id, expires: int)
    | Revoke(id: Id, org: Id, admin: string)
    | SetMember(key: (Id, Id), status: Option<Status>)
    | SetAccount(user: Id, account: Account)
    | SetOrg(org: Id, active: bool)
    | SetRole(roleId: Id, to: Role)
    | DeleteRole(roleId: Id)
    | Assign(direct: set<Assignment>, viaGroup: set<Assignment>)

  function Put<K, V>(m: map<K, V>, k: K, v: Option<V>): map<K, V> {
    match v case Some(x) => m[k := x] case None => m - {k}
  }

  predicate RoleFree(st: State, role: Id) {
    && (forall s | s in st.sessions :: !HoldsRole(st.sessions[s], role))
    && (forall id | id in st.rows.invitations && st.rows.invitations[id].role == Some(role) :: InvitationFree(st, id))
  }

  /** One action; a statement that would wait leaves everything as it is. */
  function Do(st: State, a: Action): State {
    var rows := st.rows;
    match a
    case Begin(sid, id, user) =>
      if sid in st.sessions || id !in rows.invitations || user !in rows.accounts then st
      else st.(sessions := st.sessions[sid := Begun(rows, id, user)])
    case Advance(sid) =>
      if sid !in st.sessions || !CanAdvance(st, sid) then st
      else
        var t := st.sessions[sid];
        State(RowsAfter(rows, t), st.sessions[sid := Advanced(rows, t)])
    case Fail(sid) =>
      if sid !in st.sessions || !st.sessions[sid].Open() then st
      else st.(sessions := st.sessions[sid := st.sessions[sid].(phase := Done(Failed))])
    case Create(id, org, email, role, inviter, token, expires) =>
      st.(rows := Created(rows, id, org, email, role, inviter, token, expires))
    case Resend(id, org, token, expires) =>
      if InvitationFree(st, id) then st.(rows := Resent(rows, id, org, token, expires)) else st
    case Revoke(id, org, admin) =>
      if InvitationFree(st, id) then st.(rows := RevokedBy(rows, id, org, admin)) else st
    case SetMember(key, status) =>
      if MemberFree(st, key) then st.(rows := rows.(members := Put(rows.members, key, status))) else st
    case SetAccount(user, account) =>
      if AccountFree(st, user, None) then st.(rows := rows.(accounts := rows.accounts[user := account])) else st
    case SetOrg(org, active) =>
      st.(rows := rows.(activeOrgs := if active then rows.activeOrgs + {org} else rows.activeOrgs - {org}))
    case SetRole(role, to) =>
      if role in rows.roles && rows.roles[role].org != to.org then st
      else st.(rows := rows.(roles := rows.roles[role := to]))
    case DeleteRole(role) => if RoleFree(st, role) then st.(rows := RoleDeleted(rows, role)) else st
    case Assign(direct, viaGroup) => st.(rows := rows.(direct := direct, viaGroup := viaGroup))
  }

  /** The state after a run: any order of actions is one. */
  function Run(st: State, actions: seq<Action>): State
    decreases actions
  {
    if actions == [] then st else Do(Run(st, actions[..|actions| - 1]), actions[|actions| - 1])
  }
}
