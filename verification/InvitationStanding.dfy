/** What the checks of an inviter ask, in the fields of the rows, and what follows from each answer. */
module InvitationStanding {
  import opened Wrappers
  import opened Tenancy
  import opened Invitations
  import opened InvitationRuns
  import opened InvitationRoles
  import opened InvitationStore

  /** The assignment's role carries the key. */
  ghost predicate RoleCarries(rows: Rows, a: Assignment, key: string) {
    a.role in rows.roles && key in rows.roles[a.role].keys
  }

  ghost predicate ActiveMember(rows: Rows, user: Id, org: Id) {
    (user, org) in rows.members && rows.members[(user, org)] == Active
  }

  /** A superuser role held directly, through an active membership in an active organization. */
  ghost predicate SuperuserSomewhere(rows: Rows, user: Id) {
    exists a: Assignment ::
      && a in rows.direct && a.user == user && RoleCarries(rows, a, "superuser")
      && ActiveMember(rows, user, a.org) && a.org in rows.activeOrgs
  }

  /** A role held in the organization by an active member of it, directly or through a group, carries the key. */
  ghost predicate HoldsIn(rows: Rows, user: Id, org: Id, key: string) {
    && ActiveMember(rows, user, org)
    && exists a: Assignment ::
         (a in rows.direct || a in rows.viaGroup) && a.user == user && a.org == org && RoleCarries(rows, a, key)
  }

  /** The inviter is recorded, can sign in, and may invite: everywhere, or into the organization. */
  ghost predicate InviterStands(rows: Rows, row: Invitation) {
    exists inviter: Id ::
      && row.inviter == Some(inviter)
      && inviter in rows.accounts && rows.accounts[inviter].status == Active && !rows.accounts[inviter].banned
      && (|| SuperuserSomewhere(rows, inviter)
          || HoldsIn(rows, inviter, row.org, "admin.orgs.manage")
          || HoldsIn(rows, inviter, row.org, "superuser"))
  }

  /** The inviter is a superuser, or holds in the organization every key the role there is carries. */
  ghost predicate InviterConfers(rows: Rows, row: Invitation, role: Id) {
    exists inviter: Id ::
      && row.inviter == Some(inviter)
      && (|| SuperuserSomewhere(rows, inviter)
          || forall key | role in rows.roles && key in rows.roles[role].keys :: HoldsIn(rows, inviter, row.org, key))
  }

  lemma SuperuserIs(rows: Rows, user: Id)
    ensures GlobalSuperuser(rows, user) <==> SuperuserSomewhere(rows, user)
  {
  }

  lemma HeldIs(rows: Rows, user: Id, org: Id, key: string)
    ensures HeldIn(rows, user, org, key) <==> HoldsIn(rows, user, org, key)
  {
    if HoldsIn(rows, user, org, key) {
      var a: Assignment :|
        (a in rows.direct || a in rows.viaGroup) && a.user == user && a.org == org && RoleCarries(rows, a, key);
      assert a in rows.direct + rows.viaGroup;
    }
  }

  lemma StandsIs(rows: Rows, row: Invitation)
    ensures HasStanding(rows, row) <==> InviterStands(rows, row)
  {
    hide GlobalSuperuser, HeldIn, SuperuserSomewhere, HoldsIn;
    if row.inviter.Some? {
      var inviter := row.inviter.value;
      SuperuserIs(rows, inviter);
      HeldIs(rows, inviter, row.org, "admin.orgs.manage");
      HeldIs(rows, inviter, row.org, "superuser");
    }
  }

  lemma ConfersIs(rows: Rows, row: Invitation, role: Id)
    ensures MayConfer(rows, row, role) <==> InviterConfers(rows, row, role)
  {
    hide GlobalSuperuser, HeldIn, SuperuserSomewhere, HoldsIn;
    if row.inviter.Some? {
      var inviter := row.inviter.value;
      SuperuserIs(rows, inviter);
      forall key ensures HeldIn(rows, inviter, row.org, key) <==> HoldsIn(rows, inviter, row.org, key) {
        HeldIs(rows, inviter, row.org, key);
      }
    }
  }

  // ---------------------------------------------------------------------------
  //  Over runs: at the check, and after it.
  // ---------------------------------------------------------------------------

  /** At its check a session goes on exactly when the inviter stands then; else it turns to voiding the invitation. */
  lemma {:induction false} PassesExactlyWhen(st: State, sid: Id)
    requires sid in st.sessions && st.sessions[sid].phase == Standing
    ensures var t := Do(st, Advance(sid)).sessions[sid];
            && (t.phase == Conferring <==> InviterStands(st.rows, st.sessions[sid].row))
            && (t.phase == Voiding <==> !InviterStands(st.rows, st.sessions[sid].row))
    ensures Do(st, Advance(sid)).rows == st.rows
  {
    hide HasStanding, InviterStands;
    StandsIs(st.rows, st.sessions[sid].row);
  }

  /** The voiding, once no transaction holds the row: a pending invitation is revoked by nobody, another left alone. */
  lemma {:induction false} VoidsByNobody(st: State, sid: Id)
    requires sid in st.sessions && st.sessions[sid].phase == Voiding
    requires forall s | s in st.sessions :: !HoldsInvitation(st.sessions[s], st.sessions[sid].invitation)
    ensures var id := st.sessions[sid].invitation;
            var r := Do(st, Advance(sid));
            && r.sessions[sid].phase == Done(Refused(InviterLacksStanding))
            && r.rows == st.rows.(invitations := r.rows.invitations)
            && r.rows.invitations ==
               if id in st.rows.invitations && st.rows.invitations[id].state == Pending
               then st.rows.invitations[id := st.rows.invitations[id].(state := Revoked(None))]
               else st.rows.invitations
  {
  }

  /** What the session then holds about conferring is what was so at that moment. */
  lemma {:induction false} ConferringExactlyWhen(st: State, sid: Id)
    requires sid in st.sessions && st.sessions[sid].phase == Conferring
    ensures var t := Do(st, Advance(sid)).sessions[sid];
            && t.phase == Locking
            && (t.mayConfer <==> t.row.role.Some? && InviterConfers(st.rows, t.row, t.row.role.value))
  {
    hide MayConfer, InviterConfers;
    if st.sessions[sid].row.role.Some? {
      ConfersIs(st.rows, st.sessions[sid].row, st.sessions[sid].row.role.value);
    }
  }

  /** However the run went, a consumed invitation's inviter stood at one of its moments. */
  lemma {:induction false} ConsumedInviterStood(st: State, actions: seq<Action>, sid: Id)
    requires Fresh(st) && sid in Run(st, actions).sessions && IsConsumed(Run(st, actions).sessions[sid])
    ensures exists k | 0 <= k < |actions| ::
              InviterStands(Run(st, actions[..k]).rows, Run(st, actions).sessions[sid].row)
  {
    hide Run, InviterStands, HasStanding;
    ConsumedOnStanding(st, actions, sid);
    var row := Run(st, actions).sessions[sid].row;
    var k :| 0 <= k < |actions| && HasStanding(Run(st, actions[..k]).rows, row);
    StandsIs(Run(st, actions[..k]).rows, row);
  }

  /** Past the conferring, the run has a moment at which the inviter could confer the role the session may grant. */
  ghost predicate ConferredAt(st: State, actions: seq<Action>, row: Invitation) {
    row.role.Some? && exists k | 0 <= k < |actions| :: InviterConfers(Run(st, actions[..k]).rows, row, row.role.value)
  }

  lemma ConferredExtends(st: State, actions: seq<Action>, row: Invitation)
    requires actions != [] && row.role.Some?
    ensures || ConferredAt(st, actions[..|actions| - 1], row)
            || InviterConfers(Run(st, actions[..|actions| - 1]).rows, row, row.role.value) ==>
              ConferredAt(st, actions, row)
  {
    hide InviterConfers, Run;
    var n := |actions| - 1;
    forall k | 0 <= k < n ensures actions[..n][..k] == actions[..k] {}
  }

  lemma {:induction false} MayConferKept(st: State, a: Action, sid: Id)
    requires sid in Do(st, a).sessions && Do(st, a).sessions[sid].mayConfer
    ensures sid in st.sessions && Do(st, a).sessions[sid].row == st.sessions[sid].row
    ensures || st.sessions[sid].mayConfer
            || (st.sessions[sid].row.role.Some?
                && InviterConfers(st.rows, st.sessions[sid].row, st.sessions[sid].row.role.value))
  {
    hide HasStanding, MayConfer, InviterConfers, PendingFor, InvitationFree, MemberFree, AccountFree, RoleFree,
         FoundRole, Seen, RowsAfter;
    if a.Advance? && a.sid == sid && sid in st.sessions && st.sessions[sid].row.role.Some? {
      ConfersIs(st.rows, st.sessions[sid].row, st.sessions[sid].row.role.value);
    }
  }

  /** A session that may grant its role has had the inviter able to confer it at one of the run's moments. */
  lemma {:induction false} GrantWasConferrable(st: State, actions: seq<Action>, sid: Id)
    requires Fresh(st) && sid in Run(st, actions).sessions && Run(st, actions).sessions[sid].mayConfer
    ensures ConferredAt(st, actions, Run(st, actions).sessions[sid].row)
    decreases |actions|
  {
    hide Do, InviterConfers, ConferredAt;
    if actions != [] {
      var n := |actions| - 1;
      MayConferKept(Run(st, actions[..n]), actions[n], sid);
      var before := Run(st, actions[..n]).sessions[sid];
      if before.mayConfer {
        GrantWasConferrable(st, actions[..n], sid);
        ConferredHasRole(st, actions[..n], before.row);
      }
      ConferredExtends(st, actions, before.row);
    }
  }

  lemma ConferredHasRole(st: State, actions: seq<Action>, row: Invitation)
    ensures ConferredAt(st, actions, row) ==> row.role.Some?
  {
  }

  // ---------------------------------------------------------------------------
  //  Alone.
  // ---------------------------------------------------------------------------

  /**
    * Run alone, an eligible account's acceptance is refused for its inviter exactly when the inviter does not stand,
    * and then the pending invitation is revoked by nobody and nothing else is touched.
    */
  lemma {:induction false} RefusedForInviterExactlyWhen(rows: Rows, id: Id, row: Invitation, user: Id, account: Account)
    requires account.email == row.email && (account.status == Active || account.status == PendingApproval)
    ensures Alone(rows, Start(id, row, user, account), None).1 == Refused(InviterLacksStanding)
       <==> !InviterStands(rows, row)
    ensures !InviterStands(rows, row) ==>
              var after := Alone(rows, Start(id, row, user, account), None).0;
              && after == rows.(invitations := after.invitations)
              && after.invitations ==
                 if id in rows.invitations && rows.invitations[id].state == Pending
                 then rows.invitations[id := rows.invitations[id].(state := Revoked(None))]
                 else rows.invitations
  {
    hide Alone, HasStanding, InviterStands, MayConfer;
    ConsumesExactlyWhen(rows, id, row, user, account);
    StandsIs(rows, row);
    if !InviterStands(rows, row) {
      var t := Start(id, row, user, account);
      AloneStep(rows, t, None);
      StandingAlone(rows, Advanced(rows, t), None);
    }
  }

  /** The role is the organization's, the inviter confers it, and the account is, or becomes, an active member there. */
  ghost predicate RoleArrives(rows: Rows, row: Invitation, user: Id) {
    && row.role.Some? && row.role.value in rows.roles && rows.roles[row.role.value].org == row.org
    && InviterConfers(rows, row, row.role.value)
    && ((user, row.org) in rows.members ==> rows.members[(user, row.org)] in {Active, PendingApproval})
  }

  lemma ArrivesIs(rows: Rows, row: Invitation, user: Id)
    ensures RoleReaches(rows, row, user) <==> RoleArrives(rows, row, user)
  {
    hide MayConfer, InviterConfers;
    if row.role.Some? {
      ConfersIs(rows, row, row.role.value);
    }
  }

  /**
    * Run alone: every answer under its condition in the rows, each refusal before the next, and what an accepted
    * invitation writes. A membership blocked or suspended stays so, and then no role comes.
    */
  lemma {:induction false} AcceptsExactly(rows: Rows, id: Id, row: Invitation, user: Id, account: Account)
    ensures var open := id in rows.invitations && rows.invitations[id].state == Pending
                        && rows.invitations[id].org in rows.activeOrgs;
            Alone(rows, Start(id, row, user, account), None).1
            == if account.email != row.email then Refused(EmailMismatch)
               else if account.status != Active && account.status != PendingApproval then Refused(UserNotEligible)
               else if !InviterStands(rows, row) then Refused(InviterLacksStanding)
               else if !open then Refused(AlreadyConsumed)
               else Consumed(RoleArrives(rows, row, user))
    ensures Alone(rows, Start(id, row, user, account), None).1.Consumed? ==>
              var after := Alone(rows, Start(id, row, user, account), None).0;
              && after.invitations == rows.invitations[id := rows.invitations[id].(state := Accepted(user))]
              && ((user, row.org) !in rows.members || rows.members[(user, row.org)] == PendingApproval ==>
                    (user, row.org) in after.members && after.members[(user, row.org)] == Active)
              && ((user, row.org) in rows.members && rows.members[(user, row.org)] != PendingApproval ==>
                    (user, row.org) in after.members
                    && after.members[(user, row.org)] == rows.members[(user, row.org)])
              && (user in rows.accounts ==>
                    && user in after.accounts
                    && after.accounts[user].status ==
                       if rows.accounts[user].status == PendingApproval then Active else rows.accounts[user].status)
              && after.direct ==
                 if RoleArrives(rows, row, user) then rows.direct + {Assignment(user, row.org, row.role.value)}
                 else rows.direct
  {
    hide Alone, HasStanding, InviterStands, RoleReaches, RoleArrives;
    ConsumesExactlyWhen(rows, id, row, user, account);
    StandsIs(rows, row);
    ArrivesIs(rows, row, user);
  }
}
