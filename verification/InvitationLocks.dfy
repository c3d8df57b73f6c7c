/** What a transaction's row locks keep from others, and that they keep no more. */
module InvitationLocks {
  import opened Wrappers
  import opened Tenancy
  import opened Invitations
  import opened InvitationRuns

  /** The session's transaction is under way and has flipped that invitation, or read or written the other rows so. */
  predicate Flipped(t: Session, id: Id) { !t.phase.Done? && t.writes.flipped && t.invitation == id }

  predicate Joined(t: Session, key: (Id, Id)) { !t.phase.Done? && t.writes.joined && (t.user, t.row.org) == key }

  predicate Lifts(t: Session, user: Id) { !t.phase.Done? && (t.heldAccount || t.writes.lifted) && t.user == user }

  predicate Reads(t: Session, role: Id) { !t.phase.Done? && t.role == Some(role) }

  /** An action of someone else. */
  predicate ByOthers(a: Action, sid: Id) { a != Advance(sid) && a != Fail(sid) }

  /**
    * While a transaction is under way nobody else changes the invitation it has flipped, the membership it has made or
    * activated, the account it is lifting, or takes its role away.
    */
  lemma {:induction false} LockedRowsKept(st: State, a: Action, sid: Id)
    requires Consistent(st) && sid in st.sessions && ByOthers(a, sid)
    ensures var t, r := st.sessions[sid], Do(st, a).rows;
            && (Flipped(t, t.invitation) ==>
                  t.invitation in r.invitations && r.invitations[t.invitation] == st.rows.invitations[t.invitation])
            && (Joined(t, t.Key()) ==> Get(r.members, t.Key()) == Get(st.rows.members, t.Key()))
            && (Lifts(t, t.user) ==> Get(r.accounts, t.user) == Get(st.rows.accounts, t.user))
            && (t.role.Some? && Reads(t, t.role.value) ==>
                  t.role.value in r.roles && r.roles[t.role.value].org == t.row.org)
  {
    hide HasStanding, MayConfer, PendingFor, Advanced;
    var t := st.sessions[sid];
    SoundOf(st, sid);
    if a.Advance? && a.sid in st.sessions && CanAdvance(st, a.sid) {
      var u := st.sessions[a.sid];
      ApartOf(st, sid, a.sid);
      ApartOf(st, a.sid, sid);
      SoundOf(st, a.sid);
      OthersRowsKept(st.rows, t, u, st, sid, a.sid);
    } else if !a.Advance? {
      WriteKeepsLocked(st, a, sid);
    }
  }

  /** Another session's statement touches no row this one has locked. */
  lemma {:induction false} OthersRowsKept(rows: Rows, t: Session, u: Session, st: State, sid: Id, other: Id)
    requires st.rows == rows && sid in st.sessions && other in st.sessions && sid != other
    requires st.sessions[sid] == t && st.sessions[other] == u && Apart(t, u) && Apart(u, t)
    requires Sound(rows, t) && Sound(rows, u) && CanAdvance(st, other)
    ensures var r := RowsAfter(rows, u);
            && (Flipped(t, t.invitation) ==>
                  t.invitation in r.invitations && r.invitations[t.invitation] == rows.invitations[t.invitation])
            && (Joined(t, t.Key()) ==> Get(r.members, t.Key()) == Get(rows.members, t.Key()))
            && (Lifts(t, t.user) ==> Get(r.accounts, t.user) == Get(rows.accounts, t.user))
            && r.roles == rows.roles
  {
    hide HasStanding, MayConfer;
  }

  lemma {:induction false} WriteKeepsLocked(st: State, a: Action, sid: Id)
    requires sid in st.sessions && !a.Advance? && Sound(st.rows, st.sessions[sid])
    ensures var t, r := st.sessions[sid], Do(st, a).rows;
            && (Flipped(t, t.invitation) ==>
                  t.invitation in r.invitations && r.invitations[t.invitation] == st.rows.invitations[t.invitation])
            && (Joined(t, t.Key()) ==> Get(r.members, t.Key()) == Get(st.rows.members, t.Key()))
            && (Lifts(t, t.user) ==> Get(r.accounts, t.user) == Get(st.rows.accounts, t.user))
            && (t.role.Some? && Reads(t, t.role.value) ==>
                  t.role.value in r.roles && r.roles[t.role.value].org == t.row.org)
  {
    hide HasStanding, MayConfer, PendingFor;
  }

  /** And they keep no more: a write to rows no transaction under way has locked goes through. */
  lemma {:induction false} WritesGoThrough(st: State, a: Action)
    ensures a.Resend? && (forall s | s in st.sessions :: !Flipped(st.sessions[s], a.id)) ==>
              Do(st, a).rows == Resent(st.rows, a.id, a.org, a.token, a.expires)
    ensures a.Revoke? && (forall s | s in st.sessions :: !Flipped(st.sessions[s], a.id)) ==>
              Do(st, a).rows == RevokedBy(st.rows, a.id, a.org, a.admin)
    ensures a.SetMember? && (forall s | s in st.sessions :: !Joined(st.sessions[s], a.key)) ==>
              Get(Do(st, a).rows.members, a.key) == a.status
    ensures a.SetAccount? && (forall s | s in st.sessions :: !Lifts(st.sessions[s], a.user)) ==>
              Get(Do(st, a).rows.accounts, a.user) == Some(a.account)
    ensures a.SetOrg? ==> (a.org in Do(st, a).rows.activeOrgs <==> a.active)
    ensures a.Assign? ==> Do(st, a).rows.direct == a.direct && Do(st, a).rows.viaGroup == a.viaGroup
    ensures a.SetRole? && (a.roleId in st.rows.roles ==> st.rows.roles[a.roleId].org == a.to.org) ==>
              Get(Do(st, a).rows.roles, a.roleId) == Some(a.to)
  {
    hide Resent, RevokedBy;
  }

  /**
    * A role no transaction under way reads, in no invitation one has flipped, can be deleted: it is gone from the
    * roles, the assignments and the invitations.
    */
  lemma {:induction false} RoleGone(st: State, role: Id)
    requires forall s | s in st.sessions :: !Reads(st.sessions[s], role)
    requires forall s, id | && s in st.sessions && id in st.rows.invitations
                            && st.rows.invitations[id].role == Some(role) ::
               !Flipped(st.sessions[s], id)
    ensures var r := Do(st, DeleteRole(role)).rows;
            && r == st.rows.(roles := r.roles, invitations := r.invitations, direct := r.direct, viaGroup := r.viaGroup)
            && r.roles == st.rows.roles - {role}
            && (forall a :: a in r.direct <==> a in st.rows.direct && a.role != role)
            && (forall a :: a in r.viaGroup <==> a in st.rows.viaGroup && a.role != role)
            && r.invitations.Keys == st.rows.invitations.Keys
            && forall id | id in r.invitations ::
                 r.invitations[id] ==
                 if st.rows.invitations[id].role == Some(role) then st.rows.invitations[id].(role := None)
                 else st.rows.invitations[id]
  {
    assert RoleFree(st, role) by {
      forall id | id in st.rows.invitations && st.rows.invitations[id].role == Some(role)
        ensures InvitationFree(st, id)
      {
        forall s | s in st.sessions ensures !HoldsInvitation(st.sessions[s], id) {
          assert !Flipped(st.sessions[s], id);
        }
      }
    }
  }
}
