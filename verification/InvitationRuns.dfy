/** What every run keeps: an invitation leaves `Pending` once, for one account, and admits no more than it says. */
module InvitationRuns {
  import opened Wrappers
  import opened Tenancy
  import opened Invitations

  // ---------------------------------------------------------------------------
  //  The invariant.
  // ---------------------------------------------------------------------------

  predicate InTransaction(t: Session) {
    t.phase.Finding? || t.phase.Inserting? || t.phase.Activating? || t.phase.Lifting? || t.phase.Granting?
    || t.phase.Committing?
  }

  /** A live session's writes are still its to make, and a consumed invitation is the session's user's. */
  predicate Sound(rows: Rows, t: Session) {
    && t.invitation in rows.invitations && rows.invitations[t.invitation].org == t.row.org
    && (t.Open() ==> (t.writes.flipped <==> InTransaction(t)))
    && (t.Open() && t.writes.joined ==> t.writes.flipped && Joinable(Get(rows.members, t.Key())))
    && (t.Open() && t.writes.lifted ==> t.writes.flipped && AccountPending(rows, t.user))
    && (t.Open() && t.writes.granted ==>
          t.phase.Committing? && t.mayConfer && t.role.Some? && t.role == t.row.role
          && t.role.value in rows.roles && rows.roles[t.role.value].org == t.row.org)
    && (t.Open() && t.writes.flipped ==> IsPending(rows, t.invitation))
    && (t.Open() && t.role.Some? ==>
          t.role == t.row.role && t.role.value in rows.roles && rows.roles[t.role.value].org == t.row.org)
    && (t.Open() && t.heldAccount ==> AccountPending(rows, t.user))
    && (IsConsumed(t) ==> rows.invitations[t.invitation].state == Accepted(t.user))
  }

  /** Absent, or pending approval: all a consumed invitation ever turns active. */
  predicate Joinable(status: Option<Status>) { status == None || status == Some(PendingApproval) }

  predicate IsConsumed(t: Session) { t.phase.Done? && t.phase.outcome.Consumed? }

  /** Two sessions never hold one row, nor have consumed one invitation. */
  predicate Apart(t: Session, u: Session) {
    && !(HoldsInvitation(t, t.invitation) && HoldsInvitation(u, t.invitation))
    && !(HoldsMember(t, t.Key()) && HoldsMember(u, t.Key()))
    && !(HoldsAccount(t, t.user) && HoldsAccount(u, t.user))
    && !(IsConsumed(t) && IsConsumed(u) && t.invitation == u.invitation)
  }

  predicate Consistent(st: State) {
    && (forall s | s in st.sessions :: Sound(st.rows, st.sessions[s]))
    && (forall s, u | s in st.sessions && u in st.sessions && s != u :: Apart(st.sessions[s], st.sessions[u]))
  }

  // ---------------------------------------------------------------------------
  //  Every action keeps it.
  // ---------------------------------------------------------------------------

  lemma BeginKeeps(st: State, sid: Id, id: Id, user: Id)
    requires Consistent(st)
    ensures Consistent(Do(st, Begin(sid, id, user)))
  {
  }

  lemma FailKeeps(st: State, sid: Id)
    requires Consistent(st)
    ensures Consistent(Do(st, Fail(sid)))
  {
  }

  /** Writes to rows a session does not hold leave it sound. */
  lemma SoundUnder(rows: Rows, after: Rows, t: Session)
    requires Sound(rows, t)
    requires t.invitation in after.invitations && after.invitations[t.invitation].org == t.row.org
    requires HoldsInvitation(t, t.invitation) ==> IsPending(after, t.invitation)
    requires !IsPending(rows, t.invitation) ==>
              after.invitations[t.invitation].state == rows.invitations[t.invitation].state
    requires HoldsMember(t, t.Key()) ==> Get(after.members, t.Key()) == Get(rows.members, t.Key())
    requires HoldsAccount(t, t.user) ==> AccountPending(after, t.user)
    requires t.Open() && t.role.Some? ==> t.role.value in after.roles && after.roles[t.role.value].org == t.row.org
    ensures Sound(after, t)
  {
  }

  lemma WriteKeeps(st: State, a: Action)
    requires Consistent(st)
    requires !a.Begin? && !a.Advance? && !a.Fail?
    ensures Consistent(Do(st, a))
  {
    hide Consistent;
    var r := Do(st, a);
    assert r.sessions == st.sessions;
    forall s | s in st.sessions ensures Sound(r.rows, r.sessions[s]) {
      SoundOf(st, s);
      WriteKeepsSession(st, a, s);
    }
    ConsistentFrom(st, r);
  }

  lemma SoundOf(st: State, s: Id)
    requires Consistent(st) && s in st.sessions
    ensures Sound(st.rows, st.sessions[s])
  {
  }

  lemma ApartOf(st: State, s: Id, u: Id)
    requires Consistent(st) && s in st.sessions && u in st.sessions && s != u
    ensures Apart(st.sessions[s], st.sessions[u]) && Apart(st.sessions[u], st.sessions[s])
  {
  }

  lemma ConsistentFrom(st: State, r: State)
    requires Consistent(st) && r.sessions == st.sessions
    requires forall s | s in r.sessions :: Sound(r.rows, r.sessions[s])
    ensures Consistent(r)
  {
  }

  lemma WriteKeepsSession(st: State, a: Action, s: Id)
    requires !a.Begin? && !a.Advance? && !a.Fail?
    requires s in st.sessions && Sound(st.rows, st.sessions[s])
    ensures Sound(Do(st, a).rows, st.sessions[s])
  {
    hide Sound, PendingFor, Joinable;
    var t := st.sessions[s];
    SoundFacts(st.rows, t);
    SoundUnder(st.rows, Do(st, a).rows, t);
  }

  lemma SoundFacts(rows: Rows, t: Session)
    requires Sound(rows, t)
    ensures t.invitation in rows.invitations && rows.invitations[t.invitation].org == t.row.org
    ensures HoldsInvitation(t, t.invitation) ==> IsPending(rows, t.invitation)
    ensures HoldsAccount(t, t.user) ==> AccountPending(rows, t.user)
    ensures t.Open() && t.role.Some? ==> t.role.value in rows.roles && rows.roles[t.role.value].org == t.row.org
  {
  }

  /** The session's own next statement leaves it sound. */
  lemma {:induction false} AdvancedSound(rows: Rows, t: Session)
    requires Sound(rows, t)
    ensures Sound(RowsAfter(rows, t), Advanced(rows, t))
  {
    hide Sound;
    if t.phase.Committing? {
      CommitSound(rows, t);
    } else if InTransaction(t) {
      InsideSound(rows, t);
    } else {
      OutsideSound(rows, t);
    }
  }

  lemma CommitSound(rows: Rows, t: Session)
    requires Sound(rows, t) && t.phase.Committing?
    ensures Sound(Committed(rows, t), Advanced(rows, t))
  {
  }

  lemma InsideSound(rows: Rows, t: Session)
    requires Sound(rows, t) && InTransaction(t) && !t.phase.Committing?
    ensures Sound(rows, Advanced(rows, t))
  {
  }

  lemma OutsideSound(rows: Rows, t: Session)
    requires Sound(rows, t) && !InTransaction(t)
    ensures Sound(RowsAfter(rows, t), Advanced(rows, t))
  {
    hide HasStanding, MayConfer, Committed;
  }

  /** A commit, or a void, writes no row another session holds. */
  lemma AdvanceLeavesOthers(rows: Rows, t: Session, u: Session)
    requires Sound(rows, t) && Sound(rows, u) && Apart(t, u)
    requires t.phase.Voiding? ==> !HoldsInvitation(u, t.invitation)
    ensures Sound(RowsAfter(rows, t), u)
  {
  }

  lemma CommitsHeld(rows: Rows, t: Session)
    requires Sound(rows, t)
    ensures t.phase.Committing? ==> HoldsInvitation(t, t.invitation) && IsPending(rows, t.invitation)
    ensures t.invitation in rows.invitations
  {
  }

  /** A statement that takes a lock waits for its holder, so two sessions stay apart. */
  lemma AdvanceApart(st: State, sid: Id, s: Id)
    requires Consistent(st) && sid in st.sessions && s in st.sessions && s != sid && CanAdvance(st, sid)
    ensures Apart(Advanced(st.rows, st.sessions[sid]), st.sessions[s])
    ensures Apart(st.sessions[s], Advanced(st.rows, st.sessions[sid]))
  {
    hide Consistent, Sound, HasStanding, MayConfer, FoundRole, Seen, Joinable;
    var t, u := st.sessions[sid], st.sessions[s];
    SoundOf(st, sid);
    SoundOf(st, s);
    ApartOf(st, sid, s);
    ConsumedFacts(st.rows, t, u);
    assert t.phase.Flipping? ==> !HoldsInvitation(u, t.invitation);
    assert t.phase.Inserting? ==> !HoldsMember(u, t.Key());
  }

  /** While one session holds an invitation, no other has consumed it. */
  lemma ConsumedFacts(rows: Rows, t: Session, u: Session)
    requires Sound(rows, t) && Sound(rows, u)
    ensures t.phase.Committing? && IsConsumed(u) ==> t.invitation != u.invitation
    ensures t.Open() && !InTransaction(t) ==> !t.writes.flipped && !t.writes.joined && !t.writes.lifted
    ensures t.Open() && u.Open() ==> (t.writes.flipped <==> InTransaction(t))
  {
  }

  lemma {:induction false} AdvanceKeeps(st: State, sid: Id)
    requires Consistent(st)
    ensures Consistent(Do(st, Advance(sid)))
  {
    hide Sound, Apart, Advanced, RowsAfter;
    var r := Do(st, Advance(sid));
    if sid in st.sessions && CanAdvance(st, sid) {
      var t := st.sessions[sid];
      AdvancedSound(st.rows, t);
      forall s | s in st.sessions && s != sid
        ensures Sound(r.rows, r.sessions[s])
        ensures Apart(r.sessions[s], r.sessions[sid]) && Apart(r.sessions[sid], r.sessions[s])
      {
        AdvanceLeavesOthers(st.rows, t, st.sessions[s]);
        AdvanceApart(st, sid, s);
      }
    }
  }

  lemma {:induction false} ActionKeeps(st: State, a: Action)
    requires Consistent(st)
    ensures Consistent(Do(st, a))
  {
    hide Consistent, Do;
    match a
    case Begin(sid, id, user) => BeginKeeps(st, sid, id, user);
    case Advance(sid) => AdvanceKeeps(st, sid);
    case Fail(sid) => FailKeeps(st, sid);
    case _ => WriteKeeps(st, a);
  }

  lemma {:induction false} RunKeeps(st: State, actions: seq<Action>)
    requires Consistent(st)
    ensures Consistent(Run(st, actions))
  {
    hide Consistent, Do;
    if actions != [] {
      RunKeeps(st, actions[..|actions| - 1]);
      ActionKeeps(Run(st, actions[..|actions| - 1]), actions[|actions| - 1]);
    }
  }

  // ---------------------------------------------------------------------------
  //  An invitation leaves `Pending` once.
  // ---------------------------------------------------------------------------

  /** All of an invitation but the role, which deleting the role clears. */
  function Fixed(invitation: Invitation): Invitation { invitation.(role := None) }

  lemma SettledStep(st: State, a: Action, id: Id)
    requires Consistent(st) && id in st.rows.invitations && st.rows.invitations[id].state != Pending
    ensures var r := Do(st, a).rows;
            id in r.invitations && Fixed(r.invitations[id]) == Fixed(st.rows.invitations[id])
  {
    hide Sound, Apart, PendingFor, InvitationFree, MemberFree, AccountFree, RoleFree;
    if a.Advance? && a.sid in st.sessions {
      SoundOf(st, a.sid);
      CommitsHeld(st.rows, st.sessions[a.sid]);
    }
  }

  /** Accepted, revoked or voided, it stays exactly that through any run: no resend, revoke or acceptance reopens it. */
  lemma {:induction false} SettledForGood(st: State, actions: seq<Action>, id: Id)
    requires Consistent(st) && id in st.rows.invitations && st.rows.invitations[id].state != Pending
    ensures var r := Run(st, actions).rows;
            id in r.invitations && Fixed(r.invitations[id]) == Fixed(st.rows.invitations[id])
  {
    hide Consistent, Do;
    if actions != [] {
      var init := actions[..|actions| - 1];
      SettledForGood(st, init, id);
      RunKeeps(st, init);
      SettledStep(Run(st, init), actions[|actions| - 1], id);
    }
  }

  predicate Fresh(st: State) { st.sessions == map[] }

  lemma FreshConsistent(st: State)
    requires Fresh(st)
    ensures Consistent(st)
  {
  }

  /** From rows nobody is working on, whatever runs beside whatever: one session at most consumes an invitation. */
  lemma ConsumedOnce(st: State, actions: seq<Action>, s: Id, u: Id)
    requires Fresh(st)
    ensures var r := Run(st, actions);
              s in r.sessions && u in r.sessions && IsConsumed(r.sessions[s]) && IsConsumed(r.sessions[u])
              && r.sessions[s].invitation == r.sessions[u].invitation
              ==> s == u
  {
    hide Run;
    RunKeeps(st, actions);
  }

  /** The row names the account whose session consumed it. */
  lemma ConsumedBy(st: State, actions: seq<Action>, s: Id)
    requires Fresh(st)
    ensures var r := Run(st, actions);
            s in r.sessions && IsConsumed(r.sessions[s]) ==>
              r.sessions[s].invitation in r.rows.invitations
              && r.rows.invitations[r.sessions[s].invitation].state == Accepted(r.sessions[s].user)
  {
    hide Run;
    RunKeeps(st, actions);
  }

  // ---------------------------------------------------------------------------
  //  What a consuming session changes.
  // ---------------------------------------------------------------------------

  /** An account or membership kept, or moved from pending approval, or for a membership absence, to active. */
  predicate Lifted(before: Option<Status>, after: Option<Status>) {
    after == before || (before == Some(PendingApproval) && after == Some(Active))
  }

  function AccountStatus(rows: Rows, user: Id): Option<Status> {
    if user in rows.accounts then Some(rows.accounts[user].status) else None
  }

  /** From `before` to `after`, nothing but one acceptance of `t`'s invitation. */
  predicate AcceptsOnly(before: Rows, after: Rows, t: Session) {
    && IsPending(before, t.invitation)
    && after.invitations ==
       before.invitations[t.invitation := before.invitations[t.invitation].(state := Accepted(t.user))]
    && (forall key | key in before.members.Keys + after.members.Keys && key != t.Key() ::
          Get(after.members, key) == Get(before.members, key))
    && (Lifted(Get(before.members, t.Key()), Get(after.members, t.Key()))
        || (Get(before.members, t.Key()) == None && Get(after.members, t.Key()) == Some(Active)))
    && (forall user | user in before.accounts.Keys + after.accounts.Keys && user != t.user ::
          Get(after.accounts, user) == Get(before.accounts, user))
    && Lifted(AccountStatus(before, t.user), AccountStatus(after, t.user))
    && after.activeOrgs == before.activeOrgs && after.roles == before.roles && after.viaGroup == before.viaGroup
    && (after.direct == before.direct
        || (t.row.role.Some? && t.mayConfer && t.row.role.value in before.roles
            && before.roles[t.row.role.value].org == t.row.org
            && after.direct == before.direct + {Assignment(t.user, t.row.org, t.row.role.value)}))
  }

  /** Whatever else runs, each statement of a consuming session changes nothing, or voids, or accepts. */
  lemma {:induction false} SessionChanges(st: State, sid: Id)
    requires Consistent(st) && sid in st.sessions
    ensures var r := Do(st, Advance(sid));
            || r.rows == st.rows
            || (r.rows == Voided(st.rows, st.sessions[sid].invitation)
                && r.sessions[sid].phase == Done(Refused(InviterLacksStanding)))
            || (AcceptsOnly(st.rows, r.rows, st.sessions[sid]) && IsConsumed(r.sessions[sid]))
  {
    hide Consistent, HasStanding, MayConfer, InvitationFree, MemberFree, AccountFree;
    SoundOf(st, sid);
  }

  lemma FailureChangesNothing(st: State, sid: Id)
    ensures Do(st, Fail(sid)).rows == st.rows
  {
  }

  /** Whether some statement of `sid`, over the run, changed a row. */
  predicate ChangedBy(st: State, actions: seq<Action>, sid: Id)
    decreases actions
  {
    actions != []
    && var init := actions[..|actions| - 1];
       var a := actions[|actions| - 1];
       (ChangedBy(st, init, sid)
        || ((a == Advance(sid) || a == Fail(sid)) && Do(Run(st, init), a).rows != Run(st, init).rows))
  }

  predicate ChangesNothing(t: Session) {
    t.phase.Done? ==> !t.phase.outcome.Consumed? && t.phase.outcome != Refused(InviterLacksStanding)
  }

  /** A session that did not consume, and did not void, has changed nothing: it failed, was refused, or is under way. */
  lemma {:induction false} UnconsumedChangesNothing(st: State, actions: seq<Action>, sid: Id)
    requires Fresh(st)
    ensures var r := Run(st, actions);
            sid !in r.sessions || ChangesNothing(r.sessions[sid]) ==> !ChangedBy(st, actions, sid)
  {
    hide Consistent, Do, Voided, AcceptsOnly;
    if actions != [] {
      var init, a := actions[..|actions| - 1], actions[|actions| - 1];
      UnconsumedChangesNothing(st, init, sid);
      FreshConsistent(st);
      RunKeeps(st, init);
      SessionStays(Run(st, init), a, sid);
      FailureChangesNothing(Run(st, init), sid);
      if sid in Run(st, init).sessions {
        SessionChanges(Run(st, init), sid);
      }
    }
  }

  /** A session once begun stays; one that ended has ended so; one unbegun changes nothing. */
  lemma SessionStays(st: State, a: Action, sid: Id)
    ensures sid in st.sessions ==> sid in Do(st, a).sessions
    ensures sid in st.sessions && !ChangesNothing(st.sessions[sid]) ==> !ChangesNothing(Do(st, a).sessions[sid])
    ensures sid !in st.sessions && (a == Advance(sid) || a == Fail(sid)) ==> Do(st, a).rows == st.rows
  {
  }

  // ---------------------------------------------------------------------------
  //  Links: a settled or resent invitation's is dead, and an address has one pending invitation.
  // ---------------------------------------------------------------------------

  /** No token, at no time, finds an invitation that has left `Pending`, whatever runs after. */
  lemma SettledNeverLive(st: State, actions: seq<Action>, id: Id, token: Id, now: int)
    requires Consistent(st) && id in st.rows.invitations && st.rows.invitations[id].state != Pending
    ensures !Live(Run(st, actions).rows, id, token, now)
  {
    hide Consistent, Run;
    SettledForGood(st, actions, id);
  }

  /** A resend kills the old link and revives an expired one; a refused resend changes no link. */
  lemma ResendMovesLink(rows: Rows, id: Id, org: Id, token: Id, expires: int, now: int)
    ensures IsPending(rows, id) && rows.invitations[id].org == org && rows.invitations[id].token != token ==>
              !Live(Resent(rows, id, org, token, expires), id, rows.invitations[id].token, now)
    ensures IsPending(rows, id) && rows.invitations[id].org == org ==>
              (Live(Resent(rows, id, org, token, expires), id, token, now) <==> now < expires && org in rows.activeOrgs)
    ensures forall other, t | other != id || !IsPending(rows, id) || rows.invitations[id].org != org ::
              Live(Resent(rows, id, org, token, expires), other, t, now) == Live(rows, other, t, now)
  {
  }

  predicate OnePending(rows: Rows) {
    forall i, j | i in rows.invitations && j in rows.invitations && IsPending(rows, i) && IsPending(rows, j)
                  && rows.invitations[i].org == rows.invitations[j].org
                  && rows.invitations[i].email == rows.invitations[j].email :: i == j
  }

  lemma OnePendingStep(st: State, a: Action)
    requires OnePending(st.rows)
    ensures OnePending(Do(st, a).rows)
  {
    hide HasStanding, MayConfer, InvitationFree, MemberFree, AccountFree, RoleFree, Advanced, CanAdvance, OnePending;
    var r := Do(st, a).rows;
    forall i, j | i in r.invitations && j in r.invitations && IsPending(r, i) && IsPending(r, j)
                  && r.invitations[i].org == r.invitations[j].org && r.invitations[i].email == r.invitations[j].email
      ensures i == j
    {
      PendingBefore(st, a, i);
      PendingBefore(st, a, j);
      OnePendingOf(st.rows, i, j);
    }
    OnePendingIs(r);
  }

  lemma OnePendingOf(rows: Rows, i: Id, j: Id)
    requires OnePending(rows)
    ensures (IsPending(rows, i) && IsPending(rows, j) && rows.invitations[i].org == rows.invitations[j].org
             && rows.invitations[i].email == rows.invitations[j].email) ==> i == j
  {
  }

  lemma OnePendingIs(rows: Rows)
    requires forall i, j | i in rows.invitations && j in rows.invitations && IsPending(rows, i) && IsPending(rows, j)
                           && rows.invitations[i].org == rows.invitations[j].org
                           && rows.invitations[i].email == rows.invitations[j].email :: i == j
    ensures OnePending(rows)
  {
  }

  /** What is pending after an action was pending before, for the same address, or was just created. */
  lemma PendingBefore(st: State, a: Action, id: Id)
    requires IsPending(Do(st, a).rows, id)
    ensures (IsPending(st.rows, id) && st.rows.invitations[id].org == Do(st, a).rows.invitations[id].org
             && st.rows.invitations[id].email == Do(st, a).rows.invitations[id].email)
         || (a.Create? && id == a.id && id !in st.rows.invitations
             && !PendingFor(st.rows, Do(st, a).rows.invitations[id].org, Do(st, a).rows.invitations[id].email))
  {
  }

  /** Over any run, an address has at most one pending invitation into an organization. */
  lemma {:induction false} OnePendingRuns(st: State, actions: seq<Action>)
    requires OnePending(st.rows)
    ensures OnePending(Run(st, actions).rows)
  {
    hide OnePending, Do;
    if actions != [] {
      OnePendingRuns(st, actions[..|actions| - 1]);
      OnePendingStep(Run(st, actions[..|actions| - 1]), actions[|actions| - 1]);
    }
  }
}
