/** What a consumed invitation rested on, and when its role arrives with a membership. */
module InvitationRoles {
  import opened Wrappers
  import opened Tenancy
  import opened Invitations
  import opened InvitationRuns

  // ---------------------------------------------------------------------------
  //  At some moment of the run, the inviter had standing and the invitation was live.
  // ---------------------------------------------------------------------------

  /** Past the check of the inviter, on the way to consuming or there. */
  predicate PastStanding(t: Session) {
    t.phase.Conferring? || t.phase.Locking? || t.phase.Flipping? || InTransaction(t) || IsConsumed(t)
  }

  predicate PastFlip(t: Session) { InTransaction(t) || IsConsumed(t) }

  predicate Eligible(t: Session) {
    t.account.email == t.row.email && (t.account.status == Active || t.account.status == PendingApproval)
  }

  predicate Open(rows: Rows, id: Id) { IsPending(rows, id) && rows.invitations[id].org in rows.activeOrgs }

  /** At some moment before the run's end, the inviter had standing. */
  ghost predicate StoodAt(st: State, actions: seq<Action>, row: Invitation) {
    exists k | 0 <= k < |actions| :: HasStanding(Run(st, actions[..k]).rows, row)
  }

  /** At some moment before the run's end, the invitation was pending into an active organization. */
  ghost predicate OpenAt(st: State, actions: seq<Action>, id: Id) {
    exists k | 0 <= k < |actions| :: Open(Run(st, actions[..k]).rows, id)
  }

  lemma MomentsExtend(st: State, actions: seq<Action>, row: Invitation, id: Id)
    requires actions != []
    ensures StoodAt(st, actions[..|actions| - 1], row) || HasStanding(Run(st, actions[..|actions| - 1]).rows, row) ==>
              StoodAt(st, actions, row)
    ensures OpenAt(st, actions[..|actions| - 1], id) || Open(Run(st, actions[..|actions| - 1]).rows, id) ==>
              OpenAt(st, actions, id)
  {
    hide HasStanding, Open, Run;
    var n := |actions| - 1;
    forall k | 0 <= k < n ensures actions[..n][..k] == actions[..k] {}
  }

  /** What a session is past, it was past before, or has just read. */
  lemma SessionPast(st: State, a: Action, sid: Id)
    requires sid in Do(st, a).sessions
    ensures sid !in st.sessions ==> Do(st, a).sessions[sid].phase == Checking
    ensures sid in st.sessions ==> Do(st, a).sessions[sid].row == st.sessions[sid].row
                                   && Do(st, a).sessions[sid].account == st.sessions[sid].account
                                   && Do(st, a).sessions[sid].invitation == st.sessions[sid].invitation
    ensures sid in st.sessions && PastStanding(Do(st, a).sessions[sid]) ==>
              PastStanding(st.sessions[sid])
              || (st.sessions[sid].phase == Standing && HasStanding(st.rows, st.sessions[sid].row))
    ensures sid in st.sessions && PastFlip(Do(st, a).sessions[sid]) ==>
              PastFlip(st.sessions[sid]) || Open(st.rows, st.sessions[sid].invitation)
    ensures (&& sid in st.sessions
             && (Do(st, a).sessions[sid].phase == Standing || PastStanding(Do(st, a).sessions[sid]))) ==>
              st.sessions[sid].phase == Standing || PastStanding(st.sessions[sid]) || Eligible(st.sessions[sid])
  {
    hide HasStanding, MayConfer, PendingFor, InvitationFree, MemberFree, AccountFree, RoleFree, FoundRole, Seen,
         RowsAfter;
  }

  lemma CheckingIsEarly(t: Session)
    ensures t.phase == Checking ==> !PastStanding(t) && !PastFlip(t)
  {
  }

  /** However the run went, a session past the checks made them good at one of the run's moments. */
  lemma {:induction false} ChecksHeld(st: State, actions: seq<Action>, sid: Id)
    requires Fresh(st) && sid in Run(st, actions).sessions
    ensures var t := Run(st, actions).sessions[sid];
            && (t.phase == Standing || PastStanding(t) ==> Eligible(t))
            && (PastStanding(t) ==> StoodAt(st, actions, t.row))
            && (PastFlip(t) ==> OpenAt(st, actions, t.invitation))
  {
    hide Do, HasStanding, PastStanding, PastFlip, Eligible, Open, StoodAt, OpenAt;
    var n := |actions| - 1;
    var before := Run(st, actions[..n]);
    var t := Run(st, actions).sessions[sid];
    SessionPast(before, actions[n], sid);
    CheckingIsEarly(t);
    if sid in before.sessions {
      ChecksHeld(st, actions[..n], sid);
      EligibleSame(before.sessions[sid], t);
      MomentsExtend(st, actions, t.row, t.invitation);
    }
  }

  lemma EligibleSame(t: Session, u: Session)
    requires t.row == u.row && t.account == u.account
    ensures Eligible(t) == Eligible(u)
  {
  }

  /**
    * A consumed invitation was read for its own address by an account neither blocked, suspended nor deactivated;
    * its inviter had standing, and it stood pending into an active organization, at some moment of the run.
    */
  lemma ConsumedOnStanding(st: State, actions: seq<Action>, sid: Id)
    requires Fresh(st) && sid in Run(st, actions).sessions && IsConsumed(Run(st, actions).sessions[sid])
    ensures Eligible(Run(st, actions).sessions[sid])
    ensures StoodAt(st, actions, Run(st, actions).sessions[sid].row)
    ensures OpenAt(st, actions, Run(st, actions).sessions[sid].invitation)
  {
    hide Run;
    ChecksHeld(st, actions, sid);
  }

  // ---------------------------------------------------------------------------
  //  The role, and the membership it rests on.
  // ---------------------------------------------------------------------------

  /** A role is granted only where the transaction sees an active membership. */
  lemma GrantSeesMembership(rows: Rows, t: Session)
    requires t.phase.Granting? && Advanced(rows, t).writes.granted && t.role == t.row.role
    ensures Seen(rows, t) == Some(Active) && t.mayConfer
  {
  }

  predicate Granted(t: Session) { t.phase.Committing? && t.writes.granted }

  /** At its commit the role comes with what the membership then is, or with the one the transaction wrote. */
  lemma RoleCommits(st: State, sid: Id)
    requires Consistent(st) && sid in st.sessions && Granted(st.sessions[sid])
    ensures var t := st.sessions[sid];
            var after := Do(st, Advance(sid)).rows;
            && t.role.Some? && Assignment(t.user, t.row.org, t.role.value) in after.direct
            && (ActiveIn(after, t.user, t.row.org) <==> t.writes.joined || ActiveIn(st.rows, t.user, t.row.org))
  {
  }

  /** Everyone else acts: other sessions, other requests, administrators. */
  predicate OthersOnly(actions: seq<Action>, sid: Id) { forall a | a in actions :: a != Advance(sid) && a != Fail(sid) }

  lemma SessionWaits(st: State, a: Action, sid: Id)
    requires sid in st.sessions && a != Advance(sid) && a != Fail(sid)
    ensures sid in Do(st, a).sessions && Do(st, a).sessions[sid] == st.sessions[sid]
  {
    hide Advanced, RowsAfter, CanAdvance, PendingFor, InvitationFree, MemberFree, AccountFree, RoleFree;
  }

  lemma {:induction false} SessionWaitsRun(st: State, rest: seq<Action>, sid: Id)
    requires sid in st.sessions && OthersOnly(rest, sid)
    ensures sid in Run(st, rest).sessions && Run(st, rest).sessions[sid] == st.sessions[sid]
  {
    hide Do;
    if rest != [] {
      var n := |rest| - 1;
      assert forall a | a in rest[..n] :: a in rest;
      assert rest[n] in rest;
      SessionWaitsRun(st, rest[..n], sid);
      SessionWaits(Run(st, rest[..n]), rest[n], sid);
    }
  }

  /** The membership the role comes with, once others have acted and the session commits. */
  ghost predicate ArrivesActive(st: State, rest: seq<Action>, sid: Id)
    requires sid in st.sessions
  {
    var t := st.sessions[sid];
    ActiveIn(Do(Run(st, rest), Advance(sid)).rows, t.user, t.row.org)
  }

  /**
    * About to commit a role, a session is sure to commit it with an active membership, whatever others do first,
    * exactly when its transaction wrote the membership: one read active is held by no lock.
    */
  lemma {:induction false} RoleSafeExactlyWhen(st: State, sid: Id)
    requires Consistent(st) && sid in st.sessions && Granted(st.sessions[sid])
    ensures st.sessions[sid].writes.joined <==> forall rest | OthersOnly(rest, sid) :: ArrivesActive(st, rest, sid)
  {
    hide Consistent, Do, Run, ActiveIn, MemberFree;
    var t := st.sessions[sid];
    if t.writes.joined {
      forall rest | OthersOnly(rest, sid) ensures ArrivesActive(st, rest, sid) {
        SessionWaitsRun(st, rest, sid);
        RunKeeps(st, rest);
        RoleCommits(Run(st, rest), sid);
      }
    } else {
      var rest := TakingAway(st, sid);
      SessionWaitsRun(st, rest, sid);
      RunKeeps(st, rest);
      RoleCommits(Run(st, rest), sid);
      assert !ArrivesActive(st, rest, sid);
    }
  }

  /**
    * Without its own write the membership can be gone by the commit: an administrator takes it away, or it is not
    * there to take.
    */
  lemma {:induction false} TakingAway(st: State, sid: Id) returns (rest: seq<Action>)
    requires Consistent(st) && sid in st.sessions
    ensures OthersOnly(rest, sid)
    ensures !ActiveIn(Run(st, rest).rows, st.sessions[sid].user, st.sessions[sid].row.org)
  {
    var key := st.sessions[sid].Key();
    if MemberFree(st, key) {
      rest := [SetMember(key, None)];
      assert rest[..0] == [] && rest[0] == SetMember(key, None);
    } else {
      rest := [];
      var s :| s in st.sessions && HoldsMember(st.sessions[s], key);
      SoundOf(st, s);
    }
  }

  /** The action takes the active membership away. */
  predicate TakesAway(rows: Rows, a: Action, key: (Id, Id)) {
    a.SetMember? && a.key == key && Get(rows.members, key) == Some(Active) && a.status != Some(Active)
  }

  /** From the moment the session is granted its role, no action of the run takes its membership away. */
  predicate KeptOnceGranted(st: State, actions: seq<Action>, sid: Id)
    decreases actions
  {
    actions == []
    || (KeptOnceGranted(st, actions[..|actions| - 1], sid)
        && var before := Run(st, actions[..|actions| - 1]);
           (sid in before.sessions && Granted(before.sessions[sid]) ==>
              !TakesAway(before.rows, actions[|actions| - 1], before.sessions[sid].Key())))
  }

  lemma ActiveStays(st: State, a: Action, key: (Id, Id))
    requires Get(st.rows.members, key) == Some(Active) && !TakesAway(st.rows, a, key)
    ensures Get(Do(st, a).rows.members, key) == Some(Active)
  {
  }

  /** The session, if it is about to commit a role, still sees the active membership it was granted on. */
  predicate Backed(st: State, sid: Id) {
    sid in st.sessions && Granted(st.sessions[sid]) ==> Seen(st.rows, st.sessions[sid]) == Some(Active)
  }

  lemma {:induction false} BackedStep(st: State, a: Action, s: Id)
    requires Consistent(st) && Backed(st, s)
    requires s in st.sessions && Granted(st.sessions[s]) ==> !TakesAway(st.rows, a, st.sessions[s].Key())
    ensures Backed(Do(st, a), s)
  {
    hide Consistent, HasStanding, MayConfer, PendingFor, InvitationFree, MemberFree, AccountFree, RoleFree, RowsAfter;
    if s in Do(st, a).sessions && Granted(Do(st, a).sessions[s]) {
      if a == Advance(s) {
        assert st.sessions[s].phase.Granting? || Granted(st.sessions[s]);
        SoundOf(st, s);
        RoleIsRows(st.rows, st.sessions[s]);
        GrantSeesMembership(st.rows, st.sessions[s]);
        assert Do(st, a).rows == st.rows by { RowsUnchanged(st.rows, st.sessions[s]); }
      } else {
        assert Granted(st.sessions[s]) && Do(st, a).sessions[s] == st.sessions[s];
        if !st.sessions[s].writes.joined {
          ActiveStays(st, a, st.sessions[s].Key());
        }
      }
    }
  }

  lemma RowsUnchanged(rows: Rows, t: Session)
    requires t.phase.Granting?
    ensures RowsAfter(rows, t) == rows
  {
  }

  lemma RoleIsRows(rows: Rows, t: Session)
    requires Sound(rows, t) && t.phase.Granting? && Advanced(rows, t).writes.granted
    ensures t.role == t.row.role
  {
  }

  lemma {:induction false} RunBacked(st: State, actions: seq<Action>, sid: Id)
    requires Fresh(st) && KeptOnceGranted(st, actions, sid)
    ensures Backed(Run(st, actions), sid)
  {
    hide Do, Consistent, TakesAway, Granted, Seen, Backed;
    if actions == [] {
      FreshBacked(st, sid);
    } else {
      var n := |actions| - 1;
      RunBacked(st, actions[..n], sid);
      FreshConsistent(st);
      RunKeeps(st, actions[..n]);
      BackedStep(Run(st, actions[..n]), actions[n], sid);
    }
  }

  lemma FreshBacked(st: State, sid: Id)
    requires Fresh(st)
    ensures Backed(st, sid)
  {
  }

  /**
    * In a run where nobody takes the session's own membership away between its grant and its commit, whatever happens
    * to any other and at any other time, its role arrives with an active membership in its organization.
    */
  lemma {:induction false} RoleArrivesWithMembership(st: State, actions: seq<Action>, sid: Id)
    requires Fresh(st) && KeptOnceGranted(st, actions, sid)
    requires sid in Run(st, actions).sessions && Granted(Run(st, actions).sessions[sid])
    ensures var t := Run(st, actions).sessions[sid];
            var after := Do(Run(st, actions), Advance(sid)).rows;
            && t.role.Some? && Assignment(t.user, t.row.org, t.role.value) in after.direct
            && ActiveIn(after, t.user, t.row.org)
  {
    hide Consistent, Run, Do;
    FreshConsistent(st);
    RunKeeps(st, actions);
    RunBacked(st, actions, sid);
    RoleCommits(Run(st, actions), sid);
  }

  // ---------------------------------------------------------------------------
  //  A membership read active, blocked before the commit.
  // ---------------------------------------------------------------------------

  const INVITEE: Id := 1
  const INVITER: Id := 2
  const ORG: Id := 10
  const ROLE: Id := 20
  const SEAT := Invitation(ORG, "invitee@example.com", Some(ROLE), Some(INVITER), Pending, 0, 0)

  const BLOCK_ROWS := Rows(
    map[7 := SEAT],
    map[INVITEE := Account("invitee@example.com", Active, false),
        INVITER := Account("admin@example.com", Active, false)],
    map[(INVITEE, ORG) := Active, (INVITER, ORG) := Active],
    {ORG},
    map[ROLE := Role(ORG, {}), 21 := Role(ORG, {INVITE_PERMISSION})],
    {Assignment(INVITER, ORG, 21)},
    {})

  const BLOCK_START := State(BLOCK_ROWS, map[])

  /** A member accepts up to the commit, an administrator blocks them, and the commit follows. */
  const BLOCK_RUN: seq<Action> :=
    [Begin(0, 7, INVITEE), Advance(0), Advance(0), Advance(0), Advance(0), Advance(0), Advance(0), Advance(0),
     Advance(0), Advance(0), SetMember((INVITEE, ORG), Some(Blocked)), Advance(0)]

  lemma RunStep(st: State, actions: seq<Action>, a: Action)
    ensures Run(st, actions + [a]) == Do(Run(st, actions), a)
  {
  }

  function Accepting(phase: Phase, mayConfer: bool, role: Option<Id>, found: Option<Status>, writes: Writes): Session {
    Session(7, SEAT, INVITEE, BLOCK_ROWS.accounts[INVITEE], phase, mayConfer, role, false, found, writes)
  }

  lemma InviterStands()
    ensures HasStanding(BLOCK_ROWS, SEAT) && MayConfer(BLOCK_ROWS, SEAT, ROLE)
  {
  }

  /** One statement of the only session there is. */
  lemma SoleAdvance(phase: Phase, mayConfer: bool, role: Option<Id>, found: Option<Status>, writes: Writes)
    requires !phase.Voiding? && !phase.Committing? && !writes.joined && !writes.lifted
    requires phase.Flipping? ==> !writes.flipped
    ensures var t := Accepting(phase, mayConfer, role, found, writes);
            Do(State(BLOCK_ROWS, map[0 := t]), Advance(0)) == State(BLOCK_ROWS, map[0 := Advanced(BLOCK_ROWS, t)])
  {
    hide HasStanding, MayConfer;
    var t := Accepting(phase, mayConfer, role, found, writes);
    assert map[0 := t][0 := Advanced(BLOCK_ROWS, t)] == map[0 := Advanced(BLOCK_ROWS, t)];
  }

  lemma AcceptsToFlip()
    ensures Run(BLOCK_START, BLOCK_RUN[..5])
         == State(BLOCK_ROWS, map[0 := Accepting(Flipping, true, Some(ROLE), None, NO_WRITES)])
  {
    hide HasStanding, MayConfer, Do, Run;
    InviterStands();
    var t0 := Accepting(Checking, false, None, None, NO_WRITES);
    BeginsAlone();
    SoleAdvance(Checking, false, None, None, NO_WRITES);
    SoleAdvance(Standing, false, None, None, NO_WRITES);
    SoleAdvance(Conferring, false, None, None, NO_WRITES);
    SoleAdvance(Locking, true, None, None, NO_WRITES);
    BlockStep(1);
    BlockStep(2);
    BlockStep(3);
    BlockStep(4);
  }

  lemma BeginsAlone()
    ensures Run(BLOCK_START, BLOCK_RUN[..1])
         == State(BLOCK_ROWS, map[0 := Accepting(Checking, false, None, None, NO_WRITES)])
  {
  }

  lemma BlockStep(k: nat)
    requires k < |BLOCK_RUN|
    ensures Run(BLOCK_START, BLOCK_RUN[..k + 1]) == Do(Run(BLOCK_START, BLOCK_RUN[..k]), BLOCK_RUN[k])
    ensures 0 < k < 10 ==> BLOCK_RUN[k] == Advance(0)
  {
    hide Do, Run;
    RunStep(BLOCK_START, BLOCK_RUN[..k], BLOCK_RUN[k]);
    assert BLOCK_RUN[..k + 1] == BLOCK_RUN[..k] + [BLOCK_RUN[k]];
  }

  lemma AcceptsToActivate()
    ensures Run(BLOCK_START, BLOCK_RUN[..7])
         == State(BLOCK_ROWS,
                  map[0 := Accepting(Activating, true, Some(ROLE), Some(Active), NO_WRITES.(flipped := true))])
  {
    hide HasStanding, MayConfer, Do, Run;
    AcceptsToFlip();
    SoleAdvance(Flipping, true, Some(ROLE), None, NO_WRITES);
    SoleAdvance(Finding, true, Some(ROLE), None, NO_WRITES.(flipped := true));
    BlockStep(5);
    BlockStep(6);
  }

  lemma AcceptsToCommit()
    ensures Run(BLOCK_START, BLOCK_RUN[..10])
         == State(BLOCK_ROWS,
                  map[0 := Accepting(Committing, true, Some(ROLE), Some(Active), Writes(true, false, false, true))])
  {
    hide HasStanding, MayConfer, Do, Run;
    var w := NO_WRITES.(flipped := true);
    AcceptsToActivate();
    SoleAdvance(Activating, true, Some(ROLE), Some(Active), w);
    SoleAdvance(Lifting, true, Some(ROLE), Some(Active), w);
    SoleAdvance(Granting, true, Some(ROLE), Some(Active), w);
    BlockStep(7);
    BlockStep(8);
    BlockStep(9);
  }

  /** The run ends with the role held through a blocked membership: an active one is read without a lock. */
  lemma BlockedMemberGetsRole()
    ensures Fresh(BLOCK_START)
    ensures var r := Run(BLOCK_START, BLOCK_RUN).rows;
            Assignment(INVITEE, ORG, ROLE) in r.direct && Get(r.members, (INVITEE, ORG)) == Some(Blocked)
  {
    hide Run;
    AcceptsToCommit();
    BlockStep(10);
    BlockStep(11);
    assert BLOCK_RUN[..12] == BLOCK_RUN;
  }
}
