/** Status changes beside one another: what every run of them keeps. */
module AdminStatusRuns {
  import opened Wrappers
  import opened Tenancy
  import opened AdminStatus

  /** A sign-in session, and who opened it as someone else. */
  datatype Login = Login(owner: Id, impersonator: Option<Id>)

  datatype Outcome = Done(status: Status) | Denied(reason: Refusal) | RevokeFailed | Threw

  /**
    * The target's row, then its other memberships, are read on their own. The transaction lists the memberships it
    * would move, under no lock; it then holds the grants' row locks from the grant read to its commit. The sign-in
    * sessions are ended after it.
    */
  datatype Phase = Finding | Sharing | Listing | Waiting | Holding | EndingOwn | EndingBorrowed | Over(outcome: Outcome)

  datatype Session =
    Session(change: Change, phase: Phase, shared: bool, listed: set<(Id, Id)>, strips: bool, startedAt: nat)

  function Begun(c: Change): Session { Session(c, Finding, false, {}, false, 0) }

  datatype State = State(rows: Rows, sessions: map<Id, Session>, logins: map<Id, Login>)

  function Wide(t: Session): bool { AccountWide(t.change, t.shared) }

  /** The session's next statement, at `now`. */
  function Advanced(rows: Rows, t: Session, now: nat): Session {
    var c := t.change;
    match t.phase
    case Finding => t.(phase := if c.target in rows.accounts then Sharing else Over(Denied(NotFound)))
    case Sharing => t.(phase := Listing, shared := IsShared(rows, c))
    case Listing =>
      t.(phase := Waiting, listed := if c.newMembership == Active then {} else Listed(rows, c), startedAt := now)
    case Waiting => t.(phase := Holding, strips := StripsLast(rows, c, t.listed))
    case Holding =>
      t.(phase := match Refused(rows, c, t.strips)
                  case Some(reason) => Over(Denied(reason))
                  case None => if Wide(t) && c.newStatus != Active then EndingOwn else Over(Done(c.newStatus)))
    case EndingOwn => t.(phase := EndingBorrowed)
    case EndingBorrowed => t.(phase := Over(Done(c.newStatus)))
    case Over(_) => t
  }

  function RowsAfter(rows: Rows, t: Session): Rows {
    if t.phase.Holding? then Transacted(rows, t.change, Wide(t), t.strips, t.startedAt) else rows
  }

  predicate OwnedBy(l: Login, user: Id) { l.owner == user }

  predicate BorrowedBy(l: Login, user: Id) { l.impersonator == Some(user) }

  function LoginsAfter(logins: map<Id, Login>, t: Session): map<Id, Login> {
    match t.phase
    case EndingOwn => map l | l in logins && !OwnedBy(logins[l], t.change.target) :: logins[l]
    case EndingBorrowed => map l | l in logins && !BorrowedBy(logins[l], t.change.target) :: logins[l]
    case _ => logins
  }

  datatype Action =
    | Begin(sid: Id, change: Change)
    | Advance(sid: Id, now: nat)
    | Fail(sid: Id)
    | SignIn(login: Id, to: Login)
    | AddMember(key: (Id, Id), member: Member)

  /** Nobody else is between the grant read and the commit. */
  predicate LockFree(st: State) { forall s | s in st.sessions :: !st.sessions[s].phase.Holding? }

  /** Ending the sign-in sessions fails on its own; anything else that throws rolls the transaction back. */
  function FailedPhase(phase: Phase): Phase {
    match phase
    case EndingOwn => Over(RevokeFailed)
    case EndingBorrowed => Over(RevokeFailed)
    case Over(o) => Over(o)
    case _ => Over(Threw)
  }

  function Do(st: State, a: Action): State {
    match a
    case Begin(sid, change) =>
      if sid in st.sessions then st
      else st.(sessions := st.sessions[sid := Begun(change)])
    case Advance(sid, now) =>
      if sid !in st.sessions || (st.sessions[sid].phase.Waiting? && !LockFree(st)) then st
      else
        var t := st.sessions[sid];
        State(RowsAfter(st.rows, t), st.sessions[sid := Advanced(st.rows, t, now)], LoginsAfter(st.logins, t))
    case Fail(sid) =>
      if sid !in st.sessions then st
      else st.(sessions := st.sessions[sid := st.sessions[sid].(phase := FailedPhase(st.sessions[sid].phase))])
    case SignIn(login, to) => if login in st.logins then st else st.(logins := st.logins[login := to])
    case AddMember(key, member) =>
      if key in st.rows.members then st else st.(rows := st.rows.(members := st.rows.members[key := member]))
  }

  function Run(st: State, actions: seq<Action>): State
    decreases actions
  {
    if actions == [] then st else Do(Run(st, actions[..|actions| - 1]), actions[|actions| - 1])
  }

  predicate Fresh(st: State) { st.sessions == map[] }

  // ---------------------------------------------------------------------------
  //  The last superadmin.
  // ---------------------------------------------------------------------------

  /** The session has looked for the target's memberships elsewhere, and the change has not committed. */
  predicate HasLooked(t: Session) { t.phase.Listing? || t.phase.Waiting? || t.phase.Holding? }

  /** The new membership lies outside an organization whose change of the user found none outside. */
  predicate BehindSharing(t: Session, key: (Id, Id)) {
    HasLooked(t) && !t.shared && t.change.scope.Some? && t.change.scope.value != key.1
  }

  /** The new membership is one the change would move and has not listed, and it is yet to read the grants. */
  predicate BehindListing(t: Session, key: (Id, Id)) { t.phase.Waiting? && t.change.InScope(key.1) }

  /** A change that takes away from the user has looked where the new membership now appears. */
  predicate MakesStale(st: State, key: (Id, Id)) {
    && key !in st.rows.members
    && exists s | s in st.sessions ::
         && st.sessions[s].change.target == key.0 && st.sessions[s].change.newStatus != Active
         && (BehindSharing(st.sessions[s], key) || BehindListing(st.sessions[s], key))
  }

  /** With the pairs of statuses the routes pass. */
  predicate Harmless(st: State, a: Action) {
    (a.Begin? ==> a.change.Matched()) && (a.AddMember? ==> !MakesStale(st, a.key))
  }

  predicate HarmlessRun(st: State, actions: seq<Action>)
    decreases actions
  {
    actions == []
    || (&& HarmlessRun(st, actions[..|actions| - 1])
        && Harmless(Run(st, actions[..|actions| - 1]), actions[|actions| - 1]))
  }

  /** No session has missed what it looked for, and some grant counts. */
  predicate Guarded(st: State) {
    && ActiveGrants(st.rows) != {}
    && (forall s | s in st.sessions :: Cautious(st.rows, st.sessions[s]))
    && (forall s, u | s in st.sessions && u in st.sessions && s != u ::
          !(st.sessions[s].phase.Holding? && st.sessions[u].phase.Holding?))
  }

  predicate Cautious(rows: Rows, t: Session) {
    && t.change.Matched()
    && (HasLooked(t) && t.change.newStatus != Active && IsShared(rows, t.change) ==> t.shared)
    && (t.phase.Waiting? && t.change.newStatus != Active ==> Listed(rows, t.change) <= t.listed)
    && (t.phase.Holding? && StripsLast(rows, t.change, Listed(rows, t.change)) ==> t.strips)
  }

  /** A status change adds and removes no membership, so what was read of them stays true. */
  lemma SharedSame(rows: Rows, after: Rows, c: Change)
    requires after.members.Keys == rows.members.Keys
    ensures IsShared(after, c) == IsShared(rows, c) && Listed(after, c) == Listed(rows, c)
  {
    assert forall key :: key in after.members <==> key in rows.members;
  }

  lemma KeysSame(rows: Rows, t: Session)
    ensures RowsAfter(rows, t).members.Keys == rows.members.Keys
  {
  }

  lemma GrantKept(rows: Rows, t: Session)
    requires ActiveGrants(rows) != {} && Cautious(rows, t)
    ensures ActiveGrants(RowsAfter(rows, t)) != {}
  {
    hide ActiveGrants, Transacted, IsShared, StripsLast;
    if t.phase.Holding? {
      CautiousReadKeepsGrant(rows, t.change, t.shared, t.strips, t.startedAt);
    }
  }

  /** A listing that has missed nothing refuses wherever a fresh one would. */
  lemma ListedEnough(rows: Rows, t: Session)
    requires Cautious(rows, t) && t.phase.Waiting? && StripsLast(rows, t.change, Listed(rows, t.change))
    ensures StripsLast(rows, t.change, t.listed)
  {
  }

  lemma AddedCautious(rows: Rows, key: (Id, Id), m: Member, t: Session)
    requires key !in rows.members && ActiveGrants(rows) != {} && Cautious(rows, t)
    requires t.change.target == key.0 && t.change.newStatus != Active ==>
               !BehindSharing(t, key) && !BehindListing(t, key)
    ensures Cautious(rows.(members := rows.members[key := m]), t)
  {
    hide ActiveGrants, StripsLast;
    MoreMembersStripNoMore(rows, key, m, t.change);
  }

  lemma {:induction false} AddedStep(st: State, key: (Id, Id), m: Member)
    requires Guarded(st) && !MakesStale(st, key)
    ensures Guarded(Do(st, AddMember(key, m)))
  {
    hide ActiveGrants, Cautious, IsShared, StripsLast;
    if key !in st.rows.members {
      var after := st.rows.(members := st.rows.members[key := m]);
      assert ActiveGrants(after) != {} by {
        MoreMembersStripNoMore(st.rows, key, m, Change(0, None, Active, Active, None));
      }
      forall s | s in st.sessions ensures Cautious(after, st.sessions[s]) {
        AddedCautious(st.rows, key, m, st.sessions[s]);
      }
    }
  }

  lemma OwnCautious(rows: Rows, t: Session, now: nat)
    requires Cautious(rows, t)
    ensures Cautious(RowsAfter(rows, t), Advanced(rows, t, now))
  {
    hide ActiveGrants, Transacted, IsShared, Listed, StripsLast, Refused;
    if t.phase.Waiting? && StripsLast(rows, t.change, Listed(rows, t.change)) {
      ListedEnough(rows, t);
    }
  }

  lemma OtherCautious(rows: Rows, t: Session, u: Session)
    requires Cautious(rows, u) && !(t.phase.Holding? && u.phase.Holding?)
    ensures Cautious(RowsAfter(rows, t), u)
  {
    hide ActiveGrants, Transacted, IsShared, Listed, StripsLast, Refused;
    KeysSame(rows, t);
    SharedSame(rows, RowsAfter(rows, t), u.change);
  }

  lemma {:induction false} GuardedStep(st: State, a: Action)
    requires Guarded(st) && Harmless(st, a)
    ensures Guarded(Do(st, a))
  {
    hide ActiveGrants, RowsAfter, IsShared, Listed, StripsLast, Refused, MakesStale;
    if a.AddMember? {
      AddedStep(st, a.key, a.member);
    } else if a.Advance? && a.sid in st.sessions {
      var t := st.sessions[a.sid];
      GrantKept(st.rows, t);
      OwnCautious(st.rows, t, a.now);
      forall s | s in st.sessions && s != a.sid ensures Cautious(RowsAfter(st.rows, t), st.sessions[s]) {
        OtherCautious(st.rows, t, st.sessions[s]);
      }
    }
  }

  /**
    * If some superadmin counts at the start, one counts after every step of every run in which no membership appears
    * behind the back of a change that has looked for it elsewhere, or has listed what it would move.
    */
  lemma {:induction false} LastSuperadminStays(st: State, actions: seq<Action>)
    requires Fresh(st) && ActiveGrants(st.rows) != {} && HarmlessRun(st, actions)
    ensures Guarded(Run(st, actions)) && ActiveGrants(Run(st, actions).rows) != {}
  {
    hide ActiveGrants, Harmless, Do;
    if actions != [] {
      var n := |actions| - 1;
      LastSuperadminStays(st, actions[..n]);
      GuardedStep(Run(st, actions[..n]), actions[n]);
    }
  }

  // ---------------------------------------------------------------------------
  //  A shared account.
  // ---------------------------------------------------------------------------

  /** The account is shared, every change of it is confined to `org`, and those that have looked have seen it shared. */
  predicate SeenShared(st: State, user: Id, org: Id) {
    && HasMembershipOutside(st.rows, user, org)
    && forall s | s in st.sessions && st.sessions[s].change.target == user ::
         st.sessions[s].change.scope == Some(org) && (HasLooked(st.sessions[s]) ==> st.sessions[s].shared)
  }

  /** No other change than those of `org` is begun on the account. */
  predicate WithinOrg(a: Action, user: Id, org: Id) {
    a.Begin? && a.change.target == user ==> a.change.scope == Some(org)
  }

  lemma OutsideKept(rows: Rows, after: Rows, user: Id, org: Id)
    requires HasMembershipOutside(rows, user, org) && rows.members.Keys <= after.members.Keys
    ensures HasMembershipOutside(after, user, org)
  {
    var key :| key in rows.members && key.0 == user && key.1 != org;
    assert key in rows.members.Keys;
  }

  lemma {:induction false} SharedStep(st: State, a: Action, user: Id, org: Id)
    requires SeenShared(st, user, org) && WithinOrg(a, user, org) && user in st.rows.accounts
    ensures SeenShared(Do(st, a), user, org) && user in Do(st, a).rows.accounts
    ensures AtMostLifted(st.rows, Do(st, a).rows, user)
  {
    hide Transacted, Refused, StripsLast, HasMembershipOutside, Listed, LoginsAfter, LockFree;
    if a.Advance? && a.sid in st.sessions {
      var t := st.sessions[a.sid];
      Confined(st.rows, t.change, Wide(t), t.strips, t.startedAt);
      KeysSame(st.rows, t);
    }
    OutsideKept(st.rows, Do(st, a).rows, user, org);
  }

  /** Over every run of changes within one organization, an account that is a member elsewhere too is at most lifted. */
  lemma {:induction false} SharedOnlyLifted(st: State, actions: seq<Action>, user: Id, org: Id)
    requires Fresh(st) && user in st.rows.accounts && HasMembershipOutside(st.rows, user, org)
    requires forall a | a in actions :: WithinOrg(a, user, org)
    ensures SeenShared(Run(st, actions), user, org) && user in Run(st, actions).rows.accounts
    ensures AtMostLifted(st.rows, Run(st, actions).rows, user)
  {
    hide Do, WithinOrg, HasMembershipOutside;
    if actions != [] {
      var n := |actions| - 1;
      assert forall a | a in actions[..n] :: a in actions;
      assert actions[n] in actions;
      SharedOnlyLifted(st, actions[..n], user, org);
      SharedStep(Run(st, actions[..n]), actions[n], user, org);
    }
  }

  /** Everyone else acts: other changes, sign-ins, administrators who add members. */
  predicate OthersOnly(actions: seq<Action>, sid: Id) {
    forall a | a in actions :: (a.Advance? ==> a.sid != sid) && (a.Fail? ==> a.sid != sid)
  }

  lemma {:induction false} SessionWaits(st: State, rest: seq<Action>, sid: Id)
    requires sid in st.sessions && OthersOnly(rest, sid)
    ensures sid in Run(st, rest).sessions && Run(st, rest).sessions[sid] == st.sessions[sid]
  {
    hide RowsAfter, Advanced, LoginsAfter, LockFree;
    if rest != [] {
      var n := |rest| - 1;
      assert forall a | a in rest[..n] :: a in rest;
      assert rest[n] in rest;
      SessionWaits(st, rest[..n], sid);
    }
  }

  /** If the account is shared once others have acted, the session's commit at most lifts it. */
  ghost predicate LiftsAtMost(st: State, rest: seq<Action>, sid: Id, now: nat)
    requires sid in st.sessions
  {
    var c := st.sessions[sid].change;
    IsShared(Run(st, rest).rows, c) ==>
      AtMostLifted(Run(st, rest).rows, Do(Run(st, rest), Advance(sid, now)).rows, c.target)
  }

  /**
    * About to set another status than a lift, a change of one organization is sure not to reach a shared account with
    * it, whatever others do first, exactly when it read the account as shared: no lock keeps memberships from
    * appearing.
    */
  lemma {:induction false} SharedSafeExactlyWhen(st: State, sid: Id, now: nat)
    requires sid in st.sessions && st.sessions[sid].phase.Holding? && st.sessions[sid].change.scope.Some?
    requires Refused(st.rows, st.sessions[sid].change, st.sessions[sid].strips).None?
    requires st.sessions[sid].change.target in st.rows.accounts
    requires !Lift(st.rows.accounts[st.sessions[sid].change.target].status, st.sessions[sid].change.newStatus)
    ensures st.sessions[sid].shared <==> forall rest | OthersOnly(rest, sid) :: LiftsAtMost(st, rest, sid, now)
  {
    hide Run, Transacted, AtMostLifted, IsShared;
    var t := st.sessions[sid];
    if t.shared {
      forall rest | OthersOnly(rest, sid) ensures LiftsAtMost(st, rest, sid, now) {
        SessionWaits(st, rest, sid);
        Confined(Run(st, rest).rows, t.change, Wide(t), t.strips, t.startedAt);
      }
    } else {
      var rest := JoiningElsewhere(st, sid);
      SessionWaits(st, rest, sid);
      BeyondLiftExactlyWhen(Run(st, rest).rows, t.change, t.shared, t.strips, t.startedAt);
      assert !LiftsAtMost(st, rest, sid, now);
    }
  }

  /** The account is made a member of another organization, which touches no account. */
  lemma {:induction false} JoiningElsewhere(st: State, sid: Id) returns (rest: seq<Action>)
    requires sid in st.sessions && st.sessions[sid].change.scope.Some?
    ensures OthersOnly(rest, sid)
    ensures IsShared(Run(st, rest).rows, st.sessions[sid].change)
    ensures Run(st, rest).rows.accounts == st.rows.accounts
  {
    var c := st.sessions[sid].change;
    var key := (c.target, c.scope.value + 1);
    rest := [AddMember(key, Member(Active, None))];
    assert rest[..0] == [] && rest[0] == AddMember(key, Member(Active, None));
    assert key in Run(st, rest).rows.members;
  }

  // ---------------------------------------------------------------------------
  //  Deactivated accounts; confinement over a run.
  // ---------------------------------------------------------------------------

  lemma {:induction false} DeactivatedForGood(st: State, actions: seq<Action>, user: Id)
    requires user in st.rows.accounts && st.rows.accounts[user].status == Deactivated
    ensures user in Run(st, actions).rows.accounts && Run(st, actions).rows.accounts[user].status == Deactivated
  {
    hide Transacted, Refused, StripsLast, IsShared;
    if actions != [] {
      var before := Run(st, actions[..|actions| - 1]);
      DeactivatedForGood(st, actions[..|actions| - 1], user);
      var a := actions[|actions| - 1];
      if a.Advance? && a.sid in before.sessions && before.sessions[a.sid].phase.Holding? {
        var t := before.sessions[a.sid];
        DeactivatedStays(before.rows, t.change, Wide(t), t.strips, t.startedAt, user);
      }
    }
  }

  /** Every change there is, or is about to be, is confined to one organization. */
  predicate ConfinedTo(st: State, org: Id) { forall s | s in st.sessions :: st.sessions[s].change.scope == Some(org) }

  /** A run of changes by administrators of one organization leaves every membership elsewhere as it was. */
  lemma {:induction false} OtherOrgsUntouched(st: State, actions: seq<Action>, org: Id, key: (Id, Id))
    requires ConfinedTo(st, org) && forall a | a in actions :: a.Begin? ==> a.change.scope == Some(org)
    requires key in st.rows.members && key.1 != org
    ensures ConfinedTo(Run(st, actions), org)
    ensures key in Run(st, actions).rows.members && Run(st, actions).rows.members[key] == st.rows.members[key]
  {
    hide Transacted, Refused, StripsLast, IsShared, Listed, AtMostLifted, LoginsAfter, LockFree;
    if actions != [] {
      var n := |actions| - 1;
      assert forall a | a in actions[..n] :: a in actions;
      assert actions[n] in actions;
      OtherOrgsUntouched(st, actions[..n], org, key);
      var before := Run(st, actions[..n]);
      var a := actions[n];
      if a.Advance? && a.sid in before.sessions && before.sessions[a.sid].phase.Holding? {
        var t := before.sessions[a.sid];
        Confined(before.rows, t.change, Wide(t), t.strips, t.startedAt);
      }
    }
  }

  // ---------------------------------------------------------------------------
  //  One change at most commits on a version.
  // ---------------------------------------------------------------------------

  predicate Expects(t: Session, user: Id, version: nat) {
    t.change.target == user && t.change.expected == Some(version)
  }

  /** The transaction has started and not ended. */
  predicate Started(t: Session) { t.phase.Waiting? || t.phase.Holding? }

  /** The change is in the tables: it answered with its status, or its sign-in sessions are being ended. */
  predicate InTables(t: Session) {
    t.phase.EndingOwn? || t.phase.EndingBorrowed?
    || (t.phase.Over? && (t.phase.outcome.Done? || t.phase.outcome.RevokeFailed?))
  }

  /** No transaction starts in the millisecond of the version, as a clock that has moved on since it was read gives. */
  predicate NotAt(a: Action, version: nat) { a.Advance? ==> Milliseconds(a.now) != version }

  predicate Claimed(st: State, user: Id, version: nat) {
    && (forall s | s in st.sessions && Started(st.sessions[s]) :: Milliseconds(st.sessions[s].startedAt) != version)
    && (forall s | s in st.sessions && Expects(st.sessions[s], user, version) && InTables(st.sessions[s]) ::
          user in st.rows.accounts && Milliseconds(st.rows.accounts[user].updatedAt) != version)
    && (forall s, u | && s in st.sessions && u in st.sessions
                      && Expects(st.sessions[s], user, version) && Expects(st.sessions[u], user, version)
                      && InTables(st.sessions[s]) && InTables(st.sessions[u]) ::
          s == u)
  }

  /** A commit on the version moves the row off it, and every later stamp keeps it off. */
  lemma StampsMove(rows: Rows, c: Change, wide: bool, strips: bool, now: nat, user: Id, version: nat)
    requires Milliseconds(now) != version
    ensures var r := Transacted(rows, c, wide, strips, now);
            && r.accounts.Keys == rows.accounts.Keys
            && (user in rows.accounts && Milliseconds(rows.accounts[user].updatedAt) != version ==>
                  Milliseconds(r.accounts[user].updatedAt) != version)
            && (Refused(rows, c, strips).None? && c.target == user && c.expected == Some(version) ==>
                  user in rows.accounts && Milliseconds(rows.accounts[user].updatedAt) == version
                  && Milliseconds(r.accounts[user].updatedAt) != version)
  {
  }

  /** Nothing but a commit brings a change into the tables, or moves an account. */
  lemma OnlyCommits(st: State, a: Action, s: Id)
    requires !(a.Advance? && a.sid in st.sessions && st.sessions[a.sid].phase.Holding?)
    requires s in Do(st, a).sessions
    ensures Do(st, a).rows.accounts == st.rows.accounts
    ensures InTables(Do(st, a).sessions[s]) ==>
              s in st.sessions && InTables(st.sessions[s]) && Do(st, a).sessions[s].change == st.sessions[s].change
    ensures Started(Do(st, a).sessions[s]) ==>
              || (&& s in st.sessions && Started(st.sessions[s])
                  && Do(st, a).sessions[s].startedAt == st.sessions[s].startedAt)
              || (a.Advance? && Do(st, a).sessions[s].startedAt == a.now)
  {
  }

  lemma ClaimedCommit(st: State, sid: Id, now: nat, user: Id, version: nat)
    requires Claimed(st, user, version) && sid in st.sessions && st.sessions[sid].phase.Holding?
    ensures Claimed(Do(st, Advance(sid, now)), user, version)
  {
    hide Transacted, Refused, StripsLast, IsShared, Milliseconds, LockFree, LoginsAfter;
    var t := st.sessions[sid];
    StampsMove(st.rows, t.change, Wide(t), t.strips, t.startedAt, user, version);
  }

  lemma {:induction false} ClaimedStep(st: State, a: Action, user: Id, version: nat)
    requires Claimed(st, user, version) && NotAt(a, version)
    ensures Claimed(Do(st, a), user, version)
  {
    hide Do, InTables, Milliseconds, Started;
    if a.Advance? && a.sid in st.sessions && st.sessions[a.sid].phase.Holding? {
      ClaimedCommit(st, a.sid, a.now, user, version);
    } else {
      forall s | s in Do(st, a).sessions
        ensures Do(st, a).rows.accounts == st.rows.accounts
        ensures InTables(Do(st, a).sessions[s]) ==>
                  s in st.sessions && InTables(st.sessions[s]) && Do(st, a).sessions[s].change == st.sessions[s].change
        ensures Started(Do(st, a).sessions[s]) ==> Milliseconds(Do(st, a).sessions[s].startedAt) != version
      {
        OnlyCommits(st, a, s);
      }
    }
  }

  /** Of all the changes sent with one version of a row, at most one is ever in the tables. */
  lemma {:induction false} OneChangePerVersion(st: State, actions: seq<Action>, user: Id, version: nat)
    requires Fresh(st) && forall a | a in actions :: NotAt(a, version)
    ensures Claimed(Run(st, actions), user, version)
  {
    hide NotAt, Claimed, Do;
    if actions == [] {
      NoneClaimed(st, user, version);
    } else {
      var n := |actions| - 1;
      assert forall a | a in actions[..n] :: a in actions;
      assert actions[n] in actions;
      OneChangePerVersion(st, actions[..n], user, version);
      ClaimedStep(Run(st, actions[..n]), actions[n], user, version);
    }
  }

  lemma NoneClaimed(st: State, user: Id, version: nat)
    requires Fresh(st)
    ensures Claimed(st, user, version)
  {
  }

  // ---------------------------------------------------------------------------
  //  Sign-in sessions.
  // ---------------------------------------------------------------------------

  /** The sign-in session was opened in the course of the run. */
  predicate OpenedIn(actions: seq<Action>, login: Id, to: Login) { SignIn(login, to) in actions }

  /** What is left, of the account's own sessions once those were ended, and of the borrowed ones after that. */
  predicate OnlyOpened(st: State, actions: seq<Action>, t: Session) {
    && (t.phase.EndingBorrowed? || (t.phase.Over? && t.phase.outcome.Done?) ==>
          forall l | l in st.logins && OwnedBy(st.logins[l], t.change.target) :: OpenedIn(actions, l, st.logins[l]))
    && (t.phase.Over? && t.phase.outcome.Done? ==>
          forall l | l in st.logins && BorrowedBy(st.logins[l], t.change.target) :: OpenedIn(actions, l, st.logins[l]))
  }

  predicate Ending(phase: Phase) { phase.EndingOwn? || phase.EndingBorrowed? || phase.Over? }

  lemma OpenedStep(st: State, actions: seq<Action>, a: Action, sid: Id)
    requires sid in st.sessions && Ending(st.sessions[sid].phase) && OnlyOpened(st, actions, st.sessions[sid])
    ensures var r := Do(st, a);
            && sid in r.sessions && Ending(r.sessions[sid].phase) && r.sessions[sid].change == st.sessions[sid].change
            && OnlyOpened(r, actions + [a], r.sessions[sid])
  {
  }

  /**
    * From the commit of an account-wide shut-out, whatever else happens: once it answers ok, every sign-in session of
    * the account, or that it holds as someone else, was opened after the commit.
    */
  lemma {:induction false} ShutOutEndsSessions(st: State, actions: seq<Action>, sid: Id)
    requires sid in st.sessions && st.sessions[sid].phase.EndingOwn?
    ensures var r := Run(st, actions);
            && sid in r.sessions && Ending(r.sessions[sid].phase) && r.sessions[sid].change == st.sessions[sid].change
            && OnlyOpened(r, actions, r.sessions[sid])
  {
    hide Do, OnlyOpened, Ending;
    if actions == [] {
      NothingOpened(st, sid);
    } else {
      var n := |actions| - 1;
      ShutOutEndsSessions(st, actions[..n], sid);
      OpenedStep(Run(st, actions[..n]), actions[..n], actions[n], sid);
      assert actions[..n] + [actions[n]] == actions;
    }
  }

  lemma NothingOpened(st: State, sid: Id)
    requires sid in st.sessions && st.sessions[sid].phase.EndingOwn?
    ensures Ending(st.sessions[sid].phase) && OnlyOpened(st, [], st.sessions[sid])
  {
  }

  /** With no sign-in meanwhile, `ok` means none is left. */
  lemma OkMeansNone(st: State, actions: seq<Action>, sid: Id)
    requires sid in st.sessions && st.sessions[sid].phase.EndingOwn?
    requires forall a | a in actions :: !a.SignIn?
    requires sid in Run(st, actions).sessions
    requires Run(st, actions).sessions[sid].phase.Over? && Run(st, actions).sessions[sid].phase.outcome.Done?
    ensures forall l | l in Run(st, actions).logins ::
              !OwnedBy(Run(st, actions).logins[l], st.sessions[sid].change.target)
              && !BorrowedBy(Run(st, actions).logins[l], st.sessions[sid].change.target)
  {
    hide Run;
    ShutOutEndsSessions(st, actions, sid);
  }

  // ---------------------------------------------------------------------------
  //  A membership that appears between the two reads.
  // ---------------------------------------------------------------------------

  const ADMIN: Id := 1
  const HOME: Id := 10
  const AWAY: Id := 11
  const SUPER: Id := 20
  const SHUT_OUT := Change(ADMIN, Some(HOME), Blocked, Blocked, None)

  /** One superadmin, a member of `HOME`, with an assignment asleep in `AWAY` for want of a membership. */
  const SOLE_ROWS :=
    Rows(map[ADMIN := Account(Active, false, 0)], map[(ADMIN, HOME) := Member(Active, None)], {HOME, AWAY}, {SUPER},
         {Assignment(ADMIN, HOME, SUPER), Assignment(ADMIN, AWAY, SUPER)})

  const SOLE_START := State(SOLE_ROWS, map[], map[])

  /** The membership elsewhere is added after it was looked for and before the transaction. */
  const SOLE_RUN: seq<Action> :=
    [Begin(0, SHUT_OUT), Advance(0, 1), Advance(0, 1), AddMember((ADMIN, AWAY), Member(Active, None)), Advance(0, 1),
     Advance(0, 1), Advance(0, 1)]

  const JOINED_ROWS :=
    SOLE_ROWS.(members := map[(ADMIN, HOME) := Member(Active, None), (ADMIN, AWAY) := Member(Active, None)])

  lemma SoleGrants()
    ensures Assignment(ADMIN, HOME, SUPER) in ActiveGrants(SOLE_ROWS)
    ensures !IsShared(SOLE_ROWS, SHUT_OUT)
    ensures Listed(JOINED_ROWS, SHUT_OUT) == {(ADMIN, HOME)}
    ensures Assignment(ADMIN, AWAY, SUPER) in ActiveGrants(JOINED_ROWS)
    ensures ActiveGrants(Transacted(JOINED_ROWS, SHUT_OUT, true, false, 1)) == {}
  {
  }

  lemma RunStep(st: State, actions: seq<Action>, k: nat)
    requires k < |actions|
    ensures Run(st, actions[..k + 1]) == Do(Run(st, actions[..k]), actions[k])
  {
    assert actions[..k + 1][..k] == actions[..k];
  }

  lemma SoleToListing()
    ensures Run(SOLE_START, SOLE_RUN[..3]) == State(SOLE_ROWS, map[0 := Begun(SHUT_OUT).(phase := Listing)], map[])
  {
    hide Run, Transacted, StripsLast;
    SoleGrants();
    assert Run(SOLE_START, SOLE_RUN[..0]) == SOLE_START by { NoRun(SOLE_START, SOLE_RUN); }
    RunStep(SOLE_START, SOLE_RUN, 0);
    RunStep(SOLE_START, SOLE_RUN, 1);
    RunStep(SOLE_START, SOLE_RUN, 2);
    var t := Begun(SHUT_OUT);
    assert Run(SOLE_START, SOLE_RUN[..1]) == State(SOLE_ROWS, map[0 := t], map[]);
    assert Run(SOLE_START, SOLE_RUN[..2]) == State(SOLE_ROWS, map[0 := t.(phase := Sharing)], map[]);
  }

  lemma NoRun(st: State, actions: seq<Action>)
    ensures Run(st, actions[..0]) == st
  {
  }

  /** The check meets a grant it has not listed, so it refuses nothing. */
  lemma UnlistedGrant(rows: Rows, c: Change, listed: set<(Id, Id)>, a: Assignment)
    requires a in ActiveGrants(rows) && (a.user, a.org) !in listed
    ensures !StripsLast(rows, c, listed)
  {
  }

  const SOLE_HELD := Session(SHUT_OUT, Holding, false, {(ADMIN, HOME)}, false, 1)

  lemma SoleToHolding()
    ensures Run(SOLE_START, SOLE_RUN[..6]) == State(JOINED_ROWS, map[0 := SOLE_HELD], map[])
    ensures Run(SOLE_START, SOLE_RUN) == Do(Run(SOLE_START, SOLE_RUN[..6]), Advance(0, 1))
  {
    hide Run, Transacted, StripsLast, ActiveGrants, IsShared, Listed;
    SoleGrants();
    SoleToListing();
    UnlistedGrant(JOINED_ROWS, SHUT_OUT, {(ADMIN, HOME)}, Assignment(ADMIN, AWAY, SUPER));
    RunStep(SOLE_START, SOLE_RUN, 3);
    RunStep(SOLE_START, SOLE_RUN, 4);
    RunStep(SOLE_START, SOLE_RUN, 5);
    RunStep(SOLE_START, SOLE_RUN, 6);
    assert SOLE_RUN[..7] == SOLE_RUN;
    var t := Begun(SHUT_OUT).(phase := Listing);
    assert Run(SOLE_START, SOLE_RUN[..4]) == State(JOINED_ROWS, map[0 := t], map[]);
    assert Run(SOLE_START, SOLE_RUN[..5]) == State(JOINED_ROWS, map[0 := SOLE_HELD.(phase := Waiting)], map[]);
  }

  /** The one superadmin is then blocked on the word of one organization, and no superadmin is left. */
  lemma StaleReadStripsLast()
    ensures Fresh(SOLE_START) && ActiveGrants(SOLE_ROWS) != {}
    ensures ActiveGrants(Run(SOLE_START, SOLE_RUN).rows) == {}
  {
    hide Run, Transacted, StripsLast, ActiveGrants, IsShared;
    SoleGrants();
    SoleToHolding();
  }

  /** In the same run the account is shared before the commit, and blocked everywhere by it. */
  lemma StaleReadBlocksShared()
    ensures IsShared(Run(SOLE_START, SOLE_RUN[..6]).rows, SHUT_OUT)
    ensures Run(SOLE_START, SOLE_RUN) == Do(Run(SOLE_START, SOLE_RUN[..6]), Advance(0, 1))
    ensures !AtMostLifted(Run(SOLE_START, SOLE_RUN[..6]).rows, Run(SOLE_START, SOLE_RUN).rows, ADMIN)
  {
    hide Run, Transacted;
    SoleToHolding();
    assert (ADMIN, AWAY) in JOINED_ROWS.members;
    BeyondLiftExactlyWhen(JOINED_ROWS, SHUT_OUT, false, false, 1);
  }
}
