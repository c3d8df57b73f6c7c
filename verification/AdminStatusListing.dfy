/** The last-superadmin check is two statements: what a membership added between them does to it, and when it can. */
module AdminStatusListing {
  import opened Wrappers
  import opened Tenancy
  import opened AdminStatus
  import opened AdminStatusRuns

  // ---------------------------------------------------------------------------
  //  When memberships added after the listing can defeat the check.
  // ---------------------------------------------------------------------------

  predicate MembersOnly(actions: seq<Action>) { forall a | a in actions :: a.AddMember? }

  /** Memberships have been added, and nothing else has changed. */
  predicate Grown(rows: Rows, after: Rows) {
    && after == rows.(members := after.members)
    && forall key | key in rows.members :: key in after.members && after.members[key] == rows.members[key]
  }

  lemma {:induction false} RunGrows(st: State, rest: seq<Action>)
    requires MembersOnly(rest)
    ensures Run(st, rest).sessions == st.sessions && Grown(st.rows, Run(st, rest).rows)
  {
    if rest != [] {
      var n := |rest| - 1;
      assert forall a | a in rest[..n] :: a in rest;
      assert rest[n] in rest;
      RunGrows(st, rest[..n]);
    }
  }

  /** What counted still does, and what counts anew does so in a new membership. */
  lemma GrownCounts(rows: Rows, after: Rows, a: Assignment)
    requires Grown(rows, after)
    ensures a in ActiveGrants(rows) ==> a in ActiveGrants(after)
    ensures a in ActiveGrants(after) ==> a in ActiveGrants(rows) || (a.user, a.org) !in rows.members
  {
  }

  /** Once the memberships are added, the session reads the grants and commits. */
  ghost predicate LeavesSome(st: State, rest: seq<Action>, sid: Id, locked: nat, committed: nat) {
    ActiveGrants(Do(Do(Run(st, rest), Advance(sid, locked)), Advance(sid, committed)).rows) != {}
  }

  lemma ReadsAndCommits(st: State, sid: Id, locked: nat, committed: nat)
    requires sid in st.sessions && st.sessions[sid].phase.Waiting? && LockFree(st)
    ensures var t := st.sessions[sid];
            Do(Do(st, Advance(sid, locked)), Advance(sid, committed)).rows
            == Transacted(st.rows, t.change, Wide(t), StripsLast(st.rows, t.change, t.listed), t.startedAt)
  {
    hide Transacted, StripsLast, Refused;
  }

  /** A superuser assignment the change would end and has not listed: it counts, or lacks nothing but a membership. */
  predicate Unmeasured(rows: Rows, t: Session, a: Assignment) {
    && a in rows.direct && a.role in rows.superRoles && a.org in rows.activeOrgs
    && Ends(t.change, Wide(t), a) && (a.user, a.org) !in t.listed
    && ((a.user, a.org) in rows.members ==> Counts(rows, a))
  }

  /** The version is the expected one, the change ends every counting grant, and one more assignment is unmeasured. */
  predicate Exposed(rows: Rows, t: Session) {
    && Claims(rows, t.change)
    && (forall a | a in ActiveGrants(rows) :: Ends(t.change, Wide(t), a))
    && exists a | a in rows.direct :: Unmeasured(rows, t, a)
  }

  lemma ExposedByLeavingNone(rows: Rows, after: Rows, t: Session)
    requires Grown(rows, after) && ActiveGrants(rows) != {} && t.change.Matched()
    requires var strips := StripsLast(after, t.change, t.listed);
             ActiveGrants(Transacted(after, t.change, Wide(t), strips, t.startedAt)) == {}
    ensures Exposed(rows, t)
  {
    hide ActiveGrants, Transacted, Counts, Ends;
    var c, strips := t.change, StripsLast(after, t.change, t.listed);
    forall a ensures a in ActiveGrants(rows) ==> a in ActiveGrants(after) {
      GrownCounts(rows, after, a);
    }
    var g :| g in ActiveGrants(rows);
    assert g in ActiveGrants(after);
    if Refused(after, c, strips).Some? {
      RefusedUnchanged(after, c, Wide(t), strips, t.startedAt);
      assert false;
    }
    LeavesNoneExactlyWhen(after, c, Wide(t), strips, t.startedAt);
    EndedIsAway(c, Wide(t), g);
    var a :| a in ActiveGrants(after) && (a.user, a.org) !in t.listed;
    MemberlessOrCounting(rows, after, t, a);
  }

  lemma EndedIsAway(c: Change, accountWide: bool, a: Assignment)
    requires c.Matched() && Ends(c, accountWide, a)
    ensures c.newMembership != Active
  {
  }

  lemma MemberlessOrCounting(rows: Rows, after: Rows, t: Session, a: Assignment)
    requires Grown(rows, after) && a in ActiveGrants(after)
    requires Ends(t.change, Wide(t), a) && (a.user, a.org) !in t.listed
    ensures a in rows.direct && Unmeasured(rows, t, a)
  {
    hide Ends;
    GrownCounts(rows, after, a);
  }

  /** The membership the unmeasured assignment lacks is added; if it lacks none, nothing is. */
  lemma {:induction false} Waking(st: State, t: Session, a: Assignment) returns (rest: seq<Action>)
    requires ActiveGrants(st.rows) != {} && Exposed(st.rows, t) && Unmeasured(st.rows, t, a)
    ensures MembersOnly(rest)
    ensures a in ActiveGrants(Run(st, rest).rows)
    ensures forall g | g in ActiveGrants(Run(st, rest).rows) :: Ends(t.change, Wide(t), g)
  {
    var g :| g in ActiveGrants(st.rows);
    var key := (a.user, a.org);
    if key in st.rows.members {
      rest := [];
    } else {
      rest := [AddMember(key, Member(Active, None))];
      assert rest[..0] == [] && rest[0] == AddMember(key, Member(Active, None));
    }
  }

  lemma NotRefused(rows: Rows, t: Session, a: Assignment)
    requires Claims(rows, t.change) && a in ActiveGrants(rows)
    requires Ends(t.change, Wide(t), a) && (a.user, a.org) !in t.listed
    ensures Refused(rows, t.change, StripsLast(rows, t.change, t.listed)).None?
  {
  }

  /**
    * Its memberships listed and its grants yet to be read, a change is sure to leave a superuser grant, whatever
    * memberships are added before the read, exactly when it is not exposed: the added membership is not in its list.
    */
  lemma {:induction false} SafeExactlyWhen(st: State, sid: Id, locked: nat, committed: nat)
    requires sid in st.sessions && st.sessions[sid].phase.Waiting? && LockFree(st)
    requires st.sessions[sid].change.Matched() && ActiveGrants(st.rows) != {}
    ensures (forall rest | MembersOnly(rest) :: LeavesSome(st, rest, sid, locked, committed))
       <==> !Exposed(st.rows, st.sessions[sid])
  {
    hide Run, Do, ActiveGrants, Transacted, StripsLast, Exposed, Unmeasured, Claims, Ends, Refused, Grown;
    var t := st.sessions[sid];
    if Exposed(st.rows, t) {
      var a := TheUnmeasured(st.rows, t);
      var rest := Waking(st, t, a);
      var rows := Run(st, rest).rows;
      RunGrows(st, rest);
      ReadsAndCommits(Run(st, rest), sid, locked, committed);
      UnmeasuredIs(st.rows, rows, t, a);
      NotRefused(rows, t, a);
      LeavesNoneExactlyWhen(rows, t.change, Wide(t), StripsLast(rows, t.change, t.listed), t.startedAt);
      assert !LeavesSome(st, rest, sid, locked, committed);
    } else {
      forall rest | MembersOnly(rest) ensures LeavesSome(st, rest, sid, locked, committed) {
        RunGrows(st, rest);
        ReadsAndCommits(Run(st, rest), sid, locked, committed);
        if !LeavesSome(st, rest, sid, locked, committed) {
          ExposedByLeavingNone(st.rows, Run(st, rest).rows, t);
        }
      }
    }
  }

  lemma TheUnmeasured(rows: Rows, t: Session) returns (a: Assignment)
    requires Exposed(rows, t)
    ensures Unmeasured(rows, t, a)
  {
    hide Unmeasured;
    a :| a in rows.direct && Unmeasured(rows, t, a);
  }

  lemma UnmeasuredIs(rows: Rows, after: Rows, t: Session, a: Assignment)
    requires Exposed(rows, t) && Unmeasured(rows, t, a) && Grown(rows, after)
    ensures Claims(after, t.change) && Ends(t.change, Wide(t), a) && (a.user, a.org) !in t.listed
  {
  }

  // ---------------------------------------------------------------------------
  //  The last superadmin blocks themselves.
  // ---------------------------------------------------------------------------

  const SELF := Change(ADMIN, None, Blocked, Blocked, None)

  /** The membership is added after the listing and before the grants are read. */
  const LATE_RUN: seq<Action> :=
    [Begin(0, SELF), Advance(0, 1), Advance(0, 1), Advance(0, 1), AddMember((ADMIN, AWAY), Member(Active, None)),
     Advance(0, 1), Advance(0, 1)]

  const SELF_LISTED := Session(SELF, Waiting, false, {(ADMIN, HOME)}, false, 1)

  lemma SelfGrants()
    ensures Assignment(ADMIN, HOME, SUPER) in ActiveGrants(SOLE_ROWS)
    ensures Listed(SOLE_ROWS, SELF) == {(ADMIN, HOME)}
    ensures StripsLast(SOLE_ROWS, SELF, Listed(SOLE_ROWS, SELF))
    ensures StripsLast(JOINED_ROWS, SELF, Listed(JOINED_ROWS, SELF))
    ensures Assignment(ADMIN, AWAY, SUPER) in ActiveGrants(JOINED_ROWS)
    ensures ActiveGrants(Transacted(JOINED_ROWS, SELF, true, false, 1)) == {}
  {
  }

  lemma LateToWaiting()
    ensures Run(SOLE_START, LATE_RUN[..4]) == State(SOLE_ROWS, map[0 := SELF_LISTED], map[])
  {
    hide Run, Transacted, StripsLast, Listed;
    SelfGrants();
    assert Run(SOLE_START, LATE_RUN[..0]) == SOLE_START by { NoRun(SOLE_START, LATE_RUN); }
    RunStep(SOLE_START, LATE_RUN, 0);
    RunStep(SOLE_START, LATE_RUN, 1);
    RunStep(SOLE_START, LATE_RUN, 2);
    RunStep(SOLE_START, LATE_RUN, 3);
    var t := Begun(SELF);
    assert Run(SOLE_START, LATE_RUN[..1]) == State(SOLE_ROWS, map[0 := t], map[]);
    assert Run(SOLE_START, LATE_RUN[..2]) == State(SOLE_ROWS, map[0 := t.(phase := Sharing)], map[]);
    assert Run(SOLE_START, LATE_RUN[..3]) == State(SOLE_ROWS, map[0 := t.(phase := Listing)], map[]);
  }

  /**
    * A check with both its reads before the addition, or both after it, refuses; with the addition between them the
    * last superadmin blocks themselves, and none is left.
    */
  lemma LateMemberStripsLast()
    ensures Fresh(SOLE_START) && ActiveGrants(SOLE_ROWS) != {}
    ensures StripsLast(SOLE_ROWS, SELF, Listed(SOLE_ROWS, SELF))
    ensures StripsLast(JOINED_ROWS, SELF, Listed(JOINED_ROWS, SELF))
    ensures ActiveGrants(Run(SOLE_START, LATE_RUN).rows) == {}
  {
    hide Run, Transacted, StripsLast, ActiveGrants, IsShared, Listed;
    SelfGrants();
    LateToWaiting();
    UnlistedGrant(JOINED_ROWS, SELF, {(ADMIN, HOME)}, Assignment(ADMIN, AWAY, SUPER));
    RunStep(SOLE_START, LATE_RUN, 4);
    RunStep(SOLE_START, LATE_RUN, 5);
    RunStep(SOLE_START, LATE_RUN, 6);
    assert LATE_RUN[..7] == LATE_RUN;
    assert Run(SOLE_START, LATE_RUN[..5]) == State(JOINED_ROWS, map[0 := SELF_LISTED], map[]);
    assert Run(SOLE_START, LATE_RUN[..6]) == State(JOINED_ROWS, map[0 := SELF_LISTED.(phase := Holding)], map[]);
  }
}
