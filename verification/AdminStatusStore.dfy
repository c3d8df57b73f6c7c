/** The status change as it runs against the tables, alone, with the statement that fails when one does. */
module AdminStatusStore {
  import opened Wrappers
  import opened Tenancy
  import opened AdminStatus
  import opened AdminStatusRuns

  function Rank(phase: Phase): nat {
    match phase
    case Finding => 7
    case Sharing => 6
    case Listing => 5
    case Waiting => 4
    case Holding => 3
    case EndingOwn => 2
    case EndingBorrowed => 1
    case Over(_) => 0
  }

  /** The rows, the sign-in sessions and the answer, the change run to its end with nothing beside it. */
  function Alone(rows: Rows, logins: map<Id, Login>, t: Session, now: nat, failing: Option<Phase>)
    : (Rows, map<Id, Login>, Outcome)
    decreases Rank(t.phase)
  {
    if t.phase.Over? then (rows, logins, t.phase.outcome)
    else if failing == Some(t.phase) then
      var failed := FailedPhase(t.phase);
      (rows, logins, if failed.Over? then failed.outcome else Threw)
    else Alone(RowsAfter(rows, t), LoginsAfter(logins, t), Advanced(rows, t, now), now, failing)
  }

  lemma AloneStep(rows: Rows, logins: map<Id, Login>, t: Session, now: nat, failing: Option<Phase>)
    requires !t.phase.Over? && failing != Some(t.phase)
    ensures Alone(rows, logins, t, now, failing)
         == Alone(RowsAfter(rows, t), LoginsAfter(logins, t), Advanced(rows, t, now), now, failing)
  {
  }

  lemma AloneStops(rows: Rows, logins: map<Id, Login>, t: Session, now: nat, failing: Option<Phase>)
    ensures t.phase.Over? ==> Alone(rows, logins, t, now, failing) == (rows, logins, t.phase.outcome)
    ensures !t.phase.Over? && failing == Some(t.phase) ==>
              Alone(rows, logins, t, now, failing)
              == (rows, logins, if t.phase.EndingOwn? || t.phase.EndingBorrowed? then RevokeFailed else Threw)
  {
  }

  class Store {
    var accounts: map<Id, Account>
    var members: map<(Id, Id), Member>
    var activeOrgs: set<Id>
    var superRoles: set<Id>
    var direct: set<Assignment>
    var logins: map<Id, Login>

    function Tables(): Rows
      reads this
    {
      Rows(accounts, members, activeOrgs, superRoles, direct)
    }

    /** Changes the status everywhere the actor reaches, or nothing; then ends the account's sign-in sessions. */
    method Perform(c: Change, now: nat, failing: Option<Phase>) returns (outcome: Outcome)
      modifies this
      ensures (Tables(), logins, outcome)
           == Alone(old(Tables()), old(logins), Begun(c), now, failing)
    {
      hide Alone, Transacted, StripsLast, IsShared;
      ghost var rows := Tables();
      ghost var t := Begun(c);
      AloneStops(rows, logins, t, now, failing);
      if failing == Some(Finding) {
        return Threw;
      }
      AloneStep(rows, logins, t, now, failing);
      t := Advanced(rows, t, now);
      AloneStops(rows, logins, t, now, failing);
      if c.target !in accounts {
        return Denied(NotFound);
      }
      if failing == Some(Sharing) {
        return Threw;
      }
      AloneStep(rows, logins, t, now, failing);
      t := Advanced(rows, t, now);
      var shared := IsShared(Tables(), c);
      outcome := Transact(c, shared, now, failing, t);
    }

    /** From the listing to the commit. */
    method Transact(c: Change, shared: bool, now: nat, failing: Option<Phase>, ghost s: Session)
      returns (outcome: Outcome)
      requires s == Begun(c).(phase := Listing, shared := shared)
      requires c.target in accounts
      modifies this
      ensures (Tables(), logins, outcome) == Alone(old(Tables()), old(logins), s, now, failing)
    {
      hide Alone, StripsLast, Listed, IsShared, Moved;
      ghost var rows := Tables();
      ghost var t := s;
      AloneStops(rows, logins, t, now, failing);
      if failing == Some(Listing) {
        return Threw;
      }
      AloneStep(rows, logins, t, now, failing);
      t := Advanced(rows, t, now);
      var listed: set<(Id, Id)> := {};
      if c.newMembership != Active {
        listed := Listed(Tables(), c);
      }
      AloneStops(rows, logins, t, now, failing);
      if failing == Some(Waiting) {
        return Threw;
      }
      AloneStep(rows, logins, t, now, failing);
      t := Advanced(rows, t, now);
      var strips := StripsLast(Tables(), c, listed);
      AloneStops(rows, logins, t, now, failing);
      if failing == Some(Holding) {
        return Threw;
      }
      AloneStep(rows, logins, t, now, failing);
      t := Advanced(rows, t, now);
      AloneStops(rows, logins, t, now, failing);
      var moved := Write(c, AccountWide(c, shared), strips, now);
      if moved.Some? {
        return Denied(moved.value);
      }
      if !AccountWide(c, shared) || c.newStatus == Active {
        AloneStops(Tables(), logins, t, now, failing);
        return Done(c.newStatus);
      }
      outcome := EndSessions(c, now, failing, t);
    }

    /** The transaction's writes: the claim, the refusals, the account, the memberships. */
    method Write(c: Change, accountWide: bool, strips: bool, now: nat) returns (refused: Option<Refusal>)
      requires c.target in accounts
      modifies this`accounts, this`members
      ensures refused == Refused(old(Tables()), c, strips)
      ensures Tables() == Transacted(old(Tables()), c, accountWide, strips, now)
    {
      var accounts' := accounts;
      if c.expected.Some? {
        if Milliseconds(accounts[c.target].updatedAt) != c.expected.value {
          return Some(PreconditionFailed);
        }
        accounts' := accounts'[c.target := accounts'[c.target].(updatedAt := now)];
      }
      if accounts'[c.target].status == Deactivated {
        return Some(UseRestore);
      }
      if strips {
        return Some(LastSuperadmin);
      }
      if accountWide {
        accounts' := accounts'[c.target := accounts'[c.target].(status := c.newStatus, updatedAt := now)];
      } else if c.newStatus == Active && accounts'[c.target].status == PendingApproval {
        accounts' := accounts'[c.target := accounts'[c.target].(status := Active, updatedAt := now)];
      }
      accounts := accounts';
      members := map key | key in members :: MemberMoved(c, key, members[key]);
      refused := None;
    }

    /** The account's own sign-in sessions, then those it opened as someone else. */
    method EndSessions(c: Change, now: nat, failing: Option<Phase>, ghost s: Session) returns (outcome: Outcome)
      requires s.phase.EndingOwn? && s.change == c
      modifies this`logins
      ensures (Tables(), logins, outcome) == Alone(old(Tables()), old(logins), s, now, failing)
    {
      hide Alone;
      ghost var t := s;
      AloneStops(Tables(), logins, t, now, failing);
      if failing == Some(EndingOwn) {
        return RevokeFailed;
      }
      AloneStep(Tables(), logins, t, now, failing);
      t := Advanced(Tables(), t, now);
      logins := map l | l in logins && !OwnedBy(logins[l], c.target) :: logins[l];
      AloneStops(Tables(), logins, t, now, failing);
      if failing == Some(EndingBorrowed) {
        return RevokeFailed;
      }
      AloneStep(Tables(), logins, t, now, failing);
      t := Advanced(Tables(), t, now);
      logins := map l | l in logins && !BorrowedBy(logins[l], c.target) :: logins[l];
      AloneStops(Tables(), logins, t, now, failing);
      outcome := Done(c.newStatus);
    }
  }

  /** For a grant nothing is listed, and nothing asked of the list. */
  lemma NothingListed(rows: Rows, c: Change)
    ensures c.newMembership == Active ==> forall listed :: !StripsLast(rows, c, listed)
  {
  }

  /** The outcomes of the change run alone, and that every refusal before the commit leaves all as it was. */
  lemma AnswersExactly(rows: Rows, logins: map<Id, Login>, c: Change, now: nat)
    ensures var r := Alone(rows, logins, Begun(c), now, None);
            && (r.2 == Denied(NotFound) <==> c.target !in rows.accounts)
            && (r.2 == Denied(PreconditionFailed) <==> c.target in rows.accounts && !Claims(rows, c))
            && (r.2 == Denied(UseRestore) <==>
                  c.target in rows.accounts && Claims(rows, c) && rows.accounts[c.target].status == Deactivated)
            && (r.2 == Denied(LastSuperadmin) <==>
                  && c.target in rows.accounts && Claims(rows, c) && rows.accounts[c.target].status != Deactivated
                  && StripsLast(rows, c, Listed(rows, c)))
            && (r.2.Denied? ==> r.0 == rows && r.1 == logins)
            && (!r.2.Denied? ==> r.2 == Done(c.newStatus)
                                 && r.0 == Moved(rows, c, AccountWide(c, IsShared(rows, c)), now))
            && (!r.2.Denied? && (c.newStatus == Active || !AccountWide(c, IsShared(rows, c))) ==> r.1 == logins)
            && (!r.2.Denied? && c.newStatus != Active && AccountWide(c, IsShared(rows, c)) ==>
                  forall l :: l in r.1 <==>
                    l in logins && !OwnedBy(logins[l], c.target) && !BorrowedBy(logins[l], c.target))
  {
    hide Alone, StripsLast, Listed, IsShared, Moved, Claims;
    var t0 := Begun(c);
    AloneStep(rows, logins, t0, now, None);
    var t1 := Advanced(rows, t0, now);
    AloneStops(rows, logins, t1, now, None);
    if c.target in rows.accounts {
      AloneStep(rows, logins, t1, now, None);
      var t2 := Advanced(rows, t1, now);
      AloneStep(rows, logins, t2, now, None);
      var t3 := Advanced(rows, t2, now);
      NothingListed(rows, c);
      AloneStep(rows, logins, t3, now, None);
      var held := Advanced(rows, t3, now);
      AloneStep(rows, logins, held, now, None);
      var t4, after := Advanced(rows, held, now), RowsAfter(rows, held);
      AloneStops(after, logins, t4, now, None);
      if t4.phase.EndingOwn? {
        AloneStep(after, logins, t4, now, None);
        var t5, l5 := Advanced(after, t4, now), LoginsAfter(logins, t4);
        AloneStep(after, l5, t5, now, None);
        AloneStops(after, LoginsAfter(l5, t5), Advanced(after, t5, now), now, None);
      }
    }
  }
}
