/** The invitation calls as they run against the tables, each alone, with the statement that fails when one does. */
module InvitationStore {
  import opened Wrappers
  import opened Tenancy
  import opened Invitations
  import opened InvitationRuns

  function Start(id: Id, row: Invitation, user: Id, account: Account): Session {
    Session(id, row, user, account, Checking, false, None, false, None, NO_WRITES)
  }

  function Rank(phase: Phase): nat {
    match phase
    case Checking => 12
    case Standing => 11
    case Voiding => 10
    case Conferring => 10
    case Locking => 9
    case Flipping => 8
    case Finding => 7
    case Inserting => 6
    case Activating => 5
    case Lifting => 4
    case Granting => 3
    case Committing => 2
    case Done(_) => 0
  }

  /** The statement fails; the checks before the first one cannot. */
  predicate Fails(phase: Phase, failing: Option<Phase>) { !phase.Checking? && failing == Some(phase) }

  /** The session run to its end with nothing beside it. */
  function Alone(rows: Rows, t: Session, failing: Option<Phase>): (Rows, Outcome)
    decreases Rank(t.phase)
  {
    if t.phase.Done? then (rows, t.phase.outcome)
    else if Fails(t.phase, failing) then (rows, Failed)
    else Alone(RowsAfter(rows, t), Advanced(rows, t), failing)
  }

  lemma AloneStep(rows: Rows, t: Session, failing: Option<Phase>)
    requires t.Open() && !Fails(t.phase, failing)
    ensures Alone(rows, t, failing) == Alone(RowsAfter(rows, t), Advanced(rows, t), failing)
  {
  }

  /** Run alone it is one of the runs: the same statements, none waiting, ending the same. */
  lemma {:induction false} AloneIsRun(rows: Rows, sid: Id, t: Session, failing: Option<Phase>)
    returns (actions: seq<Action>)
    requires InTurn(t)
    ensures forall a | a in actions :: a == Advance(sid) || a == Fail(sid)
    ensures var r := Run(State(rows, map[sid := t]), actions);
            sid in r.sessions && r.sessions[sid].phase.Done?
            && (r.rows, r.sessions[sid].phase.outcome) == Alone(rows, t, failing)
    decreases Rank(t.phase)
  {
    hide RowsAfter, Advanced, HasStanding;
    var st := State(rows, map[sid := t]);
    if t.phase.Done? {
      actions := [];
    } else if Fails(t.phase, failing) {
      actions := [Fail(sid)];
      assert actions[..0] == [];
    } else {
      RankFalls(rows, t);
      var rest := AloneIsRun(RowsAfter(rows, t), sid, Advanced(rows, t), failing);
      actions := [Advance(sid)] + rest;
      AloneNeverWaits(rows, sid, t);
      RunHead(st, Advance(sid), rest);
    }
  }

  lemma RankFalls(rows: Rows, t: Session)
    requires t.Open() && InTurn(t)
    ensures Rank(Advanced(rows, t).phase) < Rank(t.phase)
    ensures InTurn(Advanced(rows, t))
  {
  }

  /** Writes are made in their turn, so no statement waits for the session's own lock. */
  predicate InTurn(t: Session) {
    && (t.Open() && t.writes.flipped ==> InTransaction(t))
    && (t.Open() && t.writes.joined ==>
          t.phase.Lifting? || t.phase.Granting? || t.phase.Committing? || (t.phase.Activating? && t.found == None))
  }

  lemma AloneNeverWaits(rows: Rows, sid: Id, t: Session)
    requires t.Open() && InTurn(t)
    ensures Do(State(rows, map[sid := t]), Advance(sid)) == State(RowsAfter(rows, t), map[sid := Advanced(rows, t)])
  {
  }

  lemma {:induction false} RunHead(st: State, a: Action, rest: seq<Action>)
    ensures Run(st, [a] + rest) == Run(Do(st, a), rest)
    decreases rest
  {
    hide Do;
    if rest == [] {
      assert ([a] + rest)[..0] == [] && [a] + rest == [a];
    } else {
      var n := |rest|;
      assert ([a] + rest)[..n] == [a] + rest[..n - 1];
      RunHead(st, a, rest[..n - 1]);
    }
  }

  class Store {
    var invitations: map<Id, Invitation>
    var accounts: map<Id, Account>
    var members: map<(Id, Id), Status>
    var activeOrgs: set<Id>
    var roles: map<Id, Role>
    var direct: set<Assignment>
    var viaGroup: set<Assignment>

    function Tables(): Rows
      reads this
    {
      Rows(invitations, accounts, members, activeOrgs, roles, direct, viaGroup)
    }

    /** The live invitation of a token, or none when there is no such. */
    method FindValid(token: Id, now: int) returns (found: Option<Id>)
      ensures found.Some? ==> Live(Tables(), found.value, token, now)
      ensures found.None? ==> forall id :: !Live(Tables(), id, token, now)
      ensures found.Some? ==>
                && found.value in invitations
                && var row := invitations[found.value];
                row.token == token && row.state == Pending && now < row.expires && row.org in activeOrgs
      ensures found.None? ==>
                forall id | id in invitations ::
                  || invitations[id].token != token || invitations[id].state != Pending
                  || now >= invitations[id].expires || invitations[id].org !in activeOrgs
    {
      var live := set id | id in invitations && Live(Tables(), id, token, now);
      if live == {} {
        found := None;
        forall id ensures !Live(Tables(), id, token, now) {
          assert Live(Tables(), id, token, now) ==> id in live;
        }
        forall id | id in invitations
          ensures || invitations[id].token != token || invitations[id].state != Pending
                  || now >= invitations[id].expires || invitations[id].org !in activeOrgs
        {
          assert !Live(Tables(), id, token, now);
        }
      } else {
        var id :| id in live;
        found := Some(id);
      }
    }

    method Create(id: Id, org: Id, email: string, role: Option<Id>, inviter: Option<Id>, token: Id, expires: int)
      returns (created: bool)
      modifies this
      ensures Tables() == Created(old(Tables()), id, org, email, role, inviter, token, expires)
      ensures created <==> old(id !in invitations && !PendingFor(Tables(), org, email))
      ensures created <==>
                && id !in old(invitations)
                && forall other | other in old(invitations) && old(invitations)[other].state == Pending ::
                     old(invitations)[other].org != org || old(invitations)[other].email != email
      ensures invitations ==
              if created then old(invitations)[id := Invitation(org, email, role, inviter, Pending, token, expires)]
              else old(invitations)
    {
      created := id !in invitations && !PendingFor(Tables(), org, email);
      if created {
        invitations := invitations[id := Invitation(org, email, role, inviter, Pending, token, expires)];
      }
    }

    method RevokePending(id: Id, org: Id, admin: string) returns (revoked: bool)
      modifies this
      ensures Tables() == RevokedBy(old(Tables()), id, org, admin)
      ensures revoked <==> old(IsPending(Tables(), id) && invitations[id].org == org)
      ensures revoked <==>
                && id in old(invitations) && old(invitations)[id].state == Pending && old(invitations)[id].org == org
      ensures invitations ==
              if revoked then old(invitations)[id := old(invitations)[id].(state := Revoked(Some(admin)))]
              else old(invitations)
    {
      revoked := IsPending(Tables(), id) && invitations[id].org == org;
      if revoked {
        invitations := invitations[id := invitations[id].(state := Revoked(Some(admin)))];
      }
    }

    method Resend(id: Id, org: Id, token: Id, expires: int) returns (moved: bool)
      modifies this
      ensures Tables() == Resent(old(Tables()), id, org, token, expires)
      ensures moved <==> old(IsPending(Tables(), id) && invitations[id].org == org)
      ensures moved <==>
                && id in old(invitations) && old(invitations)[id].state == Pending && old(invitations)[id].org == org
      ensures invitations ==
              if moved then old(invitations)[id := old(invitations)[id].(token := token, expires := expires)]
              else old(invitations)
    {
      moved := IsPending(Tables(), id) && invitations[id].org == org;
      if moved {
        invitations := invitations[id := invitations[id].(token := token, expires := expires)];
      }
    }

    /** Refuses, and voids, the invitation of an inviter without standing. */
    method EnforceStanding(id: Id, row: Invitation, failing: Option<Phase>) returns (stands: Option<bool>)
      modifies this
      ensures stands.None?
         <==> failing == Some(Standing) || (!old(HasStanding(Tables(), row)) && failing == Some(Voiding))
      ensures stands.Some? ==> stands.value == old(HasStanding(Tables(), row))
      ensures Tables() == if stands == Some(false) then Voided(old(Tables()), id) else old(Tables())
    {
      if failing == Some(Standing) {
        return None;
      }
      if HasStanding(Tables(), row) {
        return Some(true);
      }
      if failing == Some(Voiding) {
        return None;
      }
      if IsPending(Tables(), id) {
        invitations := invitations[id := invitations[id].(state := Revoked(None))];
      }
      stands := Some(false);
    }

    /** Consumes the invitation for the account, everything it writes at once or nothing. */
    method Consume(id: Id, row: Invitation, user: Id, account: Account, failing: Option<Phase>)
      returns (outcome: Outcome)
      modifies this
      ensures (Tables(), outcome) == Alone(old(Tables()), Start(id, row, user, account), failing)
    {
      hide Alone, HasStanding, MayConfer;
      ghost var rows := Tables();
      ghost var t := Start(id, row, user, account);
      AloneStep(rows, t, failing);
      if account.email != row.email {
        AloneEnds(rows, Advanced(rows, t), failing);
        return Refused(EmailMismatch);
      }
      if account.status != Active && account.status != PendingApproval {
        AloneEnds(rows, Advanced(rows, t), failing);
        return Refused(UserNotEligible);
      }
      t := Advanced(rows, t);
      var stands := EnforceStanding(id, row, failing);
      StandingAlone(rows, t, failing);
      if stands.None? {
        return Failed;
      }
      if !stands.value {
        return Refused(InviterLacksStanding);
      }
      t := Advanced(rows, t);
      if failing == Some(Conferring) {
        AloneFails(rows, t, failing);
        return Failed;
      }
      AloneStep(rows, t, failing);
      var mayConfer := row.role.Some? && MayConfer(Tables(), row, row.role.value);
      t := Advanced(rows, t);
      outcome := Accept(id, row, user, mayConfer, failing, t);
    }

    /** The transaction. Its writes are the locals primed, put in place at the commit. */
    method Accept(id: Id, row: Invitation, user: Id, mayConfer: bool, failing: Option<Phase>, ghost s: Session)
      returns (outcome: Outcome)
      requires s == Session(id, row, user, s.account, Locking, mayConfer, None, false, None, NO_WRITES)
      modifies this
      ensures (Tables(), outcome) == Alone(old(Tables()), s, failing)
    {
      hide Alone, HasStanding, MayConfer;
      ghost var rows := Tables();
      ghost var t := s;
      if failing == Some(Locking) {
        AloneFails(rows, t, failing);
        return Failed;
      }
      AloneStep(rows, t, failing);
      t := Advanced(rows, t);
      var role := FoundRole(Tables(), row);
      if failing == Some(Flipping) {
        AloneFails(rows, t, failing);
        return Failed;
      }
      AloneStep(rows, t, failing);
      t := Advanced(rows, t);
      if !IsPending(Tables(), id) || invitations[id].org !in activeOrgs {
        AloneEnds(rows, t, failing);
        return Refused(AlreadyConsumed);
      }
      var invitations' := invitations[id := invitations[id].(state := Accepted(user))];
      var joined := Join(row, user, failing, t);
      JoinAlone(rows, t, failing);
      if joined.None? {
        return Failed;
      }
      var members' := joined.value;
      outcome := Settle(row, user, role, mayConfer, invitations', members', failing, Joined(rows, t));
    }

    /** The rest of the transaction: the account, the role, and the commit that puts everything in place. */
    method Settle(row: Invitation, user: Id, role: Option<Id>, mayConfer: bool, invitations': map<Id, Invitation>,
                  members': map<(Id, Id), Status>, failing: Option<Phase>, ghost s: Session)
      returns (outcome: Outcome)
      requires s.phase.Lifting? && s.row == row && s.user == user && s.role == role && s.mayConfer == mayConfer
      requires s.writes == Writes(true, s.writes.joined, false, false)
      requires invitations' == Committed(Tables(), s).invitations && members' == Committed(Tables(), s).members
      modifies this
      ensures (Tables(), outcome) == Alone(old(Tables()), s, failing)
    {
      hide Alone, Decided;
      ghost var rows := Tables();
      SettleAlone(rows, s, failing);
      if failing == Some(Lifting) {
        return Failed;
      }
      var accounts' := accounts;
      if AccountPending(Tables(), user) {
        accounts' := accounts[user := accounts[user].(status := Active)];
      }
      if failing == Some(Granting) {
        return Failed;
      }
      var direct', roleGranted := direct, false;
      if row.role.Some? && Get(members', (user, row.org)) != Some(Active) {
        // The membership stays blocked or suspended: the role is withheld.
      } else if role.Some? && mayConfer {
        direct', roleGranted := direct + {Assignment(user, row.org, role.value)}, true;
      }
      if failing == Some(Committing) {
        return Failed;
      }
      invitations, members, accounts, direct := invitations', members', accounts', direct';
      outcome := Consumed(roleGranted);
    }

    /** The memberships with the user's in the organization made, or made active; none when a statement fails. */
    method Join(row: Invitation, user: Id, failing: Option<Phase>, ghost t: Session)
      returns (joined: Option<map<(Id, Id), Status>>)
      requires t.phase.Finding? && t.row == row && t.user == user && !t.writes.joined
      ensures joined.None? <==> JoinFails(Tables(), t, failing)
      ensures joined.Some? ==>
                joined.value ==
                if Joined(Tables(), t).writes.joined then members[(user, row.org) := Active] else members
    {
      if failing == Some(Finding) {
        return None;
      }
      var members' := members;
      var found := Get(members, (user, row.org));
      if found.None? {
        if failing == Some(Inserting) {
          return None;
        }
        members' := members[(user, row.org) := Active];
      }
      if failing == Some(Activating) {
        return None;
      }
      if found == Some(PendingApproval) && Get(members', (user, row.org)) == Some(PendingApproval) {
        members' := members'[(user, row.org) := Active];
      }
      joined := Some(members');
    }
  }

  /** The session once it has found, and made or activated, the membership. */
  function Joined(rows: Rows, t: Session): Session
    requires t.phase.Finding?
  {
    var found := Advanced(rows, t);
    Advanced(rows, if found.phase.Inserting? then Advanced(rows, found) else found)
  }

  predicate JoinFails(rows: Rows, t: Session, failing: Option<Phase>) {
    failing == Some(Finding) || failing == Some(Activating)
    || (failing == Some(Inserting) && Get(rows.members, t.Key()) == None)
  }

  /** The session ready to commit. */
  function Decided(rows: Rows, t: Session): Session { Advanced(rows, Advanced(rows, t)) }

  lemma SettleAlone(rows: Rows, t: Session, failing: Option<Phase>)
    requires t.phase.Lifting? && !t.writes.granted
    ensures failing == Some(Lifting) || failing == Some(Granting) || failing == Some(Committing) ==>
              Alone(rows, t, failing) == (rows, Failed)
    ensures failing != Some(Lifting) && failing != Some(Granting) && failing != Some(Committing) ==>
              Alone(rows, t, failing) == (Committed(rows, Decided(rows, t)), Consumed(Decided(rows, t).writes.granted))
    ensures var eligible := t.row.role.None? || Seen(rows, t) == Some(Active);
            Decided(rows, t) == t.(phase := Committing,
                                   writes := Writes(t.writes.flipped, t.writes.joined, AccountPending(rows, t.user),
                                                    eligible && t.role.Some? && t.mayConfer))
  {
    hide Alone, Committed;
    var u := Advanced(rows, t);
    var v := Advanced(rows, u);
    if failing == Some(Lifting) {
      AloneFails(rows, t, failing);
    } else {
      AloneStep(rows, t, failing);
      if failing == Some(Granting) {
        AloneFails(rows, u, failing);
      } else {
        AloneStep(rows, u, failing);
        if failing == Some(Committing) {
          AloneFails(rows, v, failing);
        } else {
          AloneStep(rows, v, failing);
          AloneEnds(Committed(rows, v), Advanced(rows, v), failing);
        }
      }
    }
  }

  lemma JoinAlone(rows: Rows, t: Session, failing: Option<Phase>)
    requires t.phase.Finding?
    ensures JoinFails(rows, t, failing) ==> Alone(rows, t, failing) == (rows, Failed)
    ensures !JoinFails(rows, t, failing) ==> Alone(rows, t, failing) == Alone(rows, Joined(rows, t), failing)
  {
    hide Alone;
    if failing == Some(Finding) {
      AloneFails(rows, t, failing);
    } else {
      AloneStep(rows, t, failing);
      var u := Advanced(rows, t);
      if u.phase.Inserting? {
        if failing == Some(Inserting) {
          AloneFails(rows, u, failing);
        } else {
          AloneStep(rows, u, failing);
          ActivatingAlone(rows, Advanced(rows, u), failing);
        }
      } else {
        ActivatingAlone(rows, u, failing);
      }
    }
  }

  lemma ActivatingAlone(rows: Rows, t: Session, failing: Option<Phase>)
    requires t.phase.Activating?
    ensures failing == Some(Activating) ==> Alone(rows, t, failing) == (rows, Failed)
    ensures failing != Some(Activating) ==> Alone(rows, t, failing) == Alone(rows, Advanced(rows, t), failing)
  {
  }

  lemma StandingAlone(rows: Rows, t: Session, failing: Option<Phase>)
    requires t.phase.Standing?
    ensures failing == Some(Standing) || (!HasStanding(rows, t.row) && failing == Some(Voiding)) ==>
              Alone(rows, t, failing) == (rows, Failed)
    ensures failing != Some(Standing) && HasStanding(rows, t.row) ==>
              Alone(rows, t, failing) == Alone(rows, Advanced(rows, t), failing)
    ensures failing != Some(Standing) && failing != Some(Voiding) && !HasStanding(rows, t.row) ==>
              Alone(rows, t, failing) == (Voided(rows, t.invitation), Refused(InviterLacksStanding))
  {
    hide HasStanding, Alone;
    var u := Advanced(rows, t);
    if failing == Some(Standing) {
      AloneFails(rows, t, failing);
    } else {
      AloneStep(rows, t, failing);
      if u.phase.Voiding? {
        if failing == Some(Voiding) {
          AloneFails(rows, u, failing);
        } else {
          AloneStep(rows, u, failing);
          AloneEnds(Voided(rows, u.invitation), Advanced(rows, u), failing);
        }
      }
    }
  }

  lemma AloneEnds(rows: Rows, t: Session, failing: Option<Phase>)
    requires t.phase.Done?
    ensures Alone(rows, t, failing) == (rows, t.phase.outcome)
  {
  }

  lemma AloneFails(rows: Rows, t: Session, failing: Option<Phase>)
    requires t.Open() && Fails(t.phase, failing)
    ensures Alone(rows, t, failing) == (rows, Failed)
  {
  }

  predicate Admissible(rows: Rows, id: Id, row: Invitation, account: Account) {
    && account.email == row.email && (account.status == Active || account.status == PendingApproval)
    && HasStanding(rows, row)
    && IsPending(rows, id) && rows.invitations[id].org in rows.activeOrgs
  }

  /**
    * The role reaches whoever is, or becomes, an active member, when it is the organization's and the inviter may
    * confer it.
    */
  predicate RoleReaches(rows: Rows, row: Invitation, user: Id) {
    && FoundRole(rows, row).Some? && MayConfer(rows, row, row.role.value)
    && (Joinable(Get(rows.members, (user, row.org))) || Get(rows.members, (user, row.org)) == Some(Active))
  }

  lemma FlippedAlone(rows: Rows, t: Session)
    requires t.phase.Conferring? && t.writes == NO_WRITES && t.role == None
    ensures !(IsPending(rows, t.invitation) && rows.invitations[t.invitation].org in rows.activeOrgs) ==>
              Alone(rows, t, None) == (rows, Refused(AlreadyConsumed))
    ensures IsPending(rows, t.invitation) && rows.invitations[t.invitation].org in rows.activeOrgs ==>
              exists u: Session ::
                && u.phase.Finding? && u.invitation == t.invitation && u.row == t.row && u.user == t.user
                && u.role == FoundRole(rows, t.row) && u.writes == NO_WRITES.(flipped := true)
                && u.mayConfer == (t.row.role.Some? && MayConfer(rows, t.row, t.row.role.value))
                && Alone(rows, t, None) == Alone(rows, u, None)
  {
    hide Alone, HasStanding, MayConfer, FoundRole;
    var t1 := Advanced(rows, t);
    var t2 := Advanced(rows, t1);
    var t3 := Advanced(rows, t2);
    AloneStep(rows, t, None);
    AloneStep(rows, t1, None);
    AloneStep(rows, t2, None);
    if t3.phase.Done? {
      AloneEnds(rows, t3, None);
    }
  }

  lemma JoinedFacts(rows: Rows, t: Session)
    requires t.phase.Finding? && t.writes == NO_WRITES.(flipped := true)
    ensures var u := Joined(rows, t);
            && u.phase.Lifting? && u.invitation == t.invitation
            && u.row == t.row && u.user == t.user && u.role == t.role
            && u.mayConfer == t.mayConfer
            && u.writes == NO_WRITES.(flipped := true, joined := Joinable(Get(rows.members, t.Key())))
  {
  }

  /**
    * Run alone without a failure, it consumes exactly when everything the invitation rests on holds, and grants
    * exactly when its role reaches.
    */
  lemma ConsumesExactlyWhen(rows: Rows, id: Id, row: Invitation, user: Id, account: Account)
    ensures Alone(rows, Start(id, row, user, account), None).1
         == if account.email != row.email then Refused(EmailMismatch)
            else if account.status != Active && account.status != PendingApproval then Refused(UserNotEligible)
            else if !HasStanding(rows, row) then Refused(InviterLacksStanding)
            else if !Admissible(rows, id, row, account) then Refused(AlreadyConsumed)
            else Consumed(RoleReaches(rows, row, user))
    ensures Admissible(rows, id, row, account) ==>
              var after := Alone(rows, Start(id, row, user, account), None).0;
              && after.invitations == rows.invitations[id := rows.invitations[id].(state := Accepted(user))]
              && Get(after.members, (user, row.org))
                 == (if Joinable(Get(rows.members, (user, row.org))) then Some(Active)
                     else Get(rows.members, (user, row.org)))
              && AccountStatus(after, user)
                 == (if AccountPending(rows, user) then Some(Active) else AccountStatus(rows, user))
              && (RoleReaches(rows, row, user) ==>
                  after.direct == rows.direct + {Assignment(user, row.org, row.role.value)})
              && (!RoleReaches(rows, row, user) ==> after.direct == rows.direct)
  {
    hide Alone, HasStanding, MayConfer, Joined, Decided;
    var t := Start(id, row, user, account);
    AloneStep(rows, t, None);
    var u := Advanced(rows, t);
    if u.phase.Done? {
      AloneEnds(rows, u, None);
    } else {
      StandingAlone(rows, u, None);
      if HasStanding(rows, row) {
        var v := Advanced(rows, u);
        FlippedAlone(rows, v);
        if Admissible(rows, id, row, account) {
          var w: Session :| w.phase.Finding? && w.invitation == id && w.row == row && w.user == user
            && w.role == FoundRole(rows, row) && w.writes == NO_WRITES.(flipped := true)
            && w.mayConfer == (row.role.Some? && MayConfer(rows, row, row.role.value))
            && Alone(rows, v, None) == Alone(rows, w, None);
          JoinAlone(rows, w, None);
          JoinedFacts(rows, w);
          SettleAlone(rows, Joined(rows, w), None);
        }
      }
    }
  }

  /** Whichever statement fails, every row is as it was. */
  lemma {:induction false} FailureKeepsRows(rows: Rows, t: Session, failing: Option<Phase>)
    requires t.Open()
    ensures Alone(rows, t, failing).1 == Failed ==> Alone(rows, t, failing).0 == rows
    decreases Rank(t.phase)
  {
    hide Alone, HasStanding, MayConfer, Committed;
    var u := Advanced(rows, t);
    if Fails(t.phase, failing) {
      AloneFails(rows, t, failing);
    } else {
      AloneStep(rows, t, failing);
      if u.phase.Done? {
        AloneEnds(RowsAfter(rows, t), u, failing);
      } else {
        FailureKeepsRows(rows, u, failing);
      }
    }
  }
}
