/** One transaction let through to its end: that it gets there, with what answer, and what it leaves in the rows. */
module DefaultOrganizationAlone {
  import opened Wrappers
  import opened Tenancy
  import opened DefaultOrganization
  import opened DefaultOrganizationRuns

  /** The session's next statements, and nobody else's. */
  ghost function Steps(st: State, sid: Id, n: nat): State
    decreases n
  {
    if n == 0 then st else Steps(Do(st, Advance(sid)), sid, n - 1)
  }

  lemma StepIs(st: State, sid: Id, n: nat)
    requires n > 0
    ensures Steps(st, sid, n) == Steps(Do(st, Advance(sid)), sid, n - 1)
  {
  }

  lemma NoStep(st: State, sid: Id)
    ensures Steps(st, sid, 0) == st
  {
  }

  /** Everyone else has finished, or not yet taken the lock. */
  predicate NobodyHolds(st: State, sid: Id) {
    forall s | s in st.sessions && s != sid ::
      st.sessions[s].phase.Inserting? || st.sessions[s].phase.Waiting? || st.sessions[s].phase.Over?
  }

  /** No row and no other transaction has the identifier. */
  predicate Fresh(st: State, sid: Id, id: Id) {
    id !in st.orgs && forall s | s in st.sessions && s != sid :: st.sessions[s].task.target != id
  }

  lemma {:induction false} Advances(st: State, sid: Id)
    requires sid in st.sessions && NobodyHolds(st, sid)
    requires st.sessions[sid].phase.Inserting? ==> Fresh(st, sid, st.sessions[sid].task.target)
    ensures Do(st, Advance(sid))
         == State(OrgsAfter(st.orgs, st.sessions[sid]), st.sessions[sid := Advanced(st.orgs, st.sessions[sid])])
    ensures NobodyHolds(Do(st, Advance(sid)), sid) && !Do(st, Advance(sid)).sessions[sid].phase.Inserting?
  {
    hide OrgsAfter, Advanced;
    InsertsOnce(st.orgs, st.sessions[sid]);
  }

  lemma InsertsOnce(orgs: Orgs, t: Session)
    ensures !Advanced(orgs, t).phase.Inserting?
  {
  }

  /** The rows with the flag on that one organization and no other. */
  predicate OnlyOn(before: Orgs, after: Orgs, target: Id) {
    && after.Keys == before.Keys && target in before
    && forall id | id in after :: after[id].created == before[id].created && (after[id].flagged <==> id == target)
  }

  lemma {:induction false} FromLocked(st: State, sid: Id, orgs: Orgs)
    requires sid in st.sessions && NobodyHolds(st, sid) && st.sessions[sid].phase == Locked
    requires st.sessions[sid].overlay.flags == map[] && st.sessions[sid].overlay.deleted == {}
    requires orgs == View(st.orgs, st.sessions[sid].overlay)
    ensures var task, r := st.sessions[sid].task, Steps(st, sid, 4);
            && sid in r.sessions && r.sessions[sid].phase.Over?
            && Leaving(task, orgs, r.orgs, r.sessions[sid].phase.outcome)
  {
    hide Advanced, OrgsAfter, View, IsDefault, Leaving, NobodyHolds, Steps;
    Advances(st, sid);
    StepIs(st, sid, 4);
    var s1 := Do(st, Advance(sid));
    Advances(s1, sid);
    StepIs(s1, sid, 3);
    var s2 := Do(s1, Advance(sid));
    Advances(s2, sid);
    StepIs(s2, sid, 2);
    var s3 := Do(s2, Advance(sid));
    Advances(s3, sid);
    StepIs(s3, sid, 1);
    var s4 := Do(s3, Advance(sid));
    NoStep(s4, sid);
    Ends(st.orgs, st.sessions[sid], orgs);
  }

  /** The rows and the session after its next statement. */
  ghost function Next(p: (Orgs, Session)): (Orgs, Session) { (OrgsAfter(p.0, p.1), Advanced(p.0, p.1)) }

  predicate Begins(orgs: Orgs, t: Session, seen: Orgs) {
    t.phase == Locked && t.overlay.flags == map[] && t.overlay.deleted == {} && seen == View(orgs, t.overlay)
  }

  /** Four statements at most from the lock to the end. */
  lemma {:induction false} Ends(orgs: Orgs, t: Session, seen: Orgs)
    requires Begins(orgs, t, seen)
    ensures var end := Next(Next(Next(Next((orgs, t)))));
            end.1.phase.Over? && Leaving(t.task, seen, end.0, end.1.phase.outcome)
  {
    hide Next, Begins, Leaving;
    match t.task
    case Move(_) => MoveEnds(orgs, t, seen);
    case Found(_, _) => MoveEnds(orgs, t, seen);
    case Clear(_) => ClearEnds(orgs, t, seen);
    case Delete(_) => DeleteEnds(orgs, t, seen);
  }

  lemma {:induction false} MoveEnds(orgs: Orgs, t: Session, seen: Orgs)
    requires Begins(orgs, t, seen) && (t.task.Move? || t.task.Found?)
    ensures var end := Next(Next(Next(Next((orgs, t)))));
            end.1.phase.Over? && Leaving(t.task, seen, end.0, end.1.phase.outcome)
  {
    hide View;
    var p1 := Next((orgs, t));
    var p2 := Next(p1);
    var p3 := Next(p2);
    if t.task.target in seen {
      assert p3.1.phase == Committing(Moved(Flagged(seen) - {t.task.target}));
      assert (set other | other in seen && seen[other].flagged && other != t.task.target)
          == Flagged(seen) - {t.task.target};
      var flags := (map other | other in Flagged(seen) - {t.task.target} :: false)[t.task.target := true];
      assert p3.1.overlay.flags == flags;
      assert p3.1.overlay == t.overlay.(flags := flags);
      SetAlone(orgs, t, seen);
    }
  }

  /** Clearing the others and setting the target, seen through the transaction's own writes. */
  lemma {:induction false} SetAlone(orgs: Orgs, t: Session, seen: Orgs)
    requires Begins(orgs, t, seen) && t.task.target in seen
    ensures var others := Flagged(seen) - {t.task.target};
            var flags := (map other | other in others :: false)[t.task.target := true];
            OnlyOn(seen, View(orgs, t.overlay.(flags := flags)), t.task.target)
  {
  }

  lemma {:induction false} ClearEnds(orgs: Orgs, t: Session, seen: Orgs)
    requires Begins(orgs, t, seen) && t.task.Clear?
    ensures var end := Next(Next(Next(Next((orgs, t)))));
            end.1.phase.Over? && Leaving(t.task, seen, end.0, end.1.phase.outcome)
  {
    hide View, IsDefault;
    DefaultReads(seen, t.task.target);
    if t.task.target in seen && seen[t.task.target].flagged {
      Unflagged(orgs, t, seen);
    }
  }

  lemma {:induction false} Unflagged(orgs: Orgs, t: Session, seen: Orgs)
    requires Begins(orgs, t, seen) && t.task.target in seen
    ensures View(orgs, t.overlay.(flags := map[t.task.target := false]))
         == seen[t.task.target := Org(seen[t.task.target].created, false)]
  {
  }

  lemma {:induction false} DeleteEnds(orgs: Orgs, t: Session, seen: Orgs)
    requires Begins(orgs, t, seen) && t.task.Delete?
    ensures var end := Next(Next(Next(Next((orgs, t)))));
            end.1.phase.Over? && Leaving(t.task, seen, end.0, end.1.phase.outcome)
  {
    hide View;
    WithoutTarget(orgs, t, seen);
  }

  lemma {:induction false} WithoutTarget(orgs: Orgs, t: Session, seen: Orgs)
    requires Begins(orgs, t, seen)
    ensures View(orgs, t.overlay.(deleted := {t.task.target})) == seen - {t.task.target}
  {
  }

  /** What a finished transaction that saw those rows leaves, and answers. */
  ghost predicate Leaving(task: Task, seen: Orgs, after: Orgs, outcome: Outcome) {
    var id := task.target;
    match task
    case Clear(_) =>
      var default :=
        && id in seen && seen[id].flagged
        && forall other | other in seen && seen[other].flagged && other != id ::
             || seen[id].created < seen[other].created
             || (seen[id].created == seen[other].created && id < other);
      if default then outcome == DefaultRequired && after == seen
      else if id in seen && seen[id].flagged then
        outcome == Cleared && after == seen[id := Org(seen[id].created, false)]
      else outcome == Unchanged && after == seen
    case Delete(_) =>
      if id in seen && seen[id].flagged then outcome == IsTheDefault && after == seen
      else outcome == Deleted && after == seen - {id}
    case _ =>
      if id in seen then
        outcome == Moved(set other | other in seen && seen[other].flagged && other != id) && OnlyOn(seen, after, id)
      else outcome == Vanished && after == seen
  }

  /**
    * While nobody else takes the lock, a transaction begun runs to its end and does what it is for: a move, and a
    * creation as the default, leave the flag on their target alone, a clear takes only an extra flag off, and a delete
    * only an organization without one.
    */
  lemma {:induction false} RunsToItsEnd(st: State, sid: Id, task: Task)
    requires sid !in st.sessions && NobodyHolds(st, sid) && (task.Found? ==> Fresh(st, sid, task.target))
    ensures var r := Steps(Do(st, Begin(sid, task)), sid, if task.Found? then 6 else 5);
            && sid in r.sessions && r.sessions[sid].phase.Over?
            && Leaving(task, if task.Found? then st.orgs[task.target := Org(task.created, false)] else st.orgs,
                       r.orgs, r.sessions[sid].phase.outcome)
  {
    hide Leaving, NobodyHolds, Steps, IsDefault;
    var s0 := Do(st, Begin(sid, task));
    BeginsAmong(st, sid, task);
    if task.Found? {
      Advances(s0, sid);
      StepIs(s0, sid, 6);
      var s1 := Do(s0, Advance(sid));
      Advances(s1, sid);
      StepIs(s1, sid, 5);
      FromLocked(Do(s1, Advance(sid)), sid, st.orgs[task.target := Org(task.created, false)]);
    } else {
      Advances(s0, sid);
      StepIs(s0, sid, 5);
      assert View(st.orgs, NOTHING) == st.orgs;
      FromLocked(Do(s0, Advance(sid)), sid, st.orgs);
    }
  }

  lemma BeginsAmong(st: State, sid: Id, task: Task)
    requires sid !in st.sessions && NobodyHolds(st, sid)
    ensures var s0 := Do(st, Begin(sid, task));
            && s0 == State(st.orgs, st.sessions[sid := Begun(task)]) && NobodyHolds(s0, sid)
            && (task.Found? && Fresh(st, sid, task.target) ==> Fresh(s0, sid, task.target))
  {
  }
}
