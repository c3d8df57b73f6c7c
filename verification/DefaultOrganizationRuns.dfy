/** Moves, clears and deletes beside one another: how many organizations are flagged, and which is the default. */
module DefaultOrganizationRuns {
  import opened Wrappers
  import opened Tenancy
  import opened DefaultOrganization

  // ---------------------------------------------------------------------------
  //  Every run keeps each transaction sound and the lock with one.
  // ---------------------------------------------------------------------------

  ghost predicate Consistent(st: State) {
    && (forall s | s in st.sessions :: Sound(st.orgs, st.sessions[s]))
    && (forall s, u | s in st.sessions && u in st.sessions && s != u ::
          && !(st.sessions[s].HoldsLock() && st.sessions[u].HoldsLock())
          && !(HasInserted(st.sessions[s]) && HasInserted(st.sessions[u])
               && st.sessions[s].task.target == st.sessions[u].task.target))
  }

  predicate HasInserted(t: Session) { !t.phase.Over? && t.overlay.inserted != map[] }

  lemma NewRowView(orgs: Orgs, id: Id, created: int, t: Session)
    requires Sound(orgs, t) && id !in orgs && t.task.target != id && !t.phase.Over?
    ensures var after := orgs[id := Org(created, false)];
            && View(after, t.overlay) == View(orgs, t.overlay)[id := Org(created, false)]
            && Flagged(View(after, t.overlay)) == Flagged(View(orgs, t.overlay))
            && Flagged(after) == Flagged(orgs)
  {
  }

  lemma NewRowDefault(orgs: Orgs, id: Id, created: int, other: Id)
    requires id !in orgs
    ensures IsDefault(orgs[id := Org(created, false)], other) == IsDefault(orgs, other)
  {
    assert Flagged(orgs[id := Org(created, false)]) == Flagged(orgs);
  }

  /** A row inserted unflagged, under an identifier nobody named, leaves every transaction sound. */
  lemma NewRowKeeps(orgs: Orgs, id: Id, created: int, t: Session)
    requires Sound(orgs, t) && id !in orgs && t.task.target != id
    ensures Sound(orgs[id := Org(created, false)], t)
  {
    hide View, Flagged, IsDefault;
    if !t.phase.Over? {
      NewRowView(orgs, id, created, t);
      NewRowDefault(orgs, id, created, t.task.target);
      ViewHasNot(orgs, t, id);
      NewRowDefault(View(orgs, t.overlay), id, created, t.task.target);
    }
  }

  lemma ViewHasNot(orgs: Orgs, t: Session, id: Id)
    requires Sound(orgs, t) && id !in orgs && t.task.target != id && !t.phase.Over?
    ensures id !in View(orgs, t.overlay)
  {
  }

  /** A commit leaves a transaction sound that has not taken the lock. */
  lemma CommitKeepsOthers(orgs: Orgs, t: Session, u: Session)
    requires Sound(orgs, t) && Sound(orgs, u) && t.phase.Committing? && !u.HoldsLock()
    requires HasInserted(t) && HasInserted(u) ==> t.task.target != u.task.target
    ensures Sound(OrgsAfter(orgs, t), u)
  {
  }

  lemma InsertedIs(orgs: Orgs, t: Session)
    requires Sound(orgs, t) && !t.phase.Over?
    ensures t.overlay.inserted.Keys <= {t.task.target}
    ensures !HasInserted(t) ==> t.overlay.inserted.Keys == {}
    ensures t.overlay.inserted.Keys !! orgs.Keys
  {
  }

  lemma {:induction false} ActionKeeps(st: State, a: Action)
    requires Consistent(st)
    ensures Consistent(Do(st, a))
  {
    hide Sound, OrgsAfter;
    var r := Do(st, a);
    match a
    case Begin(sid, task) => BegunSound(st.orgs, task);
    case Advance(sid) =>
      if sid in st.sessions && CanAdvance(st, sid) {
        AdvanceKeeps(st, sid);
      }
    case Fail(sid) =>
      if sid in st.sessions {
        OverSound(st.orgs, st.sessions[sid], RolledBack);
      }
    case Create(id, created) =>
      if Unused(st, id, None) {
        forall s | s in st.sessions ensures Sound(r.orgs, st.sessions[s]) {
          NewRowKeeps(st.orgs, id, created, st.sessions[s]);
        }
      }
  }

  lemma BegunSound(orgs: Orgs, task: Task)
    ensures Sound(orgs, Begun(task))
  {
  }

  lemma OverSound(orgs: Orgs, t: Session, outcome: Outcome)
    ensures Sound(orgs, t.(phase := Over(outcome)))
  {
  }

  lemma {:induction false} AdvanceKeeps(st: State, sid: Id)
    requires Consistent(st) && sid in st.sessions && CanAdvance(st, sid)
    ensures Consistent(Do(st, Advance(sid)))
  {
    hide Sound, OrgsAfter;
    var t := st.sessions[sid];
    var r := Do(st, Advance(sid));
    forall s | s in st.sessions ensures Sound(r.orgs, r.sessions[s]) {
      if s == sid {
        OwnStep(st.orgs, t);
      } else if t.phase.Committing? {
        CommitKeepsOthers(st.orgs, t, st.sessions[s]);
      } else {
        RowsSame(st.orgs, t);
      }
    }
    forall s | s in st.sessions && s != sid
      ensures !(r.sessions[s].HoldsLock() && r.sessions[sid].HoldsLock())
      ensures !(&& HasInserted(r.sessions[s]) && HasInserted(r.sessions[sid])
                && r.sessions[s].task.target == t.task.target)
    {
      StepTakes(st.orgs, t);
    }
  }

  lemma OwnStep(orgs: Orgs, t: Session)
    requires Sound(orgs, t) && (t.phase.Inserting? ==> t.task.target !in orgs)
    ensures Sound(OrgsAfter(orgs, t), Advanced(orgs, t))
  {
    if t.phase.Committing? {
      OverSound(OrgsAfter(orgs, t), t, t.phase.outcome);
    } else {
      AdvancedSound(orgs, t);
    }
  }

  lemma RowsSame(orgs: Orgs, t: Session)
    requires !t.phase.Committing?
    ensures OrgsAfter(orgs, t) == orgs
  {
  }

  lemma StepTakes(orgs: Orgs, t: Session)
    ensures Advanced(orgs, t).task == t.task
    ensures Advanced(orgs, t).HoldsLock() ==> t.HoldsLock() || t.phase.Waiting?
    ensures HasInserted(Advanced(orgs, t)) ==> HasInserted(t) || t.phase.Inserting?
  {
  }

  lemma {:induction false} RunKeeps(st: State, actions: seq<Action>)
    requires Fresh(st)
    ensures Consistent(Run(st, actions))
  {
    hide Sound, Do;
    if actions != [] {
      RunKeeps(st, actions[..|actions| - 1]);
      ActionKeeps(Run(st, actions[..|actions| - 1]), actions[|actions| - 1]);
    }
  }

  // ---------------------------------------------------------------------------
  //  How many are flagged.
  // ---------------------------------------------------------------------------

  /** Whatever was flagged before, a committed move leaves its target flagged and nothing else. */
  lemma MoveLeavesOne(st: State, sid: Id)
    requires Consistent(st) && sid in st.sessions && st.sessions[sid].phase.Committing?
    requires st.sessions[sid].phase.outcome.Moved?
    ensures Flagged(Do(st, Advance(sid)).orgs) == {st.sessions[sid].task.target}
    ensures st.sessions[sid].phase.outcome.cleared == Flagged(st.orgs) - {st.sessions[sid].task.target}
  {
  }

  /** One flagged organization stays one flagged organization, whatever step is taken. */
  lemma OneStaysOne(st: State, a: Action, id: Id) returns (flagged: Id)
    requires Consistent(st) && Flagged(st.orgs) == {id}
    ensures Flagged(Do(st, a).orgs) == {flagged}
  {
    hide Flagged, View, IsDefault;
    flagged := id;
    if a.Advance? && a.sid in st.sessions && st.sessions[a.sid].phase.Committing? {
      var t := st.sessions[a.sid];
      DeleteFlags(st.orgs, t.task.target);
      OnlyFlagged(st.orgs, id, t.task.target);
      if t.phase.outcome.Moved? {
        flagged := t.task.target;
      }
    } else if a.Create? {
      CreateFlags(st.orgs, a.id, a.created);
    }
  }

  lemma DeleteFlags(orgs: Orgs, id: Id)
    ensures Flagged(orgs - {id}) == Flagged(orgs) - {id}
  {
  }

  lemma CreateFlags(orgs: Orgs, id: Id, created: int)
    ensures id !in orgs ==> Flagged(orgs[id := Org(created, false)]) == Flagged(orgs)
  {
  }

  /** The only flagged organization is the default. */
  lemma OnlyFlagged(orgs: Orgs, id: Id, other: Id)
    requires Flagged(orgs) == {id}
    ensures other in Flagged(orgs) <==> IsDefault(orgs, other)
  {
  }

  /** From exactly one flagged organization, exactly one at every commit of every run. */
  lemma {:induction false} OneAtEveryCommit(st: State, actions: seq<Action>, id: Id) returns (flagged: Id)
    requires Fresh(st) && Flagged(st.orgs) == {id}
    ensures Flagged(Run(st, actions).orgs) == {flagged}
  {
    hide Flagged, Do, Consistent;
    flagged := id;
    if actions != [] {
      var init := actions[..|actions| - 1];
      flagged := OneAtEveryCommit(st, init, id);
      RunKeeps(st, init);
      flagged := OneStaysOne(Run(st, init), actions[|actions| - 1], flagged);
    }
  }

  /**
    * And at most one at every statement: in what each transaction sees and has written, as the unique index requires.
    */
  lemma OneAtEveryStatement(st: State, actions: seq<Action>, id: Id, sid: Id)
    requires Fresh(st) && Flagged(st.orgs) == {id}
    requires sid in Run(st, actions).sessions && !Run(st, actions).sessions[sid].phase.Over?
    ensures var r := Run(st, actions);
            |Flagged(View(r.orgs, r.sessions[sid].overlay))| <= 1
  {
    hide Run, Flagged, View;
    var flagged := OneAtEveryCommit(st, actions, id);
    RunKeeps(st, actions);
    var r := Run(st, actions);
    AtMostOne(r.orgs, r.sessions[sid], flagged);
  }

  lemma AtMostOne(orgs: Orgs, t: Session, id: Id)
    requires Sound(orgs, t) && Flagged(orgs) == {id} && !t.phase.Over?
    ensures |Flagged(View(orgs, t.overlay))| <= 1
  {
    hide Flagged, View, IsDefault;
    if t.phase.Setting? {
      SmallSubset(Flagged(View(orgs, t.overlay)), t.task.target);
    } else if t.phase.Committing? {
      DeleteFlags(orgs, t.task.target);
      SmallSubset({id} - {t.task.target}, id);
    } else if t.phase.Inserting? {
      ViewNothing(orgs, t.overlay);
    } else {
      PlainView(orgs, t);
    }
  }

  lemma SmallSubset(s: set<Id>, x: Id)
    requires s <= {x}
    ensures |s| <= 1
  {
    if x in s {
      assert s == {x};
    } else {
      assert s == {};
    }
  }

  // ---------------------------------------------------------------------------
  //  From several flags, without a move.
  // ---------------------------------------------------------------------------

  predicate NoMove(a: Action) { a.Begin? ==> !IsMove(a.task) }

  /** A commit that is not a move's keeps the default, and takes a flag off exactly when it cleared one. */
  lemma CommitKeepsDefault(st: State, sid: Id, id: Id)
    requires Consistent(st) && sid in st.sessions && st.sessions[sid].phase.Committing?
    requires !IsMove(st.sessions[sid].task) && IsDefault(st.orgs, id)
    ensures var t := st.sessions[sid];
            var after := Do(st, Advance(sid)).orgs;
            && IsDefault(after, id)
            && Flagged(after) ==
               (if t.phase.outcome == Cleared then Flagged(st.orgs) - {t.task.target} else Flagged(st.orgs))
            && (t.phase.outcome == Cleared ==> t.task.target in Flagged(st.orgs) && t.task.target != id)
  {
    var t := st.sessions[sid];
    assert Sound(st.orgs, t);
    var after := Do(st, Advance(sid)).orgs;
    DeleteFlags(st.orgs, t.task.target);
    forall i | i in after && i in st.orgs ensures after[i].created == st.orgs[i].created {
      ViewOf(st.orgs, t.overlay, i);
      InsertedIs(st.orgs, t);
    }
  }

  /** What a clear answers, at its commit: refused for the default, cleared for an extra flag, unchanged without one. */
  lemma ClearAnswers(st: State, sid: Id)
    requires Consistent(st) && sid in st.sessions && st.sessions[sid].phase.Committing? && st.sessions[sid].task.Clear?
    ensures var outcome := st.sessions[sid].phase.outcome;
            var id := st.sessions[sid].task.target;
            && (outcome == DefaultRequired <==> IsDefault(st.orgs, id))
            && (outcome == Cleared <==> id in Flagged(st.orgs) && !IsDefault(st.orgs, id))
            && (outcome == Unchanged <==> id !in Flagged(st.orgs))
  {
  }

  lemma KeepsDefaultStep(st: State, a: Action, id: Id)
    requires Consistent(st) && NoMoves(st) && NoMove(a) && IsDefault(st.orgs, id)
    ensures NoMoves(Do(st, a)) && IsDefault(Do(st, a).orgs, id) && Flagged(Do(st, a).orgs) <= Flagged(st.orgs)
  {
    hide Flagged, View, IsDefault, Sound;
    match a
    case Advance(sid) =>
      if sid in st.sessions {
        StepTakes(st.orgs, st.sessions[sid]);
        if st.sessions[sid].phase.Committing? {
          CommitKeepsDefault(st, sid, id);
        }
      }
    case Create(other, created) =>
      if other !in st.orgs {
        CreateFlags(st.orgs, other, created);
        NewRowDefault(st.orgs, other, created, id);
      }
    case _ =>
  }

  predicate NoMoves(st: State) { forall s | s in st.sessions :: !IsMove(st.sessions[s].task) }

  /** However many are flagged, no run of clears, deletes and creations changes the default or adds a flag. */
  lemma {:induction false} DefaultStays(st: State, actions: seq<Action>, id: Id)
    requires Fresh(st) && IsDefault(st.orgs, id) && forall a | a in actions :: NoMove(a)
    ensures IsDefault(Run(st, actions).orgs, id) && Flagged(Run(st, actions).orgs) <= Flagged(st.orgs)
    ensures NoMoves(Run(st, actions))
  {
    hide Flagged, IsDefault, Do, Consistent, NoMove;
    if actions != [] {
      var n := |actions| - 1;
      assert forall a | a in actions[..n] :: a in actions;
      assert actions[n] in actions;
      DefaultStays(st, actions[..n], id);
      RunKeeps(st, actions[..n]);
      KeepsDefaultStep(Run(st, actions[..n]), actions[n], id);
    }
  }
}
