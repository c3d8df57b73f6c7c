/** The flag of the default organization, and the transactions that move, clear or guard it. */
module DefaultOrganization {
  import opened Wrappers
  import opened Tenancy

  datatype Org = Org(created: int, flagged: bool)

  type Orgs = map<Id, Org>

  function Flagged(orgs: Orgs): set<Id> { set id | id in orgs && orgs[id].flagged }

  /** Created first, the lower identifier first of two created together. */
  predicate Before(orgs: Orgs, a: Id, b: Id)
    requires a in orgs && b in orgs
  {
    orgs[a].created < orgs[b].created || (orgs[a].created == orgs[b].created && a <= b)
  }

  predicate IsDefault(orgs: Orgs, id: Id) {
    id in Flagged(orgs) && forall other | other in Flagged(orgs) :: Before(orgs, id, other)
  }

  /** The default, in the rows: flagged, and no flagged one created earlier, nor together with a lower identifier. */
  lemma DefaultReads(orgs: Orgs, id: Id)
    ensures IsDefault(orgs, id)
       <==> && id in orgs && orgs[id].flagged
            && forall other | other in orgs && orgs[other].flagged && other != id ::
                 || orgs[id].created < orgs[other].created
                 || (orgs[id].created == orgs[other].created && id < other)
    ensures Flagged(orgs) == {} <==> forall other | other in orgs :: !orgs[other].flagged
  {
    forall other ensures other in Flagged(orgs) <==> other in orgs && orgs[other].flagged {
    }
    if id in Flagged(orgs) && forall other | other in orgs && orgs[other].flagged && other != id ::
         orgs[id].created < orgs[other].created || (orgs[id].created == orgs[other].created && id < other) {
      forall other | other in Flagged(orgs) ensures Before(orgs, id, other) {
      }
    }
    if IsDefault(orgs, id) {
      forall other | other in orgs && orgs[other].flagged && other != id ensures Before(orgs, id, other) {
      }
    }
  }

  lemma OneDefault(orgs: Orgs, a: Id, b: Id)
    requires IsDefault(orgs, a) && IsDefault(orgs, b)
    ensures a == b
  {
  }

  // ---------------------------------------------------------------------------
  //  A transaction: what it has written over the committed rows.
  // ---------------------------------------------------------------------------

  datatype Overlay = Overlay(inserted: Orgs, flags: map<Id, bool>, deleted: set<Id>)

  const NOTHING := Overlay(map[], map[], {})

  function Base(orgs: Orgs, o: Overlay, id: Id): Org
    requires id in orgs.Keys + o.inserted.Keys
  {
    if id in o.inserted then o.inserted[id] else orgs[id]
  }

  /** The organizations as the transaction sees them, and as its commit leaves them. */
  function View(orgs: Orgs, o: Overlay): Orgs {
    map id | id in orgs.Keys + o.inserted.Keys - o.deleted ::
      Base(orgs, o, id).(flagged := if id in o.flags then o.flags[id] else Base(orgs, o, id).flagged)
  }

  datatype Task =
    | Move(target: Id)
    | Found(target: Id, created: int)
    | Clear(target: Id)
    | Delete(target: Id)

  datatype Outcome =
    | Moved(cleared: set<Id>)
    | Vanished
    | DefaultRequired
    | Cleared
    | Unchanged
    | Deleted
    | IsTheDefault
    | RolledBack

  /** `Inserting` runs before the lock is asked for; from `Locked` to `Over` it is held. */
  datatype Phase =
    | Inserting | Waiting
    | Locked | ClearingOthers | Setting(cleared: set<Id>) | ClearingExtra | Deleting | Committing(outcome: Outcome)
    | Over(outcome: Outcome)

  datatype Session = Session(task: Task, phase: Phase, overlay: Overlay) {
    predicate HoldsLock() { !phase.Inserting? && !phase.Waiting? && !phase.Over? }
  }

  function Begun(task: Task): Session { Session(task, if task.Found? then Inserting else Waiting, NOTHING) }

  /** The session's next statement, over the rows committed by then. */
  ghost function Advanced(orgs: Orgs, t: Session): Session {
    var view := View(orgs, t.overlay);
    var id := t.task.target;
    match t.phase
    case Inserting =>
      t.(phase := Waiting,
         overlay := t.overlay.(inserted := map[id := Org(if t.task.Found? then t.task.created else 0, false)]))
    case Waiting => t.(phase := Locked)
    case Locked =>
      t.(phase := match t.task
                  case Clear(_) => if IsDefault(view, id) then Committing(DefaultRequired) else ClearingExtra
                  case Delete(_) => if id in view && view[id].flagged then Committing(IsTheDefault) else Deleting
                  case _ => if id in view then ClearingOthers else Committing(Vanished))
    case ClearingOthers =>
      var others := Flagged(view) - {id};
      t.(phase := Setting(others), overlay := t.overlay.(flags := map other | other in others :: false))
    case Setting(cleared) =>
      t.(phase := Committing(Moved(cleared)), overlay := t.overlay.(flags := t.overlay.flags[id := true]))
    case ClearingExtra =>
      if id in view && view[id].flagged then
        t.(phase := Committing(Cleared), overlay := t.overlay.(flags := map[id := false]))
      else t.(phase := Committing(Unchanged))
    case Deleting => t.(phase := Committing(Deleted), overlay := t.overlay.(deleted := {id}))
    case Committing(outcome) => t.(phase := Over(outcome))
    case Over(_) => t
  }

  function OrgsAfter(orgs: Orgs, t: Session): Orgs { if t.phase.Committing? then View(orgs, t.overlay) else orgs }

  // ---------------------------------------------------------------------------
  //  Transactions beside one another.
  // ---------------------------------------------------------------------------

  datatype State = State(orgs: Orgs, sessions: map<Id, Session>)

  datatype Action = Begin(sid: Id, task: Task) | Advance(sid: Id) | Fail(sid: Id) | Create(id: Id, created: int)

  predicate LockFree(st: State) { forall s | s in st.sessions :: !st.sessions[s].HoldsLock() }

  /** A generated identifier: no row has it, and no other session has named it. */
  predicate Unused(st: State, id: Id, sid: Option<Id>) {
    id !in st.orgs && forall s | s in st.sessions && Some(s) != sid :: st.sessions[s].task.target != id
  }

  predicate CanAdvance(st: State, sid: Id)
    requires sid in st.sessions
  {
    var t := st.sessions[sid];
    && (t.phase.Waiting? ==> LockFree(st))
    && (t.phase.Inserting? ==> Unused(st, t.task.target, Some(sid)))
  }

  ghost function Do(st: State, a: Action): State {
    match a
    case Begin(sid, task) => if sid in st.sessions then st else st.(sessions := st.sessions[sid := Begun(task)])
    case Advance(sid) =>
      if sid !in st.sessions || !CanAdvance(st, sid) then st
      else State(OrgsAfter(st.orgs, st.sessions[sid]), st.sessions[sid := Advanced(st.orgs, st.sessions[sid])])
    case Fail(sid) =>
      if sid !in st.sessions || st.sessions[sid].phase.Over? then st
      else st.(sessions := st.sessions[sid := st.sessions[sid].(phase := Over(RolledBack))])
    case Create(id, created) => if Unused(st, id, None) then st.(orgs := st.orgs[id := Org(created, false)]) else st
  }

  ghost function Run(st: State, actions: seq<Action>): State
    decreases actions
  {
    if actions == [] then st else Do(Run(st, actions[..|actions| - 1]), actions[|actions| - 1])
  }

  predicate Fresh(st: State) { st.sessions == map[] }

  // ---------------------------------------------------------------------------
  //  What holds of each transaction, from any number of flags.
  // ---------------------------------------------------------------------------

  /** The transaction's writes are the ones its phase has made, over rows the lock keeps from others. */
  ghost predicate Sound(orgs: Orgs, t: Session) {
    var id := t.task.target;
    && (forall i | i in t.overlay.inserted && !t.phase.Over? ::
          i == id && t.task.Found? && !t.overlay.inserted[i].flagged && i !in orgs)
    && (t.phase.Inserting? ==> t.task.Found? && t.overlay == NOTHING)
    && (!t.phase.Over? ==> forall i | i in t.overlay.flags :: i in orgs || i in t.overlay.inserted)
    && (!t.phase.Over? ==> t.overlay.deleted <= {id})
    && ((|| t.phase.Waiting? || t.phase.Locked? || t.phase.ClearingOthers? || t.phase.ClearingExtra?
         || t.phase.Deleting?) ==>
          t.overlay.flags == map[] && t.overlay.deleted == {})
    && ((t.phase.ClearingExtra? ==> t.task.Clear? && !IsDefault(View(orgs, t.overlay), id)))
    && (t.phase.Deleting? ==> t.task.Delete? && !(id in orgs && orgs[id].flagged))
    && (t.phase.ClearingOthers? ==> IsMove(t.task) && id in View(orgs, t.overlay))
    && (t.phase.Setting? ==>
          IsMove(t.task) && id in View(orgs, t.overlay) && Flagged(View(orgs, t.overlay)) <= {id}
          && t.phase.cleared == Flagged(orgs) - {id})
    && (t.phase.Committing? ==> Leaves(orgs, t))
  }

  predicate IsMove(task: Task) { task.Move? || task.Found? }

  /** What the commit will leave flagged, by its outcome. */
  ghost predicate Leaves(orgs: Orgs, t: Session)
    requires t.phase.Committing?
  {
    var id := t.task.target;
    var after := View(orgs, t.overlay);
    match t.phase.outcome
    case Moved(cleared) => IsMove(t.task) && Flagged(after) == {id} && cleared == Flagged(orgs) - {id}
    case Vanished => IsMove(t.task) && id !in orgs && Flagged(after) == Flagged(orgs)
    case DefaultRequired => t.task.Clear? && IsDefault(orgs, id) && after == orgs
    case Cleared =>
      t.task.Clear? && id in Flagged(orgs) && !IsDefault(orgs, id) && Flagged(after) == Flagged(orgs) - {id}
    case Unchanged => t.task.Clear? && id !in Flagged(orgs) && after == orgs
    case Deleted => t.task.Delete? && id !in Flagged(orgs) && after == orgs - {id}
    case IsTheDefault => t.task.Delete? && id in Flagged(orgs) && after == orgs
    case RolledBack => false
  }

  lemma ViewOf(orgs: Orgs, o: Overlay, id: Id)
    ensures id in View(orgs, o) <==> id in orgs.Keys + o.inserted.Keys - o.deleted
    ensures id in View(orgs, o) ==> View(orgs, o)[id].created == Base(orgs, o, id).created
    ensures id in Flagged(View(orgs, o)) <==>
              id in View(orgs, o) && (if id in o.flags then o.flags[id] else Base(orgs, o, id).flagged)
  {
  }

  lemma ViewNothing(orgs: Orgs, o: Overlay)
    requires o == NOTHING
    ensures View(orgs, o) == orgs
  {
  }

  /** Before any flag is written, a transaction sees the committed flags, and without an insert the committed rows. */
  lemma PlainView(orgs: Orgs, t: Session)
    requires Sound(orgs, t) && t.overlay.flags == map[] && t.overlay.deleted == {} && !t.phase.Over?
    ensures Flagged(View(orgs, t.overlay)) == Flagged(orgs)
    ensures !t.task.Found? ==> View(orgs, t.overlay) == orgs
    ensures forall id :: id in View(orgs, t.overlay) <==> id in orgs || id in t.overlay.inserted
    ensures t.task.target in orgs ==> t.task.target !in t.overlay.inserted
  {
  }

  lemma ClearedView(orgs: Orgs, o: Overlay, id: Id)
    requires o.flags == map[] && o.deleted == {}
    ensures var others := Flagged(View(orgs, o)) - {id};
            var after := View(orgs, o.(flags := map other | other in others :: false));
            after.Keys == View(orgs, o).Keys && Flagged(after) <= {id} && others <= orgs.Keys + o.inserted.Keys
  {
  }

  lemma SetView(orgs: Orgs, o: Overlay, id: Id)
    requires id in View(orgs, o) && Flagged(View(orgs, o)) <= {id}
    ensures Flagged(View(orgs, o.(flags := o.flags[id := true]))) == {id}
  {
  }

  lemma UnflaggedView(orgs: Orgs, id: Id)
    ensures Flagged(View(orgs, NOTHING.(flags := map[id := false]))) == Flagged(orgs) - {id}
    ensures View(orgs, NOTHING.(flags := map[id := false])).Keys == orgs.Keys
    ensures View(orgs, NOTHING.(deleted := {id})) == orgs - {id}
  {
  }

  lemma NoInsert(orgs: Orgs, t: Session)
    requires Sound(orgs, t) && !t.task.Found? && !t.phase.Over?
    ensures t.overlay.inserted == map[]
  {
  }

  /** A session's own next statement keeps it sound: its commit leaves what its outcome says. */
  lemma AdvancedSound(orgs: Orgs, t: Session)
    requires Sound(orgs, t) && !t.phase.Committing?
    requires t.phase.Inserting? ==> t.task.target !in orgs
    ensures Sound(orgs, Advanced(orgs, t))
  {
    hide View, Flagged, IsDefault;
    var id := t.task.target;
    match t.phase
    case Inserting =>
    case Waiting =>
    case Locked => PlainView(orgs, t); FlaggedIs(orgs, id);
    case ClearingOthers => PlainView(orgs, t); ClearedView(orgs, t.overlay, id);
    case Setting(cleared) => SetView(orgs, t.overlay, id); ViewOf(orgs, t.overlay, id);
    case ClearingExtra => PlainView(orgs, t); NoInsert(orgs, t); UnflaggedView(orgs, id); FlaggedIs(orgs, id);
    case Deleting => NoInsert(orgs, t); UnflaggedView(orgs, id); FlaggedIs(orgs, id);
    case Committing(_) =>
    case Over(_) =>
  }

  lemma FlaggedIs(orgs: Orgs, id: Id)
    ensures id in Flagged(orgs) <==> id in orgs && orgs[id].flagged
    ensures IsDefault(orgs, id) ==> id in Flagged(orgs)
  {
  }
}
