/** Retention in batches: the outbox swept and pruned, the audit log pruned through the database's own function. */
module Retention {
  import opened Wrappers

  type Id = nat

  datatype MailStatus = Pending | Sent | Failed | Logged

  datatype Mail = Mail(status: MailStatus, created: int)

  type Outbox = map<Id, Mail>

  const DAY := 86_400_000

  /** Created more than `days` days before `now`. */
  predicate Older(created: int, days: nat, now: int) { created < now - days * DAY }

  /** The two batched statements over the outbox. */
  datatype Sweep = FailStale | Prune

  predicate Due(sweep: Sweep, m: Mail, days: nat, now: int) {
    Older(m.created, days, now) && match sweep case FailStale => m.status == Pending case Prune => m.status != Pending
  }

  function DueIn(sweep: Sweep, rows: Outbox, days: nat, now: int): set<Id> {
    set id | id in rows && Due(sweep, rows[id], days, now)
  }

  /** The rows once the statement has worked on those of `done`. */
  function Worked(sweep: Sweep, rows: Outbox, done: set<Id>): Outbox {
    match sweep
    case FailStale => map id | id in rows :: if id in done then rows[id].(status := Failed) else rows[id]
    case Prune => map id | id in rows && id !in done :: rows[id]
  }

  /** When the last batch of each sweep looks: the prune no earlier than the failing before it. */
  datatype Times = Times(failing: int, pruning: int)

  /** Everything the two sweeps leave when each runs to its end; a window of 0 turns its sweep off. */
  function Settled(rows: Outbox, maxPending: nat, days: nat, at: Times): Outbox {
    map id | id in rows && !Gone(rows[id], maxPending, days, at) :: Orphaned(rows[id], maxPending, at.failing)
  }

  predicate Stale(m: Mail, maxPending: nat, now: int) {
    m.status == Pending && maxPending > 0 && Older(m.created, maxPending, now)
  }

  /** Terminal and past the retention window, or pending and past both. */
  predicate Gone(m: Mail, maxPending: nat, days: nat, at: Times) {
    days > 0 && Older(m.created, days, at.pruning) && (m.status != Pending || Stale(m, maxPending, at.failing))
  }

  function Orphaned(m: Mail, maxPending: nat, now: int): Mail {
    if Stale(m, maxPending, now) then m.(status := Failed) else m
  }

  lemma DueAfter(sweep: Sweep, rows: Outbox, done: set<Id>, days: nat, now: int)
    requires done <= DueIn(sweep, rows, days, now)
    ensures DueIn(sweep, Worked(sweep, rows, done), days, now) == DueIn(sweep, rows, days, now) - done
  {
  }

  lemma WorkedTwice(sweep: Sweep, rows: Outbox, first: set<Id>, second: set<Id>)
    ensures Worked(sweep, Worked(sweep, rows, first), second) == Worked(sweep, rows, first + second)
  {
  }

  lemma WorkedNone(sweep: Sweep, rows: Outbox)
    ensures Worked(sweep, rows, {}) == rows
  {
  }

  lemma DueGrows(sweep: Sweep, rows: Outbox, days: nat, early: int, now: int)
    requires early <= now
    ensures DueIn(sweep, rows, days, early) <= DueIn(sweep, rows, days, now)
  {
  }

  /** How many rows a run has yet to work on, at most. */
  function Left(rows: Outbox, done: set<Id>): nat { |rows.Keys - done| }

  function DueWithin(sweep: Sweep, rows: Outbox, days: nat, now: int): set<Id> {
    if days > 0 then DueIn(sweep, rows, days, now) else {}
  }

  /** Failing every stale row, then pruning every due one, settles the outbox. */
  lemma BothSweepsSettle(rows: Outbox, maxPending: nat, days: nat, at: Times)
    ensures var failed := Worked(FailStale, rows, DueWithin(FailStale, rows, maxPending, at.failing));
            Worked(Prune, failed, DueWithin(Prune, failed, days, at.pruning)) == Settled(rows, maxPending, days, at)
  {
  }

  /** However little an earlier run got through, by times no later, finishing comes to what one full run does. */
  lemma StoppedRunLosesNothing(rows: Outbox, maxPending: nat, days: nat, early: Times, at: Times, failed: set<Id>,
                               pruned: set<Id>)
    requires early.failing <= at.failing && early.pruning <= at.pruning
    requires failed <= DueWithin(FailStale, rows, maxPending, early.failing)
    requires pruned <= DueWithin(Prune, Worked(FailStale, rows, failed), days, early.pruning)
    ensures Settled(Worked(Prune, Worked(FailStale, rows, failed), pruned), maxPending, days, at)
         == Settled(rows, maxPending, days, at)
  {
  }

  const MS_PER_DAY := 24 * 60 * 60 * 1000

  /**
    * What a full run leaves of a mail, in the row: a terminal one is gone past the retention window, a pending one past
    * both windows, and a pending one past its own alone is failed.
    */
  lemma SettledReads(rows: Outbox, maxPending: nat, days: nat, at: Times, id: Id)
    requires id in rows
    ensures var m := rows[id];
            var overdue := m.status == Pending && maxPending > 0 && m.created < at.failing - maxPending * MS_PER_DAY;
            var left := Settled(rows, maxPending, days, at);
            && (id !in left <==> && days > 0 && m.created < at.pruning - days * MS_PER_DAY
                                 && (m.status in {Sent, Failed, Logged} || overdue))
            && (id in left ==> left[id].created == m.created && left[id].status == if overdue then Failed else m.status)
  {
  }

  // ---------------------------------------------------------------------------
  //  Audit rows: when each was created.
  // ---------------------------------------------------------------------------

  const FLOOR_DAYS := 30
  const MAX_BATCH := 10_000
  const AUDIT_PRUNE_BATCH: nat := 5000
  const OUTBOX_BATCH: nat := 1000

  function Expired(rows: map<Id, int>, days: nat, now: int): set<Id> {
    set id | id in rows && Older(rows[id], days, now)
  }

  /** The window the database honours. */
  function Window(days: nat): nat { if days < FLOOR_DAYS then FLOOR_DAYS else days }

  /** The audit rows within reach of a prune, in the row: older than the days asked for, and than thirty. */
  lemma ExpiredReads(rows: map<Id, int>, days: nat, now: int, id: Id)
    ensures id in Expired(rows, Window(days), now)
       <==> id in rows && rows[id] < now - days * MS_PER_DAY && rows[id] < now - 30 * MS_PER_DAY
  {
  }

  function Min(a: int, b: int): int { if a <= b then a else b }

  /** Of a set, some that many elements, or all. */
  method Choose(from: set<Id>, limit: nat) returns (chosen: set<Id>)
    ensures chosen <= from && |chosen| == Min(|from|, limit)
  {
    chosen := {};
    while |chosen| < limit && chosen != from
      invariant chosen <= from && |chosen| <= limit
      decreases limit - |chosen|
    {
      assert from == chosen + (from - chosen);
      assert from - chosen != {};
      var id :| id in from - chosen;
      chosen := chosen + {id};
    }
    SubsetSize(chosen, from);
  }

  lemma SubsetSize(small: set<Id>, big: set<Id>)
    requires small <= big
    ensures |small| <= |big| && (|small| == |big| ==> small == big)
  {
    assert big == small + (big - small);
  }

  class Database {
    var outbox: Outbox
    var audit: map<Id, int>
    /** The database's clock. */
    var now: int
    /** How often the deadline's clock has been read. */
    var asked: nat

    /** A statement starts, at whatever time it has become. */
    method Tick()
      modifies this`now
      ensures now >= old(now)
    {
      var later: int :| later >= now;
      now := later;
    }

    method RunSweep(sweep: Sweep, days: nat, batchSize: nat) returns (n: nat, ghost done: set<Id>)
      modifies this`outbox, this`now
      ensures now >= old(now) && done <= DueIn(sweep, old(outbox), days, now)
      ensures n == |done| == Min(|DueIn(sweep, old(outbox), days, now)|, batchSize)
      ensures outbox == Worked(sweep, old(outbox), done)
    {
      Tick();
      var due := DueIn(sweep, outbox, days, now);
      var chosen := Choose(due, batchSize);
      outbox := Worked(sweep, outbox, chosen);
      n, done := |chosen|, chosen;
    }

    /** Batch after batch until one is short, or the deadline has come, asked before each: the last looked at `at`. */
    method InBatches(sweep: Sweep, days: nat, batchSize: nat, deadline: Option<int>, clock: nat -> int)
      returns (total: nat, ghost done: set<Id>, ghost at: int)
      requires batchSize > 0
      modifies this`outbox, this`asked, this`now
      ensures old(now) <= at <= now
      ensures done <= DueIn(sweep, old(outbox), days, at) && total == |done|
      ensures outbox == Worked(sweep, old(outbox), done)
      ensures done == DueIn(sweep, old(outbox), days, at)
         || (deadline.Some? && asked > 0 && clock(asked - 1) >= deadline.value)
    {
      hide DueIn, Worked, Min, Left;
      ghost var start := outbox;
      total, done, at := 0, {}, now;
      WorkedNone(sweep, start);
      while true
        invariant old(now) <= at <= now
        invariant done <= DueIn(sweep, start, days, at) && total == |done|
        invariant outbox == Worked(sweep, start, done)
        decreases Left(start, done)
      {
        asked := asked + 1;
        if deadline.Some? && clock(asked - 1) >= deadline.value {
          return;
        }
        var n;
        n, done := NextBatch(sweep, days, batchSize, start, done, at);
        total, at := total + n, now;
        if n < batchSize {
          return;
        }
      }
    }

    /** One batch more of a run that began with `start` and has worked on `sofar`, last at `at`. */
    method NextBatch(sweep: Sweep, days: nat, batchSize: nat, ghost start: Outbox, ghost sofar: set<Id>, ghost at: int)
      returns (n: nat, ghost done: set<Id>)
      requires batchSize > 0 && at <= now
      requires sofar <= DueIn(sweep, start, days, at) && outbox == Worked(sweep, start, sofar)
      modifies this`outbox, this`now
      ensures now >= old(now) && outbox == Worked(sweep, start, done)
      ensures sofar <= done <= DueIn(sweep, start, days, now) && |done| == |sofar| + n
      ensures n < batchSize ==> done == DueIn(sweep, start, days, now)
      ensures n >= batchSize ==> Left(start, done) < Left(start, sofar)
    {
      hide DueIn, Worked, Min;
      ghost var batch;
      n, batch := RunSweep(sweep, days, batchSize);
      SweepStep(sweep, start, sofar, batch, days, at, now, batchSize);
      done := sofar + batch;
    }

    method FailStalePending(maxPending: nat, batchSize: nat, deadline: Option<int>, clock: nat -> int)
      returns (total: nat, ghost done: set<Id>, ghost at: int)
      requires batchSize > 0
      modifies this`outbox, this`asked, this`now
      ensures old(now) <= at <= now
      ensures done <= DueWithin(FailStale, old(outbox), maxPending, at)
      ensures total == |done| && outbox == Worked(FailStale, old(outbox), done)
      ensures deadline.None? ==> done == DueWithin(FailStale, old(outbox), maxPending, at)
    {
      if maxPending == 0 {
        WorkedNone(FailStale, outbox);
        return 0, {}, now;
      }
      total, done, at := InBatches(FailStale, maxPending, batchSize, deadline, clock);
    }

    method PruneOutbox(days: nat, batchSize: nat, deadline: Option<int>, clock: nat -> int)
      returns (total: nat, ghost done: set<Id>, ghost at: int)
      requires batchSize > 0
      modifies this`outbox, this`asked, this`now
      ensures old(now) <= at <= now
      ensures done <= DueWithin(Prune, old(outbox), days, at)
      ensures total == |done| && outbox == Worked(Prune, old(outbox), done)
      ensures deadline.None? ==> done == DueWithin(Prune, old(outbox), days, at)
    {
      if days == 0 {
        WorkedNone(Prune, outbox);
        return 0, {}, now;
      }
      total, done, at := InBatches(Prune, days, batchSize, deadline, clock);
    }

    /** The database's own prune: never a window under the floor, never a batch over the cap. */
    method PruneAuditOnce(days: nat, batch: nat) returns (n: nat, ghost gone: set<Id>)
      modifies this`audit, this`now
      ensures now >= old(now)
      ensures gone <= Expired(old(audit), Window(days), now) && audit == old(audit) - gone
      ensures n == |gone|
      ensures n == if days == 0 || batch == 0 then 0
                   else Min(|Expired(old(audit), Window(days), now)|, Min(batch, MAX_BATCH))
    {
      Tick();
      if days == 0 || batch == 0 {
        assert audit - {} == audit;
        return 0, {};
      }
      var chosen := Choose(Expired(audit, Window(days), now), Min(batch, MAX_BATCH));
      audit := audit - chosen;
      n, gone := |chosen|, chosen;
    }

    /** Drains the expired rows exactly when its batch is within the database's cap, or so is their number. */
    method PruneAudit(days: nat, batchSize: nat, deadline: Option<int>, clock: nat -> int)
      returns (total: nat, ghost gone: set<Id>, ghost at: int)
      requires batchSize > 0
      modifies this`audit, this`asked, this`now
      ensures old(now) <= at <= now
      ensures audit == old(audit) - gone && total == |gone|
      ensures days == 0 ==> gone == {}
      ensures days > 0 ==> gone <= Expired(old(audit), Window(days), at)
      ensures days > 0 && deadline.None? ==>
                (gone == Expired(old(audit), Window(days), at)
                 <==> batchSize <= MAX_BATCH || |Expired(old(audit), Window(days), at)| <= MAX_BATCH)
    {
      if days == 0 {
        assert audit - {} == audit;
        return 0, {}, now;
      }
      total, gone, at := DrainAudit(days, batchSize, deadline, clock);
    }

    method DrainAudit(days: nat, batchSize: nat, deadline: Option<int>, clock: nat -> int)
      returns (total: nat, ghost gone: set<Id>, ghost at: int)
      requires batchSize > 0 && days > 0
      modifies this`audit, this`asked, this`now
      ensures old(now) <= at <= now
      ensures gone <= Expired(old(audit), Window(days), at) && audit == old(audit) - gone && total == |gone|
      ensures deadline.None? ==>
                (gone == Expired(old(audit), Window(days), at)
                 <==> batchSize <= MAX_BATCH || |Expired(old(audit), Window(days), at)| <= MAX_BATCH)
    {
      hide Expired, Window, Min;
      total, gone, at := 0, {}, now;
      assert audit - {} == audit;
      while true
        invariant old(now) <= at <= now
        invariant gone <= Expired(old(audit), Window(days), at) && total == |gone| && audit == old(audit) - gone
        invariant gone != {} ==> batchSize <= MAX_BATCH
        decreases |old(audit).Keys - gone|
      {
        asked := asked + 1;
        if deadline.Some? && clock(asked - 1) >= deadline.value {
          return;
        }
        var n, batch := PruneAuditOnce(days, batchSize);
        AuditStep(old(audit), gone, batch, Window(days), at, now, batchSize);
        total, gone, at := total + n, gone + batch, now;
        if n < batchSize {
          return;
        }
      }
    }

    /** Both outbox sweeps in turn; without a deadline the outbox is settled. */
    method PruneMail(maxPending: nat, days: nat, batchSize: nat, deadline: Option<int>, clock: nat -> int)
      returns (failed: nat, pruned: nat, ghost stale: set<Id>, ghost due: set<Id>, ghost at: Times)
      requires batchSize > 0
      modifies this`outbox, this`asked, this`now
      ensures old(now) <= at.failing <= at.pruning <= now
      ensures failed == |stale| && pruned == |due|
      ensures stale <= DueWithin(FailStale, old(outbox), maxPending, at.failing)
      ensures due <= DueWithin(Prune, Worked(FailStale, old(outbox), stale), days, at.pruning)
      ensures outbox == Worked(Prune, Worked(FailStale, old(outbox), stale), due)
      ensures deadline.None? ==> outbox == Settled(old(outbox), maxPending, days, at)
      ensures forall later: Times | now <= later.failing && now <= later.pruning ::
                Settled(outbox, maxPending, days, later) == Settled(old(outbox), maxPending, days, later)
    {
      hide Settled, DueWithin, Worked;
      ghost var failing, pruning;
      failed, stale, failing := FailStalePending(maxPending, batchSize, deadline, clock);
      pruned, due, pruning := PruneOutbox(days, batchSize, deadline, clock);
      at := Times(failing, pruning);
      BothSweepsSettle(old(outbox), maxPending, days, at);
      forall later: Times | now <= later.failing && now <= later.pruning
        ensures Settled(outbox, maxPending, days, later) == Settled(old(outbox), maxPending, days, later)
      {
        StoppedRunLosesNothing(old(outbox), maxPending, days, at, later, stale, due);
      }
    }

    /** Every batched prune in turn. Without a deadline nothing due is left, and the counts are of the rows changed. */
    method PruneAll(auditDays: nat, outboxDays: nat, maxPending: nat, deadline: Option<int>, clock: nat -> int)
      returns (auditEvents: nat, staleFailed: nat, outboxPruned: nat, ghost gone: set<Id>, ghost stale: set<Id>,
               ghost due: set<Id>, ghost auditAt: int, ghost at: Times)
      modifies this
      ensures old(now) <= auditAt <= at.failing <= at.pruning <= now
      ensures auditEvents == |gone| && staleFailed == |stale| && outboxPruned == |due|
      ensures audit == old(audit) - gone
      ensures outbox == Worked(Prune, Worked(FailStale, old(outbox), stale), due)
      ensures stale <= DueWithin(FailStale, old(outbox), maxPending, at.failing)
      ensures due <= DueWithin(Prune, Worked(FailStale, old(outbox), stale), outboxDays, at.pruning)
      ensures deadline.None? ==> outbox == Settled(old(outbox), maxPending, outboxDays, at)
      ensures deadline.None? && auditDays > 0 ==> gone == Expired(old(audit), Window(auditDays), auditAt)
      ensures auditDays == 0 ==> gone == {}
      ensures forall later: Times | now <= later.failing && now <= later.pruning ::
                Settled(outbox, maxPending, outboxDays, later) == Settled(old(outbox), maxPending, outboxDays, later)
    {
      hide Worked, DueWithin, Settled, Expired;
      auditEvents, gone, auditAt := PruneAudit(auditDays, AUDIT_PRUNE_BATCH, deadline, clock);
      staleFailed, outboxPruned, stale, due, at := PruneMail(maxPending, outboxDays, OUTBOX_BATCH, deadline, clock);
    }
  }

  /** One more batch, of rows due by its time. */
  lemma SweepStep(sweep: Sweep, rows: Outbox, done: set<Id>, batch: set<Id>, days: nat, at: int, now: int,
                  batchSize: nat)
    requires at <= now && done <= DueIn(sweep, rows, days, at) && batchSize > 0
    requires batch <= DueIn(sweep, Worked(sweep, rows, done), days, now)
    requires |batch| == Min(|DueIn(sweep, Worked(sweep, rows, done), days, now)|, batchSize)
    ensures Worked(sweep, Worked(sweep, rows, done), batch) == Worked(sweep, rows, done + batch)
    ensures done + batch <= DueIn(sweep, rows, days, now) && |done + batch| == |done| + |batch|
    ensures |rows.Keys - (done + batch)| == |rows.Keys - done| - |batch|
    ensures |batch| < batchSize ==> done + batch == DueIn(sweep, rows, days, now)
    ensures |batch| >= batchSize ==> |batch| > 0
  {
    hide DueIn, Worked, Min;
    var all := DueIn(sweep, rows, days, now);
    DueGrows(sweep, rows, days, at, now);
    DueAfter(sweep, rows, done, days, now);
    DueAreRows(sweep, rows, days, now);
    WorkedTwice(sweep, rows, done, batch);
    BatchSizes(all, done, batch);
    BatchSizes(rows.Keys, done, batch);
    ShortBatch(all, done, batch, batchSize);
  }

  lemma DueAreRows(sweep: Sweep, rows: Outbox, days: nat, now: int)
    ensures DueIn(sweep, rows, days, now) <= rows.Keys
  {
  }

  lemma ExpiredGrows(rows: map<Id, int>, days: nat, early: int, now: int)
    requires early <= now
    ensures Expired(rows, days, early) <= Expired(rows, days, now) <= rows.Keys
  {
  }

  /** One more batch, of rows that had expired by its time. */
  lemma AuditStep(rows: map<Id, int>, gone: set<Id>, batch: set<Id>, days: nat, at: int, now: int, batchSize: nat)
    requires at <= now && gone <= Expired(rows, days, at) && batch <= Expired(rows - gone, days, now) && batchSize > 0
    requires |batch| == Min(|Expired(rows - gone, days, now)|, Min(batchSize, MAX_BATCH))
    requires gone != {} ==> batchSize <= MAX_BATCH
    ensures rows - gone - batch == rows - (gone + batch)
    ensures gone + batch <= Expired(rows, days, now) && |gone + batch| == |gone| + |batch|
    ensures |rows.Keys - (gone + batch)| == |rows.Keys - gone| - |batch|
    ensures |batch| < batchSize ==>
              (gone + batch == Expired(rows, days, now)
               <==> batchSize <= MAX_BATCH || |Expired(rows, days, now)| <= MAX_BATCH)
    ensures |batch| >= batchSize ==> batchSize <= MAX_BATCH && |batch| > 0
  {
    hide Expired, Min;
    var all := Expired(rows, days, now);
    ExpiredGrows(rows, days, at, now);
    ExpiredAfter(rows, gone, days, now);
    BatchSizes(all, gone, batch);
    BatchSizes(rows.Keys, gone, batch);
    RemovedTwice(rows, gone, batch);
    LastBatch(all, gone, batch, batchSize);
  }

  lemma ExpiredAfter(rows: map<Id, int>, gone: set<Id>, days: nat, now: int)
    requires gone <= Expired(rows, days, now)
    ensures Expired(rows - gone, days, now) == Expired(rows, days, now) - gone
  {
  }

  /** A batch shorter than asked took everything that was left. */
  lemma ShortBatch(all: set<Id>, done: set<Id>, batch: set<Id>, batchSize: nat)
    requires done <= all && batch <= all - done && |batch| == Min(|all - done|, batchSize) && batchSize > 0
    ensures |batch| < batchSize ==> done + batch == all
    ensures |batch| >= batchSize ==> batch != {}
  {
    BatchSizes(all, done, batch);
    SubsetSize(done + batch, all);
  }

  /** A batch the cap or the rows cut short ends the run, with all of them gone or the cap reached at once. */
  lemma LastBatch(all: set<Id>, gone: set<Id>, batch: set<Id>, batchSize: nat)
    requires gone <= all && batch <= all - gone && batchSize > 0
    requires |batch| == Min(|all - gone|, Min(batchSize, MAX_BATCH))
    requires gone != {} ==> batchSize <= MAX_BATCH
    ensures |batch| < batchSize ==> (gone + batch == all <==> batchSize <= MAX_BATCH || |all| <= MAX_BATCH)
    ensures |batch| >= batchSize ==> batchSize <= MAX_BATCH && batch != {}
  {
    BatchSizes(all, gone, batch);
    SubsetSize(gone + batch, all);
    if gone == {} {
      assert all - gone == all;
    }
  }

  lemma RemovedTwice(rows: map<Id, int>, first: set<Id>, second: set<Id>)
    ensures rows - first - second == rows - (first + second)
  {
  }

  lemma BatchSizes(all: set<Id>, gone: set<Id>, batch: set<Id>)
    requires gone <= all && batch <= all - gone
    ensures gone + batch <= all && |gone + batch| == |gone| + |batch|
    ensures |all - (gone + batch)| == |all| - |gone| - |batch| && |all - gone| == |all| - |gone|
  {
  }
}
