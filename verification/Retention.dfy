/// Retention: the ordered deletes of one compaction pass, and the current queries that a pass must leave
/// alone (internal/storage/retention.go; internal/storage/query_policy.go, query_process.go, cache_query.go).

module Retention {
  import opened Common

  datatype Series = Observations | Activity | Classifications

  datatype WorktreeState = Removed | Retired | OtherState

  datatype Lifecycle = Quarantined | Partial | OtherLifecycle

  datatype QuarantineStatus = InQuarantine | Restored | Purged

  /// One row of any table; `open` marks a result of attempting, purging or partial.
  datatype Row =
    | Sample(series: Series, key: string, at: Time)
    | Decision(id: nat, evaluation: nat, policy: string, key: string, at: Time, candidate: bool, until: Time)
    | Evaluation(id: nat, at: Time)
    | Action(id: nat, requested: Time, open: bool)
    | WorktreeAction(worktree: string, requested: Time, open: bool)
    | Worktree(name: string, registered: bool, state: WorktreeState, lastSeen: Time, removedAt: Option<Time>)
    | Scan(at: Time)
    | Audit(id: nat, at: Time)
    | CacheObservation(artifact: string, evaluation: nat, at: Time)
    | CacheDecision(artifact: string, evaluation: nat)
    | CacheEvaluation(id: nat, at: Time)
    | CacheAction(id: nat, artifact: string, requested: Time, open: bool)
    | CacheQuarantine(artifact: string, status: QuarantineStatus, updated: Time)
    | CacheArtifact(artifact: string, evaluation: nat, lastObserved: Time, lifecycle: Lifecycle)
    | Ownership(session: string, key: string, confidence: real)
    | Process(key: string, exited: Option<Time>)
    | Session(session: string, ended: Option<Time>)
    | Relationship(session: string)

  /// All rows of the database, each table in its own order.
  type Database = seq<Row>

  /// The deletes, in the words of their WHERE clauses.
  datatype Statement =
    | OldSamples(series: Series, cutoff: Time)
    | OldDecisions(cutoff: Time, now: Time)
    | OldEvaluations(cutoff: Time)
    | OldActions(cutoff: Time)
    | OldWorktreeActions(cutoff: Time)
    | MissingWorktrees(cutoff: Time)
    | Tombstones(cutoff: Time)
    | OldScans(cutoff: Time)
    | OldAudit(cutoff: Time)
    | OldCacheObservations(cutoff: Time)
    | OldCacheDecisions(cutoff: Time)
    | OldCacheEvaluations(cutoff: Time)
    | OldCacheActions(cutoff: Time)
    | ClosedQuarantines(cutoff: Time)
    | OldCacheArtifacts(cutoff: Time)
    | DeadOwnership(cutoff: Time)
    | DeadProcesses(cutoff: Time)
    | EndedSessions(cutoff: Time)
    | OrphanSamples(series: Series)
    | OrphanRelationships

  // ---------------------------------------------------------------------------------------------
  // Subqueries
  // ---------------------------------------------------------------------------------------------

  function Larger(a: Option<nat>, b: nat): Option<nat> { if a.Some? && a.value >= b then a else Some(b) }

  /// `MAX(id)`; there is none in an empty table.
  function NewestEvaluation(db: Database): Option<nat> {
    if db == [] then None
    else
      var before := NewestEvaluation(db[..|db| - 1]);
      if db[|db| - 1].Evaluation? then Larger(before, db[|db| - 1].id) else before
  }

  function NewestCacheEvaluation(db: Database): Option<nat> {
    if db == [] then None
    else
      var before := NewestCacheEvaluation(db[..|db| - 1]);
      if db[|db| - 1].CacheEvaluation? then Larger(before, db[|db| - 1].id) else before
  }

  /// `<> MAX(id)`, which no row satisfies while the table is empty.
  predicate OtherThan(evaluation: nat, newest: Option<nat>) { newest.Some? && evaluation != newest.value }

  predicate ExitedBefore(db: Database, key: string, cutoff: Time) {
    exists p :: p in db && p.Process? && p.key == key && p.exited.Some? && p.exited.value < cutoff
  }

  predicate Known(db: Database, key: string) { exists p :: p in db && p.Process? && p.key == key }

  predicate Running(db: Database, key: string) { exists p :: p in db && p.Process? && p.key == key && p.exited.None? }

  predicate OpenCacheAction(db: Database, artifact: string) {
    exists a :: a in db && a.CacheAction? && a.artifact == artifact && a.open
  }

  predicate HeldInQuarantine(db: Database, artifact: string) {
    exists q :: q in db && q.CacheQuarantine? && q.artifact == artifact && q.status == InQuarantine
  }

  predicate OpenWorktreeAction(db: Database, worktree: string) {
    exists a :: a in db && a.WorktreeAction? && a.worktree == worktree && a.open
  }

  /// Does the statement delete this row, given the whole database as the subqueries see it?
  predicate Doomed(db: Database, s: Statement, r: Row) {
    match s
    case OldSamples(series, cutoff) => r.Sample? && r.series == series && r.at < cutoff
    case OldDecisions(cutoff, now) =>
      r.Decision? && r.at < cutoff && OtherThan(r.evaluation, NewestEvaluation(db)) && (!r.candidate || r.until <= now)
    case OldEvaluations(cutoff) =>
      r.Evaluation? && r.at < cutoff && OtherThan(r.id, NewestEvaluation(db))
      && !exists d :: d in db && d.Decision? && d.evaluation == r.id
    case OldActions(cutoff) => r.Action? && r.requested < cutoff
    case OldWorktreeActions(cutoff) => r.WorktreeAction? && r.requested < cutoff && !r.open
    case MissingWorktrees(cutoff) =>
      r.Worktree? && !r.registered && r.state == OtherState && r.lastSeen < cutoff && !OpenWorktreeAction(db, r.name)
    case Tombstones(cutoff) => r.Worktree? && r.state == Removed && r.removedAt.Some? && r.removedAt.value < cutoff
    case OldScans(cutoff) => r.Scan? && r.at < cutoff
    case OldAudit(cutoff) => r.Audit? && r.at < cutoff
    case OldCacheObservations(cutoff) =>
      r.CacheObservation? && r.at < cutoff && OtherThan(r.evaluation, NewestCacheEvaluation(db))
    case OldCacheDecisions(cutoff) =>
      r.CacheDecision? && OtherThan(r.evaluation, NewestCacheEvaluation(db))
      && exists e :: e in db && e.CacheEvaluation? && e.id == r.evaluation && e.at < cutoff
    case OldCacheEvaluations(cutoff) =>
      r.CacheEvaluation? && r.at < cutoff && OtherThan(r.id, NewestCacheEvaluation(db))
      && !(exists o :: o in db && o.CacheObservation? && o.evaluation == r.id)
      && !(exists d :: d in db && d.CacheDecision? && d.evaluation == r.id)
    case OldCacheActions(cutoff) => r.CacheAction? && r.requested < cutoff && !r.open
    case ClosedQuarantines(cutoff) => r.CacheQuarantine? && r.updated < cutoff && r.status != InQuarantine
    case OldCacheArtifacts(cutoff) =>
      r.CacheArtifact? && r.lastObserved < cutoff && OtherThan(r.evaluation, NewestCacheEvaluation(db))
      && r.lifecycle == OtherLifecycle && !HeldInQuarantine(db, r.artifact) && !OpenCacheAction(db, r.artifact)
    case DeadOwnership(cutoff) => r.Ownership? && ExitedBefore(db, r.key, cutoff)
    case DeadProcesses(cutoff) => r.Process? && r.exited.Some? && r.exited.value < cutoff
    case EndedSessions(cutoff) => r.Session? && r.ended.Some? && r.ended.value < cutoff
    case OrphanSamples(series) => r.Sample? && r.series == series && !Known(db, r.key)
    case OrphanRelationships => r.Relationship? && !exists x :: x in db && x.Session? && x.session == r.session
  }

  /// The rows among `rows` that the statement leaves.
  function Remaining(db: Database, s: Statement, rows: seq<Row>): seq<Row> {
    if rows == [] then []
    else if Doomed(db, s, rows[|rows| - 1]) then Remaining(db, s, rows[..|rows| - 1])
    else Remaining(db, s, rows[..|rows| - 1]) + [rows[|rows| - 1]]
  }

  function Delete(db: Database, s: Statement): Database { Remaining(db, s, db) }

  function Apply(db: Database, steps: seq<Statement>): Database
    decreases |steps|
  {
    if steps == [] then db else Delete(Apply(db, steps[..|steps| - 1]), steps[|steps| - 1])
  }

  // ---------------------------------------------------------------------------------------------
  // One pass
  // ---------------------------------------------------------------------------------------------

  datatype Limits =
      Limits(samples: int, scans: int, audit: int, decisions: int, actions: int, processes: int, sessions: int)

  function Cutoff(now: Time, d: int): Time { now - if d <= 0 then 60 * MINUTE else d }

  function Opening(p: Limits, now: Time): seq<Statement> {
    [OldSamples(Observations, Cutoff(now, p.samples)), OldSamples(Activity, Cutoff(now, p.samples)),
     OldSamples(Classifications, Cutoff(now, p.samples)),
     OldDecisions(Cutoff(now, p.decisions), now), OldEvaluations(Cutoff(now, p.decisions)),
     OldActions(Cutoff(now, p.actions)), OldWorktreeActions(Cutoff(now, p.actions)),
     MissingWorktrees(Cutoff(now, p.actions)), Tombstones(Cutoff(now, p.actions)), OldScans(Cutoff(now, p.scans)),
     OldAudit(Cutoff(now, p.audit)),
     OldCacheObservations(Cutoff(now, p.samples)), OldCacheDecisions(Cutoff(now, p.decisions)),
     OldCacheEvaluations(Cutoff(now, p.decisions)), OldCacheActions(Cutoff(now, p.actions)),
     ClosedQuarantines(Cutoff(now, p.actions)), OldCacheArtifacts(Cutoff(now, p.actions))]
  }

  function Closing(p: Limits, now: Time): seq<Statement> {
    [EndedSessions(Cutoff(now, p.sessions)), OrphanSamples(Observations), OrphanSamples(Activity),
     OrphanSamples(Classifications), OrphanRelationships]
  }

  function Steps(p: Limits, now: Time): seq<Statement> {
    Opening(p, now) + [DeadOwnership(Cutoff(now, p.processes)), DeadProcesses(Cutoff(now, p.processes))]
    + Closing(p, now)
  }

  function CompactOnce(db: Database, p: Limits, now: Time): Database { Apply(db, Steps(p, now)) }

  /// Go's integer division truncates toward zero.
  function Half(d: int): int { if d >= 0 then d / 2 else -(-d / 2) }

  function Halved(p: Limits): Limits {
    Limits(Half(p.samples), Half(p.scans), Half(p.audit), Half(p.decisions), Half(p.actions), Half(p.processes),
           Half(p.sessions))
  }

  function Compacted(db: Database, p: Limits, now: Time, overBudget: bool): Database {
    var once := CompactOnce(db, p, now);
    if overBudget then CompactOnce(once, Halved(p), now) else once
  }

  // ---------------------------------------------------------------------------------------------
  // What the current queries want
  // ---------------------------------------------------------------------------------------------

  datatype Query =
    | CurrentDecisions
    | CoolingCandidates(now: Time)
    | CurrentArtifacts
    | LiveOwnership
    | KeptCacheRows
    | OpenActions
    | RunningProcesses

  /// The rows a query reads its answer from.
  predicate Wanted(db: Database, q: Query, r: Row) {
    match q
    case CurrentDecisions => r.Decision? && NewestEvaluation(db) == Some(r.evaluation) && Running(db, r.key)
    case CoolingCandidates(now) => r.Decision? && r.candidate && r.until > now
    case CurrentArtifacts => r.CacheArtifact? && NewestCacheEvaluation(db) == Some(r.evaluation)
    case LiveOwnership => r.Ownership? && (!Known(db, r.key) || Running(db, r.key))
    case KeptCacheRows =>
      || (r.CacheQuarantine? && r.status == InQuarantine)
      || (r.CacheArtifact?
           && (r.lifecycle != OtherLifecycle || HeldInQuarantine(db, r.artifact) || OpenCacheAction(db, r.artifact)))
    case OpenActions =>
      (r.CacheAction? && r.open) || (r.WorktreeAction? && r.open) || (r.Worktree? && r.state == Retired)
    case RunningProcesses => r.Process? && r.exited.None?
  }

  /// The answer: the wanted rows, in order.
  function Select(db: Database, q: Query, rows: seq<Row>): seq<Row> {
    if rows == [] then []
    else if Wanted(db, q, rows[|rows| - 1]) then Select(db, q, rows[..|rows| - 1]) + [rows[|rows| - 1]]
    else Select(db, q, rows[..|rows| - 1])
  }

  function Answer(db: Database, q: Query): seq<Row> { Select(db, q, db) }

  /// One row per process identity, as the primary key enforces.
  ghost predicate UniqueProcesses(db: Database) {
    forall p, q :: p in db && q in db && p.Process? && q.Process? && p.key == q.key ==> p == q
  }

  // ---------------------------------------------------------------------------------------------
  // A delete leaves exactly the rows it does not name
  // ---------------------------------------------------------------------------------------------

  lemma {:induction false} RemainingRows(db: Database, s: Statement, rows: seq<Row>, r: Row)
    ensures r in Remaining(db, s, rows) <==> r in rows && !Doomed(db, s, r)
  {
    if rows != [] {
      RemainingRows(db, s, rows[..|rows| - 1], r);
      assert rows == rows[..|rows| - 1] + [rows[|rows| - 1]];
    }
  }

  lemma DeletedRows(db: Database, s: Statement)
    ensures forall r :: r in Delete(db, s) <==> r in db && !Doomed(db, s, r)
  {
    forall r ensures r in Delete(db, s) <==> r in db && !Doomed(db, s, r) {
      RemainingRows(db, s, db, r);
    }
  }

  lemma {:induction false} NewestIsMax(db: Database)
    ensures match NewestEvaluation(db)
            case None => forall e :: e in db ==> !e.Evaluation?
            case Some(n) =>
              && (exists e :: e in db && e.Evaluation? && e.id == n)
              && forall e :: e in db && e.Evaluation? ==> e.id <= n
  {
    if db != [] {
      NewestIsMax(db[..|db| - 1]);
      assert db == db[..|db| - 1] + [db[|db| - 1]];
      assert db[|db| - 1] in db;
    }
  }

  lemma {:induction false} NewestCacheIsMax(db: Database)
    ensures match NewestCacheEvaluation(db)
            case None => forall e :: e in db ==> !e.CacheEvaluation?
            case Some(n) =>
              && (exists e :: e in db && e.CacheEvaluation? && e.id == n)
              && forall e :: e in db && e.CacheEvaluation? ==> e.id <= n
  {
    if db != [] {
      NewestCacheIsMax(db[..|db| - 1]);
      assert db == db[..|db| - 1] + [db[|db| - 1]];
      assert db[|db| - 1] in db;
    }
  }

  lemma Stays(db: Database, s: Statement, r: Row)
    requires r in db && !Doomed(db, s, r)
    ensures r in Delete(db, s)
  {
    RemainingRows(db, s, db, r);
  }

  lemma OnlyFewerRows(db: Database, s: Statement)
    ensures forall r :: r in Delete(db, s) ==> r in db
  {
    forall r ensures r in Delete(db, s) ==> r in db { RemainingRows(db, s, db, r); }
  }

  /// Rows that no statement of the compaction names.
  predicate Guarded(db: Database, r: Row) {
    || (r.Evaluation? && NewestEvaluation(db) == Some(r.id))
    || (r.CacheEvaluation? && NewestCacheEvaluation(db) == Some(r.id))
    || (r.Process? && r.exited.None?) || (r.CacheQuarantine? && r.status == InQuarantine) || (r.CacheAction? && r.open)
  }

  lemma GuardedStays(db: Database, s: Statement, r: Row)
    requires r in db && Guarded(db, r)
    ensures r in Delete(db, s)
  {
    assert !Doomed(db, s, r);
    Stays(db, s, r);
  }

  lemma NewestKept(db: Database, s: Statement)
    ensures NewestEvaluation(Delete(db, s)) == NewestEvaluation(db)
  {
    OnlyFewerRows(db, s);
    NewestIsMax(db);
    NewestIsMax(Delete(db, s));
    if NewestEvaluation(db).Some? {
      var e :| e in db && e.Evaluation? && e.id == NewestEvaluation(db).value;
      GuardedStays(db, s, e);
    }
  }

  lemma NewestCacheKept(db: Database, s: Statement)
    ensures NewestCacheEvaluation(Delete(db, s)) == NewestCacheEvaluation(db)
  {
    OnlyFewerRows(db, s);
    NewestCacheIsMax(db);
    NewestCacheIsMax(Delete(db, s));
    if NewestCacheEvaluation(db).Some? {
      var e :| e in db && e.CacheEvaluation? && e.id == NewestCacheEvaluation(db).value;
      GuardedStays(db, s, e);
    }
  }

  lemma RunningKept(db: Database, s: Statement, key: string)
    ensures Running(Delete(db, s), key) <==> Running(db, key)
  {
    OnlyFewerRows(db, s);
    if Running(db, key) {
      var p :| p in db && p.Process? && p.key == key && p.exited.None?;
      GuardedStays(db, s, p);
    }
  }

  lemma KnownKept(db: Database, s: Statement, key: string)
    requires !s.DeadProcesses?
    ensures Known(Delete(db, s), key) <==> Known(db, key)
  {
    OnlyFewerRows(db, s);
    if Known(db, key) {
      var p :| p in db && p.Process? && p.key == key;
      Stays(db, s, p);
    }
  }

  lemma HeldKept(db: Database, s: Statement, artifact: string)
    ensures HeldInQuarantine(Delete(db, s), artifact) <==> HeldInQuarantine(db, artifact)
  {
    OnlyFewerRows(db, s);
    if HeldInQuarantine(db, artifact) {
      var q :| q in db && q.CacheQuarantine? && q.artifact == artifact && q.status == InQuarantine;
      GuardedStays(db, s, q);
    }
  }

  lemma OpenKept(db: Database, s: Statement, artifact: string)
    ensures OpenCacheAction(Delete(db, s), artifact) <==> OpenCacheAction(db, artifact)
  {
    OnlyFewerRows(db, s);
    if OpenCacheAction(db, artifact) {
      var a :| a in db && a.CacheAction? && a.artifact == artifact && a.open;
      GuardedStays(db, s, a);
    }
  }

  lemma {:induction false} SelectKept(db: Database, s: Statement, after: Database, q: Query, rows: seq<Row>)
    requires forall r :: r in rows && Wanted(db, q, r) ==> !Doomed(db, s, r)
    requires forall r :: r in rows && !Doomed(db, s, r) ==> (Wanted(after, q, r) <==> Wanted(db, q, r))
    ensures Select(after, q, Remaining(db, s, rows)) == Select(db, q, rows)
  {
    if rows != [] {
      var init, r := rows[..|rows| - 1], rows[|rows| - 1];
      assert r in rows && forall x :: x in init ==> x in rows;
      SelectKept(db, s, after, q, init);
      if !Doomed(db, s, r) {
        assert Remaining(db, s, rows)[..|Remaining(db, s, init)|] == Remaining(db, s, init);
      }
    }
  }

  /// What a statement must not do for a query to be left alone.
  ghost predicate Harmless(db: Database, s: Statement, q: Query) {
    && (s.OldDecisions? && q.CoolingCandidates? ==> s.now <= q.now)
    && (q.LiveOwnership? ==> UniqueProcesses(db))
    && (q.LiveOwnership? && s.DeadProcesses? ==>
         forall r :: r in db && r.Ownership? ==> !ExitedBefore(db, r.key, s.cutoff))
  }

  lemma WantedIsSpared(db: Database, s: Statement, q: Query, r: Row)
    requires r in db && Wanted(db, q, r) && Harmless(db, s, q)
    ensures !Doomed(db, s, r)
  {}

  lemma StillLive(db: Database, s: Statement, r: Row)
    requires r in db && r.Ownership? && Harmless(db, s, LiveOwnership)
    ensures Wanted(Delete(db, s), LiveOwnership, r) <==> Wanted(db, LiveOwnership, r)
  {
    RunningKept(db, s, r.key);
    if !s.DeadProcesses? {
      KnownKept(db, s, r.key);
    } else if Known(db, r.key) {
      LosesNoProcess(db, s, r);
    } else {
      DeletedRows(db, s);
    }
  }

  lemma StillWanted(db: Database, s: Statement, q: Query, r: Row)
    requires r in db && Harmless(db, s, q)
    ensures Wanted(Delete(db, s), q, r) <==> Wanted(db, q, r)
  {
    NewestKept(db, s);
    NewestCacheKept(db, s);
    match q
    case CurrentDecisions => if r.Decision? { RunningKept(db, s, r.key); }
    case LiveOwnership => if r.Ownership? { StillLive(db, s, r); }
    case KeptCacheRows =>
      if r.CacheArtifact? {
        HeldKept(db, s, r.artifact);
        OpenKept(db, s, r.artifact);
      }
    case _ =>
  }

  /// A process row that an ownership row refers to is only deleted when it is named as exited.
  lemma LosesNoProcess(db: Database, s: Statement, r: Row)
    requires s.DeadProcesses? && r in db && r.Ownership? && Known(db, r.key) && Harmless(db, s, LiveOwnership)
    ensures Known(Delete(db, s), r.key)
  {
    DeletedRows(db, s);
    var p :| p in db && p.Process? && p.key == r.key;
    assert !ExitedBefore(db, r.key, s.cutoff);
    assert !Doomed(db, s, p);
  }

  /// One harmless delete leaves the answer of the query exactly as it was, row by row and in order.
  lemma DeleteKeepsAnswer(db: Database, s: Statement, q: Query)
    requires Harmless(db, s, q)
    ensures Answer(Delete(db, s), q) == Answer(db, q)
  {
    forall r | r in db && Wanted(db, q, r) ensures !Doomed(db, s, r) {
      WantedIsSpared(db, s, q, r);
    }
    forall r | r in db && !Doomed(db, s, r) ensures Wanted(Delete(db, s), q, r) <==> Wanted(db, q, r) {
      StillWanted(db, s, q, r);
    }
    SelectKept(db, s, Delete(db, s), q, db);
  }

  lemma UniqueKept(db: Database, s: Statement)
    requires UniqueProcesses(db)
    ensures UniqueProcesses(Delete(db, s))
  {
    DeletedRows(db, s);
  }

  // ---------------------------------------------------------------------------------------------
  // A whole pass
  // ---------------------------------------------------------------------------------------------

  predicate Mild(s: Statement, q: Query) {
    !s.DeadProcesses? && (s.OldDecisions? && q.CoolingCandidates? ==> s.now <= q.now)
  }

  lemma {:induction false} ApplyKeepsAnswer(db: Database, steps: seq<Statement>, q: Query)
    requires UniqueProcesses(db) && forall s :: s in steps ==> Mild(s, q)
    ensures Answer(Apply(db, steps), q) == Answer(db, q) && UniqueProcesses(Apply(db, steps))
    decreases |steps|
  {
    if steps != [] {
      var init, s := steps[..|steps| - 1], steps[|steps| - 1];
      assert s in steps && forall x :: x in init ==> x in steps;
      ApplyKeepsAnswer(db, init, q);
      DeleteKeepsAnswer(Apply(db, init), s, q);
      UniqueKept(Apply(db, init), s);
    }
  }

  lemma {:induction false} ApplySplits(db: Database, first: seq<Statement>, more: seq<Statement>)
    ensures Apply(db, first + more) == Apply(Apply(db, first), more)
    decreases |more|
  {
    if more == [] {
      assert first + more == first;
    } else {
      assert (first + more)[..|first + more| - 1] == first + more[..|more| - 1];
      ApplySplits(db, first, more[..|more| - 1]);
    }
  }

  /// Ownership goes first: afterwards no ownership row refers to a process about to be deleted.
  lemma OwnershipGoesFirst(db: Database, cutoff: Time)
    ensures forall r :: r in Delete(db, DeadOwnership(cutoff)) && r.Ownership?
              ==> !ExitedBefore(Delete(db, DeadOwnership(cutoff)), r.key, cutoff)
  {
    DeletedRows(db, DeadOwnership(cutoff));
    forall r | r in Delete(db, DeadOwnership(cutoff)) && r.Ownership?
      ensures !ExitedBefore(Delete(db, DeadOwnership(cutoff)), r.key, cutoff)
    {
      assert !ExitedBefore(db, r.key, cutoff);
    }
  }

  lemma ProcessesAfterOwnership(db: Database, cutoff: Time, q: Query)
    requires UniqueProcesses(db)
    ensures Answer(Apply(db, [DeadOwnership(cutoff), DeadProcesses(cutoff)]), q) == Answer(db, q)
    ensures UniqueProcesses(Apply(db, [DeadOwnership(cutoff), DeadProcesses(cutoff)]))
  {
    var both := [DeadOwnership(cutoff), DeadProcesses(cutoff)];
    assert both[..1] == [DeadOwnership(cutoff)];
    assert [DeadOwnership(cutoff)][..0] == [];
    var one := Delete(db, DeadOwnership(cutoff));
    assert Apply(db, both[..1]) == one;
    DeleteKeepsAnswer(db, DeadOwnership(cutoff), q);
    UniqueKept(db, DeadOwnership(cutoff));
    OwnershipGoesFirst(db, cutoff);
    DeleteKeepsAnswer(one, DeadProcesses(cutoff), q);
    UniqueKept(one, DeadProcesses(cutoff));
  }

  lemma OpeningIsMild(p: Limits, now: Time, q: Query)
    requires q.CoolingCandidates? ==> now <= q.now
    ensures forall s :: s in Opening(p, now) ==> Mild(s, q)
  {}

  lemma ClosingIsMild(p: Limits, now: Time, q: Query)
    ensures forall s :: s in Closing(p, now) ==> Mild(s, q)
  {}

  lemma CompactOnceKeepsAnswer(db: Database, p: Limits, now: Time, q: Query)
    requires UniqueProcesses(db) && (q.CoolingCandidates? ==> now <= q.now)
    ensures Answer(CompactOnce(db, p, now), q) == Answer(db, q) && UniqueProcesses(CompactOnce(db, p, now))
  {
    var middle := [DeadOwnership(Cutoff(now, p.processes)), DeadProcesses(Cutoff(now, p.processes))];
    ApplySplits(db, Opening(p, now) + middle, Closing(p, now));
    ApplySplits(db, Opening(p, now), middle);
    OpeningIsMild(p, now, q);
    ClosingIsMild(p, now, q);
    ApplyKeepsAnswer(db, Opening(p, now), q);
    ProcessesAfterOwnership(Apply(db, Opening(p, now)), Cutoff(now, p.processes), q);
    ApplyKeepsAnswer(Apply(Apply(db, Opening(p, now)), middle), Closing(p, now), q);
  }

  /// Retention, with the second pass at halved limits when the database is over budget, leaves alone: the
  /// current policy decisions, running cooldowns, the current cache projection, what live ownership is
  /// loaded from, everything quarantined or unresolved in the cache, unresolved worktree actions and
  /// retired worktrees, and running processes; for any limits whatever.
  lemma CompactKeepsAnswers(db: Database, p: Limits, now: Time, overBudget: bool, q: Query)
    requires UniqueProcesses(db) && (q.CoolingCandidates? ==> now <= q.now)
    ensures Answer(Compacted(db, p, now, overBudget), q) == Answer(db, q)
  {
    CompactOnceKeepsAnswer(db, p, now, q);
    if overBudget { CompactOnceKeepsAnswer(CompactOnce(db, p, now), Halved(p), now, q); }
  }

  // ---------------------------------------------------------------------------------------------
  // What the order and the exemptions are worth
  // ---------------------------------------------------------------------------------------------

  lemma SelectTwo(db: Database, q: Query, r: Row, t: Row)
    ensures Select(db, q, [r, t]) == (if Wanted(db, q, r) then [r] else []) + if Wanted(db, q, t) then [t] else []
    ensures Select(db, q, [t]) == if Wanted(db, q, t) then [t] else []
  {
    assert [r, t][..1] == [r] && [r][..0] == [] && [t][..0] == [];
    assert Select(db, q, []) == [];
  }

  lemma RemainingTwo(db: Database, s: Statement, r: Row, t: Row)
    ensures Remaining(db, s, [r, t]) == (if Doomed(db, s, r) then [] else [r]) + if Doomed(db, s, t) then [] else [t]
  {
    assert [r, t][..1] == [r] && [r][..0] == [];
    assert Remaining(db, s, []) == [];
  }

  lemma OnlyTheProcessIsDoomed(db: Database, p: Row, o: Row, cutoff: Time)
    requires p.Process? && p.exited.Some? && p.exited.value < cutoff && o.Ownership?
    ensures Doomed(db, DeadProcesses(cutoff), p) && !Doomed(db, DeadProcesses(cutoff), o)
  {}

  lemma OwnershipWanted(p: Row, o: Row)
    requires p.Process? && p.exited.Some? && o.Ownership? && o.key == p.key
    ensures !Wanted([p, o], LiveOwnership, p) && !Wanted([p, o], LiveOwnership, o) && Wanted([o], LiveOwnership, o)
  {
    assert p in [p, o] && forall r :: r in [p, o] ==> r == p || r == o;
  }

  /// The other order would make an exited process's ownership look live again.
  lemma ProcessesFirstRevivesOwnership(p: Row, o: Row, cutoff: Time)
    requires p.Process? && p.exited.Some? && p.exited.value < cutoff && o.Ownership? && o.key == p.key
    ensures Answer([p, o], LiveOwnership) == [] && Answer(Delete([p, o], DeadProcesses(cutoff)), LiveOwnership) == [o]
  {
    var db, s := [p, o], DeadProcesses(cutoff);
    OnlyTheProcessIsDoomed(db, p, o, cutoff);
    OwnershipWanted(p, o);
    calc {
      Answer(Delete(db, s), LiveOwnership);
      { RemainingTwo(db, s, p, o); }
      Answer([o], LiveOwnership);
      { SelectTwo([o], LiveOwnership, p, o); }
      [o];
    }
    SelectTwo(db, LiveOwnership, p, o);
  }

  /// Process actions have no exemption: a pass deletes exactly the old ones, unresolved or not.
  lemma ProcessActionsAreDeletedByAge(db: Database, p: Limits, now: Time, r: Row)
    requires r in db && r.Action?
    ensures r in CompactOnce(db, p, now) <==> r.requested >= Cutoff(now, p.actions)
  {
    ActionFate(db, Steps(p, now), r);
    ActionsNamedOnce(p, now);
  }

  lemma ActionsNamedOnce(p: Limits, now: Time)
    ensures OldActions(Cutoff(now, p.actions)) in Steps(p, now)
    ensures forall s :: s in Steps(p, now) && s.OldActions? ==> s == OldActions(Cutoff(now, p.actions))
  {
    assert Opening(p, now)[5] == OldActions(Cutoff(now, p.actions));
    assert OldActions(Cutoff(now, p.actions)) in Opening(p, now);
    assert forall s :: s in Opening(p, now) && s.OldActions? ==> s == OldActions(Cutoff(now, p.actions));
    assert forall s :: s in Closing(p, now) ==> !s.OldActions?;
  }

  lemma {:induction false} ActionFate(db: Database, steps: seq<Statement>, r: Row)
    requires r in db && r.Action?
    ensures r in Apply(db, steps) <==> forall s :: s in steps && s.OldActions? ==> r.requested >= s.cutoff
    decreases |steps|
  {
    if steps != [] {
      var init, s := steps[..|steps| - 1], steps[|steps| - 1];
      assert steps == init + [s];
      ActionFate(db, init, r);
      RemainingRows(Apply(db, init), s, Apply(db, init), r);
    }
  }

  // ---------------------------------------------------------------------------------------------
  // The pass as the store runs it
  // ---------------------------------------------------------------------------------------------

  class Store {
    var rows: Database
    /// Rows removed so far, per statement position of the running pass.
    var removed: seq<nat>

    constructor (rows: Database)
      ensures this.rows == rows && removed == []
    {
      this.rows, removed := rows, [];
    }

    method Execute(s: Statement) returns (affected: nat)
      modifies this`rows
      ensures rows == Delete(old(rows), s)
      ensures affected + |rows| == |old(rows)|
    {
      var before := rows;
      var kept: Database := [];
      affected := 0;
      for i := 0 to |before|
        invariant rows == before
        invariant kept == Remaining(before, s, before[..i]) && affected + |kept| == i
      {
        assert before[..i + 1][..i] == before[..i];
        if Doomed(before, s, before[i]) { affected := affected + 1; } else { kept := kept + [before[i]]; }
      }
      assert before[..|before|] == before;
      rows := kept;
    }

    /// One pass; the counters add up to the rows that are gone.
    method RunPass(p: Limits, now: Time)
      modifies this
      ensures rows == CompactOnce(old(rows), p, now)
      ensures Sum(removed) + |rows| == Sum(old(removed)) + |old(rows)|
    {
      var steps := Steps(p, now);
      ghost var start := rows;
      for i := 0 to |steps|
        invariant rows == Apply(start, steps[..i])
        invariant Sum(removed) + |rows| == Sum(old(removed)) + |start|
      {
        assert steps[..i + 1][..i] == steps[..i];
        var n := Execute(steps[i]);
        assert (removed + [n])[..|removed|] == removed;
        removed := removed + [n];
      }
      assert steps[..|steps|] == steps;
    }

    method Compact(p: Limits, now: Time, overBudget: bool)
      modifies this
      ensures rows == Compacted(old(rows), p, now, overBudget)
      ensures Sum(removed) + |rows| == Sum(old(removed)) + |old(rows)|
    {
      RunPass(p, now);
      if overBudget { RunPass(Halved(p), now); }
    }
  }

  function Sum(counts: seq<nat>): nat { if counts == [] then 0 else Sum(counts[..|counts| - 1]) + counts[|counts| - 1] }
}
