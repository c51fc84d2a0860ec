/// Which rows one retention pass removes, table by table, in terms of the database it starts from
/// (internal/storage/retention.go).

module RetentionFates {
  import opened Common
  import opened Retention

  // ---------------------------------------------------------------------------------------------
  // What a pass keeps
  // ---------------------------------------------------------------------------------------------

  /// The instants before which rows are old.
  datatype Cutoffs = Cutoffs(samples: Time, scans: Time, audit: Time, decisions: Time, actions: Time, processes: Time,
                             sessions: Time)

  /// A limit that is not positive counts as an hour.
  function Before(now: Time, limit: int): Time { if limit > 0 then now - limit else now - 60 * MINUTE }

  function CutoffsOf(p: Limits, now: Time): Cutoffs {
    Cutoffs(Before(now, p.samples), Before(now, p.scans), Before(now, p.audit), Before(now, p.decisions),
            Before(now, p.actions), Before(now, p.processes), Before(now, p.sessions))
  }

  /// The evaluation is the newest of all, or there is none.
  ghost predicate Newest(db: Database, evaluation: nat) {
    || (forall e :: e in db ==> !e.Evaluation?)
    || ((exists e :: e in db && e.Evaluation? && e.id == evaluation)
        && forall e :: e in db && e.Evaluation? ==> e.id <= evaluation)
  }

  ghost predicate NewestOfCache(db: Database, evaluation: nat) {
    || (forall e :: e in db ==> !e.CacheEvaluation?)
    || ((exists e :: e in db && e.CacheEvaluation? && e.id == evaluation)
        && forall e :: e in db && e.CacheEvaluation? ==> e.id <= evaluation)
  }

  ghost predicate KeepsDecision(db: Database, c: Cutoffs, now: Time, r: Row)
    requires r.Decision?
  {
    c.decisions <= r.at || Newest(db, r.evaluation) || (r.candidate && now < r.until)
  }

  ghost predicate KeepsCacheObservation(db: Database, c: Cutoffs, r: Row)
    requires r.CacheObservation?
  {
    c.samples <= r.at || NewestOfCache(db, r.evaluation)
  }

  /// A cache decision is as old as its evaluation.
  ghost predicate KeepsCacheDecision(db: Database, c: Cutoffs, r: Row)
    requires r.CacheDecision?
  {
    || NewestOfCache(db, r.evaluation)
    || forall e :: e in db && e.CacheEvaluation? && e.id == r.evaluation ==> c.decisions <= e.at
  }

  predicate KeepsProcess(c: Cutoffs, r: Row)
    requires r.Process?
  {
    r.exited.None? || c.processes <= r.exited.value
  }

  predicate KeepsSession(c: Cutoffs, r: Row)
    requires r.Session?
  {
    r.ended.None? || c.sessions <= r.ended.value
  }

  /// Every table: what is young enough, and of the old rows what is still needed.
  ghost predicate Keeps(db: Database, c: Cutoffs, now: Time, r: Row) {
    match r
    case Sample(_, key, at) =>
      c.samples <= at && exists x :: x in db && x.Process? && x.key == key && KeepsProcess(c, x)
    case Decision(_, _, _, _, _, _, _) => KeepsDecision(db, c, now, r)
    case Evaluation(id, at) =>
      || c.decisions <= at || Newest(db, id)
      || exists d :: d in db && d.Decision? && d.evaluation == id && KeepsDecision(db, c, now, d)
    case Action(_, requested, _) => c.actions <= requested
    case WorktreeAction(_, requested, open) => c.actions <= requested || open
    case Worktree(name, registered, state, lastSeen, removedAt) =>
      (match state
       case Removed => removedAt.None? || c.actions <= removedAt.value
       case Retired => true
       case OtherState =>
         || registered || c.actions <= lastSeen
         || exists a :: a in db && a.WorktreeAction? && a.worktree == name && a.open)
    case Scan(at) => c.scans <= at
    case Audit(_, at) => c.audit <= at
    case CacheObservation(_, _, _) => KeepsCacheObservation(db, c, r)
    case CacheDecision(_, _) => KeepsCacheDecision(db, c, r)
    case CacheEvaluation(id, at) =>
      || c.decisions <= at || NewestOfCache(db, id)
      || (exists o :: o in db && o.CacheObservation? && o.evaluation == id && KeepsCacheObservation(db, c, o))
      || (exists d :: d in db && d.CacheDecision? && d.evaluation == id && KeepsCacheDecision(db, c, d))
    case CacheAction(_, _, requested, open) => c.actions <= requested || open
    case CacheQuarantine(_, status, updated) => c.actions <= updated || status == InQuarantine
    case CacheArtifact(artifact, evaluation, lastObserved, lifecycle) =>
      || c.actions <= lastObserved || NewestOfCache(db, evaluation) || lifecycle != OtherLifecycle
      || (exists q :: q in db && q.CacheQuarantine? && q.artifact == artifact && q.status == InQuarantine)
      || (exists a :: a in db && a.CacheAction? && a.artifact == artifact && a.open)
    case Ownership(_, key, _) => forall x :: x in db && x.Process? && x.key == key ==> KeepsProcess(c, x)
    case Process(_, _) => KeepsProcess(c, r)
    case Session(_, _) => KeepsSession(c, r)
    case Relationship(session) =>
      exists x :: x in db && x.Session? && x.session == session && KeepsSession(c, x)
  }

  // ---------------------------------------------------------------------------------------------
  // Every statement on its own
  // ---------------------------------------------------------------------------------------------

  /// The tables, numbered; samples of each kind have their own.
  function TableOf(r: Row): nat {
    match r
    case Sample(series, _, _) => SeriesTable(series)
    case Decision(_, _, _, _, _, _, _) => 3
    case Evaluation(_, _) => 4
    case Action(_, _, _) => 5
    case WorktreeAction(_, _, _) => 6
    case Worktree(_, _, _, _, _) => 7
    case Scan(_) => 8
    case Audit(_, _) => 9
    case CacheObservation(_, _, _) => 10
    case CacheDecision(_, _) => 11
    case CacheEvaluation(_, _) => 12
    case CacheAction(_, _, _, _) => 13
    case CacheQuarantine(_, _, _) => 14
    case CacheArtifact(_, _, _, _) => 15
    case Ownership(_, _, _) => 16
    case Process(_, _) => 17
    case Session(_, _) => 18
    case Relationship(_) => 19
  }

  function SeriesTable(series: Series): nat {
    match series case Observations => 0 case Activity => 1 case Classifications => 2
  }

  function TableNamed(s: Statement): nat {
    match s
    case OldSamples(series, _) => SeriesTable(series)
    case OldDecisions(_, _) => 3
    case OldEvaluations(_) => 4
    case OldActions(_) => 5
    case OldWorktreeActions(_) => 6
    case MissingWorktrees(_) => 7
    case Tombstones(_) => 7
    case OldScans(_) => 8
    case OldAudit(_) => 9
    case OldCacheObservations(_) => 10
    case OldCacheDecisions(_) => 11
    case OldCacheEvaluations(_) => 12
    case OldCacheActions(_) => 13
    case ClosedQuarantines(_) => 14
    case OldCacheArtifacts(_) => 15
    case DeadOwnership(_) => 16
    case DeadProcesses(_) => 17
    case EndedSessions(_) => 18
    case OrphanSamples(series) => SeriesTable(series)
    case OrphanRelationships => 19
  }

  /// The statement deletes from the table of this row.
  predicate Addresses(s: Statement, r: Row) { TableNamed(s) == TableOf(r) }

  lemma DoomedIsAddressed(db: Database, s: Statement, r: Row)
    ensures Doomed(db, s, r) ==> Addresses(s, r)
  {}

  /// The database when statement `k` runs.
  function At(db: Database, steps: seq<Statement>, k: nat): Database
    requires k <= |steps|
  {
    Apply(db, steps[..k])
  }

  ghost predicate Spared(db: Database, steps: seq<Statement>, k: nat, r: Row)
    requires k < |steps|
  {
    !Doomed(At(db, steps, k), steps[k], r)
  }

  lemma NextAt(db: Database, steps: seq<Statement>, k: nat, r: Row)
    requires k < |steps|
    ensures r in At(db, steps, k + 1) <==> r in At(db, steps, k) && Spared(db, steps, k, r)
  {
    assert steps[..k + 1][..k] == steps[..k];
    RemainingRows(At(db, steps, k), steps[k], At(db, steps, k), r);
  }

  /// A row is there up to statement `k` exactly when no statement of its own table named it.
  lemma {:induction false} ThereUntil(db: Database, steps: seq<Statement>, k: nat, r: Row)
    requires k <= |steps|
    ensures r in At(db, steps, k)
      <==> r in db && forall j: nat :: j < k && Addresses(steps[j], r) ==> Spared(db, steps, j, r)
  {
    if k > 0 {
      ThereUntil(db, steps, k - 1, r);
      NextAt(db, steps, k - 1, r);
      DoomedIsAddressed(At(db, steps, k - 1), steps[k - 1], r);
    }
  }

  // ---------------------------------------------------------------------------------------------
  // What subqueries see
  // ---------------------------------------------------------------------------------------------

  lemma {:induction false} SameNewest(db: Database, steps: seq<Statement>, k: nat)
    requires k <= |steps|
    ensures NewestEvaluation(At(db, steps, k)) == NewestEvaluation(db)
    ensures NewestCacheEvaluation(At(db, steps, k)) == NewestCacheEvaluation(db)
  {
    if k > 0 {
      SameNewest(db, steps, k - 1);
      assert steps[..k][..k - 1] == steps[..k - 1];
      NewestKept(At(db, steps, k - 1), steps[k - 1]);
      NewestCacheKept(At(db, steps, k - 1), steps[k - 1]);
    }
  }

  lemma OtherThanNewest(db: Database, steps: seq<Statement>, k: nat, evaluation: nat)
    requires k <= |steps|
    ensures OtherThan(evaluation, NewestEvaluation(At(db, steps, k))) <==> !Newest(db, evaluation)
    ensures OtherThan(evaluation, NewestCacheEvaluation(At(db, steps, k))) <==> !NewestOfCache(db, evaluation)
  {
    SameNewest(db, steps, k);
    NewestIsMax(db);
    NewestCacheIsMax(db);
  }

  /// Rows that are open or in quarantine are there for every statement.
  lemma HeldThroughout(db: Database, steps: seq<Statement>, k: nat, r: Row)
    requires k <= |steps|
    requires (r.WorktreeAction? && r.open) || (r.CacheAction? && r.open)
             || (r.CacheQuarantine? && r.status == InQuarantine)
    ensures r in At(db, steps, k) <==> r in db
  {
    ThereUntil(db, steps, k, r);
  }

  /// Rows of a table that no earlier statement addresses are all there.
  lemma Untouched(db: Database, steps: seq<Statement>, k: nat, r: Row)
    requires k <= |steps| && forall j :: 0 <= j < k ==> !Addresses(steps[j], r)
    ensures r in At(db, steps, k) <==> r in db
  {
    ThereUntil(db, steps, k, r);
  }

  // ---------------------------------------------------------------------------------------------
  // The pass
  // ---------------------------------------------------------------------------------------------

  /// Which table each statement of a pass deletes from.
  const TABLES: seq<nat> := [0, 1, 2, 3, 4, 5, 6, 7, 7, 8, 9, 10, 11, 12, 13, 14, 15, 16, 17, 18, 0, 1, 2, 19]

  ghost predicate Tabled(steps: seq<Statement>) {
    |steps| == 24 && forall k :: 0 <= k < 24 ==> TableNamed(steps[k]) == TABLES[k]
  }

  lemma StepsAreTabled(p: Limits, now: Time)
    ensures Tabled(Steps(p, now))
  {}

  /// `k` is the only statement that addresses the row.
  ghost predicate OnlyStep(steps: seq<Statement>, k: nat, r: Row) {
    k < |steps| && forall j: nat :: j < |steps| ==> (Addresses(steps[j], r) <==> j == k)
  }

  lemma OnlyFate(db: Database, steps: seq<Statement>, k: nat, n: nat, r: Row)
    requires OnlyStep(steps, k, r) && n <= |steps|
    ensures r in At(db, steps, n) <==> r in db && (k < n ==> Spared(db, steps, k, r))
  {
    ThereUntil(db, steps, n, r);
  }

  lemma Only(steps: seq<Statement>, k: nat, r: Row)
    requires Tabled(steps) && k < 24 && TABLES[k] == TableOf(r)
    requires forall j :: 0 <= j < 24 && TABLES[j] == TABLES[k] ==> j == k
    ensures OnlyStep(steps, k, r)
  {
    forall j: nat | j < 24 ensures Addresses(steps[j], r) <==> j == k {
      assert TableNamed(steps[j]) == TABLES[j] && TableNamed(steps[k]) == TABLES[k];
    }
  }

  // ---------------------------------------------------------------------------------------------
  // Table by table
  // ---------------------------------------------------------------------------------------------

  lemma ActionFate(db: Database, steps: seq<Statement>, c: Cutoffs, now: Time, r: Row)
    requires Tabled(steps) && r.Action? && steps[5] == OldActions(c.actions)
    ensures r in At(db, steps, 24) <==> r in db && Keeps(db, c, now, r)
  {
    Only(steps, 5, r);
    OnlyFate(db, steps, 5, 24, r);
  }

  lemma ScanFate(db: Database, steps: seq<Statement>, c: Cutoffs, now: Time, r: Row)
    requires Tabled(steps) && r.Scan? && steps[9] == OldScans(c.scans)
    ensures r in At(db, steps, 24) <==> r in db && Keeps(db, c, now, r)
  {
    Only(steps, 9, r);
    OnlyFate(db, steps, 9, 24, r);
  }

  lemma AuditFate(db: Database, steps: seq<Statement>, c: Cutoffs, now: Time, r: Row)
    requires Tabled(steps) && r.Audit? && steps[10] == OldAudit(c.audit)
    ensures r in At(db, steps, 24) <==> r in db && Keeps(db, c, now, r)
  {
    Only(steps, 10, r);
    OnlyFate(db, steps, 10, 24, r);
  }

  lemma SessionFate(db: Database, steps: seq<Statement>, c: Cutoffs, now: Time, n: nat, r: Row)
    requires Tabled(steps) && r.Session? && steps[19] == EndedSessions(c.sessions) && 20 <= n <= 24
    ensures r in At(db, steps, n) <==> r in db && KeepsSession(c, r)
  {
    Only(steps, 19, r);
    OnlyFate(db, steps, 19, n, r);
  }

  lemma WorktreeActionFate(db: Database, steps: seq<Statement>, c: Cutoffs, now: Time, r: Row)
    requires Tabled(steps) && r.WorktreeAction? && steps[6] == OldWorktreeActions(c.actions)
    ensures r in At(db, steps, 24) <==> r in db && Keeps(db, c, now, r)
  {
    Only(steps, 6, r);
    OnlyFate(db, steps, 6, 24, r);
  }

  lemma CacheActionFate(db: Database, steps: seq<Statement>, c: Cutoffs, now: Time, r: Row)
    requires Tabled(steps) && r.CacheAction? && steps[14] == OldCacheActions(c.actions)
    ensures r in At(db, steps, 24) <==> r in db && Keeps(db, c, now, r)
  {
    Only(steps, 14, r);
    OnlyFate(db, steps, 14, 24, r);
  }

  lemma QuarantineFate(db: Database, steps: seq<Statement>, c: Cutoffs, now: Time, r: Row)
    requires Tabled(steps) && r.CacheQuarantine? && steps[15] == ClosedQuarantines(c.actions)
    ensures r in At(db, steps, 24) <==> r in db && Keeps(db, c, now, r)
  {
    Only(steps, 15, r);
    OnlyFate(db, steps, 15, 24, r);
  }

  lemma DecisionFate(db: Database, steps: seq<Statement>, c: Cutoffs, now: Time, n: nat, r: Row)
    requires Tabled(steps) && r.Decision? && steps[3] == OldDecisions(c.decisions, now) && 4 <= n <= 24
    ensures r in At(db, steps, n) <==> r in db && KeepsDecision(db, c, now, r)
  {
    Only(steps, 3, r);
    OnlyFate(db, steps, 3, n, r);
    OtherThanNewest(db, steps, 3, r.evaluation);
  }

  lemma EvaluationFate(db: Database, steps: seq<Statement>, c: Cutoffs, now: Time, r: Row)
    requires Tabled(steps) && r.Evaluation? && steps[4] == OldEvaluations(c.decisions)
    requires steps[3] == OldDecisions(c.decisions, now)
    ensures r in At(db, steps, 24) <==> r in db && Keeps(db, c, now, r)
  {
    Only(steps, 4, r);
    OnlyFate(db, steps, 4, 24, r);
    OtherThanNewest(db, steps, 4, r.id);
    forall d: Row | d.Decision? ensures d in At(db, steps, 4) <==> d in db && KeepsDecision(db, c, now, d) {
      DecisionFate(db, steps, c, now, 4, d);
    }
  }

  lemma CacheObservationFate(db: Database, steps: seq<Statement>, c: Cutoffs, now: Time, n: nat, r: Row)
    requires Tabled(steps) && r.CacheObservation? && steps[11] == OldCacheObservations(c.samples) && 12 <= n <= 24
    ensures r in At(db, steps, n) <==> r in db && KeepsCacheObservation(db, c, r)
  {
    Only(steps, 11, r);
    OnlyFate(db, steps, 11, n, r);
    OtherThanNewest(db, steps, 11, r.evaluation);
  }

  lemma CacheDecisionFate(db: Database, steps: seq<Statement>, c: Cutoffs, now: Time, n: nat, r: Row)
    requires Tabled(steps) && r.CacheDecision? && steps[12] == OldCacheDecisions(c.decisions) && 13 <= n <= 24
    ensures r in At(db, steps, n) <==> r in db && KeepsCacheDecision(db, c, r)
  {
    Only(steps, 12, r);
    OnlyFate(db, steps, 12, n, r);
    OtherThanNewest(db, steps, 12, r.evaluation);
    forall e: Row | e.CacheEvaluation? ensures e in At(db, steps, 12) <==> e in db {
      Only(steps, 13, e);
      OnlyFate(db, steps, 13, 12, e);
    }
  }

  lemma CacheEvaluationFate(db: Database, steps: seq<Statement>, c: Cutoffs, now: Time, r: Row)
    requires Tabled(steps) && r.CacheEvaluation? && steps[13] == OldCacheEvaluations(c.decisions)
    requires steps[11] == OldCacheObservations(c.samples) && steps[12] == OldCacheDecisions(c.decisions)
    ensures r in At(db, steps, 24) <==> r in db && Keeps(db, c, now, r)
  {
    Only(steps, 13, r);
    OnlyFate(db, steps, 13, 24, r);
    OtherThanNewest(db, steps, 13, r.id);
    forall o: Row | o.CacheObservation?
      ensures o in At(db, steps, 13) <==> o in db && KeepsCacheObservation(db, c, o)
    {
      CacheObservationFate(db, steps, c, now, 13, o);
    }
    forall d: Row | d.CacheDecision? ensures d in At(db, steps, 13) <==> d in db && KeepsCacheDecision(db, c, d) {
      CacheDecisionFate(db, steps, c, now, 13, d);
    }
  }

  lemma CacheArtifactFate(db: Database, steps: seq<Statement>, c: Cutoffs, now: Time, r: Row)
    requires Tabled(steps) && r.CacheArtifact? && steps[16] == OldCacheArtifacts(c.actions)
    ensures r in At(db, steps, 24) <==> r in db && Keeps(db, c, now, r)
  {
    Only(steps, 16, r);
    OnlyFate(db, steps, 16, 24, r);
    OtherThanNewest(db, steps, 16, r.evaluation);
    forall q: Row | (q.CacheQuarantine? && q.status == InQuarantine) || (q.CacheAction? && q.open)
      ensures q in At(db, steps, 16) <==> q in db
    {
      HeldThroughout(db, steps, 16, q);
    }
  }

  /// Worktrees are named twice, missing ones and tombstones.
  lemma WorktreeFate(db: Database, steps: seq<Statement>, c: Cutoffs, now: Time, r: Row)
    requires Tabled(steps) && r.Worktree? && steps[7] == MissingWorktrees(c.actions)
    requires steps[8] == Tombstones(c.actions)
    ensures r in At(db, steps, 24) <==> r in db && Keeps(db, c, now, r)
  {
    forall j: nat | j < 24 ensures Addresses(steps[j], r) <==> j == 7 || j == 8 {
      assert TableNamed(steps[j]) == TABLES[j];
    }
    ThereUntil(db, steps, 24, r);
    forall a: Row | a.WorktreeAction? && a.open ensures a in At(db, steps, 7) <==> a in db {
      HeldThroughout(db, steps, 7, a);
    }
  }

  lemma ProcessesAt(db: Database, steps: seq<Statement>, c: Cutoffs, n: nat, r: Row)
    requires Tabled(steps) && r.Process? && n <= 24 && steps[18] == DeadProcesses(c.processes)
    ensures r in At(db, steps, n) <==> r in db && (n > 18 ==> KeepsProcess(c, r))
  {
    Only(steps, 18, r);
    OnlyFate(db, steps, 18, n, r);
  }

  lemma OwnershipFate(db: Database, steps: seq<Statement>, c: Cutoffs, now: Time, r: Row)
    requires Tabled(steps) && r.Ownership? && steps[17] == DeadOwnership(c.processes)
    requires steps[18] == DeadProcesses(c.processes)
    ensures r in At(db, steps, 24) <==> r in db && Keeps(db, c, now, r)
  {
    Only(steps, 17, r);
    OnlyFate(db, steps, 17, 24, r);
    forall x: Row | x.Process? ensures x in At(db, steps, 17) <==> x in db { ProcessesAt(db, steps, c, 17, x); }
  }

  /// Samples are named by age and again when their process is gone.
  lemma SampleFate(db: Database, steps: seq<Statement>, c: Cutoffs, now: Time, r: Row)
    requires Tabled(steps) && r.Sample? && steps[18] == DeadProcesses(c.processes)
    requires steps[SeriesTable(r.series)] == OldSamples(r.series, c.samples)
    requires steps[20 + SeriesTable(r.series)] == OrphanSamples(r.series)
    ensures r in At(db, steps, 24) <==> r in db && Keeps(db, c, now, r)
  {
    var k := SeriesTable(r.series);
    forall j: nat | j < 24 ensures Addresses(steps[j], r) <==> j == k || j == 20 + k {
      assert TableNamed(steps[j]) == TABLES[j];
    }
    ThereUntil(db, steps, 24, r);
    forall x: Row | x.Process? ensures x in At(db, steps, 20 + k) <==> x in db && KeepsProcess(c, x) {
      ProcessesAt(db, steps, c, 20 + k, x);
    }
  }

  lemma RelationshipFate(db: Database, steps: seq<Statement>, c: Cutoffs, now: Time, r: Row)
    requires Tabled(steps) && r.Relationship? && steps[23] == OrphanRelationships
    requires steps[19] == EndedSessions(c.sessions)
    ensures r in At(db, steps, 24) <==> r in db && Keeps(db, c, now, r)
  {
    Only(steps, 23, r);
    OnlyFate(db, steps, 23, 24, r);
    forall x: Row | x.Session? ensures x in At(db, steps, 23) <==> x in db && KeepsSession(c, x) {
      SessionFate(db, steps, c, now, 23, x);
    }
  }

  // ---------------------------------------------------------------------------------------------
  // A whole pass
  // ---------------------------------------------------------------------------------------------

  predicate HistoryPart(steps: seq<Statement>, c: Cutoffs, now: Time) {
    && |steps| == 24
    && steps[0] == OldSamples(Observations, c.samples)
    && steps[1] == OldSamples(Activity, c.samples)
    && steps[2] == OldSamples(Classifications, c.samples)
    && steps[3] == OldDecisions(c.decisions, now)
    && steps[4] == OldEvaluations(c.decisions)
    && steps[5] == OldActions(c.actions)
    && steps[6] == OldWorktreeActions(c.actions)
    && steps[7] == MissingWorktrees(c.actions)
    && steps[8] == Tombstones(c.actions)
    && steps[9] == OldScans(c.scans)
    && steps[10] == OldAudit(c.audit)
  }

  predicate CachePart(steps: seq<Statement>, c: Cutoffs) {
    && |steps| == 24
    && steps[11] == OldCacheObservations(c.samples)
    && steps[12] == OldCacheDecisions(c.decisions)
    && steps[13] == OldCacheEvaluations(c.decisions)
    && steps[14] == OldCacheActions(c.actions)
    && steps[15] == ClosedQuarantines(c.actions)
    && steps[16] == OldCacheArtifacts(c.actions)
  }

  predicate ClosingPart(steps: seq<Statement>, c: Cutoffs) {
    && |steps| == 24
    && steps[17] == DeadOwnership(c.processes)
    && steps[18] == DeadProcesses(c.processes)
    && steps[19] == EndedSessions(c.sessions)
    && steps[20] == OrphanSamples(Observations)
    && steps[21] == OrphanSamples(Activity)
    && steps[22] == OrphanSamples(Classifications)
    && steps[23] == OrphanRelationships
  }

  lemma PassHistory(p: Limits, now: Time)
    ensures HistoryPart(Steps(p, now), CutoffsOf(p, now), now)
  {}

  lemma PassCache(p: Limits, now: Time)
    ensures CachePart(Steps(p, now), CutoffsOf(p, now))
  {}

  lemma PassClosing(p: Limits, now: Time)
    ensures ClosingPart(Steps(p, now), CutoffsOf(p, now))
  {}

  ghost predicate Fated(db: Database, steps: seq<Statement>, c: Cutoffs, now: Time, r: Row)
    requires |steps| == 24
  {
    r in At(db, steps, 24) <==> r in db && Keeps(db, c, now, r)
  }

  lemma HistoryFates(db: Database, steps: seq<Statement>, c: Cutoffs, now: Time, r: Row)
    requires Tabled(steps) && HistoryPart(steps, c, now) && 3 <= TableOf(r) <= 9
    ensures Fated(db, steps, c, now, r)
  {
    match r
    case Decision(_, _, _, _, _, _, _) => DecisionFate(db, steps, c, now, 24, r);
    case Evaluation(_, _) => EvaluationFate(db, steps, c, now, r);
    case Action(_, _, _) => ActionFate(db, steps, c, now, r);
    case WorktreeAction(_, _, _) => WorktreeActionFate(db, steps, c, now, r);
    case Worktree(_, _, _, _, _) => WorktreeFate(db, steps, c, now, r);
    case Scan(_) => ScanFate(db, steps, c, now, r);
    case Audit(_, _) => AuditFate(db, steps, c, now, r);
  }

  lemma CacheFates(db: Database, steps: seq<Statement>, c: Cutoffs, now: Time, r: Row)
    requires Tabled(steps) && CachePart(steps, c) && 10 <= TableOf(r) <= 15
    ensures Fated(db, steps, c, now, r)
  {
    match r
    case CacheObservation(_, _, _) => CacheObservationFate(db, steps, c, now, 24, r);
    case CacheDecision(_, _) => CacheDecisionFate(db, steps, c, now, 24, r);
    case CacheEvaluation(_, _) => CacheEvaluationFate(db, steps, c, now, r);
    case CacheAction(_, _, _, _) => CacheActionFate(db, steps, c, now, r);
    case CacheQuarantine(_, _, _) => QuarantineFate(db, steps, c, now, r);
    case CacheArtifact(_, _, _, _) => CacheArtifactFate(db, steps, c, now, r);
  }

  lemma ClosingFates(db: Database, steps: seq<Statement>, c: Cutoffs, now: Time, r: Row)
    requires Tabled(steps) && ClosingPart(steps, c) && 16 <= TableOf(r)
    ensures Fated(db, steps, c, now, r)
  {
    match r
    case Ownership(_, _, _) => OwnershipFate(db, steps, c, now, r);
    case Process(_, _) => ProcessesAt(db, steps, c, 24, r);
    case Session(_, _) => SessionFate(db, steps, c, now, 24, r);
    case Relationship(_) => RelationshipFate(db, steps, c, now, r);
  }

  lemma SampleFates(db: Database, steps: seq<Statement>, c: Cutoffs, now: Time, r: Row)
    requires Tabled(steps) && HistoryPart(steps, c, now) && ClosingPart(steps, c) && r.Sample?
    ensures Fated(db, steps, c, now, r)
  {
    SampleFate(db, steps, c, now, r);
  }

  lemma PassAt(db: Database, p: Limits, now: Time)
    ensures CompactOnce(db, p, now) == At(db, Steps(p, now), 24)
  {
    assert Steps(p, now)[..24] == Steps(p, now);
  }

  lemma StepsFate(db: Database, steps: seq<Statement>, c: Cutoffs, now: Time, r: Row)
    requires Tabled(steps) && HistoryPart(steps, c, now) && CachePart(steps, c) && ClosingPart(steps, c)
    ensures Fated(db, steps, c, now, r)
  {
    if r.Sample? {
      SampleFates(db, steps, c, now, r);
    } else if TableOf(r) <= 9 {
      HistoryFates(db, steps, c, now, r);
    } else if TableOf(r) <= 15 {
      CacheFates(db, steps, c, now, r);
    } else {
      ClosingFates(db, steps, c, now, r);
    }
  }

  /// One pass keeps exactly these rows: what its order of statements and their subqueries come to, for every
  /// table, in terms of the database before it.
  lemma PassKeepsExactly(db: Database, p: Limits, now: Time, r: Row)
    ensures r in CompactOnce(db, p, now) <==> r in db && Keeps(db, CutoffsOf(p, now), now, r)
  {
    StepsAreTabled(p, now);
    PassHistory(p, now);
    PassCache(p, now);
    PassClosing(p, now);
    StepsFate(db, Steps(p, now), CutoffsOf(p, now), now, r);
    PassAt(db, p, now);
  }

  /// The second pass of a compaction over budget does the same to what the first one left, at half the limits.
  lemma CompactionKeepsExactly(db: Database, p: Limits, now: Time, overBudget: bool, r: Row)
    ensures var once := CompactOnce(db, p, now);
            r in Compacted(db, p, now, overBudget) <==>
              && r in db && Keeps(db, CutoffsOf(p, now), now, r)
              && (overBudget ==> Keeps(once, CutoffsOf(Halved(p), now), now, r))
  {
    PassKeepsExactly(db, p, now, r);
    if overBudget { PassKeepsExactly(CompactOnce(db, p, now), Halved(p), now, r); }
  }

  /// Half a limit, rounded toward zero.
  lemma HalfExactly(d: int)
    ensures d >= 0 ==> 2 * Half(d) <= d < 2 * Half(d) + 2
    ensures d <= 0 ==> 2 * Half(d) - 2 < d <= 2 * Half(d)
  {}
}
