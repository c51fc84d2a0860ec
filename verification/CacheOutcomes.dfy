/// What complete applications achieve, that restoration undoes quarantine, and the run in which a purged
/// row is written for a file that is still alive (internal/daemon/cache_action.go,
/// cache_quarantine_action.go, cache_restore_action.go, cache_purge_action.go; cmd/cli/cache.go).

module CacheOutcomes {
  import opened Common
  import opened CacheFs
  import opened CacheLedger
  import opened CacheProtocol
  import opened CacheAuthority
  import opened CacheSlots
  import opened CacheCustody
  import S = CacheSettling

  function Then(w: World, steps: seq<Step>): World
    decreases |steps|
  {
    if steps == [] then w else Then(Next(w, steps[0]), steps[1..])
  }

  lemma {:induction false} ThenIsRun(w: World, first: seq<Step>, more: seq<Step>)
    ensures Then(Run(w, first), more) == Run(w, first + more)
    decreases |more|
  {
    if more == [] {
      assert first + more == first;
    } else {
      var longer := first + [more[0]];
      assert longer[..|longer| - 1] == first;
      assert Run(w, longer) == Next(Run(w, first), more[0]);
      assert first + more == longer + more[1..];
      ThenIsRun(w, longer, more[1..]);
    }
  }

  // ---------------------------------------------------------------------------------------------
  // Applying an approval without interruption
  // ---------------------------------------------------------------------------------------------

  /// An unused approval that can be consumed now, for a binding that still matches durable state.
  predicate Applicable(w: World, token: nat, b: Binding, seen: Option<Artifact>, now: Time) {
    && w.d.lane == Idle && w.tick !in w.d.waiting && token in w.d.approvals
    && w.d.approvals[token].binding == b && !w.d.approvals[token].used && now < w.d.approvals[token].expires
    && Revalidated(w.d.cfg, Healthy(w.d), w.st, b, seen, now).Some? && b.artifact.id != ""
  }

  lemma Consumes(w: World, token: nat, b: Binding, seen: Option<Artifact>, now: Time)
    requires Applicable(w, token, b, seen, now)
    ensures Next(w, DoConsume(token, KindOf(b), b.artifact.id, now, true))
         == Skip(w.(d := w.d.(approvals := w.d.approvals[token := w.d.approvals[token].(used := true)],
                              waiting := w.d.waiting[w.tick := Waiting(token, b, now)]),
                    history := Did(w, Consumed(token, b, now, w.d.approvals[token].expires))))
  {}

  /// The daemon while the action numbered `action` holds the lane.
  predicate Holding(w: World, v: World, action: nat, token: nat, b: Binding, root: Identity, now: Time) {
    && v.tick == w.tick + 2 && action == w.tick
    && v.d.lane == Intent(w.tick + 1, action, token, b, root, now)
    && v.d.cfg == w.d.cfg && v.d.plans == w.d.plans && v.d.fsHealthy == w.d.fsHealthy
    && v.d.cacheHealthy == w.d.cacheHealthy
    && v.d.waiting == w.d.waiting && token in w.d.approvals
    && v.d.approvals == w.d.approvals[token := w.d.approvals[token].(used := true)]
    && v.st == Begun(w.st, action, b.artifact.id, if b.ForPurge? then Purging else Attempting)
    && v.fs == w.fs && SameUnlinks(w.history, v.history)
  }

  lemma BeginsAfter(w: World, one: World, token: nat, b: Binding, seen: Option<Artifact>, now: Time, root: Identity)
    requires Applicable(w, token, b, seen, now)
    requires Revalidated(w.d.cfg, Healthy(w.d), w.st, b, seen, now) == Some(root)
    requires one == Skip(w.(d := w.d.(approvals := w.d.approvals[token := w.d.approvals[token].(used := true)],
                                      waiting := w.d.waiting[w.tick := Waiting(token, b, now)]),
                            history := Did(w, Consumed(token, b, now, w.d.approvals[token].expires))))
    ensures Holding(w, Begin(one, w.tick, seen, true), w.tick, token, b, root, now)
  {
    assert one.d.waiting - {w.tick} == w.d.waiting;
  }

  lemma Intends(w: World, token: nat, b: Binding, seen: Option<Artifact>, now: Time, root: Identity)
    requires Applicable(w, token, b, seen, now)
    requires Revalidated(w.d.cfg, Healthy(w.d), w.st, b, seen, now) == Some(root)
    ensures var v := Then(w, [DoConsume(token, KindOf(b), b.artifact.id, now, true), DoBegin(w.tick, seen, true)]);
            Holding(w, v, w.tick, token, b, root, now)
  {
    Consumes(w, token, b, seen, now);
    var one := Next(w, DoConsume(token, KindOf(b), b.artifact.id, now, true));
    TwoSteps(w, DoConsume(token, KindOf(b), b.artifact.id, now, true), DoBegin(w.tick, seen, true));
    BeginsAfter(w, one, token, b, seen, now, root);
  }

  function ApplySteps(w: World, token: nat, b: Binding, seen: Option<Artifact>, now: Time): seq<Step> {
    [DoConsume(token, KindOf(b), b.artifact.id, now, true), DoBegin(w.tick, seen, true), DoRename(false, true),
     DoRecord(now, true)]
  }

  /// The end of an uninterrupted cleanup or restoration: the rename has happened and is recorded.
  predicate Applied(w: World, v: World, token: nat, b: Binding, now: Time) {
    && v.tick == w.tick + 4 && v.d.lane == Idle
    && v.d.cfg == w.d.cfg && v.d.plans == w.d.plans && v.d.fsHealthy == w.d.fsHealthy
    && v.d.cacheHealthy == w.d.cacheHealthy
    && v.d.waiting == w.d.waiting && token in w.d.approvals
    && v.d.approvals == w.d.approvals[token := w.d.approvals[token].(used := true)]
    && v.st == Recorded(w.d.cfg, Begun(w.st, w.tick, b.artifact.id, Attempting), w.tick, b, now)
    && Source(b) in w.fs.entries && v.fs == Renamed(w.fs, Source(b), Target(b)) && SameUnlinks(w.history, v.history)
  }

  lemma Finishes(w: World, v: World, token: nat, b: Binding, root: Identity, now: Time)
    requires Holding(w, v, w.tick, token, b, root, now) && !b.ForPurge?
    requires CanMove(w.fs, Source(b), Target(b), root, Content(b), false) == Done
    ensures Applied(w, Next(Next(v, DoRename(false, true)), DoRecord(now, true)), token, b, now)
  {
    var l := v.d.lane;
    var moved := Next(v, DoRename(false, true));
    assert moved.d.lane == Moved(w.tick, b);
    assert moved.st == v.st;
  }

  /// An approval whose binding still matches does what it says: the file is renamed and the rows say so.
  lemma UninterruptedApplication(w: World, token: nat, b: Binding, seen: Option<Artifact>, now: Time, root: Identity)
    requires Applicable(w, token, b, seen, now)
    requires Revalidated(w.d.cfg, Healthy(w.d), w.st, b, seen, now) == Some(root)
    requires !b.ForPurge?
    requires CanMove(w.fs, Source(b), Target(b), root, Content(b), false) == Done
    ensures Applied(w, Then(w, ApplySteps(w, token, b, seen, now)), token, b, now)
  {
    Intends(w, token, b, seen, now, root);
    var steps := ApplySteps(w, token, b, seen, now);
    assert steps == steps[..2] + [DoRename(false, true), DoRecord(now, true)];
    ThenSplits(w, steps[..2], [DoRename(false, true), DoRecord(now, true)]);
    var v := Then(w, steps[..2]);
    assert steps[..2] == [DoConsume(token, KindOf(b), b.artifact.id, now, true), DoBegin(w.tick, seen, true)];
    TwoSteps(v, DoRename(false, true), DoRecord(now, true));
    Finishes(w, v, token, b, root, now);
  }

  lemma OneStep(w: World, s: Step)
    ensures Then(w, [s]) == Next(w, s)
  {
    assert [s][1..] == [];
  }

  lemma TwoSteps(w: World, s: Step, t: Step)
    ensures Then(w, [s, t]) == Next(Next(w, s), t)
  {
    assert [s, t][1..] == [t];
    OneStep(Next(w, s), t);
  }

  lemma {:induction false} ThenSplits(w: World, first: seq<Step>, more: seq<Step>)
    ensures Then(w, first + more) == Then(Then(w, first), more)
    decreases |first|
  {
    if first == [] {
      assert first + more == more;
    } else {
      assert (first + more)[1..] == first[1..] + more;
      ThenSplits(Next(w, first[0]), first[1..], more);
    }
  }

  /// Restoration undoes quarantine on the files: after a completed cleanup, the rename of a restoration of
  /// its row, in any later world with the same files, gives back exactly the files there were.
  lemma RestorationUndoesQuarantine(w: World, u: World, b: Binding, back: Binding, root: Identity, at: Time)
    requires b.ForCleanup? && b.destination == Held(b.artifact.root, b.artifact.id)
    requires CanMove(w.fs, Source(b), Target(b), root, Content(b), false) == Done
    requires u.fs == Renamed(w.fs, Source(b), Target(b))
    requires back.ForRestore? && back.item == QuarantineOf(w.d.cfg, b, at)
    ensures CanMove(u.fs, Source(back), Target(back), root, Content(back), false) == Done
    ensures Renamed(u.fs, Source(back), Target(back)) == w.fs
  {}

  // ---------------------------------------------------------------------------------------------
  // A purged row for a file that is alive
  // ---------------------------------------------------------------------------------------------

  function PrepareSteps(w: World, token: nat, b: Binding, now: Time): seq<Step> {
    [DoConsume(token, Purge, b.artifact.id, now, true), DoBegin(w.tick, None, true), DoPrepare(true)]
  }

  /// The end of an uninterrupted purge preparation.
  predicate Prepared(w: World, v: World, token: nat, b: Binding, root: Identity, now: Time)
    requires b.ForPurge?
  {
    && v.tick == w.tick + 3 && v.d.lane == Idle
    && v.d.cfg == w.d.cfg && v.d.fsHealthy == w.d.fsHealthy && v.d.cacheHealthy == w.d.cacheHealthy
    && v.d.waiting == w.d.waiting
    && v.d.plans == map[w.tick + 2 := PlanOf(w.tick, b, root, now)] && token in w.d.approvals
    && v.d.approvals == w.d.approvals[token := w.d.approvals[token].(used := true)]
    && v.st == Begun(w.st, w.tick, b.artifact.id, Purging) && v.fs == w.fs && SameUnlinks(w.history, v.history)
  }

  lemma Prepares(w: World, v: World, token: nat, b: Binding, root: Identity, now: Time)
    requires b.ForPurge? && Holding(w, v, w.tick, token, b, root, now) && w.d.plans == map[]
    ensures Prepared(w, Next(v, DoPrepare(true)), token, b, root, now)
  {
    assert PrunePlans(v.d.plans, now) == map[];
  }

  lemma UninterruptedPreparation(w: World, token: nat, b: Binding, now: Time)
    requires b.ForPurge? && Applicable(w, token, b, None, now) && w.d.plans == map[]
    ensures Prepared(w, Then(w, PrepareSteps(w, token, b, now)), token, b, b.artifact.rootIdentity, now)
  {
    Intends(w, token, b, None, now, b.artifact.rootIdentity);
    var steps := PrepareSteps(w, token, b, now);
    var first := [DoConsume(token, KindOf(b), b.artifact.id, now, true), DoBegin(w.tick, None, true)];
    assert steps == first + [DoPrepare(true)];
    ThenSplits(w, first, [DoPrepare(true)]);
    var v := Then(w, first);
    OneStep(v, DoPrepare(true));
    Prepares(w, v, token, b, b.artifact.rootIdentity, now);
  }

  /// Both approvals are for the same quarantined row as it stands now.
  predicate BothApproved(w: World, purge: nat, restore: nat, p: Binding, r: Binding, now: Time) {
    && p.ForPurge? && r.ForRestore? && purge != restore && r.artifact == p.artifact && r.item == p.item
    && RowOk(p.item, p.artifact.id)
    && Applicable(w, purge, p, None, now) && Applicable(w, restore, r, None, now) && w.d.plans == map[]
    && w.tick + 3 !in w.d.waiting
    && CanMove(w.fs, p.item.path, p.item.original, p.artifact.rootIdentity, p.item.identity, false) == Done
  }

  function InterleavedSteps(w: World, purge: nat, restore: nat, p: Binding, r: Binding, now: Time): seq<Step> {
    PrepareSteps(w, purge, p, now)
    + ApplySteps(Then(w, PrepareSteps(w, purge, p, now)), restore, r, None, now)
    + [LastStep(w, now)]
  }

  /// The completion that the executor presents.
  function LastStep(w: World, now: Time): Step { DoComplete(w.tick, w.tick + 2, now, now, false, true) }

  /// The row says purged, the exact file is at its original place, and nothing was unlinked on the way.
  predicate PurgedThough(w: World, end: World, p: Binding)
    requires p.ForPurge?
  {
    && p.artifact.id in end.st.quarantines && end.st.quarantines[p.artifact.id].status == Purged
    && IsAt(end.fs, p.item.original, p.item.identity) && SameUnlinks(w.history, end.history)
  }

  lemma StillApplicable(w: World, v: World, purge: nat, restore: nat, p: Binding, r: Binding, now: Time)
    requires BothApproved(w, purge, restore, p, r, now) && Prepared(w, v, purge, p, p.artifact.rootIdentity, now)
    ensures Applicable(v, restore, r, None, now)
    ensures Revalidated(v.d.cfg, Healthy(v.d), v.st, r, None, now) == Some(r.artifact.rootIdentity)
  {
    assert Revalidated(w.d.cfg, Healthy(w.d), w.st, r, None, now).Some?;
    assert v.st.artifacts == w.st.artifacts && v.st.quarantines == w.st.quarantines && v.st.newest == w.st.newest;
  }

  lemma CompletesAsPurged(w: World, v: World, u: World, purge: nat, restore: nat, p: Binding, r: Binding, now: Time)
    requires BothApproved(w, purge, restore, p, r, now) && Prepared(w, v, purge, p, p.artifact.rootIdentity, now)
    requires Applied(v, u, restore, r, now)
    ensures PurgedThough(w, Next(u, LastStep(w, now)), p)
  {
    var plan := PlanOf(w.tick, p, p.artifact.rootIdentity, now);
    assert w.tick + 2 in u.d.plans && u.d.plans[w.tick + 2] == plan;
    assert plan.path !in u.fs.entries;
    assert RootUnchanged(u.fs, plan.path.root, plan.rootIdentity);
    assert u.st.actions[w.tick] == Action(p.artifact.id, Purging);
    var id := p.artifact.id;
    assert id in w.st.quarantines by { assert ReadBinding(w.d.cfg, w.st, p) == Some(p); }
    assert id in u.st.quarantines;
    assert SameUnlinks(w.history, u.history);
  }

  lemma RestoresUnderPlan(w: World, purge: nat, restore: nat, p: Binding, r: Binding, now: Time)
    requires BothApproved(w, purge, restore, p, r, now)
    ensures var v := Then(w, PrepareSteps(w, purge, p, now));
            PurgedThough(w, Next(Then(v, ApplySteps(v, restore, r, None, now)), LastStep(w, now)), p)
  {
    UninterruptedPreparation(w, purge, p, now);
    var v := Then(w, PrepareSteps(w, purge, p, now));
    StillApplicable(w, v, purge, restore, p, r, now);
    UninterruptedApplication(v, restore, r, None, now, r.artifact.rootIdentity);
    CompletesAsPurged(w, v, Then(v, ApplySteps(v, restore, r, None, now)), purge, restore, p, r, now);
  }

  /// In every world where the same quarantined row has a purge and a restoration approved, this order of
  /// steps records the row as purged while its exact file is back at its original place and nothing was
  /// unlinked: a restoration is still accepted while a purge plan is outstanding.
  lemma PurgedRowForLivingFile(w: World, purge: nat, restore: nat, p: Binding, r: Binding, now: Time)
    requires BothApproved(w, purge, restore, p, r, now)
    ensures PurgedThough(w, Then(w, InterleavedSteps(w, purge, restore, p, r, now)), p)
  {
    RestoresUnderPlan(w, purge, restore, p, r, now);
    var first := PrepareSteps(w, purge, p, now);
    var v := Then(w, first);
    var second := ApplySteps(v, restore, r, None, now);
    ThenSplits(w, first, second);
    ThenSplits(w, first + second, [LastStep(w, now)]);
    OneStep(Then(v, second), LastStep(w, now));
  }

  // A reachable world of that kind.

  const ROOT := Identity(1, 1, 1, "directory", 0, 0)
  const FILE := Identity(1, 1, 2, "regular", 5, 0)
  const START := Files(map["r" := ROOT], map[Live("r", "n") := FILE])
  const CFG := Config("c", true, {"p"}, 1, 10, MINUTE)
  /// The rows that the two scans write: the first sees the file without a previous row, the second a minute later.
  const FIRST := Artifact("a", "r", "n", ROOT, FILE, Manifest(Live("r", "n"), FILE), S.Settling, "", "s", 0, 1, None,
                          0, None)
  const ARTIFACT := FIRST.(lifecycle := S.Recommended, policy := "p", evaluation := 2)
  const CLEANUP := ForCleanup(ARTIFACT, Held("r", "a"), "c")
  const ROW := QuarantineOf(CFG, CLEANUP, MINUTE)
  const MOVED := ARTIFACT.(lifecycle := S.Quarantined, manifest := ROW.manifest, quarantinePath := Some(ROW.path),
                           quarantinedAt := MINUTE, quarantineDigest := Some(ROW.manifest))
  const PURGE := ForPurge(MOVED, ROW, ROW.path, "c")
  const RESTORE := ForRestore(MOVED, ROW, ROW.original, "c")

  const LATER := 2 * MINUTE

  const SCANS := [DoCommitScan(map["a" := FIRST], true), DoCommitScan(map["a" := ARTIFACT], true)]
  const OPENING := SCANS + [DoPreview(Cleanup, "a", "p", MINUTE, true)]
  const PREVIEWS := [DoPreview(Purge, "a", "p", LATER, true), DoPreview(Restore, "a", "", LATER, true)]

  const SETTINGS := S.Config(MINUTE, CFG.maxBytes, CFG.recommend, [S.CachePolicy("p", true, true)])

  /// The stored row is what the evaluation concluded.
  predicate Concluded(a: Artifact, e: S.Artifact) {
    a.lifecycle == e.lifecycle && a.policy == e.policy && a.stableSince == e.stableSince && a.evaluation == e.evaluation
  }

  /// The two scans of the run are evaluations of one unchanged file: settling first, recommended a minute later.
  lemma ScansAreEvaluated(o: S.Observation)
    requires o.id == "a" && o.size == FILE.size && !o.protected_
    ensures var first := S.Evaluate(SETTINGS, 0, o, None, 1);
            && S.Valid(SETTINGS) && Concluded(FIRST, first)
            && Concluded(ARTIFACT, S.Evaluate(SETTINGS, MINUTE, o, Some(first), 2))
  {
    assert S.EnabledPolicy(SETTINGS.policies) == Some(S.CachePolicy("p", true, true));
  }

  predicate Opened(w: World) {
    && w.tick == 3 && w.st == Store(map["a" := ARTIFACT], 2, map[], map[]) && w.fs == START
    && w.d == Daemon(CFG, map[2 := Approval(CLEANUP, MINUTE + LIFETIME, false)], map[], map[], Idle, true, true)
  }

  predicate Scanned(w: World, tick: nat, row: Artifact) {
    && w.tick == tick && w.st == Store(map["a" := row], tick, map[], map[]) && w.fs == START
    && w.d == Daemon(CFG, map[], map[], map[], Idle, true, true)
  }

  lemma ScansFirst(one: World)
    requires one == Next(Initial(CFG, START), SCANS[0])
    ensures Scanned(one, 1, FIRST)
  {
    assert one.st.artifacts == map["a" := FIRST];
  }

  lemma ScansAgain(one: World, two: World)
    requires Scanned(one, 1, FIRST) && two == Next(one, SCANS[1])
    ensures Scanned(two, 2, ARTIFACT)
  {
    assert two.st.artifacts == map["a" := ARTIFACT];
  }

  lemma PreviewsCleanup(two: World)
    requires Scanned(two, 2, ARTIFACT)
    ensures Opened(Next(two, DoPreview(Cleanup, "a", "p", MINUTE, true)))
  {
    assert Prune(two.d.approvals, MINUTE) == map[];
    assert PreviewBinding(CFG, true, two.st, Cleanup, "a", "p", MINUTE) == Some(CLEANUP);
  }

  lemma Opens()
    ensures Opened(Then(Initial(CFG, START), OPENING))
  {
    var w := Initial(CFG, START);
    ThenSplits(w, SCANS, [DoPreview(Cleanup, "a", "p", MINUTE, true)]);
    TwoSteps(w, SCANS[0], SCANS[1]);
    ScansFirst(Next(w, SCANS[0]));
    ScansAgain(Next(w, SCANS[0]), Then(w, SCANS));
    OneStep(Then(w, SCANS), DoPreview(Cleanup, "a", "p", MINUTE, true));
    PreviewsCleanup(Then(w, SCANS));
  }

  predicate Quarantining(w: World) {
    && w.tick == 7 && w.fs == Files(START.roots, map[Held("r", "a") := FILE])
    && w.st.artifacts == map["a" := MOVED] && w.st.quarantines == map["a" := ROW]
    && w.d == Daemon(CFG, map[2 := Approval(CLEANUP, MINUTE + LIFETIME, true)], map[], map[], Idle, true, true)
  }

  lemma Quarantines(w: World)
    requires Opened(w)
    ensures Quarantining(Then(w, ApplySteps(w, 2, CLEANUP, Some(ARTIFACT), MINUTE)))
  {
    assert ReadBinding(CFG, w.st, CLEANUP) == Some(CLEANUP);
    assert Revalidated(CFG, true, w.st, CLEANUP, Some(ARTIFACT), MINUTE) == Some(ROOT);
    UninterruptedApplication(w, 2, CLEANUP, Some(ARTIFACT), MINUTE, ROOT);
  }

  lemma BothPreviewed(w: World)
    requires Quarantining(w)
    ensures BothApproved(Then(w, PREVIEWS), 7, 8, PURGE, RESTORE, LATER)
  {
    TwoSteps(w, PREVIEWS[0], PREVIEWS[1]);
    var one := Next(w, PREVIEWS[0]);
    assert Prune(w.d.approvals, LATER) == w.d.approvals;
    assert PreviewBinding(CFG, true, w.st, Purge, "a", "p", LATER) == Some(PURGE);
    assert one.d.approvals == w.d.approvals[7 := Approval(PURGE, LATER + LIFETIME, false)] by {
      SmallMap(w.d.approvals, Approval(PURGE, LATER + LIFETIME, false));
    }
    assert Prune(one.d.approvals, LATER) == one.d.approvals;
    assert |one.d.approvals| == 2 by { SmallMap(w.d.approvals, Approval(PURGE, LATER + LIFETIME, false)); }
    assert PreviewBinding(CFG, true, one.st, Restore, "a", "", LATER) == Some(RESTORE);
    var two := Next(one, PREVIEWS[1]);
    assert two.d.approvals == one.d.approvals[8 := Approval(RESTORE, LATER + LIFETIME, false)];
    assert ReadBinding(CFG, two.st, PURGE) == Some(PURGE);
    assert ReadBinding(CFG, two.st, RESTORE) == Some(RESTORE);
  }

  lemma SmallMap(m: map<nat, Approval>, a: Approval)
    requires m == map[2 := Approval(CLEANUP, MINUTE + LIFETIME, true)]
    ensures |m| == 1 && |m[7 := a]| == 2
  {}

  ghost predicate NoUnlink(steps: seq<Step>) { forall s :: s in steps ==> !s.DoUnlink? }

  lemma ReachesQuarantine() returns (steps: seq<Step>)
    ensures Quarantining(Then(Initial(CFG, START), steps)) && NoUnlink(steps) && SCANS <= steps
  {
    Opens();
    var one := Then(Initial(CFG, START), OPENING);
    Quarantines(one);
    var apply := ApplySteps(one, 2, CLEANUP, Some(ARTIFACT), MINUTE);
    ThenSplits(Initial(CFG, START), OPENING, apply);
    steps := OPENING + apply;
  }

  lemma ReachesBothApproved() returns (steps: seq<Step>, w: World)
    ensures w == Then(Initial(CFG, START), steps) && BothApproved(w, 7, 8, PURGE, RESTORE, LATER) && NoUnlink(steps)
    ensures SCANS <= steps
  {
    var first := ReachesQuarantine();
    BothPreviewed(Then(Initial(CFG, START), first));
    ThenSplits(Initial(CFG, START), first, PREVIEWS);
    steps := first + PREVIEWS;
    assert NoUnlink(PREVIEWS);
    w := Then(Initial(CFG, START), steps);
  }

  ghost predicate PurgedWhileAlive(end: World) {
    && "a" in end.st.quarantines && end.st.quarantines["a"].status == Purged && IsAt(end.fs, Live("r", "n"), FILE)
    && forall x :: x in end.history ==> !x.effect.Unlinked?
  }

  /// From an empty store and one provider file there is a run, with the two scans first, that ends with the row
  /// purged, the file alive at its original place and no unlink anywhere.
  lemma PurgedButAlive()
    ensures exists steps: seq<Step> :: SCANS <= steps && PurgedWhileAlive(Run(Initial(CFG, START), steps))
  {
    var first, w := ReachesBothApproved();
    assert SCANS <= first;
    NothingUnlinkedYet(Initial(CFG, START), first);
    PurgedRowForLivingFile(w, 7, 8, PURGE, RESTORE, LATER);
    var last := InterleavedSteps(w, 7, 8, PURGE, RESTORE, LATER);
    assert PurgedWhileAlive(Then(w, last));
    ThenSplits(Initial(CFG, START), first, last);
    ThenIsRun(Initial(CFG, START), [], first + last);
    assert [] + (first + last) == first + last;
  }

  lemma {:induction false} NothingUnlinkedYet(w: World, steps: seq<Step>)
    requires forall x :: x in w.history ==> !x.effect.Unlinked?
    requires NoUnlink(steps)
    ensures forall x :: x in Then(w, steps).history ==> !x.effect.Unlinked?
    decreases |steps|
  {
    if steps != [] {
      assert steps[0] in steps && forall s :: s in steps[1..] ==> s in steps;
      UnlinkOnly(w, steps[0]);
      NothingUnlinkedYet(Next(w, steps[0]), steps[1..]);
    }
  }

  lemma UnlinkOnly(w: World, s: Step)
    requires !s.DoUnlink?
    ensures forall x :: x in Next(w, s).history && x !in w.history ==> !x.effect.Unlinked?
  {
    HistoryStep(w, s);
  }
}
