/// What each step of the cache lane asks for and what it leaves, in terms of rows, metadata and clocks
/// themselves, and which step stands behind each entry of a run's history
/// (internal/daemon/cache_approval.go, cache_action.go, cache_revalidation.go, cache_quarantine_action.go,
/// cache_restore_action.go, cache_purge_action.go; internal/storage/cache_transition.go; cmd/cli/cache.go).

module CacheSteps {
  import opened Common
  import opened CacheFs
  import opened CacheLedger
  import opened CacheProtocol
  import opened CacheAuthority
  import opened CacheSlots
  import S = CacheSettling

  // ---------------------------------------------------------------------------------------------
  // Vocabulary
  // ---------------------------------------------------------------------------------------------

  /// The two maps agree everywhere else.
  ghost predicate OnlyAt<K(!new), V>(before: map<K, V>, after: map<K, V>, k: K) {
    forall x :: x != k ==> (x in before <==> x in after) && (x in before && x in after ==> before[x] == after[x])
  }

  /// Both circuits closed, global recommend mode, and the policy enabled in recommend mode.
  predicate Permitted(d: Daemon, policy: string) {
    d.fsHealthy && d.cacheHealthy && d.cfg.recommend && policy in d.cfg.policies
  }

  /// The same directory or file, whatever its size and times.
  predicate SameNode(a: Identity, b: Identity) {
    a.uid == b.uid && a.device == b.device && a.inode == b.inode && a.kind == b.kind
  }

  predicate RootIs(fs: Files, root: string, expected: Identity) {
    root in fs.roots && SameNode(fs.roots[root], expected)
  }

  /// The artifact is in quarantine with this row.
  predicate InQuarantine(st: Store, id: string) {
    id in st.artifacts && id in st.quarantines && st.quarantines[id].status == Quarantined
  }

  // ---------------------------------------------------------------------------------------------
  // Approvals
  // ---------------------------------------------------------------------------------------------

  predicate Previewable(w: World, kind: Kind, id: string, policy: string, now: Time) {
    && id in w.st.artifacts
    && match kind
       case Cleanup =>
         && policy != "" && Permitted(w.d, policy)
         && w.st.artifacts[id].evaluation == w.st.newest && w.st.artifacts[id].lifecycle == S.Recommended
         && w.st.artifacts[id].policy == policy
         && w.d.cfg.maxEntries >= 1 && w.st.artifacts[id].identity.size <= w.d.cfg.maxBytes
       case Restore =>
         && Permitted(w.d, w.st.artifacts[id].policy) && InQuarantine(w.st, id)
         && w.st.quarantines[id].identity.size <= w.d.cfg.maxBytes
       case Purge =>
         && policy != "" && Permitted(w.d, policy) && InQuarantine(w.st, id) && w.st.artifacts[id].policy == policy
         && w.st.quarantines[id].graceUntil <= now && w.st.quarantines[id].identity.size <= w.d.cfg.maxBytes
  }

  /// What is bound is the rows as they are, the destination they imply and the configuration in force.
  predicate Bound(w: World, kind: Kind, id: string, b: Binding) {
    && id in w.st.artifacts && b.artifact == w.st.artifacts[id] && b.configuration == w.d.cfg.digest
    && match kind
       case Cleanup => b.ForCleanup? && b.destination == Held(w.st.artifacts[id].root, w.st.artifacts[id].id)
       case Restore =>
         id in w.st.quarantines && b.ForRestore? && b.item == w.st.quarantines[id] && b.destination == b.item.original
       case Purge =>
         id in w.st.quarantines && b.ForPurge? && b.item == w.st.quarantines[id] && b.destination == b.item.path
  }

  /// The approvals that are not yet two minutes past their expiry.
  function Outstanding(approvals: map<nat, Approval>, now: Time): set<nat> {
    set token | token in approvals && now <= approvals[token].expires + 2 * MINUTE
  }

  lemma OutstandingAreKept(approvals: map<nat, Approval>, now: Time)
    ensures Prune(approvals, now).Keys == Outstanding(approvals, now)
    ensures |Prune(approvals, now)| == |Outstanding(approvals, now)|
  {
    assert Prune(approvals, now).Keys == Outstanding(approvals, now);
  }

  /// An approval is issued exactly when its gates are open, the lane is free, fewer than 128 are outstanding and
  /// the audit row is written. It binds the rows as they are and expires in two minutes.
  lemma ApprovalIssuedIff(w: World, kind: Kind, id: string, policy: string, now: Time, audited: bool)
    requires w.tick !in w.d.approvals
    ensures var v := Next(w, DoPreview(kind, id, policy, now, audited));
            && (w.tick in v.d.approvals <==>
                 w.d.lane == Idle && audited && |Outstanding(w.d.approvals, now)| < 128
                 && Previewable(w, kind, id, policy, now))
            && (w.tick in v.d.approvals ==>
                 && Bound(w, kind, id, v.d.approvals[w.tick].binding) && !v.d.approvals[w.tick].used
                 && v.d.approvals[w.tick].expires == now + 2 * MINUTE
                 && v.history == w.history + {Entry(w.tick, Issued(v.d.approvals[w.tick].binding, now + 2 * MINUTE))})
            && (w.tick !in v.d.approvals ==> v.history == w.history)
  {
    OutstandingAreKept(w.d.approvals, now);
  }

  /// Nothing else changes but that approvals long expired may be forgotten.
  lemma PreviewOnlyIssues(w: World, kind: Kind, id: string, policy: string, now: Time, audited: bool)
    ensures var v := Next(w, DoPreview(kind, id, policy, now, audited));
            && v.st == w.st && v.fs == w.fs && v.executors == w.executors && v.tick == w.tick + 1
            && v.d == w.d.(approvals := v.d.approvals)
            && forall token :: token != w.tick ==>
                 && (token in v.d.approvals ==> token in w.d.approvals && v.d.approvals[token] == w.d.approvals[token])
                 && (token in w.d.approvals && token !in v.d.approvals ==>
                      w.d.approvals[token].expires + 2 * MINUTE < now)
  {}

  /// The request names an approval, and a purge is confirmed at all.
  predicate Answerable(w: World, token: nat, endpoint: Kind, confirmation: string) {
    token in w.d.approvals && (endpoint.Purge? ==> confirmation != "")
  }

  predicate Fits(b: Binding, endpoint: Kind, confirmation: string) {
    match endpoint
    case Cleanup => b.ForCleanup?
    case Restore => b.ForRestore?
    case Purge => b.ForPurge? && confirmation == b.artifact.id
  }

  /// An approval is accepted exactly when it is unused, unexpired and for this endpoint and, at the purge
  /// endpoint, this artifact. Any answerable request uses it up, and a refusal is recorded.
  lemma ApprovalConsumedIff(w: World, token: nat, endpoint: Kind, confirmation: string, now: Time, stored: bool)
    requires w.tick !in w.d.waiting
    ensures var v := Next(w, DoConsume(token, endpoint, confirmation, now, stored));
            var good := Answerable(w, token, endpoint, confirmation) && !w.d.approvals[token].used
                        && now < w.d.approvals[token].expires
                        && Fits(w.d.approvals[token].binding, endpoint, confirmation);
            && (w.tick in v.d.waiting <==> good)
            && (good ==>
                 && v.d.waiting == w.d.waiting[w.tick := Waiting(token, w.d.approvals[token].binding, now)]
                 && v.st == w.st)
            && (!good && stored && Answerable(w, token, endpoint, confirmation) ==>
                 v.st == w.st.(actions := w.st.actions[w.tick :=
                   Action(w.d.approvals[token].binding.artifact.id, Rejected)]))
            && (!good && !(stored && Answerable(w, token, endpoint, confirmation)) ==> v.st == w.st)
  {}

  lemma ConsumptionIsFinal(w: World, token: nat, endpoint: Kind, confirmation: string, now: Time, stored: bool)
    ensures var v := Next(w, DoConsume(token, endpoint, confirmation, now, stored));
            && v.fs == w.fs && v.executors == w.executors && v.tick == w.tick + 1
            && v.d == w.d.(approvals := v.d.approvals, waiting := v.d.waiting)
            && v.d.approvals.Keys == w.d.approvals.Keys && OnlyAt(w.d.approvals, v.d.approvals, token)
            && (Answerable(w, token, endpoint, confirmation) ==>
                 v.d.approvals[token] == w.d.approvals[token].(used := true))
            && (!Answerable(w, token, endpoint, confirmation) ==> v.d == w.d)
  {}

  // ---------------------------------------------------------------------------------------------
  // Revalidation
  // ---------------------------------------------------------------------------------------------

  /// The rows still read exactly as they were bound, under the same configuration and with authority.
  predicate Unchanged(w: World, b: Binding) {
    && b.configuration == w.d.cfg.digest && Permitted(w.d, b.artifact.policy)
    && b.artifact.id in w.st.artifacts && w.st.artifacts[b.artifact.id] == b.artifact
    && match b
       case ForCleanup(a, _, _) => a.evaluation == w.st.newest
       case ForRestore(a, item, _, _) => a.id in w.st.quarantines && w.st.quarantines[a.id] == item
       case ForPurge(a, item, _, _) => a.id in w.st.quarantines && w.st.quarantines[a.id] == item
  }

  /// A complete fresh observation found the artifact, it is recommended again by the same policy, and it is the
  /// same file of the same session in the same place under the same root directory.
  predicate SeenAgain(a: Artifact, seen: Option<Artifact>) {
    && seen.Some? && seen.value.lifecycle == S.Recommended && seen.value.policy == a.policy
    && seen.value.identity == a.identity && seen.value.manifest == a.manifest && seen.value.session == a.session
    && seen.value.root == a.root && seen.value.name == a.name && SameNode(seen.value.rootIdentity, a.rootIdentity)
  }

  /// Both rows of a quarantined artifact tell of the same file, with the digest its path and metadata have.
  predicate RowsAgree(a: Artifact, q: Quarantine) {
    && q.status == Quarantined && q.manifest.path == q.path && q.manifest.identity == q.identity
    && a.identity == q.identity && a.manifest == q.manifest && a.quarantineDigest == Some(q.manifest)
    && a.quarantinePath == Some(q.path) && a.root == q.root
  }

  /// What lets an accepted approval become an intent.
  predicate StillGood(w: World, b: Binding, seen: Option<Artifact>, now: Time) {
    && Unchanged(w, b)
    && match b
       case ForCleanup(a, _, _) => SeenAgain(a, seen)
       case ForRestore(a, item, _, _) => RowsAgree(a, item)
       case ForPurge(a, item, _, _) => RowsAgree(a, item) && item.graceUntil <= now
  }

  predicate Beginnable(w: World, action: nat) { w.d.lane == Idle && action in w.d.waiting }

  lemma RevalidatedIff(w: World, b: Binding, seen: Option<Artifact>, now: Time)
    ensures Revalidated(w.d.cfg, Healthy(w.d), w.st, b, seen, now).Some? <==> StillGood(w, b, seen, now)
    ensures StillGood(w, b, seen, now) ==>
        Revalidated(w.d.cfg, Healthy(w.d), w.st, b, seen, now)
          == Some(if b.ForCleanup? then seen.value.rootIdentity else b.artifact.rootIdentity)
  {}

  /// An intent is committed exactly when revalidation finds everything as approved and the row is written; a
  /// refusal is recorded instead, and either way the approval is gone.
  lemma IntentCommittedIff(w: World, action: nat, seen: Option<Artifact>, stored: bool)
    requires Beginnable(w, action)
    ensures var t := w.d.waiting[action];
            var b := t.binding;
            var v := Next(w, DoBegin(action, seen, stored));
            && (v.d.lane.Intent? <==> stored && StillGood(w, b, seen, t.now))
            && (v.d.lane.Intent? ==>
                 && v.d.lane == Intent(w.tick, action, t.token, b,
                      if b.ForCleanup? then seen.value.rootIdentity else b.artifact.rootIdentity, t.now)
                 && v.history == w.history + {Entry(w.tick, Intended(action, t.token, b))})
            && (!v.d.lane.Intent? ==> v.d.lane == Idle && v.history == w.history)
            && (stored ==>
                 v.st == w.st.(actions := w.st.actions[action := Action(b.artifact.id,
                   if !StillGood(w, b, seen, t.now) then Rejected
                   else if b.ForPurge? then Purging else Attempting)]))
            && (!stored ==> v.st == w.st)
  {
    RevalidatedIff(w, w.d.waiting[action].binding, seen, w.d.waiting[action].now);
  }

  lemma BeginOnlyIntends(w: World, action: nat, seen: Option<Artifact>, stored: bool)
    ensures var v := Next(w, DoBegin(action, seen, stored));
            && v.fs == w.fs && v.executors == w.executors && v.tick == w.tick + 1
            && v.d == w.d.(lane := v.d.lane, waiting := v.d.waiting)
            && v.d.waiting == (if Beginnable(w, action) then w.d.waiting - {action} else w.d.waiting)
            && (!Beginnable(w, action) ==> v == w.(tick := w.tick + 1))
  {}

  // ---------------------------------------------------------------------------------------------
  // Renaming and recording
  // ---------------------------------------------------------------------------------------------

  /// From where to where an approved rename goes, and what it moves.
  function From(b: Binding): Path { if b.ForCleanup? then Live(b.artifact.root, b.artifact.name) else b.item.path }

  function To(b: Binding): Path {
    if b.ForRestore? then b.item.original
    else Held(b.artifact.root, match b.destination case Live(_, name) => name case Held(_, id) => id)
  }

  function Expected(b: Binding): Identity { if b.ForCleanup? then b.artifact.identity else b.item.identity }

  predicate AboutToMove(w: World) { w.d.lane.Intent? && !w.d.lane.binding.ForPurge? }

  /// Nothing failed, the root is the approved one, exactly the approved file is there, and nothing is in the way.
  predicate Movable(w: World, fault: bool)
    requires AboutToMove(w)
  {
    var b := w.d.lane.binding;
    && !fault && RootIs(w.fs, From(b).root, w.d.lane.root)
    && From(b) in w.fs.entries && w.fs.entries[From(b)] == Expected(b) && To(b) !in w.fs.entries
  }

  /// The row of an action is closed with this result, and nothing else in the store changes.
  function ClosedWith(st: Store, action: nat, result: Result): Store {
    if action in st.actions then st.(actions := st.actions[action := Action(st.actions[action].artifact, result)])
    else st
  }

  /// The rename happens exactly when the filesystem finds everything as approved; it moves that file and
  /// nothing else. Otherwise no file changes and the action is closed as failed.
  lemma FileMovedIff(w: World, fault: bool, stored: bool)
    requires AboutToMove(w)
    ensures var l := w.d.lane;
            var b := l.binding;
            var v := Next(w, DoRename(fault, stored));
            && v.d == w.d.(lane := if Movable(w, fault) then Moved(l.action, b) else Idle)
            && v.history == w.history + {Entry(w.tick, Renaming(l.intent, l.action, l.token, b, Movable(w, fault)))}
            && v.fs.roots == w.fs.roots && v.executors == w.executors && v.tick == w.tick + 1
            && (Movable(w, fault) ==>
                 v.fs.entries == (w.fs.entries - {From(b)})[To(b) := Expected(b)] && v.st == w.st)
            && (!Movable(w, fault) ==>
                 v.fs == w.fs && v.st == if stored then ClosedWith(w.st, l.action, Failed) else w.st)
  {}

  /// The row of a file just put into quarantine.
  predicate QuarantineRow(q: Quarantine, cfg: Config, b: Binding, at: Time)
    requires b.ForCleanup?
  {
    && q.artifact == b.artifact.id && q.root == b.artifact.root && q.original == From(b) && q.path == To(b)
    && q.identity == b.artifact.identity && q.manifest == Manifest(To(b), b.artifact.identity)
    && q.originalManifest == b.artifact.manifest && q.quarantinedAt == at && q.graceUntil == at + cfg.grace
    && q.status == Quarantined && q.updated == at && q.configuration == cfg.digest
  }

  predicate OpenAction(st: Store, action: nat) { action in st.actions }

  /// Recording a quarantine writes its row, points the artifact to it and closes the action.
  lemma QuarantineIsRecorded(w: World, at: Time)
    requires w.d.lane.Moved? && w.d.lane.binding.ForCleanup? && OpenAction(w.st, w.d.lane.action)
    ensures var b, id := w.d.lane.binding, w.d.lane.binding.artifact.id;
            var v := Next(w, DoRecord(at, true));
            && v.st.newest == w.st.newest && v.st.actions == ClosedWith(w.st, w.d.lane.action, DoneQuarantine).actions
            && OnlyAt(w.st.quarantines, v.st.quarantines, id)
            && id in v.st.quarantines && QuarantineRow(v.st.quarantines[id], w.d.cfg, b, at)
            && v.st.artifacts.Keys == w.st.artifacts.Keys && OnlyAt(w.st.artifacts, v.st.artifacts, id)
            && (id in w.st.artifacts ==>
                 v.st.artifacts[id] == w.st.artifacts[id].(
                   lifecycle := S.Quarantined, identity := b.artifact.identity,
                   manifest := Manifest(To(b), b.artifact.identity), quarantinePath := Some(To(b)),
                   quarantinedAt := at, quarantineDigest := Some(Manifest(To(b), b.artifact.identity))))
  {}

  /// The quarantine row of an artifact changes its status, if there is one.
  predicate StatusSet(before: map<string, Quarantine>, after: map<string, Quarantine>, id: string, status: Status,
                      at: Time)
  {
    && after.Keys == before.Keys
    && (id in before ==> id in after && after[id] == before[id].(status := status, updated := at))
    && forall x :: x in before && x != id && x in after ==> after[x] == before[x]
  }

  /// Recording a restoration gives the artifact its place back and closes the quarantine row.
  lemma RestorationIsRecorded(w: World, at: Time)
    requires w.d.lane.Moved? && w.d.lane.binding.ForRestore? && OpenAction(w.st, w.d.lane.action)
    ensures var q, id := w.d.lane.binding.item, w.d.lane.binding.item.artifact;
            var v := Next(w, DoRecord(at, true));
            && v.st.newest == w.st.newest && v.st.actions == ClosedWith(w.st, w.d.lane.action, DoneRestore).actions
            && StatusSet(w.st.quarantines, v.st.quarantines, id, Restored, at)
            && v.st.artifacts.Keys == w.st.artifacts.Keys && OnlyAt(w.st.artifacts, v.st.artifacts, id)
            && (id in w.st.artifacts ==>
                 v.st.artifacts[id] == w.st.artifacts[id].(
                   lifecycle := S.Restored, identity := q.identity, manifest := Manifest(q.original, q.identity),
                   stableSince := at, quarantinePath := None, quarantinedAt := 0, quarantineDigest := None))
  {}

  /// Either way the lane is free again; without the transaction the rows stay as they are.
  lemma RecordFreesTheLane(w: World, at: Time, stored: bool)
    requires w.d.lane.Moved?
    ensures var v := Next(w, DoRecord(at, stored));
            && v.d == w.d.(lane := Idle) && v.fs == w.fs && v.history == w.history && v.executors == w.executors
            && v.tick == w.tick + 1 && (!stored ==> v.st == w.st)
  {}

  // ---------------------------------------------------------------------------------------------
  // The two phases of a purge
  // ---------------------------------------------------------------------------------------------

  /// A plan that has not expired when another one is asked for.
  ghost predicate PlanOutstanding(w: World, now: Time) {
    exists secret :: secret in w.d.plans && now <= w.d.plans[secret].expires
  }

  lemma SomeKept(plans: map<nat, Plan>, now: Time)
    ensures |PrunePlans(plans, now)| >= 1 <==> exists secret :: secret in plans && now <= plans[secret].expires
  {
    var kept := PrunePlans(plans, now);
    if secret :| secret in plans && now <= plans[secret].expires {
      assert secret in kept;
    } else {
      assert kept == map[];
    }
  }

  /// A plan is handed out exactly when none is outstanding. It names the row's path and identity and the
  /// approved root, and is valid for two minutes.
  lemma PlanIssuedIff(w: World, stored: bool)
    requires w.d.lane.Intent? && w.d.lane.binding.ForPurge?
    ensures var l := w.d.lane;
            var b := l.binding;
            var plan := Plan(l.action, b.item.artifact, b.item.path, l.root, b.item.identity, l.now + 2 * MINUTE);
            var v := Next(w, DoPrepare(stored));
            && v.d == w.d.(lane := Idle, plans := v.d.plans) && v.fs == w.fs && v.tick == w.tick + 1
            && (!PlanOutstanding(w, l.now) ==>
                 && v.d.plans == map[w.tick := plan] && v.executors == w.executors + {plan} && v.st == w.st
                 && v.history == w.history + {Entry(w.tick, Planning(l.intent, l.action, l.token, b, plan, l.now))})
            && (PlanOutstanding(w, l.now) ==>
                 && v.executors == w.executors && v.history == w.history
                 && v.st == (if stored then ClosedWith(w.st, l.action, Failed) else w.st)
                 && forall secret :: secret in v.d.plans <==>
                      secret in w.d.plans && l.now <= w.d.plans[secret].expires)
  {
    SomeKept(w.d.plans, w.d.lane.now);
    if !PlanOutstanding(w, w.d.lane.now) { assert PrunePlans(w.d.plans, w.d.lane.now) == map[]; }
  }

  /// The executor unlinks exactly the planned identity under the planned root, once.
  lemma UnlinkedIff(w: World, plan: Plan, fault: bool)
    requires plan in w.executors
    ensures var v := Next(w, DoUnlink(plan, fault));
            var found := !fault && RootIs(w.fs, plan.path.root, plan.rootIdentity)
                         && plan.path in w.fs.entries && w.fs.entries[plan.path] == plan.identity;
            && v.executors == w.executors - {plan} && v.d == w.d && v.st == w.st && v.tick == w.tick + 1
            && v.fs.roots == w.fs.roots
            && v.fs.entries == (if found then w.fs.entries - {plan.path} else w.fs.entries)
            && v.history == if found then w.history + {Entry(w.tick, Unlinked(plan))} else w.history
  {}

  /// The request names an outstanding plan by action id and secret.
  predicate Completing(w: World, action: nat, secret: nat) {
    w.d.lane == Idle && secret in w.d.plans && w.d.plans[secret].action == action
  }

  /// What is at the quarantine path cannot be told, is something else, or is gone only after the plan expired.
  predicate Doubtful(w: World, plan: Plan, now: Time, unreadable: bool) {
    || unreadable || !RootIs(w.fs, plan.path.root, plan.rootIdentity)
    || (plan.path in w.fs.entries && w.fs.entries[plan.path] != plan.identity)
    || (plan.path !in w.fs.entries && plan.expires <= now)
  }

  predicate StillPresent(w: World, plan: Plan) {
    plan.path in w.fs.entries && w.fs.entries[plan.path] == plan.identity
  }

  /// A completion opens the circuit exactly when it is doubtful, and records a purge exactly when it finds the
  /// file gone in time and the transaction lands. The plan is used up in any case.
  lemma CompletionTripsIff(w: World, action: nat, secret: nat, now: Time, at: Time, unreadable: bool, stored: bool)
    requires Completing(w, action, secret) && Past(w.history, w.tick)
    ensures var plan := w.d.plans[secret];
            var v := Next(w, DoComplete(action, secret, now, at, unreadable, stored));
            var doubtful := Doubtful(w, plan, now, unreadable);
            && (v.d.fsHealthy <==> w.d.fsHealthy && !doubtful)
            && v.d == w.d.(plans := w.d.plans - {secret}, fsHealthy := v.d.fsHealthy)
            && v.fs == w.fs && v.executors == w.executors && v.tick == w.tick + 1
            && (Has(v.history, w.tick, Tripped) <==> doubtful)
            && (Has(v.history, w.tick, PurgeRecorded(secret, plan, now)) <==>
                 stored && !doubtful && !StillPresent(w, plan))
  {}

  /// A doubtful completion leaves the action partial, one that finds the file still there leaves it failed, and
  /// one that finds it gone in time leaves it purged; without the transaction no row changes.
  lemma CompletionClosesAction(w: World, action: nat, secret: nat, now: Time, at: Time, unreadable: bool, stored: bool)
    requires Completing(w, action, secret)
    ensures var plan := w.d.plans[secret];
            var v := Next(w, DoComplete(action, secret, now, at, unreadable, stored));
            && (stored && OpenAction(w.st, action) ==>
                 v.st.actions == ClosedWith(w.st, action, if Doubtful(w, plan, now, unreadable) then Partial
                                                          else if StillPresent(w, plan) then Failed
                                                          else DonePurge).actions)
            && (!stored ==> v.st == w.st)
  {}

  /// The artifact's row follows: partial, untouched, or purged.
  lemma CompletionMarksArtifact(w: World, action: nat, secret: nat, now: Time, at: Time, unreadable: bool)
    requires Completing(w, action, secret) && OpenAction(w.st, action)
    ensures var plan := w.d.plans[secret];
            var v := Next(w, DoComplete(action, secret, now, at, unreadable, true));
            var id := if Doubtful(w, plan, now, unreadable) then w.st.actions[action].artifact else plan.artifact;
            && v.st.newest == w.st.newest
            && v.st.artifacts.Keys == w.st.artifacts.Keys && OnlyAt(w.st.artifacts, v.st.artifacts, id)
            && (id in w.st.artifacts ==>
                 v.st.artifacts[id] == w.st.artifacts[id].(
                   lifecycle := if Doubtful(w, plan, now, unreadable) then S.Partial
                                else if StillPresent(w, plan) then w.st.artifacts[id].lifecycle else S.Purged))
  {}

  /// Only a purge that is recorded changes the quarantine row.
  lemma CompletionMarksQuarantine(w: World, action: nat, secret: nat, now: Time, at: Time, unreadable: bool)
    requires Completing(w, action, secret) && OpenAction(w.st, action)
    ensures var plan := w.d.plans[secret];
            var v := Next(w, DoComplete(action, secret, now, at, unreadable, true));
            if Doubtful(w, plan, now, unreadable) || StillPresent(w, plan) then v.st.quarantines == w.st.quarantines
            else StatusSet(w.st.quarantines, v.st.quarantines, plan.artifact, Purged, at)
  {}

  /// Any other completion is refused and changes nothing.
  lemma UnknownCompletionIsIgnored(w: World, action: nat, secret: nat, now: Time, at: Time, unreadable: bool,
                                   stored: bool)
    requires !Completing(w, action, secret)
    ensures Next(w, DoComplete(action, secret, now, at, unreadable, stored)) == w.(tick := w.tick + 1)
  {}

  // ---------------------------------------------------------------------------------------------
  // The surroundings
  // ---------------------------------------------------------------------------------------------

  /// A restart keeps files, rows and plans handed out, and nothing of the daemon's memory; cache authority
  /// waits for the next complete scan.
  lemma RestartForgets(w: World, cfg: Config)
    ensures var v := Next(w, DoCrash(cfg));
            && v.fs == w.fs && v.st == w.st && v.executors == w.executors && v.d.cfg == cfg
            && v.d.approvals == map[] && v.d.waiting == map[] && v.d.plans == map[] && v.d.lane == Idle
            && v.d.fsHealthy && !v.d.cacheHealthy && v.history == w.history + {Entry(w.tick, Crashed)}
  {}

  /// A committed scan makes exactly its rows current and gives authority exactly when it was complete; one
  /// that fails takes it away.
  lemma ScansDecideAuthority(w: World, rows: map<string, Artifact>, complete: bool, stored: bool)
    requires w.d.lane == Idle
    ensures var v := Next(w, DoCommitScan(rows, complete));
            && v.d == w.d.(cacheHealthy := complete) && v.fs == w.fs && v.history == w.history
            && v.st.quarantines == w.st.quarantines && v.st.actions == w.st.actions
            && (forall id :: id in rows ==>
                 id in v.st.artifacts && v.st.artifacts[id] == rows[id].(id := id, evaluation := v.st.newest))
            && (forall id :: id in w.st.artifacts && id !in rows ==>
                 id in v.st.artifacts && v.st.artifacts[id] == w.st.artifacts[id])
            && v.st.newest == w.st.newest + 1
    ensures var v := Next(w, DoFailScan(stored));
            && v.d == w.d.(cacheHealthy := false) && v.fs == w.fs && v.history == w.history
            && v.st == if stored then w.st.(newest := w.st.newest + 1) else w.st
  {}

  /// Another lane opens the circuit whenever this one is not in the middle of an action.
  lemma OthersTripToo(w: World)
    ensures var v := Next(w, DoTrip);
            && v.d == w.d.(fsHealthy := w.d.fsHealthy && w.d.lane != Idle) && v.st == w.st && v.fs == w.fs
            && v.history == if w.d.lane == Idle then w.history + {Entry(w.tick, Tripped)} else w.history
  {}

  // ---------------------------------------------------------------------------------------------
  // Runs
  // ---------------------------------------------------------------------------------------------

  lemma LockedTick(w: World, s: Step)
    requires s.DoPreview? || s.DoConsume? || s.DoBegin? || s.DoRename? || s.DoRecord? || s.DoPrepare?
    ensures Next(w, s).tick == w.tick + 1
  {}

  lemma OtherTick(w: World, s: Step)
    requires !s.DoPreview? && !s.DoConsume? && !s.DoBegin? && !s.DoRename? && !s.DoRecord? && !s.DoPrepare?
    ensures Next(w, s).tick == w.tick + 1
  {}

  lemma Ticks(w: World, s: Step)
    ensures Next(w, s).tick == w.tick + 1
  {
    if s.DoPreview? || s.DoConsume? || s.DoBegin? || s.DoRename? || s.DoRecord? || s.DoPrepare? {
      LockedTick(w, s);
    } else {
      OtherTick(w, s);
    }
  }

  /// The world before step number `k` of a run.
  function Before(cfg: Config, fs: Files, steps: seq<Step>, k: nat): World
    requires k <= |steps|
  {
    Run(Initial(cfg, fs), steps[..k])
  }

  lemma BeforeNext(cfg: Config, fs: Files, steps: seq<Step>, k: nat)
    requires k < |steps|
    ensures Before(cfg, fs, steps, k + 1) == Next(Before(cfg, fs, steps, k), steps[k])
  {
    assert steps[..k + 1][..k] == steps[..k];
  }

  lemma {:induction false} RunCounts(cfg: Config, fs: Files, steps: seq<Step>, k: nat)
    requires k <= |steps|
    ensures Before(cfg, fs, steps, k).tick == k
  {
    if k > 0 {
      RunCounts(cfg, fs, steps, k - 1);
      BeforeNext(cfg, fs, steps, k - 1);
      Ticks(Before(cfg, fs, steps, k - 1), steps[k - 1]);
    }
  }

  /// Step number `x.tick` of the run appended `x`.
  ghost predicate AppendedBy(cfg: Config, fs: Files, steps: seq<Step>, x: Entry) {
    x.tick < |steps| && Appends(Before(cfg, fs, steps, x.tick), steps[x.tick], x)
  }

  ghost predicate Appends(w: World, s: Step, x: Entry) { x in Next(w, s).history && x !in w.history }

  lemma AppendedNow(w: World, s: Step, x: Entry)
    requires Appends(w, s, x)
    ensures x.tick == w.tick
  {
    HistoryStep(w, s);
  }

  lemma AppendedOrOld(cfg: Config, fs: Files, steps: seq<Step>, k: nat, x: Entry)
    requires k < |steps| && x in Before(cfg, fs, steps, k + 1).history && x !in Before(cfg, fs, steps, k).history
    ensures Appends(Before(cfg, fs, steps, k), steps[k], x)
  {
    BeforeNext(cfg, fs, steps, k);
  }

  lemma NothingBefore(cfg: Config, fs: Files, steps: seq<Step>)
    ensures Before(cfg, fs, steps, 0).history == {}
  {
    assert steps[..0] == [];
  }

  lemma NewEntryHasStep(cfg: Config, fs: Files, steps: seq<Step>, k: nat, x: Entry)
    requires k < |steps| && Appends(Before(cfg, fs, steps, k), steps[k], x)
    ensures AppendedBy(cfg, fs, steps, x) && x.tick == k
  {
    AppendedNow(Before(cfg, fs, steps, k), steps[k], x);
    RunCounts(cfg, fs, steps, k);
  }

  /// Somewhere `x` came in.
  lemma {:induction false} ComesIn(histories: seq<History>, x: Entry) returns (k: nat)
    requires |histories| > 0 && x !in histories[0] && x in histories[|histories| - 1]
    ensures k + 1 < |histories| && x !in histories[k] && x in histories[k + 1]
  {
    if x in histories[|histories| - 2] {
      k := ComesIn(histories[..|histories| - 1], x);
    } else {
      k := |histories| - 2;
    }
  }

  lemma EntryHasStep(cfg: Config, fs: Files, steps: seq<Step>, x: Entry)
    requires x in Before(cfg, fs, steps, |steps|).history
    ensures AppendedBy(cfg, fs, steps, x)
  {
    NothingBefore(cfg, fs, steps);
    var histories := seq(|steps| + 1, i requires 0 <= i <= |steps| => Before(cfg, fs, steps, i).history);
    var k := ComesIn(histories, x);
    AppendedOrOld(cfg, fs, steps, k, x);
    NewEntryHasStep(cfg, fs, steps, k, x);
  }

  // ---------------------------------------------------------------------------------------------
  // What a step that appends an entry had before it
  // ---------------------------------------------------------------------------------------------

  predicate IssuesIn(w: World, s: Step, b: Binding, expires: Time) {
    && s.DoPreview? && w.d.lane == Idle && s.audited && expires == s.now + 2 * MINUTE
    && Previewable(w, s.kind, s.id, s.policy, s.now) && Bound(w, s.kind, s.id, b)
  }

  predicate ConsumesIn(w: World, s: Step, token: nat, b: Binding, at: Time, expires: Time) {
    && s.DoConsume? && s.token == token && s.now == at < expires
    && Answerable(w, token, s.endpoint, s.confirmation) && w.d.approvals[token] == Approval(b, expires, false)
    && Fits(b, s.endpoint, s.confirmation)
  }

  predicate BeginsIn(w: World, s: Step, action: nat, b: Binding) {
    && s.DoBegin? && s.stored && s.action == action && Beginnable(w, action) && w.d.waiting[action].binding == b
    && StillGood(w, b, s.seen, w.d.waiting[action].now)
  }

  predicate MovesIn(w: World, s: Step, b: Binding, moved: bool) {
    s.DoRename? && AboutToMove(w) && w.d.lane.binding == b && (moved <==> Movable(w, s.fault))
  }

  predicate AppendsAsSaid(w: World, s: Step, e: Effect) {
    match e
    case Issued(b, expires) => IssuesIn(w, s, b, expires)
    case Consumed(token, b, at, expires) => ConsumesIn(w, s, token, b, at, expires)
    case Intended(action, _, b) => BeginsIn(w, s, action, b)
    case Renaming(_, _, _, b, moved) => MovesIn(w, s, b, moved)
    case Planning(_, _, _, b, plan, at) => s.DoPrepare? && w.d.lane.Intent? && w.d.lane.binding == b
    case Unlinked(plan) =>
      && s.DoUnlink? && s.plan == plan && plan in w.executors && !s.fault
      && RootIs(w.fs, plan.path.root, plan.rootIdentity) && StillPresent(w, plan)
    case PurgeRecorded(secret, plan, at) =>
      && s.DoComplete? && Completing(w, s.action, secret) && secret == s.secret && plan == w.d.plans[secret]
      && s.stored && !Doubtful(w, plan, s.now, s.unreadable) && !StillPresent(w, plan) && at == s.now
    case Tripped =>
      || s.DoTrip?
      || (s.DoComplete? && Completing(w, s.action, s.secret)
          && Doubtful(w, w.d.plans[s.secret], s.now, s.unreadable))
    case Crashed => s.DoCrash?
  }

  lemma LockedAppends(w: World, s: Step, x: Entry)
    requires s.DoPreview? || s.DoConsume?
    requires x in Next(w, s).history && x !in w.history
    ensures AppendsAsSaid(w, s, x.effect)
  {}

  lemma BeginAppends(w: World, s: Step, x: Entry)
    requires s.DoBegin? && x in Next(w, s).history && x !in w.history
    ensures AppendsAsSaid(w, s, x.effect)
  {
    BeginOnlyIntends(w, s.action, s.seen, s.stored);
    assert Beginnable(w, s.action);
    IntentCommittedIff(w, s.action, s.seen, s.stored);
  }

  lemma LaneAppends(w: World, s: Step, x: Entry)
    requires s.DoRename? || s.DoRecord? || s.DoPrepare?
    requires x in Next(w, s).history && x !in w.history
    ensures AppendsAsSaid(w, s, x.effect)
  {}

  lemma CompletionAppends(w: World, s: Step, x: Entry)
    requires s.DoComplete? && x in Next(w, s).history && x !in w.history
    ensures AppendsAsSaid(w, s, x.effect)
  {}

  lemma OtherAppends(w: World, s: Step, x: Entry)
    requires s.DoUnlink? || s.DoCommitScan? || s.DoFailScan? || s.DoTrip? || s.DoCrash? || s.DoOutside?
    requires x in Next(w, s).history && x !in w.history
    ensures AppendsAsSaid(w, s, x.effect)
  {}

  lemma StepAppends(w: World, s: Step, x: Entry)
    requires x in Next(w, s).history && x !in w.history
    ensures AppendsAsSaid(w, s, x.effect)
  {
    if s.DoPreview? || s.DoConsume? {
      LockedAppends(w, s, x);
    } else if s.DoBegin? {
      BeginAppends(w, s, x);
    } else if s.DoRename? || s.DoRecord? || s.DoPrepare? {
      LaneAppends(w, s, x);
    } else if s.DoComplete? {
      CompletionAppends(w, s, x);
    } else {
      OtherAppends(w, s, x);
    }
  }

  /// Every entry of a run's history was appended by the step of its number, which found what it says.
  lemma HistoryIsOfSteps(cfg: Config, fs: Files, steps: seq<Step>, x: Entry)
    requires x in Run(Initial(cfg, fs), steps).history
    ensures x.tick < |steps| && AppendsAsSaid(Before(cfg, fs, steps, x.tick), steps[x.tick], x.effect)
  {
    assert steps[..|steps|] == steps;
    EntryHasStep(cfg, fs, steps, x);
    StepAppends(Before(cfg, fs, steps, x.tick), steps[x.tick], x);
  }

  /// The whole story of an effect, step by step: a preview whose gates were open, its consumption, and a
  /// revalidation that found everything as approved.
  ghost predicate Story(cfg: Config, fs: Files, steps: seq<Step>, x: Entry)
    requires x.tick < |steps| && IsEffect(x.effect)
  {
    && x.effect.token < x.effect.action < x.effect.intent < x.tick
    && (exists at, expires ::
          && IssuesIn(Before(cfg, fs, steps, x.effect.token), steps[x.effect.token], x.effect.binding, expires)
          && ConsumesIn(Before(cfg, fs, steps, x.effect.action), steps[x.effect.action], x.effect.token,
                        x.effect.binding, at, expires))
    && BeginsIn(Before(cfg, fs, steps, x.effect.intent), steps[x.effect.intent], x.effect.action, x.effect.binding)
  }

  /// Behind every rename call and every plan of every run stands that story; behind the rename of a cleanup, in
  /// particular, a fresh observation that recommends the very file again.
  lemma EveryEffectHasItsStory(cfg: Config, fs: Files, steps: seq<Step>, x: Entry)
    requires x in Run(Initial(cfg, fs), steps).history && IsEffect(x.effect)
    ensures x.tick < |steps| && Story(cfg, fs, steps, x)
    ensures x.effect.binding.ForCleanup? ==> SeenAgain(x.effect.binding.artifact, steps[x.effect.intent].seen)
  {
    var w := Run(Initial(cfg, fs), steps);
    assert Reaches(cfg, fs, steps, w);
    EveryEffectIsAuthorized(w, x);
    var e, h := x.effect, w.history;
    var at, expires :|
      && Has(h, e.action, Consumed(e.token, e.binding, at, expires)) && at < expires
      && Has(h, e.token, Issued(e.binding, expires))
      && Has(h, e.intent, Intended(e.action, e.token, e.binding)) && e.token < e.action < e.intent < x.tick;
    HistoryIsOfSteps(cfg, fs, steps, x);
    HistoryIsOfSteps(cfg, fs, steps, Entry(e.token, Issued(e.binding, expires)));
    HistoryIsOfSteps(cfg, fs, steps, Entry(e.action, Consumed(e.token, e.binding, at, expires)));
    HistoryIsOfSteps(cfg, fs, steps, Entry(e.intent, Intended(e.action, e.token, e.binding)));
  }

  /// The history of a prefix is part of the history.
  lemma {:induction false} HistoryStays(cfg: Config, fs: Files, steps: seq<Step>, k: nat)
    requires k <= |steps|
    ensures Before(cfg, fs, steps, k).history <= Run(Initial(cfg, fs), steps).history
    decreases |steps| - k
  {
    if k == |steps| {
      assert steps[..k] == steps;
    } else {
      BeforeNext(cfg, fs, steps, k);
      HistoryStep(Before(cfg, fs, steps, k), steps[k]);
      HistoryStays(cfg, fs, steps, k + 1);
    }
  }

  /// Step number `k` completes a purge whose outcome is doubtful.
  ghost predicate EndsInDoubt(cfg: Config, fs: Files, steps: seq<Step>, k: nat)
    requires k < |steps|
  {
    CompletesInDoubt(Before(cfg, fs, steps, k), steps[k])
  }

  predicate CompletesInDoubt(w: World, s: Step) {
    s.DoComplete? && Completing(w, s.action, s.secret) && Doubtful(w, w.d.plans[s.secret], s.now, s.unreadable)
  }

  lemma DoubtTrips(w: World, s: Step)
    requires CompletesInDoubt(w, s) && Past(w.history, w.tick)
    ensures Entry(w.tick, Tripped) in Next(w, s).history
  {
    CompletionTripsIff(w, s.action, s.secret, s.now, s.at, s.unreadable, s.stored);
  }

  lemma PastBefore(cfg: Config, fs: Files, steps: seq<Step>, k: nat)
    requires k <= |steps|
    ensures Past(Before(cfg, fs, steps, k).history, k)
  {
    RunKeeps(cfg, fs, steps[..k]);
    RunCounts(cfg, fs, steps, k);
  }

  lemma DoubtIsInHistory(cfg: Config, fs: Files, steps: seq<Step>, k: nat)
    requires k < |steps| && EndsInDoubt(cfg, fs, steps, k)
    ensures Entry(k, Tripped) in Run(Initial(cfg, fs), steps).history
  {
    PastBefore(cfg, fs, steps, k);
    RunCounts(cfg, fs, steps, k);
    DoubtTrips(Before(cfg, fs, steps, k), steps[k]);
    BeforeNext(cfg, fs, steps, k);
    HistoryStays(cfg, fs, steps, k + 1);
  }

  /// After a doubtful completion nothing is renamed and no plan is handed out before the daemon restarts.
  lemma DoubtStopsEffects(cfg: Config, fs: Files, steps: seq<Step>, k: nat, x: Entry)
    requires k < |steps| && EndsInDoubt(cfg, fs, steps, k)
    requires x in Run(Initial(cfg, fs), steps).history && IsEffect(x.effect) && k < x.tick
    ensures x.tick < |steps| && exists i :: k < i < x.tick && steps[i].DoCrash?
  {
    var w := Run(Initial(cfg, fs), steps);
    assert Reaches(cfg, fs, steps, w);
    DoubtIsInHistory(cfg, fs, steps, k);
    CircuitLatches(w, Entry(k, Tripped), x);
    var c :| c in w.history && c.effect.Crashed? && k < c.tick < x.tick;
    HistoryIsOfSteps(cfg, fs, steps, c);
    HistoryIsOfSteps(cfg, fs, steps, x);
  }
}
