/// What the cache lane stores and what an approval binds: the durable rows, their transitions, and the
/// gates that previews and applications pass (internal/storage/cache_transition.go, cache_write.go;
/// internal/daemon/cache_approval.go and cache_revalidation.go).

module CacheLedger {
  import opened Common
  import opened CacheFs
  import S = CacheSettling

  // ---------------------------------------------------------------------------------------------
  // Durable rows
  // ---------------------------------------------------------------------------------------------

  datatype Artifact = Artifact(
    id: string, root: string, name: string, rootIdentity: Identity, identity: Identity, manifest: Manifest,
    lifecycle: S.Lifecycle, policy: string, session: string, stableSince: Time, evaluation: nat,
    quarantinePath: Option<Path>, quarantinedAt: Time, quarantineDigest: Option<Manifest>)

  datatype Status = Quarantined | Restored | Purged

  datatype Quarantine = Quarantine(
    artifact: string, root: string, original: Path, path: Path, identity: Identity, manifest: Manifest,
    originalManifest: Manifest, quarantinedAt: Time, graceUntil: Time, status: Status, updated: Time,
    configuration: string)

  datatype Result = Rejected | Attempting | Purging | Failed | Partial | DoneQuarantine | DoneRestore | DonePurge

  datatype Action = Action(artifact: string, result: Result)

  /// `newest` is the greatest evaluation id; `actions` is keyed by action id.
  datatype Store = Store(
    artifacts: map<string, Artifact>, newest: nat, quarantines: map<string, Quarantine>, actions: map<nat, Action>)

  function Begun(st: Store, action: nat, artifact: string, result: Result): Store {
    st.(actions := st.actions[action := Action(artifact, result)])
  }

  function Finished(st: Store, action: nat, result: Result): Store {
    if action !in st.actions then st else st.(actions := st.actions[action := st.actions[action].(result := result)])
  }

  /// `FinishCacheAction`: a partial result also marks the artifact.
  function FinishedPartial(st: Store, action: nat): Store {
    if action !in st.actions then st
    else
      var id := st.actions[action].artifact;
      var done := Finished(st, action, Partial);
      if id in st.artifacts then done.(artifacts := st.artifacts[id := st.artifacts[id].(lifecycle := S.Partial)])
      else done
  }

  function RecordQuarantined(st: Store, action: nat, q: Quarantine): Store {
    if action !in st.actions then st
    else
      var done := Finished(st, action, DoneQuarantine).(quarantines := st.quarantines[q.artifact := q]);
      if q.artifact !in st.artifacts then done
      else done.(artifacts := st.artifacts[q.artifact := st.artifacts[q.artifact].(
                  lifecycle := S.Quarantined, identity := q.identity, manifest := q.manifest,
                  quarantinePath := Some(q.path), quarantinedAt := q.quarantinedAt,
                  quarantineDigest := Some(q.manifest))])
  }

  function WithStatus(st: Store, id: string, status: Status, now: Time): map<string, Quarantine> {
    if id in st.quarantines then st.quarantines[id := st.quarantines[id].(status := status, updated := now)]
    else st.quarantines
  }

  function RecordRestored(st: Store, action: nat, id: string, identity: Identity, manifest: Manifest,
                          now: Time): Store
  {
    if action !in st.actions then st
    else
      var done := Finished(st, action, DoneRestore).(quarantines := WithStatus(st, id, Restored, now));
      if id !in st.artifacts then done
      else done.(artifacts := st.artifacts[id := st.artifacts[id].(
                  lifecycle := S.Restored, identity := identity, manifest := manifest, stableSince := now,
                  quarantinePath := None, quarantinedAt := 0, quarantineDigest := None)])
  }

  function RecordPurged(st: Store, action: nat, id: string, now: Time): Store {
    if action !in st.actions then st
    else
      var done := Finished(st, action, DonePurge).(quarantines := WithStatus(st, id, Purged, now));
      if id !in st.artifacts then done
      else done.(artifacts := st.artifacts[id := st.artifacts[id].(lifecycle := S.Purged)])
  }

  // ---------------------------------------------------------------------------------------------
  // Approvals
  // ---------------------------------------------------------------------------------------------

  datatype Kind = Cleanup | Restore | Purge

  /// Everything an approval's digest covers.
  datatype Binding =
    | ForCleanup(artifact: Artifact, destination: Path, configuration: string)
    | ForRestore(artifact: Artifact, item: Quarantine, destination: Path, configuration: string)
    | ForPurge(artifact: Artifact, item: Quarantine, destination: Path, configuration: string)

  function KindOf(b: Binding): Kind {
    match b
    case ForCleanup(_, _, _) => Cleanup
    case ForRestore(_, _, _, _) => Restore
    case ForPurge(_, _, _, _) => Purge
  }

  /// `policies` holds the policies that are enabled in recommend mode.
  datatype Config =
      Config(digest: string, recommend: bool, policies: set<string>, maxEntries: int, maxBytes: int, grace: int)

  predicate Authority(cfg: Config, healthy: bool, policy: string) { healthy && cfg.recommend && policy in cfg.policies }

  function CurrentArtifact(st: Store, id: string): Option<Artifact> {
    if id in st.artifacts && st.artifacts[id].evaluation == st.newest then Some(st.artifacts[id]) else None
  }

  /// What a preview binds, when its gates are open.
  function PreviewBinding(cfg: Config, healthy: bool, st: Store, kind: Kind, id: string, policy: string,
                          now: Time): Option<Binding>
  {
    match kind
    case Cleanup =>
      if policy == "" || !Authority(cfg, healthy, policy) || CurrentArtifact(st, id).None? then None
      else
        var a := CurrentArtifact(st, id).value;
        if a.lifecycle != S.Recommended || a.policy != policy || cfg.maxEntries < 1
            || a.identity.size > cfg.maxBytes then None
        else Some(ForCleanup(a, Held(a.root, a.id), cfg.digest))
    case Restore =>
      if id !in st.artifacts || !Authority(cfg, healthy, st.artifacts[id].policy) || id !in st.quarantines then None
      else
        var q := st.quarantines[id];
        if q.status != Quarantined || q.identity.size > cfg.maxBytes then None
        else Some(ForRestore(st.artifacts[id], q, q.original, cfg.digest))
    case Purge =>
      if policy == "" || !Authority(cfg, healthy, policy) || id !in st.artifacts || id !in st.quarantines then None
      else
        var q := st.quarantines[id];
        if st.artifacts[id].policy != policy || q.status != Quarantined || now < q.graceUntil
            || q.identity.size > cfg.maxBytes then None
        else Some(ForPurge(st.artifacts[id], q, q.path, cfg.digest))
  }

  // ---------------------------------------------------------------------------------------------
  // Revalidation
  // ---------------------------------------------------------------------------------------------

  /// The binding as the durable rows spell it now, for the approval's artifact, kind and destination.
  function ReadBinding(cfg: Config, st: Store, b: Binding): Option<Binding> {
    match b
    case ForCleanup(a, destination, _) =>
      if CurrentArtifact(st, a.id).None? then None
      else Some(ForCleanup(CurrentArtifact(st, a.id).value, destination, cfg.digest))
    case ForRestore(a, _, destination, _) =>
      if a.id !in st.artifacts || a.id !in st.quarantines then None
      else Some(ForRestore(st.artifacts[a.id], st.quarantines[a.id], destination, cfg.digest))
    case ForPurge(a, _, destination, _) =>
      if a.id !in st.artifacts || a.id !in st.quarantines then None
      else Some(ForPurge(st.artifacts[a.id], st.quarantines[a.id], destination, cfg.digest))
  }

  predicate Consistent(a: Artifact, q: Quarantine) {
    && q.manifest == Manifest(q.path, q.identity) && a.identity == q.identity && a.manifest == q.manifest
    && a.quarantineDigest == Some(q.manifest) && a.quarantinePath == Some(q.path) && a.root == q.root
  }

  /// The fresh provider observation still recommends exactly the approved artifact.
  predicate StillRecommended(current: Artifact, seen: Artifact) {
    && seen.lifecycle == S.Recommended && seen.policy == current.policy
    && seen.identity == current.identity && seen.manifest == current.manifest && seen.session == current.session
    && seen.root == current.root && seen.name == current.name && seen.rootIdentity.SameObject(current.rootIdentity)
  }

  /// `freshCleanupArtifact` and `currentQuarantineApproval`: the provider root to act under, or a refusal.
  /// `seen` is what a complete fresh observation says of the artifact, if it says anything.
  function Revalidated(cfg: Config, healthy: bool, st: Store, b: Binding, seen: Option<Artifact>,
                       now: Time): Option<Identity>
  {
    if b.configuration != cfg.digest || !Authority(cfg, healthy, b.artifact.policy)
        || ReadBinding(cfg, st, b) != Some(b) then None
    else if b.ForCleanup? then
      if seen.None? || !StillRecommended(b.artifact, seen.value) then None else Some(seen.value.rootIdentity)
    else if b.item.status != Quarantined || !Consistent(b.artifact, b.item) then None
    else if b.ForPurge? && now < b.item.graceUntil then None
    else Some(b.artifact.rootIdentity)
  }

  // ---------------------------------------------------------------------------------------------
  // What an approved action does
  // ---------------------------------------------------------------------------------------------

  function Base(p: Path): string { match p case Live(_, name) => name case Held(_, id) => id }

  function Source(b: Binding): Path { if b.ForCleanup? then Live(b.artifact.root, b.artifact.name) else b.item.path }

  function Target(b: Binding): Path {
    match b
    case ForCleanup(a, destination, _) => Held(a.root, Base(destination))
    case ForRestore(_, item, _, _) => item.original
    case ForPurge(_, item, _, _) => item.path
  }

  function Content(b: Binding): Identity { if b.ForCleanup? then b.artifact.identity else b.item.identity }

  function QuarantineOf(cfg: Config, b: Binding, at: Time): Quarantine {
    Quarantine(b.artifact.id, b.artifact.root, Source(b), Target(b), Content(b), Manifest(Target(b), Content(b)),
               b.artifact.manifest, at, at + cfg.grace, Quarantined, at, cfg.digest)
  }

  /// Recording a completed rename.
  function Recorded(cfg: Config, st: Store, action: nat, b: Binding, at: Time): Store {
    match b
    case ForCleanup(_, _, _) => RecordQuarantined(st, action, QuarantineOf(cfg, b, at))
    case ForRestore(_, item, _, _) =>
      RecordRestored(st, action, item.artifact, Content(b), Manifest(item.original, Content(b)), at)
    case ForPurge(_, _, _, _) => st
  }

  /// Quarantine and restoration undo each other on the rows: the artifact regains its identity and
  /// manifest digests, and no other artifact or quarantine row is touched.
  lemma RestoreUndoesQuarantine(cfg: Config, st: Store, first: nat, second: nat, b: Binding, back: Binding, at: Time,
                                later: Time)
    requires b.ForCleanup? && b.artifact.id in st.artifacts && st.artifacts[b.artifact.id] == b.artifact
    requires b.artifact.manifest == Manifest(Live(b.artifact.root, b.artifact.name), b.artifact.identity)
    requires first in st.actions && second in st.actions && first != second
    requires back.ForRestore? && back.item == QuarantineOf(cfg, b, at)
    ensures var id := b.artifact.id;
            var end := Recorded(cfg, Recorded(cfg, st, first, b, at), second, back, later);
            && end.artifacts[id].identity == st.artifacts[id].identity
            && end.artifacts[id].manifest == st.artifacts[id].manifest
            && end.artifacts[id].quarantinePath == None && end.artifacts[id].lifecycle == S.Restored
            && id in end.quarantines && end.quarantines[id].status == Restored
            && (forall x :: x in st.artifacts && x != id ==> x in end.artifacts && end.artifacts[x] == st.artifacts[x])
            && (forall x :: x in st.quarantines && x != id ==>
                 x in end.quarantines && end.quarantines[x] == st.quarantines[x])
  {}

  /// The row a quarantine leaves is exactly what restoration and purge revalidation accept.
  lemma QuarantineRowIsConsistent(cfg: Config, st: Store, action: nat, b: Binding, at: Time)
    requires b.ForCleanup? && action in st.actions && b.artifact.id in st.artifacts
    requires st.artifacts[b.artifact.id].root == b.artifact.root
    ensures var id := b.artifact.id;
            var end := Recorded(cfg, st, action, b, at);
            id in end.quarantines && end.quarantines[id].status == Quarantined
            && Consistent(end.artifacts[id], end.quarantines[id])
  {}
}
