/// The cache lane as a system of steps: daemon, foreground executor, crashes and outside interference
/// (internal/daemon/cache_approval.go, cache_action.go, cache_quarantine_action.go,
/// cache_restore_action.go, cache_purge_action.go; cmd/cli/cache.go).

module CacheProtocol {
  import opened Common
  import opened CacheFs
  import opened CacheLedger
  import S = CacheSettling

  const LIFETIME := 2 * MINUTE
  const MAX_APPROVALS := 128

  datatype Approval = Approval(binding: Binding, expires: Time, used: bool)

  /// An approval that has been consumed and waits for the locks.
  datatype Waiting = Waiting(token: nat, binding: Binding, now: Time)

  /// What the foreground executor is told to unlink.
  datatype Plan =
      Plan(action: nat, artifact: string, path: Path, rootIdentity: Identity, identity: Identity, expires: Time)

  /// The action that holds both locks: its intent is committed, or its rename has happened.
  datatype Lane =
    | Idle
    | Intent(intent: nat, action: nat, token: nat, binding: Binding, root: Identity, now: Time)
    | Moved(action: nat, binding: Binding)

  datatype Daemon = Daemon(
    cfg: Config, approvals: map<nat, Approval>, waiting: map<nat, Waiting>, plans: map<nat, Plan>, lane: Lane,
    fsHealthy: bool, cacheHealthy: bool)

  // ---------------------------------------------------------------------------------------------
  // History
  // ---------------------------------------------------------------------------------------------

  /// What a step did, as the theorems speak of it.
  datatype Effect =
    | Issued(binding: Binding, expires: Time)
    | Consumed(token: nat, binding: Binding, at: Time, expires: Time)
    | Intended(action: nat, token: nat, binding: Binding)
    | Renaming(intent: nat, action: nat, token: nat, binding: Binding, moved: bool)
    | Planning(intent: nat, action: nat, token: nat, binding: Binding, plan: Plan, at: Time)
    | Unlinked(plan: Plan)
    | PurgeRecorded(secret: nat, plan: Plan, at: Time)
    | Tripped
    | Crashed

  /// Steps are numbered; the number of a step also serves as the fresh token, action id or secret it draws.
  datatype Entry = Entry(tick: nat, effect: Effect)

  type History = set<Entry>

  datatype World = World(tick: nat, d: Daemon, st: Store, fs: Files, executors: set<Plan>, history: History)

  function Healthy(d: Daemon): bool { d.fsHealthy && d.cacheHealthy }

  function Did(w: World, e: Effect): History { w.history + {Entry(w.tick, e)} }

  function Skip(w: World): World { w.(tick := w.tick + 1) }

  // ---------------------------------------------------------------------------------------------
  // Approvals
  // ---------------------------------------------------------------------------------------------

  /// An approval is forgotten two minutes after it expired.
  function Prune(approvals: map<nat, Approval>, now: Time): map<nat, Approval> {
    map token | token in approvals && approvals[token].expires + LIFETIME >= now :: approvals[token]
  }

  function Preview(w: World, kind: Kind, id: string, policy: string, now: Time, audited: bool): World {
    var b := PreviewBinding(w.d.cfg, Healthy(w.d), w.st, kind, id, policy, now);
    if w.d.lane != Idle || b.None? then Skip(w)
    else
      var kept := Prune(w.d.approvals, now);
      if |kept| >= MAX_APPROVALS || !audited then Skip(w.(d := w.d.(approvals := kept)))
      else
        Skip(w.(d := w.d.(approvals := kept[w.tick := Approval(b.value, now + LIFETIME, false)]),
                history := Did(w, Issued(b.value, now + LIFETIME))))
  }

  predicate Acceptable(a: Approval, endpoint: Kind, confirmation: string, now: Time) {
    now < a.expires && KindOf(a.binding) == endpoint && (endpoint.Purge? ==> confirmation == a.binding.artifact.id)
  }

  function Reject(w: World, d: Daemon, action: nat, artifact: string, stored: bool): World {
    Skip(w.(d := d, st := if stored then Begun(w.st, action, artifact, Rejected) else w.st))
  }

  function Consume(w: World, token: nat, endpoint: Kind, confirmation: string, now: Time, stored: bool): World {
    if token !in w.d.approvals || (endpoint.Purge? && confirmation == "") then Skip(w)
    else
      var a := w.d.approvals[token];
      var d := w.d.(approvals := w.d.approvals[token := a.(used := true)]);
      if a.used || !Acceptable(a, endpoint, confirmation, now) then Reject(w, d, w.tick, a.binding.artifact.id, stored)
      else
        Skip(w.(d := d.(waiting := d.waiting[w.tick := Waiting(token, a.binding, now)]),
                history := Did(w, Consumed(token, a.binding, now, a.expires))))
  }

  // ---------------------------------------------------------------------------------------------
  // Intent, effect, record
  // ---------------------------------------------------------------------------------------------

  function Begin(w: World, action: nat, seen: Option<Artifact>, stored: bool): World {
    if w.d.lane != Idle || action !in w.d.waiting then Skip(w)
    else
      var t := w.d.waiting[action];
      var d := w.d.(waiting := w.d.waiting - {action});
      var root := Revalidated(w.d.cfg, Healthy(w.d), w.st, t.binding, seen, t.now);
      if root.None? then Reject(w, d, action, t.binding.artifact.id, stored)
      else if !stored then Skip(w.(d := d))
      else
        var read := ReadBinding(w.d.cfg, w.st, t.binding).value;
        Skip(w.(d := d.(lane := Intent(w.tick, action, t.token, t.binding, root.value, t.now)),
                st := Begun(w.st, action, t.binding.artifact.id, if t.binding.ForPurge? then Purging else Attempting),
                history := Did(w, Intended(action, t.token, read))))
  }

  function GiveUp(w: World, d: Daemon, action: nat, stored: bool): World {
    Skip(w.(d := d.(lane := Idle), st := if stored then Finished(w.st, action, Failed) else w.st))
  }

  /// The rename call, which may refuse or fail; then the action row is closed.
  function Rename(w: World, fault: bool, stored: bool): World {
    if !w.d.lane.Intent? || w.d.lane.binding.ForPurge? then Skip(w)
    else
      var l := w.d.lane;
      var b := l.binding;
      var moved := CanMove(w.fs, Source(b), Target(b), l.root, Content(b), fault).Done?;
      var called := w.(history := Did(w, Renaming(l.intent, l.action, l.token, b, moved)));
      if !moved then GiveUp(called, w.d, l.action, stored)
      else Skip(called.(d := w.d.(lane := Moved(l.action, b)), fs := Renamed(w.fs, Source(b), Target(b))))
  }

  function Record(w: World, at: Time, stored: bool): World {
    if !w.d.lane.Moved? then Skip(w)
    else
      Skip(w.(d := w.d.(lane := Idle),
              st := if stored then Recorded(w.d.cfg, w.st, w.d.lane.action, w.d.lane.binding, at) else w.st))
  }

  // ---------------------------------------------------------------------------------------------
  // Two-phase purge
  // ---------------------------------------------------------------------------------------------

  function PrunePlans(plans: map<nat, Plan>, now: Time): map<nat, Plan> {
    map secret | secret in plans && plans[secret].expires >= now :: plans[secret]
  }

  function PlanOf(action: nat, b: Binding, root: Identity, now: Time): Plan
    requires b.ForPurge?
  {
    Plan(action, b.item.artifact, b.item.path, root, b.item.identity, now + LIFETIME)
  }

  function Prepare(w: World, stored: bool): World {
    if !w.d.lane.Intent? || !w.d.lane.binding.ForPurge? then Skip(w)
    else
      var l := w.d.lane;
      var kept := PrunePlans(w.d.plans, l.now);
      if |kept| >= 1 then GiveUp(w, w.d.(plans := kept), l.action, stored)
      else
        var plan := PlanOf(l.action, l.binding, l.root, l.now);
        Skip(w.(d := w.d.(lane := Idle, plans := kept[w.tick := plan]), executors := w.executors + {plan},
                history := Did(w, Planning(l.intent, l.action, l.token, l.binding, plan, l.now))))
  }

  /// The foreground executor tries its plan once, possibly after any delay.
  function Unlink(w: World, plan: Plan, fault: bool): World {
    if plan !in w.executors then Skip(w)
    else
      var tried := w.(executors := w.executors - {plan});
      if !CanRemove(w.fs, plan.path, plan.rootIdentity, plan.identity, fault).Done? then Skip(tried)
      else Skip(tried.(fs := Removed(w.fs, plan.path), history := Did(w, Unlinked(plan))))
  }

  function Ambiguous(w: World, d: Daemon, action: nat, stored: bool): World {
    Skip(w.(d := d.(fsHealthy := false), st := if stored then FinishedPartial(w.st, action) else w.st,
            history := Did(w, Tripped)))
  }

  function Complete(w: World, action: nat, secret: nat, now: Time, at: Time, unreadable: bool, stored: bool): World {
    if w.d.lane != Idle || secret !in w.d.plans || w.d.plans[secret].action != action then Skip(w)
    else
      var plan := w.d.plans[secret];
      var d := w.d.(plans := w.d.plans - {secret});
      if unreadable || !RootUnchanged(w.fs, plan.path.root, plan.rootIdentity) then Ambiguous(w, d, action, stored)
      else if plan.path in w.fs.entries then
        if w.fs.entries[plan.path] != plan.identity then Ambiguous(w, d, action, stored)
        else Skip(w.(d := d, st := if stored then Finished(w.st, action, Failed) else w.st))
      else if now >= plan.expires then Ambiguous(w, d, action, stored)
      else if !stored then Skip(w.(d := d))
      else
        Skip(w.(d := d, st := RecordPurged(w.st, action, plan.artifact, at),
                history := Did(w, PurgeRecorded(secret, plan, now))))
  }

  // ---------------------------------------------------------------------------------------------
  // The surroundings
  // ---------------------------------------------------------------------------------------------

  /// A committed evaluation writes any artifact rows under the next evaluation id.
  function CommitScan(w: World, rows: map<string, Artifact>, complete: bool): World {
    if w.d.lane != Idle then Skip(w)
    else
      var stamped := map id | id in rows :: rows[id].(id := id, evaluation := w.st.newest + 1);
      Skip(w.(d := w.d.(cacheHealthy := complete),
              st := w.st.(artifacts := w.st.artifacts + stamped, newest := w.st.newest + 1)))
  }

  function FailScan(w: World, stored: bool): World {
    if w.d.lane != Idle then Skip(w)
    else
      Skip(w.(d := w.d.(cacheHealthy := false), st := if stored then w.st.(newest := w.st.newest + 1) else w.st))
  }

  /// Another lane opens the filesystem circuit; it holds the scan lock while it does.
  function Trip(w: World): World {
    if w.d.lane != Idle then Skip(w) else Skip(w.(d := w.d.(fsHealthy := false), history := Did(w, Tripped)))
  }

  /// The daemon dies at any moment and starts again, possibly with another configuration.
  function Crash(w: World, cfg: Config): World {
    Skip(w.(d := Daemon(cfg, map[], map[], map[], Idle, true, false), history := Did(w, Crashed)))
  }

  /// Other programs create, replace or delete provider entries, but leave the quarantine directory alone.
  function Outside(w: World, root: string, name: string, identity: Option<Identity>): World {
    Skip(w.(fs := w.fs.(entries := match identity
                                   case None => w.fs.entries - {Live(root, name)}
                                   case Some(i) => w.fs.entries[Live(root, name) := i])))
  }

  // ---------------------------------------------------------------------------------------------
  // Runs
  // ---------------------------------------------------------------------------------------------

  datatype Step =
    | DoPreview(kind: Kind, id: string, policy: string, now: Time, audited: bool)
    | DoConsume(token: nat, endpoint: Kind, confirmation: string, now: Time, stored: bool)
    | DoBegin(action: nat, seen: Option<Artifact>, stored: bool)
    | DoRename(fault: bool, stored: bool)
    | DoRecord(at: Time, stored: bool)
    | DoPrepare(stored: bool)
    | DoUnlink(plan: Plan, fault: bool)
    | DoComplete(action: nat, secret: nat, now: Time, at: Time, unreadable: bool, stored: bool)
    | DoCommitScan(rows: map<string, Artifact>, complete: bool)
    | DoFailScan(stored: bool)
    | DoTrip
    | DoCrash(cfg: Config)
    | DoOutside(root: string, name: string, identity: Option<Identity>)

  function Next(w: World, s: Step): World {
    match s
    case DoPreview(kind, id, policy, now, audited) => Preview(w, kind, id, policy, now, audited)
    case DoConsume(token, endpoint, confirmation, now, stored) => Consume(w, token, endpoint, confirmation, now, stored)
    case DoBegin(action, seen, stored) => Begin(w, action, seen, stored)
    case DoRename(fault, stored) => Rename(w, fault, stored)
    case DoRecord(at, stored) => Record(w, at, stored)
    case DoPrepare(stored) => Prepare(w, stored)
    case DoUnlink(plan, fault) => Unlink(w, plan, fault)
    case DoComplete(action, secret, now, at, unreadable, stored) =>
      Complete(w, action, secret, now, at, unreadable, stored)
    case DoCommitScan(rows, complete) => CommitScan(w, rows, complete)
    case DoFailScan(stored) => FailScan(w, stored)
    case DoTrip => Trip(w)
    case DoCrash(cfg) => Crash(w, cfg)
    case DoOutside(root, name, identity) => Outside(w, root, name, identity)
  }

  /// Files are whatever they are and nothing is recorded yet.
  function Initial(cfg: Config, fs: Files): World {
    World(0, Daemon(cfg, map[], map[], map[], Idle, true, false), Store(map[], 0, map[], map[]), fs, {}, {})
  }

  function Run(w: World, steps: seq<Step>): World {
    if steps == [] then w else Next(Run(w, steps[..|steps| - 1]), steps[|steps| - 1])
  }

  ghost predicate Reaches(cfg: Config, fs: Files, steps: seq<Step>, w: World) { w == Run(Initial(cfg, fs), steps) }

  /// What some run, from any files and any configuration, can lead to.
  ghost predicate Reachable(w: World) { exists cfg, fs, steps :: Reaches(cfg, fs, steps, w) }

  predicate Has(h: History, tick: nat, e: Effect) { Entry(tick, e) in h }

}
