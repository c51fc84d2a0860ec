/// What happens at each path of the quarantine directory over a whole run: the files put there, what took
/// each of them away again, and where rows, approvals and plans got the paths and identities they name
/// (internal/cachefs/fake.go; internal/daemon/cache_quarantine_action.go, cache_restore_action.go and
/// cache_purge_action.go).

module CacheSlots {
  import opened Common
  import opened CacheFs
  import opened CacheLedger
  import opened CacheProtocol
  import opened CacheAuthority

  // ---------------------------------------------------------------------------------------------
  // Puts and takes
  // ---------------------------------------------------------------------------------------------

  predicate Puts(e: Effect, p: Path) { e.Renaming? && e.moved && e.binding.ForCleanup? && Target(e.binding) == p }

  predicate MovesBack(e: Effect, p: Path) {
    e.Renaming? && e.moved && e.binding.ForRestore? && e.binding.item.path == p
  }

  predicate Unlinks(e: Effect, p: Path) { e.Unlinked? && e.plan.path == p }

  predicate Takes(e: Effect, p: Path) { MovesBack(e, p) || Unlinks(e, p) }

  predicate Touches(e: Effect, p: Path) { Puts(e, p) || Takes(e, p) }

  /// The identity of the file that was put or taken.
  function Handled(e: Effect): Identity
    requires e.Renaming? || e.Unlinked?
  {
    if e.Unlinked? then e.plan.identity else Content(e.binding)
  }

  /// `x` takes away the file that `y` put, and nothing happens at the path in between.
  ghost predicate TakenBy(h: History, p: Path, y: Entry, x: Entry)
    requires Puts(y.effect, p) && Takes(x.effect, p)
  {
    && Handled(x.effect) == Handled(y.effect) && y.tick < x.tick
    && forall z :: z in h && Touches(z.effect, p) ==> z.tick <= y.tick || x.tick <= z.tick
  }

  ghost predicate Taken(h: History, p: Path, y: Entry)
    requires Puts(y.effect, p)
  {
    exists x :: x in h && Takes(x.effect, p) && TakenBy(h, p, y, x)
  }

  /// The put that belongs to a take.
  ghost predicate Owned(h: History, p: Path, x: Entry)
    requires Takes(x.effect, p)
  {
    exists y :: y in h && Puts(y.effect, p) && TakenBy(h, p, y, x)
  }

  /// The file that `y` put is still there.
  ghost predicate InPlace(h: History, fs: Files, p: Path, y: Entry)
    requires Puts(y.effect, p)
  {
    IsAt(fs, p, Handled(y.effect)) && forall z :: z in h && Touches(z.effect, p) ==> z.tick <= y.tick
  }

  ghost predicate Used(h: History, p: Path) { exists y :: y in h && Puts(y.effect, p) }

  ghost predicate PutsFated(h: History, fs: Files, p: Path) {
    forall y :: y in h && Puts(y.effect, p) ==> InPlace(h, fs, p, y) || Taken(h, p, y)
  }

  ghost predicate TakesOwn(h: History, p: Path) {
    forall x :: x in h && Takes(x.effect, p) ==> Owned(h, p, x)
  }

  ghost predicate Filled(h: History, fs: Files, p: Path) {
    p in fs.entries && Used(h, p) ==> exists y :: y in h && Puts(y.effect, p) && InPlace(h, fs, p, y)
  }

  /// The life of one path: puts and takes alternate, and a file that was put is there until it is taken.
  ghost predicate Slot(h: History, fs: Files, p: Path) { PutsFated(h, fs, p) && TakesOwn(h, p) && Filled(h, fs, p) }

  /// The file that `y` put was taken before `tick`.
  ghost predicate TakenBefore(h: History, p: Path, y: Entry, tick: nat)
    requires Puts(y.effect, p)
  {
    exists x :: x in h && Takes(x.effect, p) && TakenBy(h, p, y, x) && x.tick < tick
  }

  /// A file with this identity was put there before `tick`.
  ghost predicate SourcedBefore(h: History, p: Path, identity: Identity, tick: nat) {
    exists y :: y in h && Puts(y.effect, p) && Handled(y.effect) == identity && y.tick < tick
  }

  /// A purge is recorded only for a file that was put there, and when all that was put there has been taken.
  ghost predicate PurgeFated(h: History, x: Entry)
    requires x.effect.PurgeRecorded?
  {
    var p := x.effect.plan.path;
    && SourcedBefore(h, p, x.effect.plan.identity, x.tick)
    && forall y :: y in h && Puts(y.effect, p) && y.tick < x.tick ==> TakenBefore(h, p, y, x.tick)
  }

  ghost predicate PurgesFated(h: History) { forall x :: x in h && x.effect.PurgeRecorded? ==> PurgeFated(h, x) }

  ghost predicate Numbered(h: History) { forall x, y :: x in h && y in h && x.tick == y.tick ==> x == y }

  // ---------------------------------------------------------------------------------------------
  // How a slot changes
  // ---------------------------------------------------------------------------------------------

  /// Nothing happens at this path.
  ghost predicate Quiet(h: History, g: History, fs: Files, fs': Files, p: Path) {
    && (p in fs'.entries <==> p in fs.entries) && (p in fs.entries ==> fs'.entries[p] == fs.entries[p])
    && h <= g && (forall z :: z in g && z !in h ==> !Touches(z.effect, p))
  }

  lemma QuietSlot(h: History, g: History, fs: Files, fs': Files, p: Path)
    requires Slot(h, fs, p) && Quiet(h, g, fs, fs', p)
    ensures Slot(g, fs', p)
  {
    forall y | y in g && Puts(y.effect, p) ensures InPlace(g, fs', p, y) || Taken(g, p, y) {
      if Taken(h, p, y) {
        var x :| x in h && Takes(x.effect, p) && TakenBy(h, p, y, x);
        assert x in g && TakenBy(g, p, y, x);
      }
    }
    forall x | x in g && Takes(x.effect, p) ensures Owned(g, p, x) {
      var y :| y in h && Puts(y.effect, p) && TakenBy(h, p, y, x);
      assert y in g && TakenBy(g, p, y, x);
    }
    if p in fs'.entries && Used(g, p) {
      assert Used(h, p);
      var y :| y in h && Puts(y.effect, p) && InPlace(h, fs, p, y);
      assert y in g && InPlace(g, fs', p, y);
    }
  }

  lemma TakenGrows(h: History, tick: nat, e: Effect, p: Path, y: Entry, x: Entry)
    requires Past(h, tick) && x in h && Puts(y.effect, p) && Takes(x.effect, p) && TakenBy(h, p, y, x)
    ensures TakenBy(Grown(h, tick, e), p, y, x)
  {}

  lemma StillTaken(h: History, tick: nat, e: Effect, p: Path, y: Entry)
    requires Past(h, tick) && Puts(y.effect, p) && Taken(h, p, y)
    ensures Taken(Grown(h, tick, e), p, y)
  {
    var x :| x in h && Takes(x.effect, p) && TakenBy(h, p, y, x);
    TakenGrows(h, tick, e, p, y, x);
  }

  lemma StillOwned(h: History, tick: nat, e: Effect, p: Path, x: Entry)
    requires Past(h, tick) && x in h && Takes(x.effect, p) && Owned(h, p, x)
    ensures Owned(Grown(h, tick, e), p, x)
  {
    var y :| y in h && Puts(y.effect, p) && TakenBy(h, p, y, x);
    TakenGrows(h, tick, e, p, y, x);
  }

  lemma PutSlot(h: History, tick: nat, e: Effect, fs: Files, fs': Files, p: Path)
    requires Past(h, tick) && Slot(h, fs, p) && Puts(e, p) && p !in fs.entries && IsAt(fs', p, Handled(e))
    ensures Slot(Grown(h, tick, e), fs', p)
  {
    var g := Grown(h, tick, e);
    var n := Entry(tick, e);
    assert n in g && InPlace(g, fs', p, n);
    forall y | y in h && Puts(y.effect, p) ensures Taken(g, p, y) { StillTaken(h, tick, e, p, y); }
    forall x | x in h && Takes(x.effect, p) ensures Owned(g, p, x) { StillOwned(h, tick, e, p, x); }
  }

  lemma TakeFates(h: History, tick: nat, e: Effect, fs: Files, p: Path)
    requires Past(h, tick) && PutsFated(h, fs, p) && Takes(e, p) && IsAt(fs, p, Handled(e))
    ensures forall y :: y in h && Puts(y.effect, p) ==> Taken(Grown(h, tick, e), p, y)
  {
    var n := Entry(tick, e);
    forall y | y in h && Puts(y.effect, p) ensures Taken(Grown(h, tick, e), p, y) {
      if InPlace(h, fs, p, y) {
        assert n in Grown(h, tick, e) && TakenBy(Grown(h, tick, e), p, y, n);
      } else {
        StillTaken(h, tick, e, p, y);
      }
    }
  }

  lemma TakeOwns(h: History, tick: nat, e: Effect, fs: Files, p: Path)
    requires Past(h, tick) && Filled(h, fs, p) && Takes(e, p) && IsAt(fs, p, Handled(e)) && Used(h, p)
    ensures Owned(Grown(h, tick, e), p, Entry(tick, e))
  {
    var y :| y in h && Puts(y.effect, p) && InPlace(h, fs, p, y);
    assert y in Grown(h, tick, e) && TakenBy(Grown(h, tick, e), p, y, Entry(tick, e));
  }

  lemma TakeSlot(h: History, tick: nat, e: Effect, fs: Files, fs': Files, p: Path)
    requires Past(h, tick) && Slot(h, fs, p) && Takes(e, p) && IsAt(fs, p, Handled(e)) && Used(h, p)
    requires p !in fs'.entries
    ensures Slot(Grown(h, tick, e), fs', p)
  {
    TakeFates(h, tick, e, fs, p);
    TakeOwns(h, tick, e, fs, p);
    forall x | x in h && Takes(x.effect, p) ensures Owned(Grown(h, tick, e), p, x) { StillOwned(h, tick, e, p, x); }
  }

  lemma FateGrows(h: History, g: History, tick: nat, x: Entry)
    requires Past(h, tick) && x in h && x.effect.PurgeRecorded? && PurgeFated(h, x) && h <= g
    requires forall z :: z in g && z !in h ==> z.tick == tick
    ensures PurgeFated(g, x)
  {
    var p := x.effect.plan.path;
    forall y | y in g && Puts(y.effect, p) && y.tick < x.tick ensures TakenBefore(g, p, y, x.tick) {
      var t :| t in h && Takes(t.effect, p) && TakenBy(h, p, y, t) && t.tick < x.tick;
      assert t in g && TakenBy(g, p, y, t);
    }
  }

  lemma PurgesFrame(h: History, g: History, tick: nat)
    requires Past(h, tick) && PurgesFated(h) && h <= g
    requires forall z :: z in g && z !in h ==> z.tick == tick && !z.effect.PurgeRecorded?
    ensures PurgesFated(g)
  {
    forall x | x in g && x.effect.PurgeRecorded? ensures PurgeFated(g, x) { FateGrows(h, g, tick, x); }
  }

  lemma NewPurge(h: History, tick: nat, e: Effect, fs: Files)
    requires Past(h, tick) && e.PurgeRecorded? && e.plan.path !in fs.entries && PutsFated(h, fs, e.plan.path)
    requires Sourced(h, e.plan.path, e.plan.identity)
    ensures PurgeFated(Grown(h, tick, e), Entry(tick, e))
  {
    var p, g := e.plan.path, Grown(h, tick, e);
    forall y | y in g && Puts(y.effect, p) && y.tick < tick ensures TakenBefore(g, p, y, tick) {
      assert Taken(h, p, y);
      var t :| t in h && Takes(t.effect, p) && TakenBy(h, p, y, t);
      TakenGrows(h, tick, e, p, y, t);
    }
    var y :| y in h && Puts(y.effect, p) && Handled(y.effect) == e.plan.identity;
    assert y in g;
  }

  lemma PurgeFates(h: History, tick: nat, e: Effect, fs: Files)
    requires Past(h, tick) && PurgesFated(h) && e.PurgeRecorded? && e.plan.path !in fs.entries
    requires PutsFated(h, fs, e.plan.path)
    requires Sourced(h, e.plan.path, e.plan.identity)
    ensures PurgesFated(Grown(h, tick, e))
  {
    var g := Grown(h, tick, e);
    NewPurge(h, tick, e, fs);
    forall x | x in h && x.effect.PurgeRecorded? ensures PurgeFated(g, x) { FateGrows(h, g, tick, x); }
  }

  // ---------------------------------------------------------------------------------------------
  // What rows, approvals and plans name
  // ---------------------------------------------------------------------------------------------

  /// A file with this identity was once put there.
  ghost predicate Sourced(h: History, p: Path, identity: Identity) {
    exists y :: y in h && Puts(y.effect, p) && Handled(y.effect) == identity
  }

  predicate RowOk(q: Quarantine, id: string) { q.artifact == id && q.path == Held(q.root, id) && q.original.Live? }

  ghost predicate RowShaped(h: History, q: Quarantine, id: string) { RowOk(q, id) && Sourced(h, q.path, q.identity) }

  ghost predicate StoreShaped(h: History, st: Store) {
    && (forall id :: id in st.quarantines ==> RowShaped(h, st.quarantines[id], id))
    && (forall id :: id in st.artifacts ==> st.artifacts[id].id == id)
  }

  ghost predicate BindingShaped(h: History, b: Binding) {
    match b
    case ForCleanup(a, destination, _) => destination == Held(a.root, a.id)
    case ForRestore(a, item, _, _) => RowShaped(h, item, a.id)
    case ForPurge(a, item, _, _) => RowShaped(h, item, a.id)
  }

  ghost predicate LaneShaped(h: History, lane: Lane) {
    && (lane != Idle ==> BindingShaped(h, lane.binding))
    && (lane.Moved? && lane.binding.ForCleanup? ==> Sourced(h, Target(lane.binding), Content(lane.binding)))
  }

  ghost predicate PlanShaped(h: History, plan: Plan) {
    plan.path.Held? && plan.path.id == plan.artifact && Sourced(h, plan.path, plan.identity)
  }

  ghost predicate ApprovalsShaped(h: History, approvals: map<nat, Approval>) {
    forall token :: token in approvals ==> BindingShaped(h, approvals[token].binding)
  }

  ghost predicate WaitingShaped(h: History, waiting: map<nat, Waiting>) {
    forall action :: action in waiting ==> BindingShaped(h, waiting[action].binding)
  }

  ghost predicate PlansShaped(h: History, plans: map<nat, Plan>) {
    forall secret :: secret in plans ==> PlanShaped(h, plans[secret])
  }

  ghost predicate DaemonShaped(h: History, d: Daemon) {
    ApprovalsShaped(h, d.approvals) && WaitingShaped(h, d.waiting) && LaneShaped(h, d.lane) && PlansShaped(h, d.plans)
  }

  ghost predicate ExecutorsShaped(h: History, executors: set<Plan>) {
    forall plan :: plan in executors ==> PlanShaped(h, plan)
  }

  ghost predicate Shaped(h: History, w: World) {
    StoreShaped(h, w.st) && DaemonShaped(h, w.d) && ExecutorsShaped(h, w.executors)
  }

  lemma SourcedGrows(h: History, g: History, p: Path, identity: Identity)
    requires Sourced(h, p, identity) && h <= g
    ensures Sourced(g, p, identity)
  {}

  lemma RowGrows(h: History, g: History, q: Quarantine, id: string)
    requires RowShaped(h, q, id) && h <= g
    ensures RowShaped(g, q, id)
  {
    SourcedGrows(h, g, q.path, q.identity);
  }

  lemma BindingGrows(h: History, g: History, b: Binding)
    requires BindingShaped(h, b) && h <= g
    ensures BindingShaped(g, b)
  {
    if !b.ForCleanup? { RowGrows(h, g, b.item, b.artifact.id); }
  }

  lemma LaneStaysShaped(h: History, g: History, lane: Lane)
    requires LaneShaped(h, lane) && h <= g
    ensures LaneShaped(g, lane)
  {
    if lane != Idle { BindingGrows(h, g, lane.binding); }
    if lane.Moved? && lane.binding.ForCleanup? { SourcedGrows(h, g, Target(lane.binding), Content(lane.binding)); }
  }

  lemma DaemonGrows(h: History, g: History, d: Daemon)
    requires DaemonShaped(h, d) && h <= g
    ensures DaemonShaped(g, d)
  {
    forall token | token in d.approvals ensures BindingShaped(g, d.approvals[token].binding) {
      BindingGrows(h, g, d.approvals[token].binding);
    }
    forall action | action in d.waiting ensures BindingShaped(g, d.waiting[action].binding) {
      BindingGrows(h, g, d.waiting[action].binding);
    }
    LaneStaysShaped(h, g, d.lane);
    forall secret | secret in d.plans ensures PlanShaped(g, d.plans[secret]) {
      SourcedGrows(h, g, d.plans[secret].path, d.plans[secret].identity);
    }
  }

  lemma ShapedGrows(h: History, g: History, w: World)
    requires Shaped(h, w) && h <= g
    ensures Shaped(g, w)
  {
    forall id | id in w.st.quarantines
      ensures RowShaped(g, w.st.quarantines[id], id)
    {
      RowGrows(h, g, w.st.quarantines[id], id);
    }
    DaemonGrows(h, g, w.d);
    forall plan | plan in w.executors ensures PlanShaped(g, plan) { SourcedGrows(h, g, plan.path, plan.identity); }
  }

  // ---------------------------------------------------------------------------------------------
  // Every step keeps these shapes
  // ---------------------------------------------------------------------------------------------

  lemma PreviewedShaped(h: History, w: World, kind: Kind, id: string, policy: string, now: Time)
    requires StoreShaped(h, w.st)
    requires PreviewBinding(w.d.cfg, Healthy(w.d), w.st, kind, id, policy, now).Some?
    ensures BindingShaped(h, PreviewBinding(w.d.cfg, Healthy(w.d), w.st, kind, id, policy, now).value)
  {}

  lemma IssuedShaped(h: History, approvals: map<nat, Approval>, now: Time, tick: nat, a: Approval)
    requires ApprovalsShaped(h, approvals) && BindingShaped(h, a.binding)
    ensures ApprovalsShaped(h, Prune(approvals, now)) && ApprovalsShaped(h, Prune(approvals, now)[tick := a])
  {}

  lemma PreviewShaped(h: History, w: World, kind: Kind, id: string, policy: string, now: Time, audited: bool)
    requires Shaped(h, w)
    ensures Shaped(h, Preview(w, kind, id, policy, now, audited))
  {
    var b := PreviewBinding(w.d.cfg, Healthy(w.d), w.st, kind, id, policy, now);
    if b.Some? {
      PreviewedShaped(h, w, kind, id, policy, now);
      IssuedShaped(h, w.d.approvals, now, w.tick, Approval(b.value, now + LIFETIME, false));
      PreviewParts(w, kind, id, policy, now, audited);
    }
  }

  /// A preview changes the approvals only.
  lemma PreviewParts(w: World, kind: Kind, id: string, policy: string, now: Time, audited: bool)
    ensures var v := Preview(w, kind, id, policy, now, audited);
            var b := PreviewBinding(w.d.cfg, Healthy(w.d), w.st, kind, id, policy, now);
            && v.st == w.st && v.executors == w.executors && v.d == w.d.(approvals := v.d.approvals)
            && (|| v.d.approvals == w.d.approvals || v.d.approvals == Prune(w.d.approvals, now)
                || (b.Some?
                     && v.d.approvals == Prune(w.d.approvals, now)[w.tick := Approval(b.value, now + LIFETIME, false)]))
  {}

  lemma ConsumeShaped(h: History, w: World, token: nat, endpoint: Kind, confirmation: string, now: Time, stored: bool)
    requires Shaped(h, w)
    ensures Shaped(h, Consume(w, token, endpoint, confirmation, now, stored))
  {}

  lemma BeginShaped(h: History, w: World, action: nat, seen: Option<Artifact>, stored: bool)
    requires Shaped(h, w)
    ensures Shaped(h, Begin(w, action, seen, stored))
  {}

  /// What a rename call leaves besides files and history: the lane, and the action row when it failed.
  lemma RenameParts(w: World, fault: bool, stored: bool)
    ensures var v, l := Rename(w, fault, stored), w.d.lane;
            && v.executors == w.executors && v.d == w.d.(lane := v.d.lane)
            && (v.st == w.st || (l.Intent? && v.st == Finished(w.st, l.action, Failed)))
            && (|| v.d.lane == l || v.d.lane == Idle
                || (l.Intent? && v.d.lane == Moved(l.action, l.binding)
                    && Has(v.history, w.tick, Renaming(l.intent, l.action, l.token, l.binding, true))))
  {}

  /// A rename that moved a file into quarantine is the source of its content.
  lemma MovedShaped(h: History, tick: nat, l: Lane)
    requires l.Intent? && LaneShaped(h, l) && Has(h, tick, Renaming(l.intent, l.action, l.token, l.binding, true))
    ensures LaneShaped(h, Moved(l.action, l.binding))
  {
    if l.binding.ForCleanup? { assert Sourced(h, Target(l.binding), Content(l.binding)); }
  }

  lemma FailedShaped(h: History, st: Store, action: nat)
    requires StoreShaped(h, st)
    ensures StoreShaped(h, Finished(st, action, Failed))
  {}

  lemma RenameShaped(h: History, w: World, fault: bool, stored: bool)
    requires Shaped(h, w) && Rename(w, fault, stored).history <= h
    ensures Shaped(h, Rename(w, fault, stored))
  {
    RenameParts(w, fault, stored);
    var l := w.d.lane;
    if l.Intent? {
      FailedShaped(h, w.st, l.action);
      if Has(h, w.tick, Renaming(l.intent, l.action, l.token, l.binding, true)) { MovedShaped(h, w.tick, l); }
    }
  }

  lemma QuarantineShaped(h: History, cfg: Config, lane: Lane, at: Time)
    requires LaneShaped(h, lane) && lane.Moved? && lane.binding.ForCleanup?
    ensures RowShaped(h, QuarantineOf(cfg, lane.binding, at), lane.binding.artifact.id)
  {}

  lemma RecordedShaped(h: History, cfg: Config, st: Store, lane: Lane, at: Time)
    requires StoreShaped(h, st) && LaneShaped(h, lane) && lane.Moved?
    ensures StoreShaped(h, Recorded(cfg, st, lane.action, lane.binding, at))
  {
    if lane.binding.ForCleanup? { QuarantineShaped(h, cfg, lane, at); }
  }

  lemma RecordShaped(h: History, w: World, at: Time, stored: bool)
    requires Shaped(h, w)
    ensures Shaped(h, Record(w, at, stored))
  {
    if w.d.lane.Moved? { RecordedShaped(h, w.d.cfg, w.st, w.d.lane, at); }
  }

  predicate PlansKept(before: map<nat, Plan>, after: map<nat, Plan>) {
    forall secret :: secret in after ==> secret in before && after[secret] == before[secret]
  }

  lemma PrepareParts(w: World, stored: bool)
    ensures var v, l := Prepare(w, stored), w.d.lane;
            && (v.st == w.st || (l.Intent? && v.st == Finished(w.st, l.action, Failed)))
            && v.d == w.d.(lane := v.d.lane, plans := v.d.plans) && (v.d.lane == l || v.d.lane == Idle)
            && (|| (v.executors == w.executors && PlansKept(w.d.plans, v.d.plans))
                || (l.Intent? && l.binding.ForPurge?
                     && v.executors == w.executors + {PlanOf(l.action, l.binding, l.root, l.now)}
                    && v.d.plans == map[w.tick := PlanOf(l.action, l.binding, l.root, l.now)]))
  {
    if w.d.lane.Intent? && |PrunePlans(w.d.plans, w.d.lane.now)| == 0 {
      assert PrunePlans(w.d.plans, w.d.lane.now) == map[];
    }
  }

  lemma PrepareShaped(h: History, w: World, stored: bool)
    requires Shaped(h, w)
    ensures Shaped(h, Prepare(w, stored))
  {
    PrepareParts(w, stored);
    var l := w.d.lane;
    if l.Intent? {
      FailedShaped(h, w.st, l.action);
      if l.binding.ForPurge? { assert PlanShaped(h, PlanOf(l.action, l.binding, l.root, l.now)); }
    }
  }

  lemma UnlinkShaped(h: History, w: World, plan: Plan, fault: bool)
    requires Shaped(h, w)
    ensures Shaped(h, Unlink(w, plan, fault))
  {}

  lemma ClosedShaped(h: History, st: Store, action: nat, id: string, at: Time)
    requires StoreShaped(h, st)
    ensures StoreShaped(h, Finished(st, action, Failed)) && StoreShaped(h, FinishedPartial(st, action))
    ensures StoreShaped(h, RecordPurged(st, action, id, at))
  {}

  lemma CompleteStore(w: World, action: nat, secret: nat, now: Time, at: Time, unreadable: bool, stored: bool)
    requires secret in w.d.plans
    ensures var st := Complete(w, action, secret, now, at, unreadable, stored).st;
            || st == w.st || st == Finished(w.st, action, Failed) || st == FinishedPartial(w.st, action)
            || st == RecordPurged(w.st, action, w.d.plans[secret].artifact, at)
  {}

  lemma CompleteMemory(w: World, action: nat, secret: nat, now: Time, at: Time, unreadable: bool, stored: bool)
    ensures var v := Complete(w, action, secret, now, at, unreadable, stored);
            && v.executors == w.executors && (v.d.plans == w.d.plans || v.d.plans == w.d.plans - {secret})
            && v.d == w.d.(plans := v.d.plans, fsHealthy := v.d.fsHealthy)
  {}

  lemma CompleteShaped(h: History, w: World, action: nat, secret: nat, now: Time, at: Time, unreadable: bool,
                       stored: bool)
    requires Shaped(h, w) && secret in w.d.plans
    ensures Shaped(h, Complete(w, action, secret, now, at, unreadable, stored))
  {
    ClosedShaped(h, w.st, action, w.d.plans[secret].artifact, at);
    CompleteStore(w, action, secret, now, at, unreadable, stored);
    CompleteMemory(w, action, secret, now, at, unreadable, stored);
  }

  lemma CommitScanShaped(h: History, w: World, rows: map<string, Artifact>, complete: bool)
    requires Shaped(h, w)
    ensures Shaped(h, CommitScan(w, rows, complete))
  {}

  lemma FailScanShaped(h: History, w: World, stored: bool)
    requires Shaped(h, w)
    ensures Shaped(h, FailScan(w, stored))
  {}

  lemma TripShaped(h: History, w: World)
    requires Shaped(h, w)
    ensures Shaped(h, Trip(w))
  {}

  lemma CrashShaped(h: History, w: World, cfg: Config)
    requires Shaped(h, w)
    ensures Shaped(h, Crash(w, cfg))
  {}

  lemma OutsideShaped(h: History, w: World, root: string, name: string, identity: Option<Identity>)
    requires Shaped(h, w)
    ensures Shaped(h, Outside(w, root, name, identity))
  {}

  lemma LockedStepShaped(h: History, w: World, s: Step)
    requires Shaped(h, w) && w.history <= h && Next(w, s).history <= h
    requires s.DoPreview? || s.DoConsume? || s.DoBegin? || s.DoRename? || s.DoRecord? || s.DoPrepare?
    ensures Shaped(h, Next(w, s))
  {
    match s
    case DoPreview(kind, id, policy, now, audited) => PreviewShaped(h, w, kind, id, policy, now, audited);
    case DoConsume(token, endpoint, confirmation, now, stored) =>
      ConsumeShaped(h, w, token, endpoint, confirmation, now, stored);
    case DoBegin(action, seen, stored) => BeginShaped(h, w, action, seen, stored);
    case DoRename(fault, stored) => RenameShaped(h, w, fault, stored);
    case DoRecord(at, stored) => RecordShaped(h, w, at, stored);
    case DoPrepare(stored) => PrepareShaped(h, w, stored);
  }

  lemma OtherStepShaped(h: History, w: World, s: Step)
    requires Shaped(h, w)
    requires !s.DoPreview? && !s.DoConsume? && !s.DoBegin? && !s.DoRename? && !s.DoRecord? && !s.DoPrepare?
    ensures Shaped(h, Next(w, s))
  {
    match s
    case DoUnlink(plan, fault) => UnlinkShaped(h, w, plan, fault);
    case DoComplete(action, secret, now, at, unreadable, stored) =>
      if secret in w.d.plans { CompleteShaped(h, w, action, secret, now, at, unreadable, stored); }
    case DoCommitScan(rows, complete) => CommitScanShaped(h, w, rows, complete);
    case DoFailScan(stored) => FailScanShaped(h, w, stored);
    case DoTrip => TripShaped(h, w);
    case DoCrash(cfg) => CrashShaped(h, w, cfg);
    case DoOutside(root, name, identity) => OutsideShaped(h, w, root, name, identity);
  }

  // ---------------------------------------------------------------------------------------------
  // Every step keeps the slots
  // ---------------------------------------------------------------------------------------------

  predicate CanAppend(s: Step, e: Effect) {
    (e.Renaming? ==> s.DoRename?) && (e.Unlinked? ==> s.DoUnlink?) && (e.PurgeRecorded? ==> s.DoComplete?)
  }

  ghost predicate AppendsOne(w: World, v: World, s: Step) {
    v.history == w.history || exists e: Effect :: v.history == Did(w, e) && CanAppend(s, e)
  }

  lemma LockedHistory(w: World, s: Step)
    requires s.DoPreview? || s.DoConsume? || s.DoBegin? || s.DoRename? || s.DoRecord? || s.DoPrepare?
    ensures AppendsOne(w, Next(w, s), s)
  {}

  lemma OtherHistory(w: World, s: Step)
    requires !s.DoPreview? && !s.DoConsume? && !s.DoBegin? && !s.DoRename? && !s.DoRecord? && !s.DoPrepare?
    ensures AppendsOne(w, Next(w, s), s)
  {}

  /// A step appends at most one entry, numbered like the step.
  lemma HistoryStep(w: World, s: Step)
    ensures AppendsOne(w, Next(w, s), s) && w.history <= Next(w, s).history
    ensures forall z :: z in Next(w, s).history && z !in w.history ==> z.tick == w.tick && CanAppend(s, z.effect)
  {
    if s.DoPreview? || s.DoConsume? || s.DoBegin? || s.DoRename? || s.DoRecord? || s.DoPrepare? {
      LockedHistory(w, s);
    } else {
      OtherHistory(w, s);
    }
  }

  /// Only renames and unlinks reach into the quarantine directory.
  lemma FilesStep(w: World, s: Step, p: Path)
    requires !s.DoRename? && !s.DoUnlink? && p.Held?
    ensures (p in Next(w, s).fs.entries <==> p in w.fs.entries)
    ensures p in w.fs.entries ==> Next(w, s).fs.entries[p] == w.fs.entries[p]
  {}

  ghost predicate SlotsOk(h: History, fs: Files) { forall p: Path :: p.Held? ==> Slot(h, fs, p) }

  lemma CalmSlots(w: World, s: Step)
    requires SlotsOk(w.history, w.fs) && !s.DoRename? && !s.DoUnlink?
    ensures SlotsOk(Next(w, s).history, Next(w, s).fs)
  {
    HistoryStep(w, s);
    forall p: Path | p.Held? ensures Slot(Next(w, s).history, Next(w, s).fs, p) {
      FilesStep(w, s, p);
      QuietSlot(w.history, Next(w, s).history, w.fs, Next(w, s).fs, p);
    }
  }

  lemma MoveSlots(w: World, e: Effect)
    requires Past(w.history, w.tick) && SlotsOk(w.history, w.fs) && e.Renaming? && e.moved && !e.binding.ForPurge?
    requires BindingShaped(w.history, e.binding)
    requires IsAt(w.fs, Source(e.binding), Content(e.binding)) && Target(e.binding) !in w.fs.entries
    ensures SlotsOk(Grown(w.history, w.tick, e), Renamed(w.fs, Source(e.binding), Target(e.binding)))
  {
    var b := e.binding;
    var fs := Renamed(w.fs, Source(b), Target(b));
    forall p: Path | p.Held? ensures Slot(Grown(w.history, w.tick, e), fs, p) {
      if Puts(e, p) {
        PutSlot(w.history, w.tick, e, w.fs, fs, p);
      } else if MovesBack(e, p) {
        TakeSlot(w.history, w.tick, e, w.fs, fs, p);
      } else {
        QuietSlot(w.history, Grown(w.history, w.tick, e), w.fs, fs, p);
      }
    }
  }

  lemma RefusedSlots(h: History, tick: nat, e: Effect, fs: Files)
    requires SlotsOk(h, fs) && e.Renaming? && !e.moved
    ensures SlotsOk(Grown(h, tick, e), fs)
  {
    forall p: Path | p.Held? ensures Slot(Grown(h, tick, e), fs, p) { QuietSlot(h, Grown(h, tick, e), fs, fs, p); }
  }

  lemma RenameSlots(w: World, fault: bool, stored: bool)
    requires Past(w.history, w.tick) && LaneShaped(w.history, w.d.lane) && SlotsOk(w.history, w.fs)
    ensures SlotsOk(Rename(w, fault, stored).history, Rename(w, fault, stored).fs)
  {
    if w.d.lane.Intent? && !w.d.lane.binding.ForPurge? {
      var l := w.d.lane;
      var moved := CanMove(w.fs, Source(l.binding), Target(l.binding), l.root, Content(l.binding), fault).Done?;
      var e := Renaming(l.intent, l.action, l.token, l.binding, moved);
      if moved { MoveSlots(w, e); } else { RefusedSlots(w.history, w.tick, e, w.fs); }
    }
  }

  lemma UnlinkSlots(w: World, plan: Plan, fault: bool)
    requires Past(w.history, w.tick) && ExecutorsShaped(w.history, w.executors) && SlotsOk(w.history, w.fs)
    ensures SlotsOk(Unlink(w, plan, fault).history, Unlink(w, plan, fault).fs)
  {
    if plan in w.executors && CanRemove(w.fs, plan.path, plan.rootIdentity, plan.identity, fault).Done? {
      var e := Unlinked(plan);
      var fs := Removed(w.fs, plan.path);
      forall p: Path | p.Held? ensures Slot(Grown(w.history, w.tick, e), fs, p) {
        if p == plan.path {
          TakeSlot(w.history, w.tick, e, w.fs, fs, p);
        } else {
          QuietSlot(w.history, Grown(w.history, w.tick, e), w.fs, fs, p);
        }
      }
    }
  }

  lemma RecordedPurges(w: World, s: Step, e: Effect)
    requires Past(w.history, w.tick) && PurgesFated(w.history) && PlansShaped(w.history, w.d.plans)
    requires SlotsOk(w.history, w.fs)
    requires e.PurgeRecorded? && RecordsPurge(w, s, e)
    ensures PurgesFated(Did(w, e))
  {
    assert PlanShaped(w.history, e.plan);
    PurgeFates(w.history, w.tick, e, w.fs);
  }

  /// The invariant: every path of the quarantine directory has a proper life, and all that rows, approvals,
  /// plans and executors name was put there once.
  ghost predicate Slots(w: World) {
    Shaped(w.history, w) && SlotsOk(w.history, w.fs) && PurgesFated(w.history) && Numbered(w.history)
  }

  lemma StepSlots(w: World, s: Step)
    requires Inv(w) && Slots(w)
    ensures SlotsOk(Next(w, s).history, Next(w, s).fs)
  {
    match s
    case DoRename(fault, stored) => RenameSlots(w, fault, stored);
    case DoUnlink(plan, fault) => UnlinkSlots(w, plan, fault);
    case _ => CalmSlots(w, s);
  }

  lemma PurgesAppended(w: World, s: Step, e: Effect)
    requires Past(w.history, w.tick) && Slots(w) && (e.PurgeRecorded? ==> RecordsPurge(w, s, e))
    ensures PurgesFated(Did(w, e))
  {
    if e.PurgeRecorded? { RecordedPurges(w, s, e); } else { PurgesFrame(w.history, Did(w, e), w.tick); }
  }

  lemma PurgesAfter(w: World, v: World, s: Step)
    requires Past(w.history, w.tick) && Slots(w) && AppendsOne(w, v, s)
    requires forall z :: z in v.history && z !in w.history && z.effect.PurgeRecorded? ==> RecordsPurge(w, s, z.effect)
    ensures PurgesFated(v.history)
  {
    if v.history != w.history {
      var e: Effect :| v.history == Did(w, e) && CanAppend(s, e);
      assert Entry(w.tick, e) !in w.history;
      PurgesAppended(w, s, e);
    }
  }

  lemma StepPurges(w: World, s: Step)
    requires Inv(w) && Slots(w)
    ensures PurgesFated(Next(w, s).history)
  {
    HistoryStep(w, s);
    forall z | z in Next(w, s).history && z !in w.history && z.effect.PurgeRecorded?
      ensures RecordsPurge(w, s, z.effect)
    {
      OnlyCompletionRecords(w, s, z);
    }
    PurgesAfter(w, Next(w, s), s);
  }

  lemma StepShaped(w: World, s: Step)
    requires Slots(w)
    ensures Shaped(Next(w, s).history, Next(w, s))
  {
    var h := Next(w, s).history;
    HistoryStep(w, s);
    ShapedGrows(w.history, h, w);
    if s.DoPreview? || s.DoConsume? || s.DoBegin? || s.DoRename? || s.DoRecord? || s.DoPrepare? {
      LockedStepShaped(h, w, s);
    } else {
      OtherStepShaped(h, w, s);
    }
  }

  lemma StepNumbered(w: World, s: Step)
    requires Inv(w) && Slots(w)
    ensures Numbered(Next(w, s).history)
  {
    HistoryStep(w, s);
    NumberedAfter(w, Next(w, s), s);
  }

  lemma NumberedAfter(w: World, v: World, s: Step)
    requires Past(w.history, w.tick) && Numbered(w.history) && AppendsOne(w, v, s)
    ensures Numbered(v.history)
  {}

  lemma {:induction false} RunSlots(cfg: Config, fs: Files, steps: seq<Step>)
    ensures Slots(Run(Initial(cfg, fs), steps))
  {
    if steps != [] {
      var before, s := Run(Initial(cfg, fs), steps[..|steps| - 1]), steps[|steps| - 1];
      RunSlots(cfg, fs, steps[..|steps| - 1]);
      RunKeeps(cfg, fs, steps[..|steps| - 1]);
      StepShaped(before, s);
      StepSlots(before, s);
      StepPurges(before, s);
      StepNumbered(before, s);
    }
  }

  // ---------------------------------------------------------------------------------------------
  // The theorems
  // ---------------------------------------------------------------------------------------------

  lemma ReachableSlots(w: World)
    requires Reachable(w)
    ensures Slots(w)
  {
    var cfg, fs, steps: seq<Step> :| Reaches(cfg, fs, steps, w);
    RunSlots(cfg, fs, steps);
  }

  /// Over every run each quarantine has exactly one of two fates: its file is still at its path and nothing
  /// has happened there since, or the next thing that happened there took this very identity away.
  lemma EveryQuarantineHasItsFate(w: World, p: Path, y: Entry)
    requires Reachable(w) && p.Held? && y in w.history && Puts(y.effect, p)
    ensures InPlace(w.history, w.fs, p, y) <==> !Taken(w.history, p, y)
  {
    ReachableSlots(w);
    assert Slot(w.history, w.fs, p);
    if Taken(w.history, p, y) {
      var x :| x in w.history && Takes(x.effect, p) && TakenBy(w.history, p, y, x);
      assert Touches(x.effect, p);
    }
  }

  /// `x` took the file that `y` put, and nothing else ever did.
  ghost predicate TakenOnlyBy(h: History, p: Path, y: Entry, x: Entry)
    requires Puts(y.effect, p) && Takes(x.effect, p)
  {
    TakenBy(h, p, y, x) && forall z :: z in h && Takes(z.effect, p) && TakenBy(h, p, y, z) ==> z == x
  }

  /// Nothing else leaves the quarantine directory: every unlink and every restoration takes what a
  /// quarantine put there, and no quarantine is taken twice.
  lemma EveryDepartureHasItsQuarantine(w: World, p: Path, x: Entry)
    requires Reachable(w) && p.Held? && x in w.history && Takes(x.effect, p)
    ensures exists y :: y in w.history && Puts(y.effect, p) && TakenOnlyBy(w.history, p, y, x)
  {
    ReachableSlots(w);
    assert Slot(w.history, w.fs, p);
    assert Owned(w.history, p, x);
    var y :| y in w.history && Puts(y.effect, p) && TakenBy(w.history, p, y, x);
    forall z | z in w.history && Takes(z.effect, p) && TakenBy(w.history, p, y, z) ensures z == x {
      TakenOnce(w.history, p, y, x, z);
    }
    assert TakenOnlyBy(w.history, p, y, x);
  }

  lemma TakenOnce(h: History, p: Path, y: Entry, x: Entry, z: Entry)
    requires Numbered(h) && x in h && z in h && Puts(y.effect, p) && Takes(x.effect, p) && Takes(z.effect, p)
    requires TakenBy(h, p, y, x) && TakenBy(h, p, y, z)
    ensures x == z
  {
    assert Touches(x.effect, p) && Touches(z.effect, p);
  }

  /// The file that `y` put was unlinked before `tick`.
  ghost predicate UnlinkedBefore(h: History, p: Path, y: Entry, tick: nat)
    requires Puts(y.effect, p)
  {
    exists x :: x in h && Unlinks(x.effect, p) && TakenBy(h, p, y, x) && x.tick < tick
  }

  /// A restoration moved the file that `y` put back before `tick`.
  ghost predicate MovedBackBefore(h: History, p: Path, y: Entry, tick: nat)
    requires Puts(y.effect, p)
  {
    exists x :: x in h && MovesBack(x.effect, p) && TakenBy(h, p, y, x) && x.tick < tick
  }

  /// What a purged row means: the plan's file had been quarantined at its path, and of every quarantine at
  /// that path before the row was written, the file was unlinked by then if and only if no restoration
  /// had moved it back by then.
  lemma PurgedMeansUnlinkedUnlessMovedBack(w: World, x: Entry)
    requires Reachable(w) && x in w.history && x.effect.PurgeRecorded?
    ensures SourcedBefore(w.history, x.effect.plan.path, x.effect.plan.identity, x.tick)
    ensures forall y :: y in w.history && Puts(y.effect, x.effect.plan.path) && y.tick < x.tick ==>
              (UnlinkedBefore(w.history, x.effect.plan.path, y, x.tick)
               <==> !MovedBackBefore(w.history, x.effect.plan.path, y, x.tick))
  {
    ReachableSlots(w);
    assert PurgeFated(w.history, x);
    forall y | y in w.history && Puts(y.effect, x.effect.plan.path) && y.tick < x.tick
      ensures UnlinkedBefore(w.history, x.effect.plan.path, y, x.tick)
          <==> !MovedBackBefore(w.history, x.effect.plan.path, y, x.tick)
    {
      OneDeparture(w.history, x.effect.plan.path, y, x.tick);
    }
  }

  lemma OneDeparture(h: History, p: Path, y: Entry, tick: nat)
    requires Numbered(h) && Puts(y.effect, p) && TakenBefore(h, p, y, tick)
    ensures UnlinkedBefore(h, p, y, tick) <==> !MovedBackBefore(h, p, y, tick)
  {
    var x :| x in h && Takes(x.effect, p) && TakenBy(h, p, y, x) && x.tick < tick;
    if UnlinkedBefore(h, p, y, tick) && MovedBackBefore(h, p, y, tick) {
      var u :| u in h && Unlinks(u.effect, p) && TakenBy(h, p, y, u) && u.tick < tick;
      var m :| m in h && MovesBack(m.effect, p) && TakenBy(h, p, y, m) && m.tick < tick;
      TakenOnce(h, p, y, u, m);
    }
  }
}
