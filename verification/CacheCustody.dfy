/// What quarantined rows mean over a whole run: where their files are, and what else can have become of
/// them; and the conservation of identities (internal/cachefs/fake.go; internal/storage/cache_transition.go;
/// internal/daemon/cache_quarantine_action.go, cache_restore_action.go and cache_purge_action.go).

module CacheCustody {
  import opened Common
  import opened CacheFs
  import opened CacheLedger
  import opened CacheProtocol
  import opened CacheAuthority
  import opened CacheSlots

  // ---------------------------------------------------------------------------------------------
  // What can excuse that a quarantined file is not where its row says
  // ---------------------------------------------------------------------------------------------

  predicate Unresolved(actions: map<nat, Action>, action: nat) {
    action in actions && actions[action].result == Attempting
  }

  /// An executor unlinked exactly this file after `from`.
  ghost predicate UnlinkedSince(h: History, from: nat, p: Path, identity: Identity) {
    exists x :: x in h && Unlinks(x.effect, p) && Handled(x.effect) == identity && from < x.tick
  }

  /// A restoration moved exactly this file back after `from`, and its action row is still unresolved.
  ghost predicate AstraySince(h: History, actions: map<nat, Action>, from: nat, p: Path, identity: Identity) {
    exists x :: x in h && MovesBack(x.effect, p) && Handled(x.effect) == identity && from < x.tick
      && Unresolved(actions, x.effect.action)
  }

  ghost predicate Excused(h: History, actions: map<nat, Action>, from: nat, p: Path, identity: Identity) {
    UnlinkedSince(h, from, p, identity) || AstraySince(h, actions, from, p, identity)
  }

  /// Every quarantine of this file at this path, the last one included, has a later excuse.
  ghost predicate AllExcused(h: History, actions: map<nat, Action>, p: Path, identity: Identity) {
    forall y :: y in h && Puts(y.effect, p) && Handled(y.effect) == identity ==>
      Excused(h, actions, y.tick, p, identity)
  }

  ghost predicate AllUnlinked(h: History, p: Path, identity: Identity) {
    forall y :: y in h && Puts(y.effect, p) && Handled(y.effect) == identity ==> UnlinkedSince(h, y.tick, p, identity)
  }

  ghost predicate Accounted(w: World, q: Quarantine) {
    IsAt(w.fs, q.path, q.identity) || AllExcused(w.history, w.st.actions, q.path, q.identity)
  }

  ghost predicate RowsAccounted(w: World) {
    forall id :: id in w.st.quarantines && w.st.quarantines[id].status == Quarantined ==>
      Accounted(w, w.st.quarantines[id])
  }

  ghost predicate MovedBy(h: History, action: nat, b: Binding) {
    exists x :: x in h && x.effect.Renaming? && x.effect.moved && x.effect.action == action && x.effect.binding == b
  }

  /// The action in progress: its row is open, and its file is where the step left it.
  ghost predicate ProgressOk(w: World) {
    match w.d.lane
    case Idle => true
    case Intent(_, action, _, b, _, _) => action in w.st.actions && (!b.ForPurge? ==> Unresolved(w.st.actions, action))
    case Moved(action, b) =>
      && Unresolved(w.st.actions, action) && MovedBy(w.history, action, b) && !b.ForPurge?
      && (b.ForCleanup? ==> IsAt(w.fs, Target(b), Content(b)) || AllUnlinked(w.history, Target(b), Content(b)))
  }

  ghost predicate Custody(w: World) { ProgressOk(w) && RowsAccounted(w) }

  // ---------------------------------------------------------------------------------------------
  // Frames
  // ---------------------------------------------------------------------------------------------

  /// Nothing leaves this path.
  predicate KeptAt(before: Files, after: Files, p: Path) {
    p in before.entries ==> p in after.entries && after.entries[p] == before.entries[p]
  }

  /// Only the row of `action` may differ.
  predicate ActionsKept(before: map<nat, Action>, after: map<nat, Action>, action: nat) {
    forall a :: a in before && a != action ==> a in after && after[a] == before[a]
  }

  ghost predicate NeverMovedBack(h: History, action: nat) {
    forall x :: x in h && x.effect.Renaming? && x.effect.moved && x.effect.binding.ForRestore? ==>
      x.effect.action != action
  }

  ghost predicate NothingPut(h: History, g: History, p: Path) {
    h <= g && forall z :: z in g && z !in h ==> !Puts(z.effect, p)
  }

  lemma UnlinkedGrows(h: History, g: History, from: nat, p: Path, identity: Identity)
    requires UnlinkedSince(h, from, p, identity) && h <= g
    ensures UnlinkedSince(g, from, p, identity)
  {}

  lemma AllUnlinkedGrows(h: History, g: History, p: Path, identity: Identity)
    requires AllUnlinked(h, p, identity) && NothingPut(h, g, p)
    ensures AllUnlinked(g, p, identity)
  {
    forall y | y in g && Puts(y.effect, p) && Handled(y.effect) == identity
      ensures UnlinkedSince(g, y.tick, p, identity)
    {
      UnlinkedGrows(h, g, y.tick, p, identity);
    }
  }

  lemma ExcuseGrows(h: History, g: History, actions: map<nat, Action>, after: map<nat, Action>, action: nat, from: nat,
                    p: Path, identity: Identity)
    requires Excused(h, actions, from, p, identity) && h <= g && ActionsKept(actions, after, action)
    requires forall x :: x in h && MovesBack(x.effect, p) ==> x.effect.action != action
    ensures Excused(g, after, from, p, identity)
  {}

  lemma ExcusesGrow(h: History, g: History, actions: map<nat, Action>, after: map<nat, Action>, action: nat,
                    p: Path, identity: Identity)
    requires AllExcused(h, actions, p, identity) && NothingPut(h, g, p) && ActionsKept(actions, after, action)
    requires forall x :: x in h && MovesBack(x.effect, p) ==> x.effect.action != action
    ensures AllExcused(g, after, p, identity)
  {
    forall y | y in g && Puts(y.effect, p) && Handled(y.effect) == identity
      ensures Excused(g, after, y.tick, p, identity)
    {
      ExcuseGrows(h, g, actions, after, action, y.tick, p, identity);
    }
  }

  lemma AccountedKept(w: World, v: World, q: Quarantine, action: nat)
    requires Accounted(w, q) && NothingPut(w.history, v.history, q.path) && KeptAt(w.fs, v.fs, q.path)
    requires ActionsKept(w.st.actions, v.st.actions, action)
    requires forall x :: x in w.history && MovesBack(x.effect, q.path) ==> x.effect.action != action
    ensures Accounted(v, q)
  {
    if !IsAt(w.fs, q.path, q.identity) {
      ExcusesGrow(w.history, v.history, w.st.actions, v.st.actions, action, q.path, q.identity);
    }
  }

  // ---------------------------------------------------------------------------------------------
  // Actions that no restoration stands behind
  // ---------------------------------------------------------------------------------------------

  lemma NewNumber(w: World)
    requires Inv(w) && ProgressOk(w)
    ensures NeverMovedBack(w.history, w.tick) && (w.d.lane != Idle ==> w.d.lane.action != w.tick)
  {
    NewAction(w.history, w.tick);
    if w.d.lane.Moved? {
      var l := w.d.lane;
      var x :| x in w.history && x.effect.Renaming? && x.effect.moved && x.effect.action == l.action
          && x.effect.binding == l.binding;
    } else if w.d.lane.Intent? {
      assert Has(w.history, w.d.lane.intent, Intended(w.d.lane.action, w.d.lane.token, w.d.lane.binding));
    }
  }

  lemma PlanNeverMoved(w: World, secret: nat)
    requires Inv(w) && secret in w.d.plans
    ensures NeverMovedBack(w.history, w.d.plans[secret].action)
  {
    assert PlannedAs(w.history, secret, w.d.plans[secret]);
    var x :| x in w.history && x.tick == secret && x.effect.Planning? && x.effect.plan == w.d.plans[secret];
    assert PlanMatches(x.effect);
  }

  /// The rename of the action in progress is the only effect of that action.
  ghost predicate OnlyMove(w: World) {
    var l := w.d.lane;
    l.Moved? ==>
      forall x :: x in w.history && x.effect.Renaming? && x.effect.action == l.action ==>
        x.effect.binding == l.binding
  }

  lemma MovesOnce(w: World)
    requires Inv(w) && ProgressOk(w)
    ensures OnlyMove(w)
  {
    if w.d.lane.Moved? {
      var l := w.d.lane;
      var y :| y in w.history && y.effect.Renaming? && y.effect.moved && y.effect.action == l.action
          && y.effect.binding == l.binding;
    }
  }

  // ---------------------------------------------------------------------------------------------
  // Steps that leave rows and quarantined files alone
  // ---------------------------------------------------------------------------------------------

  /// Rows stay, the quarantine directory stays, one action row may change, and nothing was moved.
  ghost predicate Gentle(w: World, v: World, action: nat) {
    && v.st.quarantines == w.st.quarantines && ActionsKept(w.st.actions, v.st.actions, action)
    && (forall p: Path :: p.Held? ==> KeptAt(w.fs, v.fs, p) && NothingPut(w.history, v.history, p))
  }

  lemma GentleRows(w: World, v: World, action: nat)
    requires StoreShaped(w.history, w.st) && RowsAccounted(w) && Gentle(w, v, action)
    requires NeverMovedBack(w.history, action)
    ensures RowsAccounted(v)
  {
    forall id | id in v.st.quarantines && v.st.quarantines[id].status == Quarantined
      ensures Accounted(v, v.st.quarantines[id])
    {
      assert RowShaped(w.history, w.st.quarantines[id], id);
      AccountedKept(w, v, w.st.quarantines[id], action);
    }
  }

  lemma GentleProgress(w: World, v: World, action: nat)
    requires LaneShaped(w.history, w.d.lane) && ProgressOk(w) && Gentle(w, v, action)
    requires v.d.lane == w.d.lane && (w.d.lane != Idle ==> w.d.lane.action != action)
    ensures ProgressOk(v)
  {
    if v.d.lane.Moved? {
      var l := v.d.lane;
      var x :| x in w.history && x.effect.Renaming? && x.effect.moved && x.effect.action == l.action
          && x.effect.binding == l.binding;
      assert NothingPut(w.history, v.history, Held("", ""));
      assert x in v.history;
      if l.binding.ForCleanup? {
        assert KeptAt(w.fs, v.fs, Target(l.binding));
        if !IsAt(w.fs, Target(l.binding), Content(l.binding)) {
          AllUnlinkedGrows(w.history, v.history, Target(l.binding), Content(l.binding));
        }
      }
    }
  }

  /// A gentle step that leaves the lane as it is or empties it.
  lemma GentleStep(w: World, v: World, action: nat)
    requires StoreShaped(w.history, w.st) && LaneShaped(w.history, w.d.lane) && Custody(w)
    requires Gentle(w, v, action) && NeverMovedBack(w.history, action)
    requires v.d.lane == Idle || (v.d.lane == w.d.lane && w.d.lane.action != action)
    ensures Custody(v)
  {
    GentleRows(w, v, action);
    if v.d.lane == w.d.lane { GentleProgress(w, v, action); }
  }

  /// The action whose row a step may write.
  function RowOf(w: World, s: Step): nat {
    match s
    case DoBegin(action, _, _) => if w.d.lane == Idle && action in w.d.waiting then action else w.tick
    case DoPrepare(_) => if w.d.lane.Intent? && w.d.lane.binding.ForPurge? then w.d.lane.action else w.tick
    case DoComplete(action, secret, _, _, _, _) => if Completes(w, action, secret) then action else w.tick
    case _ => w.tick
  }

  predicate OtherAction(lane: Lane, action: nat) { lane != Idle ==> lane.action != action }

  /// The row a step may write belongs to no restoration, and new numbers are new.
  ghost predicate Numbering(w: World, s: Step) {
    OtherAction(w.d.lane, w.tick) && NeverMovedBack(w.history, RowOf(w, s))
  }

  lemma RowsNumbered(w: World, s: Step)
    requires Inv(w) && ProgressOk(w)
    ensures Numbering(w, s)
  {
    NewNumber(w);
    match s
    case DoComplete(_, secret, _, _, _, _) => if secret in w.d.plans { PlanNeverMoved(w, secret); }
    case _ =>
  }

  /// What a step between renames leaves alone, but for the row of `action`.
  ghost predicate LeavesRows(w: World, v: World, action: nat) {
    && v.st.quarantines == w.st.quarantines && ActionsKept(w.st.actions, v.st.actions, action)
    && (v.d.lane == Idle || (v.d.lane == w.d.lane && w.d.lane.action != action))
  }

  lemma CalmStep(w: World, s: Step)
    requires Slots(w) && Custody(w) && !s.DoRename? && !s.DoUnlink?
    requires LeavesRows(w, Next(w, s), RowOf(w, s)) && Numbering(w, s)
    ensures Custody(Next(w, s))
  {
    HistoryStep(w, s);
    forall p: Path | p.Held? ensures KeptAt(w.fs, Next(w, s).fs, p) { FilesStep(w, s, p); }
    GentleStep(w, Next(w, s), RowOf(w, s));
  }

  lemma PreviewLeaves(w: World, kind: Kind, id: string, policy: string, now: Time, audited: bool)
    requires OtherAction(w.d.lane, w.tick)
    ensures LeavesRows(w, Preview(w, kind, id, policy, now, audited), w.tick)
  {}

  lemma ConsumeLeaves(w: World, token: nat, endpoint: Kind, confirmation: string, now: Time, stored: bool)
    requires OtherAction(w.d.lane, w.tick)
    ensures LeavesRows(w, Consume(w, token, endpoint, confirmation, now, stored), w.tick)
  {}

  lemma PrepareLeaves(w: World, stored: bool)
    requires OtherAction(w.d.lane, w.tick)
    ensures LeavesRows(w, Prepare(w, stored), RowOf(w, DoPrepare(stored)))
  {}

  /// A refused request, or one whose intent row the database did not take.
  lemma RefusalLeaves(w: World, action: nat, seen: Option<Artifact>, stored: bool)
    requires OtherAction(w.d.lane, w.tick)
    requires w.d.lane != Idle || Begin(w, action, seen, stored).d.lane == Idle
    ensures LeavesRows(w, Begin(w, action, seen, stored), RowOf(w, DoBegin(action, seen, stored)))
  {}

  lemma UnrecordedLeaves(w: World, at: Time)
    requires OtherAction(w.d.lane, w.tick)
    ensures LeavesRows(w, Record(w, at, false), w.tick)
  {}

  lemma ClosedActions(st: Store, action: nat)
    ensures ActionsKept(st.actions, Finished(st, action, Failed).actions, action)
    ensures ActionsKept(st.actions, FinishedPartial(st, action).actions, action)
    ensures Finished(st, action, Failed).quarantines == st.quarantines
    ensures FinishedPartial(st, action).quarantines == st.quarantines
  {}

  predicate Completes(w: World, action: nat, secret: nat) {
    w.d.lane == Idle && secret in w.d.plans && w.d.plans[secret].action == action
  }

  /// A completion that does not close the row.
  lemma CompletionLeaves(w: World, action: nat, secret: nat, now: Time, at: Time, unreadable: bool, stored: bool)
    requires Completes(w, action, secret)
    requires action !in w.st.actions
      || Complete(w, action, secret, now, at, unreadable, stored).st !=
           RecordPurged(w.st, action, w.d.plans[secret].artifact, at)
    ensures LeavesRows(w, Complete(w, action, secret, now, at, unreadable, stored), action)
  {
    CompleteStore(w, action, secret, now, at, unreadable, stored);
    CompleteMemory(w, action, secret, now, at, unreadable, stored);
    ClosedActions(w.st, action);
  }

  lemma IgnoredLeaves(w: World, action: nat, secret: nat, now: Time, at: Time, unreadable: bool, stored: bool)
    requires OtherAction(w.d.lane, w.tick) && !Completes(w, action, secret)
    ensures LeavesRows(w, Complete(w, action, secret, now, at, unreadable, stored), w.tick)
  {}

  lemma SurroundingsLeave(w: World, s: Step)
    requires OtherAction(w.d.lane, w.tick)
    requires s.DoCommitScan? || s.DoFailScan? || s.DoTrip? || s.DoCrash? || s.DoOutside?
    ensures LeavesRows(w, Next(w, s), w.tick)
  {}

  // ---------------------------------------------------------------------------------------------
  // Steps that begin, move, unlink or record
  // ---------------------------------------------------------------------------------------------

  lemma IntentRows(w: World, action: nat, seen: Option<Artifact>)
    requires Slots(w) && Custody(w) && NeverMovedBack(w.history, action)
    requires ActionsKept(w.st.actions, Begin(w, action, seen, true).st.actions, action)
    requires Begin(w, action, seen, true).st.quarantines == w.st.quarantines
    ensures RowsAccounted(Begin(w, action, seen, true))
  {
    var s := DoBegin(action, seen, true);
    HistoryStep(w, s);
    forall p: Path | p.Held? ensures KeptAt(w.fs, Next(w, s).fs, p) { FilesStep(w, s, p); }
    GentleRows(w, Next(w, s), action);
  }

  lemma IntentOpens(w: World, action: nat, seen: Option<Artifact>)
    requires w.d.lane == Idle && Begin(w, action, seen, true).d.lane != Idle
    ensures ProgressOk(Begin(w, action, seen, true))
    ensures ActionsKept(w.st.actions, Begin(w, action, seen, true).st.actions, action)
    ensures Begin(w, action, seen, true).st.quarantines == w.st.quarantines
  {}

  /// A rename that refused or failed.
  lemma RefusedRename(w: World, fault: bool, stored: bool)
    requires Slots(w) && Custody(w) && w.d.lane.Intent? && !w.d.lane.binding.ForPurge?
    requires NeverMovedBack(w.history, w.d.lane.action)
    requires Rename(w, fault, stored).d.lane == Idle
    ensures Custody(Rename(w, fault, stored))
  {
    GentleStep(w, Rename(w, fault, stored), w.d.lane.action);
  }

  /// What the rename into or out of quarantine does.
  predicate Moves(w: World, v: World, e: Effect) {
    && e.Renaming? && e.moved && w.d.lane.Intent? && e.action == w.d.lane.action && e.binding == w.d.lane.binding
    && !e.binding.ForPurge?
    && IsAt(w.fs, Source(e.binding), Content(e.binding)) && Target(e.binding) !in w.fs.entries
    && v == Skip(w.(d := w.d.(lane := Moved(e.action, e.binding)),
                    fs := Renamed(w.fs, Source(e.binding), Target(e.binding)),
                    history := Grown(w.history, w.tick, e)))
  }

  lemma CleanupRow(w: World, v: World, e: Effect, q: Quarantine, id: string)
    requires Moves(w, v, e) && e.binding.ForCleanup? && NeverMovedBack(w.history, w.tick)
    requires Accounted(w, q) && RowShaped(w.history, q, id)
    ensures Accounted(v, q)
  {
    if q.path != Target(e.binding) {
      AccountedKept(w, v, q, w.tick);
    } else if q.identity != Content(e.binding) {
      forall y | y in v.history && Puts(y.effect, q.path) && Handled(y.effect) == q.identity
        ensures Excused(v.history, v.st.actions, y.tick, q.path, q.identity)
      {
        ExcuseGrows(w.history, v.history, w.st.actions, v.st.actions, w.tick, y.tick, q.path, q.identity);
      }
    }
  }

  lemma CleanupMoves(w: World, v: World, e: Effect)
    requires StoreShaped(w.history, w.st) && Custody(w) && Moves(w, v, e) && e.binding.ForCleanup?
    requires NeverMovedBack(w.history, w.tick)
    ensures Custody(v)
  {
    assert MovedBy(v.history, e.action, e.binding) by { assert Entry(w.tick, e) in v.history; }
    forall id | id in v.st.quarantines && v.st.quarantines[id].status == Quarantined
      ensures Accounted(v, v.st.quarantines[id])
    {
      CleanupRow(w, v, e, w.st.quarantines[id], id);
    }
  }

  /// A departure with a later excuse: the file was there, or earlier excuses remain.
  lemma DepartureExcused(w: World, v: World, e: Effect, q: Quarantine)
    requires Past(w.history, w.tick) && Accounted(w, q) && Takes(e, q.path) && IsAt(w.fs, q.path, Handled(e))
    requires v.history == Grown(w.history, w.tick, e) && v.st == w.st
    requires e.Renaming? ==> Unresolved(w.st.actions, e.action)
    ensures Accounted(v, q)
  {
    assert Entry(w.tick, e) in v.history;
    forall y | y in v.history && Puts(y.effect, q.path) && Handled(y.effect) == q.identity
      ensures Excused(v.history, v.st.actions, y.tick, q.path, q.identity)
    {
      if !IsAt(w.fs, q.path, q.identity) { assert Excused(w.history, w.st.actions, y.tick, q.path, q.identity); }
    }
  }

  lemma RestoreMoves(w: World, v: World, e: Effect)
    requires Past(w.history, w.tick) && StoreShaped(w.history, w.st) && Custody(w) && Moves(w, v, e)
    requires e.binding.ForRestore?
    requires NeverMovedBack(w.history, w.tick) && BindingShaped(w.history, e.binding)
    ensures Custody(v)
  {
    assert MovedBy(v.history, e.action, e.binding) by { assert Entry(w.tick, e) in v.history; }
    forall id | id in v.st.quarantines && v.st.quarantines[id].status == Quarantined
      ensures Accounted(v, v.st.quarantines[id])
    {
      var q := w.st.quarantines[id];
      assert RowShaped(w.history, q, id);
      if q.path == e.binding.item.path { DepartureExcused(w, v, e, q); } else { AccountedKept(w, v, q, w.tick); }
    }
  }

  lemma UnlinkedProgress(w: World, v: World, plan: Plan)
    requires Past(w.history, w.tick) && ProgressOk(w) && v.d == w.d && v.st == w.st
    requires IsAt(w.fs, plan.path, plan.identity)
    requires v.history == Grown(w.history, w.tick, Unlinked(plan)) && v.fs == Removed(w.fs, plan.path)
    ensures ProgressOk(v)
  {
    var l := w.d.lane;
    if l.Moved? {
      var x :| x in w.history && x.effect.Renaming? && x.effect.moved && x.effect.action == l.action
          && x.effect.binding == l.binding;
      assert x in v.history;
      if l.binding.ForCleanup? && !IsAt(v.fs, Target(l.binding), Content(l.binding)) {
        UnlinkedAll(w, v, plan, Target(l.binding), Content(l.binding));
      }
    }
  }

  lemma UnlinkedAll(w: World, v: World, plan: Plan, p: Path, identity: Identity)
    requires Past(w.history, w.tick) && v.history == Grown(w.history, w.tick, Unlinked(plan))
    requires AllUnlinked(w.history, p, identity) || (plan.path == p && plan.identity == identity)
    ensures AllUnlinked(v.history, p, identity)
  {
    assert Entry(w.tick, Unlinked(plan)) in v.history;
    forall y | y in v.history && Puts(y.effect, p) && Handled(y.effect) == identity
      ensures UnlinkedSince(v.history, y.tick, p, identity)
    {
      if AllUnlinked(w.history, p, identity) { UnlinkedGrows(w.history, v.history, y.tick, p, identity); }
    }
  }

  lemma UnlinkedHolds(w: World, v: World, plan: Plan)
    requires Past(w.history, w.tick) && StoreShaped(w.history, w.st) && Custody(w) && NeverMovedBack(w.history, w.tick)
    requires IsAt(w.fs, plan.path, plan.identity) && v.d == w.d && v.st == w.st
    requires v.history == Grown(w.history, w.tick, Unlinked(plan)) && v.fs == Removed(w.fs, plan.path)
    ensures Custody(v)
  {
    UnlinkedProgress(w, v, plan);
    forall id | id in v.st.quarantines && v.st.quarantines[id].status == Quarantined
      ensures Accounted(v, v.st.quarantines[id])
    {
      var q := w.st.quarantines[id];
      assert RowShaped(w.history, q, id);
      if q.path == plan.path { DepartureExcused(w, v, Unlinked(plan), q); } else { AccountedKept(w, v, q, w.tick); }
    }
  }

  /// The row that a quarantine writes is accounted for by the action in progress.
  lemma NewRowAccounted(w: World, v: World, q: Quarantine, b: Binding)
    requires IsAt(w.fs, Target(b), Content(b)) || AllUnlinked(w.history, Target(b), Content(b))
    requires q.path == Target(b) && q.identity == Content(b) && v.fs == w.fs && v.history == w.history
    ensures Accounted(v, q)
  {}

  lemma QuarantineRecorded(w: World, v: World, b: Binding, action: nat, q: Quarantine)
    requires OnlyMove(w) && StoreShaped(w.history, w.st) && Custody(w) && w.d.lane == Moved(action, b) && b.ForCleanup?
    requires q.path == Target(b) && q.identity == Content(b) && v.fs == w.fs && v.history == w.history
    requires v.d.lane == Idle
    requires v.st.quarantines == w.st.quarantines[q.artifact := q] && ActionsKept(w.st.actions, v.st.actions, action)
    ensures Custody(v)
  {
    assert NeverMovedBack(w.history, action);
    NewRowAccounted(w, v, q, b);
    forall id | id in v.st.quarantines && v.st.quarantines[id].status == Quarantined
      ensures Accounted(v, v.st.quarantines[id])
    {
      if id != q.artifact { AccountedKept(w, v, w.st.quarantines[id], action); }
    }
  }

  /// Closing the row under `id`, leaving every other row alone.
  predicate Closes(before: map<string, Quarantine>, after: map<string, Quarantine>, id: string) {
    && (id in after ==> after[id].status != Quarantined)
    && (forall x :: x in after && x != id ==> x in before && after[x] == before[x])
  }

  /// Only the closed row can rest on the restoration whose action row is closed with it.
  lemma RestoreRecorded(w: World, v: World, b: Binding, action: nat)
    requires OnlyMove(w) && StoreShaped(w.history, w.st) && Custody(w) && w.d.lane == Moved(action, b) && b.ForRestore?
    requires RowOk(b.item, b.artifact.id) && ClosesRow(w, v, b.item.artifact, action)
    ensures Custody(v)
  {
    forall id | id in v.st.quarantines && v.st.quarantines[id].status == Quarantined
      ensures Accounted(v, v.st.quarantines[id])
    {
      assert RowShaped(w.history, w.st.quarantines[id], id);
      AccountedKept(w, v, w.st.quarantines[id], action);
    }
  }

  /// What a step that closes the row under `id` and leaves the files alone amounts to.
  ghost predicate ClosesRow(w: World, v: World, id: string, action: nat) {
    && Closes(w.st.quarantines, v.st.quarantines, id) && ActionsKept(w.st.actions, v.st.actions, action)
    && v.d.lane == Idle && v.fs == w.fs && forall p: Path :: NothingPut(w.history, v.history, p)
  }

  lemma RowClosed(w: World, v: World, id: string, action: nat)
    requires StoreShaped(w.history, w.st) && Custody(w) && NeverMovedBack(w.history, action)
    requires ClosesRow(w, v, id, action)
    ensures Custody(v)
  {
    forall other | other in v.st.quarantines && v.st.quarantines[other].status == Quarantined
      ensures Accounted(v, v.st.quarantines[other])
    {
      assert RowShaped(w.history, w.st.quarantines[other], other);
      AccountedKept(w, v, w.st.quarantines[other], action);
    }
  }

  lemma NothingPutBy(w: World, s: Step)
    requires !s.DoRename?
    ensures forall p: Path :: NothingPut(w.history, Next(w, s).history, p)
  {
    HistoryStep(w, s);
  }

  lemma PurgedCloses(st: Store, action: nat, id: string, at: Time)
    requires action in st.actions
    ensures Closes(st.quarantines, RecordPurged(st, action, id, at).quarantines, id)
    ensures ActionsKept(st.actions, RecordPurged(st, action, id, at).actions, action)
  {}

  lemma CompleteFiles(w: World, action: nat, secret: nat, now: Time, at: Time, unreadable: bool, stored: bool)
    ensures Complete(w, action, secret, now, at, unreadable, stored).fs == w.fs
  {}

  lemma PurgeCloses(w: World, action: nat, secret: nat, now: Time, at: Time, unreadable: bool, stored: bool)
    requires Completes(w, action, secret) && action in w.st.actions
    requires Complete(w, action, secret, now, at, unreadable, stored).st ==
        RecordPurged(w.st, action, w.d.plans[secret].artifact, at)
    ensures ClosesRow(w, Complete(w, action, secret, now, at, unreadable, stored), w.d.plans[secret].artifact, action)
  {
    NothingPutBy(w, DoComplete(action, secret, now, at, unreadable, stored));
    CompleteMemory(w, action, secret, now, at, unreadable, stored);
    CompleteFiles(w, action, secret, now, at, unreadable, stored);
    PurgedCloses(w.st, action, w.d.plans[secret].artifact, at);
  }

  lemma RestoreCloses(w: World, at: Time)
    requires w.d.lane.Moved? && w.d.lane.binding.ForRestore? && w.d.lane.action in w.st.actions
    ensures ClosesRow(w, Record(w, at, true), w.d.lane.binding.item.artifact, w.d.lane.action)
  {}

  // ---------------------------------------------------------------------------------------------
  // Every step keeps custody
  // ---------------------------------------------------------------------------------------------

  lemma BeginHolds(w: World, action: nat, seen: Option<Artifact>, stored: bool)
    requires Slots(w) && Custody(w) && Numbering(w, DoBegin(action, seen, stored))
    ensures Custody(Begin(w, action, seen, stored))
  {
    if w.d.lane == Idle && Begin(w, action, seen, stored).d.lane != Idle {
      IntentOpens(w, action, seen);
      IntentRows(w, action, seen);
    } else {
      RefusalLeaves(w, action, seen, stored);
      CalmStep(w, DoBegin(action, seen, stored));
    }
  }

  lemma RenameHolds(w: World, fault: bool, stored: bool)
    requires Inv(w) && Slots(w) && Custody(w)
    ensures Custody(Rename(w, fault, stored))
  {
    var v := Rename(w, fault, stored);
    NewNumber(w);
    if !w.d.lane.Intent? || w.d.lane.binding.ForPurge? {
      IdleStep(w, v);
    } else if v.d.lane == Idle {
      RefusedRename(w, fault, stored);
    } else {
      var l := w.d.lane;
      MoveHolds(w, v, Renaming(l.intent, l.action, l.token, l.binding, true));
    }
  }

  lemma MoveHolds(w: World, v: World, e: Effect)
    requires Past(w.history, w.tick) && Slots(w) && Custody(w) && Moves(w, v, e) && NeverMovedBack(w.history, w.tick)
    ensures Custody(v)
  {
    if e.binding.ForCleanup? { CleanupMoves(w, v, e); } else { RestoreMoves(w, v, e); }
  }

  /// A step without any effect on rows, files or the lane.
  lemma IdleStep(w: World, v: World)
    requires Custody(w) && v.d == w.d && v.st == w.st && v.fs == w.fs && v.history == w.history
    ensures Custody(v)
  {
    forall id | id in v.st.quarantines && v.st.quarantines[id].status == Quarantined
      ensures Accounted(v, v.st.quarantines[id])
    {
      assert Accounted(w, w.st.quarantines[id]);
    }
  }

  lemma UnlinkHolds(w: World, plan: Plan, fault: bool)
    requires Slots(w) && Custody(w) && Past(w.history, w.tick) && NeverMovedBack(w.history, w.tick)
    ensures Custody(Unlink(w, plan, fault))
  {
    var v := Unlink(w, plan, fault);
    if v.fs == w.fs { IdleStep(w, v); } else { UnlinkedHolds(w, v, plan); }
  }

  lemma CompleteHolds(w: World, action: nat, secret: nat, now: Time, at: Time, unreadable: bool, stored: bool)
    requires Slots(w) && Custody(w) && Numbering(w, DoComplete(action, secret, now, at, unreadable, stored))
    ensures Custody(Complete(w, action, secret, now, at, unreadable, stored))
  {
    var s := DoComplete(action, secret, now, at, unreadable, stored);
    if !Completes(w, action, secret) {
      IgnoredLeaves(w, action, secret, now, at, unreadable, stored);
      CalmStep(w, s);
    } else if action !in w.st.actions || Next(w, s).st != RecordPurged(w.st, action, w.d.plans[secret].artifact, at) {
      CompletionLeaves(w, action, secret, now, at, unreadable, stored);
      CalmStep(w, s);
    } else {
      PurgeCloses(w, action, secret, now, at, unreadable, stored);
      RowClosed(w, Next(w, s), w.d.plans[secret].artifact, action);
    }
  }

  lemma CleanupRecord(w: World, at: Time)
    requires w.d.lane.Moved? && w.d.lane.binding.ForCleanup? && w.d.lane.action in w.st.actions
    ensures var v, q := Record(w, at, true), QuarantineOf(w.d.cfg, w.d.lane.binding, at);
            && v.st.quarantines == w.st.quarantines[q.artifact := q]
            && ActionsKept(w.st.actions, v.st.actions, w.d.lane.action)
            && v.fs == w.fs && v.history == w.history && v.d.lane == Idle
  {}

  lemma RecordHolds(w: World, at: Time)
    requires Slots(w) && Custody(w) && OnlyMove(w) && w.d.lane.Moved?
    ensures Custody(Record(w, at, true))
  {
    var l := w.d.lane;
    if l.binding.ForCleanup? {
      CleanupRecord(w, at);
      QuarantineRecorded(w, Record(w, at, true), l.binding, l.action, QuarantineOf(w.d.cfg, l.binding, at));
    } else {
      RestoreCloses(w, at);
      RestoreRecorded(w, Record(w, at, true), l.binding, l.action);
    }
  }

  lemma RecordedOrNot(w: World, at: Time, stored: bool)
    requires Slots(w) && Custody(w) && OnlyMove(w) && Numbering(w, DoRecord(at, stored))
    ensures Custody(Record(w, at, stored))
  {
    if w.d.lane.Moved? && stored {
      RecordHolds(w, at);
    } else {
      UnrecordedLeaves(w, at);
      CalmStep(w, DoRecord(at, stored));
    }
  }

  lemma SurroundingsHold(w: World, s: Step)
    requires Slots(w) && Custody(w) && Numbering(w, s)
    requires s.DoCommitScan? || s.DoFailScan? || s.DoTrip? || s.DoCrash? || s.DoOutside?
    ensures Custody(Next(w, s))
  {
    SurroundingsLeave(w, s);
    CalmStep(w, s);
  }

  lemma LockedStepHolds(w: World, s: Step)
    requires Slots(w) && Custody(w) && Numbering(w, s) && OnlyMove(w)
    requires s.DoPreview? || s.DoConsume? || s.DoBegin? || s.DoRecord? || s.DoPrepare?
    ensures Custody(Next(w, s))
  {
    match s
    case DoPreview(kind, id, policy, now, audited) =>
      PreviewLeaves(w, kind, id, policy, now, audited);
      CalmStep(w, s);
    case DoConsume(token, endpoint, confirmation, now, stored) =>
      ConsumeLeaves(w, token, endpoint, confirmation, now, stored);
      CalmStep(w, s);
    case DoBegin(action, seen, stored) => BeginHolds(w, action, seen, stored);
    case DoRecord(at, stored) => RecordedOrNot(w, at, stored);
    case DoPrepare(stored) =>
      PrepareLeaves(w, stored);
      CalmStep(w, s);
  }

  lemma OtherStepHolds(w: World, s: Step)
    requires Inv(w) && Slots(w) && Custody(w) && Numbering(w, s)
    requires !s.DoPreview? && !s.DoConsume? && !s.DoBegin? && !s.DoRecord? && !s.DoPrepare?
    ensures Custody(Next(w, s))
  {
    match s
    case DoRename(fault, stored) => RenameHolds(w, fault, stored);
    case DoUnlink(plan, fault) => UnlinkHolds(w, plan, fault);
    case DoComplete(action, secret, now, at, unreadable, stored) =>
      CompleteHolds(w, action, secret, now, at, unreadable, stored);
    case _ => SurroundingsHold(w, s);
  }

  lemma StepHolds(w: World, s: Step)
    requires Inv(w) && Slots(w) && Custody(w)
    ensures Custody(Next(w, s))
  {
    RowsNumbered(w, s);
    MovesOnce(w);
    if s.DoPreview? || s.DoConsume? || s.DoBegin? || s.DoRecord? || s.DoPrepare? {
      LockedStepHolds(w, s);
    } else {
      OtherStepHolds(w, s);
    }
  }

  lemma {:induction false} RunHolds(cfg: Config, fs: Files, steps: seq<Step>)
    ensures Custody(Run(Initial(cfg, fs), steps))
  {
    if steps != [] {
      RunHolds(cfg, fs, steps[..|steps| - 1]);
      RunKeeps(cfg, fs, steps[..|steps| - 1]);
      RunSlots(cfg, fs, steps[..|steps| - 1]);
      StepHolds(Run(Initial(cfg, fs), steps[..|steps| - 1]), steps[|steps| - 1]);
    }
  }

  // ---------------------------------------------------------------------------------------------
  // Rows and files
  // ---------------------------------------------------------------------------------------------

  lemma ReachableHolds(w: World)
    requires Reachable(w)
    ensures Custody(w) && Slots(w)
  {
    var cfg, fs, steps: seq<Step> :| Reaches(cfg, fs, steps, w);
    RunHolds(cfg, fs, steps);
    RunSlots(cfg, fs, steps);
  }

  /// A file that is where it was put has not been taken since.
  lemma PresentIsNotExcused(h: History, fs: Files, actions: map<nat, Action>, p: Path, identity: Identity)
    requires Filled(h, fs, p) && Sourced(h, p, identity) && IsAt(fs, p, identity)
    ensures !AllExcused(h, actions, p, identity)
  {
    var y :| y in h && Puts(y.effect, p) && InPlace(h, fs, p, y);
    assert forall x :: x in h && Takes(x.effect, p) ==> x.tick <= y.tick;
    assert !Excused(h, actions, y.tick, p, identity);
  }

  /// Over every interleaving of daemon, foreground and crashes, with others interfering only outside the
  /// quarantine directory: the file that a quarantined row names was put at its path, and its exact identity
  /// is there if and only if not every quarantine of it, the last one included, was followed by an unlink of
  /// it or by a restoration that moved it and is still unresolved.
  lemma QuarantinedRowsAreAccounted(w: World, id: string)
    requires Reachable(w) && id in w.st.quarantines && w.st.quarantines[id].status == Quarantined
    ensures var q := w.st.quarantines[id];
            && q.artifact == id && q.path == Held(q.root, id) && Sourced(w.history, q.path, q.identity)
            && (IsAt(w.fs, q.path, q.identity) <==> !AllExcused(w.history, w.st.actions, q.path, q.identity))
  {
    ReachableHolds(w);
    var q := w.st.quarantines[id];
    assert RowShaped(w.history, q, id) && Accounted(w, q);
    assert Slot(w.history, w.fs, q.path);
    if IsAt(w.fs, q.path, q.identity) { PresentIsNotExcused(w.history, w.fs, w.st.actions, q.path, q.identity); }
  }

  /// Nobody unlinks without a plan: executors hold only plans that the history shows being issued.
  ghost predicate IssuedPlan(h: History, plan: Plan) {
    exists y :: y in h && y.effect.Planning? && y.effect.plan == plan
  }

  ghost predicate UnlinksPlanned(w: World) {
    && (forall plan :: plan in w.executors ==> IssuedPlan(w.history, plan))
    && (forall x :: x in w.history && x.effect.Unlinked? ==> IssuedPlan(w.history, x.effect.plan))
  }

  lemma IssuedGrows(h: History, g: History, plan: Plan)
    requires IssuedPlan(h, plan) && h <= g
    ensures IssuedPlan(g, plan)
  {}

  /// What a step does to executors and unlink entries.
  lemma ExecutorsShape(w: World, s: Step)
    ensures var v := Next(w, s);
            && w.history <= v.history
            && (forall plan :: plan in v.executors && plan !in w.executors ==> IssuedPlan(v.history, plan))
            && (forall x :: x in v.history && x !in w.history && x.effect.Unlinked? ==> x.effect.plan in w.executors)
  {
    var v := Next(w, s);
    if s.DoPrepare? && v.executors != w.executors {
      var l := w.d.lane;
      var plan := PlanOf(l.action, l.binding, l.root, l.now);
      assert Entry(w.tick, Planning(l.intent, l.action, l.token, l.binding, plan, l.now)) in v.history;
    }
  }

  lemma {:induction false} RunPlansUnlinks(cfg: Config, fs: Files, steps: seq<Step>)
    ensures UnlinksPlanned(Run(Initial(cfg, fs), steps))
  {
    if steps != [] {
      RunPlansUnlinks(cfg, fs, steps[..|steps| - 1]);
      UnlinksStayPlanned(Run(Initial(cfg, fs), steps[..|steps| - 1]), steps[|steps| - 1]);
    }
  }

  lemma UnlinksStayPlanned(w: World, s: Step)
    requires UnlinksPlanned(w)
    ensures UnlinksPlanned(Next(w, s))
  {
    var v := Next(w, s);
    ExecutorsShape(w, s);
    forall plan | plan in v.executors ensures IssuedPlan(v.history, plan) {
      if plan in w.executors { IssuedGrows(w.history, v.history, plan); }
    }
    forall x | x in v.history && x.effect.Unlinked? ensures IssuedPlan(v.history, x.effect.plan) {
      IssuedGrows(w.history, v.history, x.effect.plan);
    }
  }

  ghost predicate UnlinkedUnderPlan(h: History, from: nat, p: Path, identity: Identity) {
    exists x :: x in h && Unlinks(x.effect, p) && Handled(x.effect) == identity && from < x.tick
      && IssuedPlan(h, x.effect.plan)
  }

  /// So a missing file means that after its last quarantine, as after every other, it was unlinked under an
  /// issued plan that names exactly this path and identity, or moved by a restoration that is unresolved.
  lemma MissingMeansPlanOrRestore(w: World, id: string, y: Entry)
    requires Reachable(w) && id in w.st.quarantines && w.st.quarantines[id].status == Quarantined
    requires !IsAt(w.fs, w.st.quarantines[id].path, w.st.quarantines[id].identity)
    requires y in w.history && Puts(y.effect, w.st.quarantines[id].path)
    requires Handled(y.effect) == w.st.quarantines[id].identity
    ensures var q := w.st.quarantines[id];
            UnlinkedUnderPlan(w.history, y.tick, q.path, q.identity)
                || AstraySince(w.history, w.st.actions, y.tick, q.path, q.identity)
  {
    QuarantinedRowsAreAccounted(w, id);
    var cfg, fs, steps: seq<Step> :| Reaches(cfg, fs, steps, w);
    RunPlansUnlinks(cfg, fs, steps);
    var q := w.st.quarantines[id];
    assert Excused(w.history, w.st.actions, y.tick, q.path, q.identity);
    if UnlinkedSince(w.history, y.tick, q.path, q.identity) {
      var x :| x in w.history && Unlinks(x.effect, q.path) && Handled(x.effect) == q.identity && y.tick < x.tick;
      assert IssuedPlan(w.history, x.effect.plan);
    }
  }

  // ---------------------------------------------------------------------------------------------
  // Conservation of identities
  // ---------------------------------------------------------------------------------------------

  function UnlinksOf(h: History, identity: Identity): set<Entry> {
    set x | x in h && x.effect.Unlinked? && x.effect.plan.identity == identity
  }

  /// Files that hold this identity, plus those that were unlinked.
  function Balance(w: World, identity: Identity): nat { Count(w.fs, identity) + |UnlinksOf(w.history, identity)| }

  predicate SameUnlinks(h: History, g: History) {
    && (forall x :: x in h && x.effect.Unlinked? ==> x in g)
    && (forall x :: x in g && x.effect.Unlinked? ==> x in h)
  }

  lemma BalanceKept(w: World, v: World, identity: Identity)
    requires v.fs == w.fs && SameUnlinks(w.history, v.history)
    ensures Balance(v, identity) == Balance(w, identity)
  {
    assert UnlinksOf(v.history, identity) == UnlinksOf(w.history, identity);
  }

  lemma RenameBalances(w: World, fault: bool, stored: bool, identity: Identity)
    ensures Balance(Rename(w, fault, stored), identity) == Balance(w, identity)
  {
    var v := Rename(w, fault, stored);
    assert UnlinksOf(v.history, identity) == UnlinksOf(w.history, identity);
    if v.fs != w.fs {
      RenameConserves(w.fs, Source(w.d.lane.binding), Target(w.d.lane.binding), identity);
    }
  }

  lemma UnlinkBalances(w: World, plan: Plan, fault: bool, identity: Identity)
    requires Past(w.history, w.tick)
    ensures Balance(Unlink(w, plan, fault), identity) == Balance(w, identity)
  {
    var v := Unlink(w, plan, fault);
    if plan !in w.executors || !CanRemove(w.fs, plan.path, plan.rootIdentity, plan.identity, fault).Done? {
      BalanceKept(w, v, identity);
    } else {
      RemoveTakesOne(w.fs, plan.path, identity);
      var x := Entry(w.tick, Unlinked(plan));
      assert x !in w.history;
      assert UnlinksOf(v.history, identity) ==
        if plan.identity == identity then UnlinksOf(w.history, identity) + {x} else UnlinksOf(w.history, identity);
    }
  }

  /// Every other step leaves files and unlink entries as they are.
  lemma QuietFiles(w: World, s: Step)
    requires !s.DoOutside? && !s.DoRename? && !s.DoUnlink?
    ensures Next(w, s).fs == w.fs && SameUnlinks(w.history, Next(w, s).history)
  {}

  lemma StepBalances(w: World, s: Step, identity: Identity)
    requires Past(w.history, w.tick) && !s.DoOutside?
    ensures Balance(Next(w, s), identity) == Balance(w, identity)
  {
    match s
    case DoRename(fault, stored) => RenameBalances(w, fault, stored, identity);
    case DoUnlink(plan, fault) => UnlinkBalances(w, plan, fault, identity);
    case _ =>
      QuietFiles(w, s);
      BalanceKept(w, Next(w, s), identity);
  }

  /// The number of files that hold an identity changes only when an executor unlinks one.
  lemma {:induction false} IdentitiesAreConserved(cfg: Config, fs: Files, steps: seq<Step>, identity: Identity)
    requires forall s :: s in steps ==> !s.DoOutside?
    ensures Balance(Run(Initial(cfg, fs), steps), identity) == Count(fs, identity)
  {
    if steps == [] {
      assert UnlinksOf({}, identity) == {};
    } else {
      var init, s := steps[..|steps| - 1], steps[|steps| - 1];
      assert s in steps && forall x :: x in init ==> x in steps;
      IdentitiesAreConserved(cfg, fs, init, identity);
      RunKeeps(cfg, fs, init);
      StepBalances(Run(Initial(cfg, fs), init), s, identity);
    }
  }
}
