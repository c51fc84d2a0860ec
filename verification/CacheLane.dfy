/// The daemon object of the cache lane and its foreground executor: every method is the corresponding
/// steps of the protocol (internal/daemon/cache_approval.go, cache_action.go, cache_quarantine_action.go,
/// cache_restore_action.go, cache_purge_action.go; cmd/cli/cache.go).

module CacheLane {
  import opened Common
  import opened CacheFs
  import opened CacheLedger
  import opened CacheProtocol

  class CacheLane {
    var cfg: Config
    var approvals: map<nat, Approval>
    var plans: map<nat, Plan>
    var fsHealthy: bool
    var cacheHealthy: bool
    var store: Store
    const fs: Fake
    /// The source of fresh tokens, action ids and secrets.
    var tick: nat
    ghost var waiting: map<nat, Waiting>
    ghost var lane: Lane
    ghost var executors: set<Plan>
    ghost var history: History

    constructor (cfg: Config, store: Store, fs: Fake)
      ensures this.fs == fs
      ensures View() == World(0, Daemon(cfg, map[], map[], map[], Idle, true, false), store, fs.Contents(), {}, {})
    {
      this.cfg, this.store, this.fs := cfg, store, fs;
      approvals, plans, fsHealthy, cacheHealthy, tick := map[], map[], true, false, 0;
      waiting, lane, executors, history := map[], Idle, {}, {};
    }

    ghost function View(): World reads this, fs {
      World(tick, Daemon(cfg, approvals, waiting, plans, lane, fsHealthy, cacheHealthy), store, fs.Contents(),
            executors, history)
    }

    /// Forgets approvals two minutes after expiry, visiting the map in the given order.
    method PruneApprovals(now: Time, order: seq<nat>)
      requires forall token :: token in approvals ==> token in order
      modifies this`approvals
      ensures approvals == Prune(old(approvals), now)
    {
      var kept := approvals;
      for i := 0 to |order|
        invariant approvals == old(approvals)
        invariant kept ==
            map token | token in approvals && (token in order[..i] ==> approvals[token].expires + LIFETIME >= now)
                            :: approvals[token]
      {
        if order[i] in kept && kept[order[i]].expires + LIFETIME < now {
          kept := kept - {order[i]};
        }
        assert order[..i + 1] == order[..i] + [order[i]];
      }
      assert order[..|order|] == order;
      approvals := kept;
    }

    method IssueApproval(kind: Kind, id: string, policy: string, now: Time, audited: bool, order: seq<nat>)
      returns (token: Option<nat>)
      requires lane == Idle && forall t :: t in approvals ==> t in order
      modifies this
      ensures View() == Preview(old(View()), kind, id, policy, now, audited)
      ensures token.Some? ==> token.value == old(tick) && token.value in approvals && !approvals[token.value].used
    {
      token := None;
      var binding := PreviewBinding(cfg, fsHealthy && cacheHealthy, store, kind, id, policy, now);
      if binding.Some? {
        PruneApprovals(now, order);
        if |approvals| < MAX_APPROVALS && audited {
          approvals := approvals[tick := Approval(binding.value, now + LIFETIME, false)];
          history := history + {Entry(tick, Issued(binding.value, now + LIFETIME))};
          token := Some(tick);
        }
      }
      tick := tick + 1;
    }

    /// Single use: the first consumption marks the approval, whatever comes of it.
    method ConsumeApproval(token: nat, endpoint: Kind, confirmation: string, now: Time, stored: bool)
      returns (accepted: Option<Waiting>)
      modifies this
      ensures View() == Consume(old(View()), token, endpoint, confirmation, now, stored)
      ensures accepted.Some? ==> old(tick) in waiting && waiting[old(tick)] == accepted.value && lane == old(lane)
      ensures accepted.Some? ==>
          token in old(approvals) && !old(approvals[token].used) && now < old(approvals[token].expires)
    {
      accepted := None;
      if token in approvals && !(endpoint.Purge? && confirmation == "") {
        var a := approvals[token];
        approvals := approvals[token := a.(used := true)];
        if a.used || !Acceptable(a, endpoint, confirmation, now) {
          if stored { store := Begun(store, tick, a.binding.artifact.id, Rejected); }
        } else {
          accepted := Some(Waiting(token, a.binding, now));
          waiting := waiting[tick := Waiting(token, a.binding, now)];
          history := history + {Entry(tick, Consumed(token, a.binding, now, a.expires))};
        }
      }
      tick := tick + 1;
    }

    /// `rejectCacheAction`: a refusal is recorded before anything was touched.
    method RejectAction(action: nat, artifact: string, stored: bool)
      modifies this
      ensures View() == Reject(old(View()), old(View()).d, action, artifact, stored)
    {
      if stored { store := Begun(store, action, artifact, Rejected); }
      tick := tick + 1;
    }

    /// `beginCacheAction`: the intent row is committed before any side effect.
    method CommitIntent(action: nat, t: Waiting, root: Identity)
      modifies this
      ensures var w := old(View());
              View() == Skip(w.(d := w.d.(lane := Intent(w.tick, action, t.token, t.binding, root, t.now)),
                                st := Begun(w.st, action, t.binding.artifact.id,
                                            if t.binding.ForPurge? then Purging else Attempting),
                                history := Did(w, Intended(action, t.token, t.binding))))
    {
      store := Begun(store, action, t.binding.artifact.id, if t.binding.ForPurge? then Purging else Attempting);
      history := history + {Entry(tick, Intended(action, t.token, t.binding))};
      lane := Intent(tick, action, t.token, t.binding, root, t.now);
      tick := tick + 1;
    }

    /// Revalidates under both locks and commits the intent row, or refuses.
    method BeginLocked(action: nat, t: Waiting, seen: Option<Artifact>, stored: bool) returns (root: Option<Identity>)
      requires lane == Idle && action in waiting && waiting[action] == t
      modifies this
      ensures View() == Begin(old(View()), action, seen, stored)
      ensures root.Some? ==> lane == Intent(old(tick), action, t.token, t.binding, root.value, t.now)
      ensures root.None? ==> lane == Idle
    {
      root := Revalidated(cfg, fsHealthy && cacheHealthy, store, t.binding, seen, t.now);
      waiting := waiting - {action};
      if root.None? {
        RejectAction(action, t.binding.artifact.id, stored);
      } else if !stored {
        tick := tick + 1;
        root := None;
      } else {
        CommitIntent(action, t, root.value);
      }
    }

    /// The filesystem's part of the rename.
    method CallRename(b: Binding, root: Identity, fault: bool) returns (moved: bool)
      requires !b.ForPurge?
      modifies fs
      ensures moved == CanMove(old(fs.Contents()), Source(b), Target(b), root, Content(b), fault).Done?
      ensures fs.Contents() == if moved then Renamed(old(fs.Contents()), Source(b), Target(b)) else old(fs.Contents())
    {
      var outcome;
      if b.ForCleanup? {
        outcome := fs.Quarantine(Source(b), Base(b.destination), root, Content(b), fault);
      } else {
        outcome := fs.Restore(Source(b), Target(b), root, Content(b), fault);
      }
      moved := outcome.Done?;
    }

    /// The rename itself; a failed one closes the action row.
    method MoveLocked(action: nat, b: Binding, root: Identity, fault: bool, stored: bool) returns (moved: bool)
      requires lane.Intent? && lane.action == action && lane.binding == b && lane.root == root && !b.ForPurge?
      modifies this, fs
      ensures View() == Rename(old(View()), fault, stored)
      ensures lane == if moved then Moved(action, b) else Idle
    {
      moved := CallRename(b, root, fault);
      history := history + {Entry(tick, Renaming(lane.intent, action, lane.token, b, moved))};
      if moved {
        lane := Moved(action, b);
      } else {
        if stored { store := Finished(store, action, Failed); }
        lane := Idle;
      }
      tick := tick + 1;
    }

    /// Recording a completed rename; when the database refuses, the action row stays open.
    method RecordLocked(action: nat, b: Binding, at: Time, stored: bool)
      requires lane == Moved(action, b)
      modifies this
      ensures View() == Record(old(View()), at, stored) && lane == Idle
    {
      if stored { store := Recorded(cfg, store, action, b, at); }
      lane := Idle;
      tick := tick + 1;
    }

    /// `applyCacheQuarantineLocked` and `applyCacheRestoreLocked`.
    method ApplyLocked(action: nat, t: Waiting, seen: Option<Artifact>, fault: bool, at: Time, begun: bool,
                       failed: bool, recorded: bool)
      returns (done: bool)
      requires lane == Idle && action in waiting && waiting[action] == t && !t.binding.ForPurge?
      modifies this, fs
      ensures View() == Record(Rename(Begin(old(View()), action, seen, begun), fault, failed), at, recorded)
      ensures done <==> recorded && Rename(Begin(old(View()), action, seen, begun), fault, failed).d.lane.Moved?
      ensures lane == Idle
    {
      var root := BeginLocked(action, t, seen, begun);
      if root.None? {
        tick := tick + 2;
        return false;
      }
      var moved := MoveLocked(action, t.binding, root.value, fault, failed);
      if !moved {
        tick := tick + 1;
        return false;
      }
      RecordLocked(action, t.binding, at, recorded);
      done := recorded;
    }

    /// Handing out the plan, unless one is still outstanding.
    method PlanLocked(action: nat, b: Binding, root: Identity, now: Time, stored: bool)
      returns (plan: Option<(nat, Plan)>)
      requires lane.Intent? && lane.action == action && lane.binding == b && lane.root == root && lane.now == now
      requires b.ForPurge?
      modifies this
      ensures View() == Prepare(old(View()), stored) && lane == Idle
      ensures plan.Some? <==> PrunePlans(old(plans), now) == map[]
      ensures plan.Some? ==>
                && plans == map[plan.value.0 := plan.value.1]
                && plan.value.1 in executors && plan.value.1.action == action
    {
      plan := None;
      plans := PrunePlans(plans, now);
      if |plans| >= 1 {
        if stored { store := Finished(store, action, Failed); }
      } else {
        var p := PlanOf(action, b, root, now);
        assert plans == map[];
        plans := plans[tick := p];
        executors := executors + {p};
        history := history + {Entry(tick, Planning(lane.intent, action, lane.token, b, p, now))};
        plan := Some((tick, p));
      }
      lane := Idle;
      tick := tick + 1;
    }

    /// `prepareCachePurgeLocked`: at most one plan is outstanding.
    method PreparePurgeLocked(action: nat, t: Waiting, begun: bool, failed: bool) returns (plan: Option<(nat, Plan)>)
      requires lane == Idle && action in waiting && waiting[action] == t && t.binding.ForPurge?
      modifies this
      ensures View() == Prepare(Begin(old(View()), action, None, begun), failed)
      ensures plan.Some? <==>
                Begin(old(View()), action, None, begun).d.lane.Intent? && PrunePlans(old(plans), t.now) == map[]
      ensures plan.Some? ==>
                && plans == map[plan.value.0 := plan.value.1]
                && plan.value.1 in executors && plan.value.1.action == action
      ensures lane == Idle
    {
      var root := BeginLocked(action, t, None, begun);
      if root.None? {
        tick := tick + 1;
        return None;
      }
      plan := PlanLocked(action, t.binding, root.value, t.now, failed);
    }

    /// `tripFilesystemCircuit`.
    method TripCircuit()
      requires lane == Idle
      modifies this
      ensures View() == Trip(old(View()))
    {
      fsHealthy := false;
      history := history + {Entry(tick, Tripped)};
      tick := tick + 1;
    }

    /// An ambiguous completion opens the circuit and leaves the action partial.
    method AmbiguousPurge(action: nat, stored: bool)
      requires lane == Idle
      modifies this
      ensures View() == Ambiguous(old(View()), old(View()).d, action, stored)
    {
      if stored { store := FinishedPartial(store, action); }
      TripCircuit();
    }

    /// `CachePurgeComplete`: consumes the plan, then believes only what it reads at the quarantine path.
    method CompletePurge(action: nat, secret: nat, now: Time, at: Time, unreadable: bool, stored: bool)
      requires lane == Idle
      modifies this
      ensures View() == Complete(old(View()), action, secret, now, at, unreadable, stored)
    {
      if secret !in plans || plans[secret].action != action {
        tick := tick + 1;
        return;
      }
      var plan := plans[secret];
      plans := plans - {secret};
      var readable, current := fs.QuarantineEntry(plan.path, plan.rootIdentity, unreadable);
      if !readable || (current.Some? && current.value != plan.identity) || (current.None? && now >= plan.expires) {
        AmbiguousPurge(action, stored);
        return;
      }
      if current.Some? {
        if stored { store := Finished(store, action, Failed); }
      } else if stored {
        store := RecordPurged(store, action, plan.artifact, at);
        history := history + {Entry(tick, PurgeRecorded(secret, plan, now))};
      }
      tick := tick + 1;
    }

    /// The executor's own call: one attempt per plan.
    method UnlinkPlan(plan: Plan, fault: bool, partial: bool) returns (failed: bool)
      requires plan in executors
      modifies this, fs
      ensures View() == Unlink(old(View()), plan, fault)
      ensures lane == old(lane)
      ensures failed <==>
                partial || !CanRemove(old(fs.Contents()), plan.path, plan.rootIdentity, plan.identity, fault).Done?
    {
      ghost var can := CanRemove(fs.Contents(), plan.path, plan.rootIdentity, plan.identity, fault);
      failed := fs.Purge(plan.path, plan.rootIdentity, plan.identity, fault, partial);
      executors := executors - {plan};
      if can.Done? { history := history + {Entry(tick, Unlinked(plan))}; }
      tick := tick + 1;
    }
  }

  /// `executeCachePurge`, once a plan was prepared: unlink unless the plan has expired, then complete.
  method ExecutePurge(lane: CacheLane, secret: nat, plan: Plan, now: Time, fault: bool, partial: bool, completed: Time,
                      at: Time, unreadable: bool, stored: bool)
    requires lane.lane == Idle && plan in lane.executors
    modifies lane, lane.fs
    ensures var tried := if now >= plan.expires then old(lane.View()) else Unlink(old(lane.View()), plan, fault);
            lane.View() == Complete(tried, plan.action, secret, completed, at, unreadable, stored)
  {
    if now < plan.expires {
      var _ := lane.UnlinkPlan(plan, fault, partial);
    }
    lane.CompletePurge(plan.action, secret, completed, at, unreadable, stored);
  }
}
