/// Which approvals stand behind every rename and every purge plan of a run, and what the circuit and a
/// plan's secret allow (internal/daemon/cache_approval.go, cache_action.go, cache_revalidation.go and
/// cache_purge_action.go).

module CacheAuthority {
  import opened Common
  import opened CacheFs
  import opened CacheLedger
  import opened CacheProtocol

  /// A rename call, whether or not it moved the file, or a purge plan handed out.
  predicate IsEffect(e: Effect) { e.Renaming? || e.Planning? }

  ghost predicate ConsumedAt(h: History, action: nat, token: nat, b: Binding) {
    exists at, expires :: Has(h, action, Consumed(token, b, at, expires))
  }

  ghost predicate PlannedAs(h: History, secret: nat, plan: Plan) {
    exists x :: x in h && x.tick == secret && x.effect.Planning? && x.effect.plan == plan
  }

  ghost predicate CrashBetween(h: History, from: nat, to: nat) {
    exists x :: x in h && x.effect.Crashed? && from < x.tick < to
  }

  ghost predicate NoEffect(h: History, action: nat) {
    forall x :: x in h && IsEffect(x.effect) ==> x.effect.action != action
  }

  ghost predicate Unspent(h: History, token: nat) {
    forall x :: x in h && x.effect.Consumed? ==> x.effect.token != token
  }

  ghost predicate NotRecorded(h: History, secret: nat) {
    forall x :: x in h && x.effect.PurgeRecorded? ==> x.effect.secret != secret
  }

  // ---------------------------------------------------------------------------------------------
  // What holds of every history
  // ---------------------------------------------------------------------------------------------

  ghost predicate Past(h: History, tick: nat) { forall x :: x in h ==> x.tick < tick }

  /// Consumption follows issuing, happens before expiry and at most once per approval.
  ghost predicate ConsumptionsOk(h: History) {
    && (forall x :: x in h && x.effect.Consumed? ==>
          x.effect.at < x.effect.expires && x.effect.token < x.tick
          && Has(h, x.effect.token, Issued(x.effect.binding, x.effect.expires)))
    && (forall x, y :: x in h && y in h && x.effect.Consumed? && y.effect.Consumed? ==>
          x.effect.token == y.effect.token ==> x == y)
  }

  /// A committed intent records the binding of the consumed approval as read back from the durable rows.
  ghost predicate IntentsOk(h: History) {
    forall x :: x in h && x.effect.Intended? ==>
      x.effect.action < x.tick && ConsumedAt(h, x.effect.action, x.effect.token, x.effect.binding)
  }

  predicate PlanMatches(e: Effect)
    requires e.Planning?
  {
    && e.binding.ForPurge? && e.binding.item.graceUntil <= e.at && e.plan.expires == e.at + LIFETIME
    && e.plan.action == e.action && e.plan.artifact == e.binding.item.artifact
    && e.plan.path == e.binding.item.path && e.plan.identity == e.binding.item.identity
  }

  /// Every effect follows the committed intent of its own action, which has no other effect.
  ghost predicate EffectsOk(h: History) {
    && (forall x :: x in h && IsEffect(x.effect) ==>
          x.effect.intent < x.tick
              && Has(h, x.effect.intent, Intended(x.effect.action, x.effect.token, x.effect.binding)))
    && (forall x :: x in h && x.effect.Renaming? ==> !x.effect.binding.ForPurge?)
    && (forall x :: x in h && x.effect.Planning? ==> PlanMatches(x.effect))
    && (forall x, y :: x in h && y in h && IsEffect(x.effect) && IsEffect(y.effect) ==>
          x.effect.action == y.effect.action ==> x == y)
  }

  /// Between an opening of the circuit and a later effect there is a restart.
  ghost predicate Latched(h: History) {
    forall x, y :: x in h && y in h && x.effect.Tripped? && IsEffect(y.effect) && x.tick < y.tick ==>
      CrashBetween(h, x.tick, y.tick)
  }

  ghost predicate PurgesOk(h: History) {
    && (forall x :: x in h && x.effect.PurgeRecorded? ==>
          x.effect.at < x.effect.plan.expires && x.effect.secret < x.tick
              && PlannedAs(h, x.effect.secret, x.effect.plan))
    && (forall x, y :: x in h && y in h && x.effect.PurgeRecorded? && y.effect.PurgeRecorded? ==>
          x.effect.secret == y.effect.secret ==> x == y)
  }

  ghost predicate HistoryOk(h: History, tick: nat) {
    Past(h, tick) && ConsumptionsOk(h) && IntentsOk(h) && EffectsOk(h) && Latched(h) && PurgesOk(h)
  }

  /// Since every opening of the circuit there was a restart.
  ghost predicate Closed(h: History, tick: nat) {
    forall x :: x in h && x.effect.Tripped? ==> CrashBetween(h, x.tick, tick)
  }

  /// What must hold for a step to append `e`.
  ghost predicate Allowed(h: History, tick: nat, e: Effect) {
    match e
    case Consumed(token, b, at, expires) =>
      at < expires && token < tick && Has(h, token, Issued(b, expires)) && Unspent(h, token)
    case Intended(action, token, b) => action < tick && ConsumedAt(h, action, token, b)
    case Renaming(intent, action, token, b, _) =>
      Has(h, intent, Intended(action, token, b)) && NoEffect(h, action) && !b.ForPurge? && Closed(h, tick)
    case Planning(intent, action, token, b, _, _) =>
      Has(h, intent, Intended(action, token, b)) && NoEffect(h, action) && PlanMatches(e) && Closed(h, tick)
    case PurgeRecorded(secret, plan, at) => at < plan.expires && PlannedAs(h, secret, plan) && NotRecorded(h, secret)
    case _ => true
  }

  function Grown(h: History, tick: nat, e: Effect): History { h + {Entry(tick, e)} }

  lemma PlannedGrows(h: History, tick: nat, e: Effect, secret: nat, plan: Plan)
    requires PlannedAs(h, secret, plan)
    ensures PlannedAs(Grown(h, tick, e), secret, plan)
  {}

  lemma IntentsGrow(h: History, tick: nat, e: Effect)
    requires IntentsOk(h) && Allowed(h, tick, e)
    ensures IntentsOk(Grown(h, tick, e))
  {}

  lemma LatchGrows(h: History, tick: nat, e: Effect)
    requires Past(h, tick) && Latched(h) && Allowed(h, tick, e)
    ensures Latched(Grown(h, tick, e))
  {}

  lemma PurgesGrow(h: History, tick: nat, e: Effect)
    requires Past(h, tick) && PurgesOk(h) && Allowed(h, tick, e)
    ensures PurgesOk(Grown(h, tick, e))
  {
    var g := Grown(h, tick, e);
    forall x | x in g && x.effect.PurgeRecorded?
      ensures x.effect.at < x.effect.plan.expires && x.effect.secret < x.tick
      ensures PlannedAs(g, x.effect.secret, x.effect.plan)
    {
      PlannedGrows(h, tick, e, x.effect.secret, x.effect.plan);
    }
  }

  lemma ConsumptionsGrow(h: History, tick: nat, e: Effect)
    requires ConsumptionsOk(h) && Allowed(h, tick, e)
    ensures ConsumptionsOk(Grown(h, tick, e))
  {}

  lemma EffectsGrow(h: History, tick: nat, e: Effect)
    requires Past(h, tick) && EffectsOk(h) && Allowed(h, tick, e)
    ensures EffectsOk(Grown(h, tick, e))
  {}

  lemma HistoryGrows(h: History, tick: nat, e: Effect)
    requires HistoryOk(h, tick) && Allowed(h, tick, e)
    ensures HistoryOk(Grown(h, tick, e), tick + 1)
  {
    ConsumptionsGrow(h, tick, e);
    IntentsGrow(h, tick, e);
    EffectsGrow(h, tick, e);
    LatchGrows(h, tick, e);
    PurgesGrow(h, tick, e);
  }

  // ---------------------------------------------------------------------------------------------
  // What holds of the daemon's memory
  // ---------------------------------------------------------------------------------------------

  ghost predicate ApprovalsOk(approvals: map<nat, Approval>, h: History, tick: nat) {
    forall token :: token in approvals ==>
      && token < tick && Has(h, token, Issued(approvals[token].binding, approvals[token].expires))
      && (!approvals[token].used ==> Unspent(h, token))
  }

  ghost predicate WaitingOk(waiting: map<nat, Waiting>, lane: Lane, h: History, tick: nat) {
    forall action :: action in waiting ==>
      && action < tick && ConsumedAt(h, action, waiting[action].token, waiting[action].binding) && NoEffect(h, action)
      && (lane.Intent? ==> lane.action != action)
  }

  ghost predicate LaneOk(lane: Lane, healthy: bool, h: History) {
    && (lane != Idle ==> healthy)
    && (lane.Intent? ==>
          && Has(h, lane.intent, Intended(lane.action, lane.token, lane.binding)) && NoEffect(h, lane.action)
          && (lane.binding.ForPurge? ==> lane.binding.item.graceUntil <= lane.now))
  }

  ghost predicate PlansOk(plans: map<nat, Plan>, h: History, tick: nat) {
    && |plans| <= 1
    && forall secret :: secret in plans ==>
         secret < tick && PlannedAs(h, secret, plans[secret]) && NotRecorded(h, secret)
  }

  ghost predicate CircuitOk(healthy: bool, h: History, tick: nat) { healthy ==> Closed(h, tick) }

  ghost predicate MemoryOk(d: Daemon, h: History, tick: nat) {
    && ApprovalsOk(d.approvals, h, tick) && WaitingOk(d.waiting, d.lane, h, tick) && LaneOk(d.lane, d.fsHealthy, h)
    && PlansOk(d.plans, h, tick) && CircuitOk(d.fsHealthy, h, tick)
  }

  ghost predicate Inv(w: World) { HistoryOk(w.history, w.tick) && MemoryOk(w.d, w.history, w.tick) }

  lemma CircuitGrows(healthy: bool, h: History, tick: nat, e: Effect)
    requires CircuitOk(healthy, h, tick) && (e.Tripped? ==> !healthy)
    ensures CircuitOk(healthy, Grown(h, tick, e), tick + 1)
  {}

  lemma CircuitTicks(healthy: bool, h: History, tick: nat)
    requires CircuitOk(healthy, h, tick)
    ensures CircuitOk(healthy, h, tick + 1)
  {}

  lemma WaitingGrows(waiting: map<nat, Waiting>, lane: Lane, h: History, tick: nat, e: Effect)
    requires WaitingOk(waiting, lane, h, tick) && (IsEffect(e) ==> e.action !in waiting)
    ensures WaitingOk(waiting, lane, Grown(h, tick, e), tick + 1)
  {}

  lemma ApprovalsGrow(approvals: map<nat, Approval>, h: History, tick: nat, e: Effect)
    requires ApprovalsOk(approvals, h, tick)
    requires e.Consumed? && e.token in approvals ==> approvals[e.token].used
    ensures ApprovalsOk(approvals, Grown(h, tick, e), tick + 1)
  {}

  lemma PlansGrow(plans: map<nat, Plan>, h: History, tick: nat, e: Effect)
    requires PlansOk(plans, h, tick) && (e.PurgeRecorded? ==> e.secret !in plans)
    ensures PlansOk(plans, Grown(h, tick, e), tick + 1)
  {}

  lemma LaneGrows(lane: Lane, healthy: bool, h: History, tick: nat, e: Effect)
    requires LaneOk(lane, healthy, h) && (IsEffect(e) ==> !lane.Intent?)
    ensures LaneOk(lane, healthy, Grown(h, tick, e))
  {}

  /// A step that appends nothing.
  lemma QuietStep(w: World, v: World)
    requires Inv(w) && v.history == w.history && v.tick == w.tick + 1
    requires ApprovalsOk(v.d.approvals, w.history, w.tick) && WaitingOk(v.d.waiting, v.d.lane, w.history, w.tick)
    requires v.d.fsHealthy == w.d.fsHealthy && (v.d.lane == w.d.lane || v.d.lane == Idle)
    requires PlansOk(v.d.plans, w.history, w.tick)
    ensures Inv(v)
  {
    CircuitTicks(v.d.fsHealthy, w.history, w.tick);
  }

  /// A step that leaves the memory alone or drops the lane's hold, a waiting request or the cache's health.
  lemma StillStep(w: World, v: World)
    requires Inv(w) && v.history == w.history && v.tick == w.tick + 1
    requires v.d.approvals == w.d.approvals && v.d.plans == w.d.plans && v.d.fsHealthy == w.d.fsHealthy
    requires v.d.waiting == w.d.waiting || exists action :: v.d.waiting == w.d.waiting - {action}
    requires v.d.lane == w.d.lane || v.d.lane == Idle
    ensures Inv(v)
  {
    QuietStep(w, v);
  }

  /// A step that appends `e`.
  lemma GrowingStep(w: World, v: World, e: Effect)
    requires Inv(w) && Allowed(w.history, w.tick, e)
    requires v.history == Grown(w.history, w.tick, e) && v.tick == w.tick + 1
    requires MemoryOk(v.d, v.history, v.tick)
    ensures Inv(v)
  {
    HistoryGrows(w.history, w.tick, e);
  }

  // ---------------------------------------------------------------------------------------------
  // Numbers drawn by a step are new
  // ---------------------------------------------------------------------------------------------

  lemma NewAction(h: History, tick: nat)
    requires Past(h, tick) && IntentsOk(h) && EffectsOk(h)
    ensures NoEffect(h, tick)
  {}

  // ---------------------------------------------------------------------------------------------
  // Memory that gains an entry
  // ---------------------------------------------------------------------------------------------

  lemma FewerApprovals(approvals: map<nat, Approval>, h: History, tick: nat, now: Time)
    requires ApprovalsOk(approvals, h, tick)
    ensures ApprovalsOk(Prune(approvals, now), h, tick)
  {}

  lemma AddApproval(approvals: map<nat, Approval>, h: History, tick: nat, a: Approval)
    requires Past(h, tick) && ConsumptionsOk(h) && ApprovalsOk(approvals, h, tick)
    ensures ApprovalsOk(approvals[tick := a], Grown(h, tick, Issued(a.binding, a.expires)), tick + 1)
  {}

  lemma UseApproval(approvals: map<nat, Approval>, h: History, tick: nat, token: nat)
    requires ApprovalsOk(approvals, h, tick) && token in approvals
    ensures ApprovalsOk(approvals[token := approvals[token].(used := true)], h, tick)
  {}

  lemma AddWaiting(waiting: map<nat, Waiting>, lane: Lane, healthy: bool, h: History, tick: nat, t: Waiting,
                   expires: Time)
    requires HistoryOk(h, tick) && WaitingOk(waiting, lane, h, tick) && LaneOk(lane, healthy, h)
    ensures WaitingOk(waiting[tick := t], lane, Grown(h, tick, Consumed(t.token, t.binding, t.now, expires)), tick + 1)
  {
    var e := Consumed(t.token, t.binding, t.now, expires);
    var g := Grown(h, tick, e);
    WaitingGrows(waiting, lane, h, tick, e);
    NewAction(h, tick);
    assert NoEffect(g, tick);
    assert ConsumedAt(g, tick, t.token, t.binding) by { assert Has(g, tick, e); }
    if lane.Intent? { assert Has(h, lane.intent, Intended(lane.action, lane.token, lane.binding)); }
  }

  lemma AddIntent(waiting: map<nat, Waiting>, h: History, tick: nat, action: nat, l: Lane)
    requires WaitingOk(waiting, Idle, h, tick) && action in waiting && l.Intent? && l.intent == tick
    requires l.action == action
    requires l.token == waiting[action].token && l.binding == waiting[action].binding
    requires l.binding.ForPurge? ==> l.binding.item.graceUntil <= l.now
    ensures LaneOk(l, true, Grown(h, tick, Intended(action, l.token, l.binding)))
    ensures WaitingOk(waiting - {action}, l, Grown(h, tick, Intended(action, l.token, l.binding)), tick + 1)
  {}

  lemma AddPlan(h: History, tick: nat, e: Effect)
    requires e.Planning? && Past(h, tick) && PurgesOk(h)
    ensures PlansOk(map[tick := e.plan], Grown(h, tick, e), tick + 1)
  {}

  lemma {:induction false} SubsetSize(a: set<nat>, b: set<nat>)
    requires a <= b
    ensures |a| <= |b|
  {
    if a != {} {
      var x :| x in a;
      SubsetSize(a - {x}, b - {x});
    }
  }

  lemma FewerPlans(plans: map<nat, Plan>, h: History, tick: nat, kept: map<nat, Plan>)
    requires PlansOk(plans, h, tick)
    requires kept.Keys <= plans.Keys && forall secret :: secret in kept ==> kept[secret] == plans[secret]
    ensures PlansOk(kept, h, tick)
  {
    SubsetSize(kept.Keys, plans.Keys);
  }

  // ---------------------------------------------------------------------------------------------
  // Every step keeps the invariant
  // ---------------------------------------------------------------------------------------------

  lemma IssueKeeps(w: World, v: World, now: Time, a: Approval)
    requires Inv(w)
    requires v.d == w.d.(approvals := Prune(w.d.approvals, now)[w.tick := a])
    requires v.history == Grown(w.history, w.tick, Issued(a.binding, a.expires)) && v.tick == w.tick + 1
    ensures Inv(v)
  {
    var e := Issued(a.binding, a.expires);
    FewerApprovals(w.d.approvals, w.history, w.tick, now);
    AddApproval(Prune(w.d.approvals, now), w.history, w.tick, a);
    WaitingGrows(w.d.waiting, w.d.lane, w.history, w.tick, e);
    LaneGrows(w.d.lane, w.d.fsHealthy, w.history, w.tick, e);
    PlansGrow(w.d.plans, w.history, w.tick, e);
    CircuitGrows(w.d.fsHealthy, w.history, w.tick, e);
    GrowingStep(w, v, e);
  }

  lemma PreviewKeeps(w: World, kind: Kind, id: string, policy: string, now: Time, audited: bool)
    requires Inv(w)
    ensures Inv(Preview(w, kind, id, policy, now, audited))
  {
    var v := Preview(w, kind, id, policy, now, audited);
    var b := PreviewBinding(w.d.cfg, Healthy(w.d), w.st, kind, id, policy, now);
    if w.d.lane != Idle || b.None? {
      StillStep(w, v);
    } else if |Prune(w.d.approvals, now)| >= MAX_APPROVALS || !audited {
      FewerApprovals(w.d.approvals, w.history, w.tick, now);
      QuietStep(w, v);
    } else {
      IssueKeeps(w, v, now, Approval(b.value, now + LIFETIME, false));
    }
  }

  lemma UsedApprovals(approvals: map<nat, Approval>, h: History, tick: nat, token: nat, e: Effect)
    requires ApprovalsOk(approvals, h, tick) && token in approvals && e.Consumed? && e.token == token
    ensures ApprovalsOk(approvals[token := approvals[token].(used := true)], Grown(h, tick, e), tick + 1)
  {
    UseApproval(approvals, h, tick, token);
    ApprovalsGrow(approvals[token := approvals[token].(used := true)], h, tick, e);
  }

  lemma AcceptMemory(w: World, v: World, token: nat, t: Waiting, expires: Time)
    requires HistoryOk(w.history, w.tick) && MemoryOk(w.d, w.history, w.tick) && token in w.d.approvals
    requires t.token == token
    requires v.d == w.d.(approvals := w.d.approvals[token := w.d.approvals[token].(used := true)],
                         waiting := w.d.waiting[w.tick := t])
    requires v.history == Grown(w.history, w.tick, Consumed(token, t.binding, t.now, expires)) && v.tick == w.tick + 1
    ensures MemoryOk(v.d, v.history, v.tick)
  {
    var e := Consumed(token, t.binding, t.now, expires);
    UsedApprovals(w.d.approvals, w.history, w.tick, token, e);
    AddWaiting(w.d.waiting, w.d.lane, w.d.fsHealthy, w.history, w.tick, t, expires);
    LaneGrows(w.d.lane, w.d.fsHealthy, w.history, w.tick, e);
    PlansGrow(w.d.plans, w.history, w.tick, e);
    CircuitGrows(w.d.fsHealthy, w.history, w.tick, e);
  }

  lemma AcceptKeeps(w: World, v: World, token: nat, a: Approval, now: Time)
    requires Inv(w) && token in w.d.approvals && w.d.approvals[token] == a && !a.used && now < a.expires
    requires v.d == w.d.(approvals := w.d.approvals[token := a.(used := true)],
                         waiting := w.d.waiting[w.tick := Waiting(token, a.binding, now)])
    requires v.history == Grown(w.history, w.tick, Consumed(token, a.binding, now, a.expires)) && v.tick == w.tick + 1
    ensures Inv(v)
  {
    AcceptMemory(w, v, token, Waiting(token, a.binding, now), a.expires);
    GrowingStep(w, v, Consumed(token, a.binding, now, a.expires));
  }

  lemma SpendKeeps(w: World, v: World, token: nat)
    requires Inv(w) && token in w.d.approvals && v.history == w.history && v.tick == w.tick + 1
    requires v.d == w.d.(approvals := w.d.approvals[token := w.d.approvals[token].(used := true)])
    ensures Inv(v)
  {
    UseApproval(w.d.approvals, w.history, w.tick, token);
    QuietStep(w, v);
  }

  lemma ConsumeKeeps(w: World, token: nat, endpoint: Kind, confirmation: string, now: Time, stored: bool)
    requires Inv(w)
    ensures Inv(Consume(w, token, endpoint, confirmation, now, stored))
  {
    var v := Consume(w, token, endpoint, confirmation, now, stored);
    if token !in w.d.approvals || (endpoint.Purge? && confirmation == "") {
      StillStep(w, v);
    } else if w.d.approvals[token].used || !Acceptable(w.d.approvals[token], endpoint, confirmation, now) {
      SpendKeeps(w, v, token);
    } else {
      AcceptKeeps(w, v, token, w.d.approvals[token], now);
    }
  }

  lemma IntendKeeps(w: World, v: World, action: nat, l: Lane)
    requires Inv(w) && w.d.lane == Idle && action in w.d.waiting && w.d.fsHealthy
    requires l.Intent? && l.intent == w.tick && l.action == action
    requires l.token == w.d.waiting[action].token && l.binding == w.d.waiting[action].binding
    requires l.binding.ForPurge? ==> l.binding.item.graceUntil <= l.now
    requires v.d == w.d.(waiting := w.d.waiting - {action}, lane := l)
    requires v.history == Grown(w.history, w.tick, Intended(action, l.token, l.binding)) && v.tick == w.tick + 1
    ensures Inv(v)
  {
    var e := Intended(action, l.token, l.binding);
    AddIntent(w.d.waiting, w.history, w.tick, action, l);
    ApprovalsGrow(w.d.approvals, w.history, w.tick, e);
    PlansGrow(w.d.plans, w.history, w.tick, e);
    CircuitGrows(w.d.fsHealthy, w.history, w.tick, e);
    GrowingStep(w, v, e);
  }

  lemma BeginKeeps(w: World, action: nat, seen: Option<Artifact>, stored: bool)
    requires Inv(w)
    ensures Inv(Begin(w, action, seen, stored))
  {
    var v := Begin(w, action, seen, stored);
    if w.d.lane != Idle || action !in w.d.waiting {
      StillStep(w, v);
    } else {
      var t := w.d.waiting[action];
      var root := Revalidated(w.d.cfg, Healthy(w.d), w.st, t.binding, seen, t.now);
      if root.None? || !stored {
        assert v.d.waiting == w.d.waiting - {action};
        StillStep(w, v);
      } else {
        IntendKeeps(w, v, action, Intent(w.tick, action, t.token, t.binding, root.value, t.now));
      }
    }
  }

  lemma RenamingKeeps(w: World, v: World, moved: bool)
    requires Inv(w) && w.d.lane.Intent? && !w.d.lane.binding.ForPurge?
    requires var l := w.d.lane;
             && v.d == w.d.(lane := if moved then Moved(l.action, l.binding) else Idle)
             && v.history == Grown(w.history, w.tick, Renaming(l.intent, l.action, l.token, l.binding, moved))
             && v.tick == w.tick + 1
    ensures Inv(v)
  {
    var l := w.d.lane;
    var e := Renaming(l.intent, l.action, l.token, l.binding, moved);
    ApprovalsGrow(w.d.approvals, w.history, w.tick, e);
    WaitingGrows(w.d.waiting, v.d.lane, w.history, w.tick, e);
    PlansGrow(w.d.plans, w.history, w.tick, e);
    CircuitGrows(w.d.fsHealthy, w.history, w.tick, e);
    GrowingStep(w, v, e);
  }

  lemma RenameKeeps(w: World, fault: bool, stored: bool)
    requires Inv(w)
    ensures Inv(Rename(w, fault, stored))
  {
    var v := Rename(w, fault, stored);
    if !w.d.lane.Intent? || w.d.lane.binding.ForPurge? {
      StillStep(w, v);
    } else {
      var l := w.d.lane;
      RenamingKeeps(w, v, CanMove(w.fs, Source(l.binding), Target(l.binding), l.root, Content(l.binding), fault).Done?);
    }
  }

  lemma RecordKeeps(w: World, at: Time, stored: bool)
    requires Inv(w)
    ensures Inv(Record(w, at, stored))
  {
    StillStep(w, Record(w, at, stored));
  }

  lemma PlanningKeeps(w: World, v: World, plan: Plan)
    requires Inv(w) && w.d.lane.Intent? && w.d.lane.binding.ForPurge?
    requires var l := w.d.lane;
             && plan == PlanOf(l.action, l.binding, l.root, l.now)
             && v.d == w.d.(lane := Idle, plans := map[w.tick := plan])
             && v.history == Grown(w.history, w.tick, Planning(l.intent, l.action, l.token, l.binding, plan, l.now))
             && v.tick == w.tick + 1
    ensures Inv(v)
  {
    var l := w.d.lane;
    var e := Planning(l.intent, l.action, l.token, l.binding, plan, l.now);
    ApprovalsGrow(w.d.approvals, w.history, w.tick, e);
    WaitingGrows(w.d.waiting, Idle, w.history, w.tick, e);
    AddPlan(w.history, w.tick, e);
    CircuitGrows(w.d.fsHealthy, w.history, w.tick, e);
    GrowingStep(w, v, e);
  }

  lemma FewerPlansKeeps(w: World, v: World, kept: map<nat, Plan>)
    requires Inv(w) && v.history == w.history && v.tick == w.tick + 1
    requires v.d == w.d.(plans := kept, lane := v.d.lane) && (v.d.lane == w.d.lane || v.d.lane == Idle)
    requires kept.Keys <= w.d.plans.Keys && forall secret :: secret in kept ==> kept[secret] == w.d.plans[secret]
    ensures Inv(v)
  {
    FewerPlans(w.d.plans, w.history, w.tick, kept);
    QuietStep(w, v);
  }

  lemma PrepareKeeps(w: World, stored: bool)
    requires Inv(w)
    ensures Inv(Prepare(w, stored))
  {
    var v := Prepare(w, stored);
    if !w.d.lane.Intent? || !w.d.lane.binding.ForPurge? {
      StillStep(w, v);
    } else {
      var l := w.d.lane;
      var kept := PrunePlans(w.d.plans, l.now);
      if |kept| >= 1 {
        FewerPlansKeeps(w, v, kept);
      } else {
        assert kept == map[];
        PlanningKeeps(w, v, PlanOf(l.action, l.binding, l.root, l.now));
      }
    }
  }

  lemma UnlinkKeeps(w: World, plan: Plan, fault: bool)
    requires Inv(w)
    ensures Inv(Unlink(w, plan, fault))
  {
    var v := Unlink(w, plan, fault);
    if plan !in w.executors || !CanRemove(w.fs, plan.path, plan.rootIdentity, plan.identity, fault).Done? {
      StillStep(w, v);
    } else {
      OutsideMemoryKeeps(w, v, Unlinked(plan), w.d.plans);
    }
  }

  /// Appending `e` with at most fewer plans and a less healthy circuit.
  lemma OutsideMemoryKeeps(w: World, v: World, e: Effect, kept: map<nat, Plan>)
    requires Inv(w) && Allowed(w.history, w.tick, e) && (e.Unlinked? || e.Tripped? || e.PurgeRecorded?)
    requires v.d == w.d.(plans := kept, fsHealthy := v.d.fsHealthy)
    requires v.d.fsHealthy == (w.d.fsHealthy && !e.Tripped?) && (e.Tripped? ==> w.d.lane == Idle)
    requires v.history == Grown(w.history, w.tick, e) && v.tick == w.tick + 1
    requires PlansOk(kept, w.history, w.tick) && (e.PurgeRecorded? ==> e.secret !in kept)
    ensures Inv(v)
  {
    ApprovalsGrow(w.d.approvals, w.history, w.tick, e);
    WaitingGrows(w.d.waiting, w.d.lane, w.history, w.tick, e);
    LaneGrows(w.d.lane, w.d.fsHealthy, w.history, w.tick, e);
    PlansGrow(kept, w.history, w.tick, e);
    CircuitGrows(v.d.fsHealthy, w.history, w.tick, e);
    GrowingStep(w, v, e);
  }

  /// The three ways a completion can end, as far as memory and history go.
  lemma CompleteShape(w: World, action: nat, secret: nat, now: Time, at: Time, unreadable: bool, stored: bool)
    requires w.d.lane == Idle && secret in w.d.plans && w.d.plans[secret].action == action
    ensures var v := Complete(w, action, secret, now, at, unreadable, stored);
            var kept := w.d.(plans := w.d.plans - {secret});
            && v.tick == w.tick + 1
            && (|| (v.d == kept && v.history == w.history)
                || (v.d == kept.(fsHealthy := false) && v.history == Grown(w.history, w.tick, Tripped))
                || (v.d == kept && now < w.d.plans[secret].expires
                    && v.history == Grown(w.history, w.tick, PurgeRecorded(secret, w.d.plans[secret], now))))
  {}

  lemma CompleteKeeps(w: World, action: nat, secret: nat, now: Time, at: Time, unreadable: bool, stored: bool)
    requires Inv(w)
    ensures Inv(Complete(w, action, secret, now, at, unreadable, stored))
  {
    var v := Complete(w, action, secret, now, at, unreadable, stored);
    if w.d.lane != Idle || secret !in w.d.plans || w.d.plans[secret].action != action {
      StillStep(w, v);
    } else {
      CompleteShape(w, action, secret, now, at, unreadable, stored);
      ShapedKeeps(w, v, secret, now);
    }
  }

  lemma ShapedKeeps(w: World, v: World, secret: nat, now: Time)
    requires Inv(w) && secret in w.d.plans && v.tick == w.tick + 1 && w.d.lane == Idle
    requires var kept := w.d.(plans := w.d.plans - {secret});
             || (v.d == kept && v.history == w.history)
             || (v.d == kept.(fsHealthy := false) && v.history == Grown(w.history, w.tick, Tripped))
             || (v.d == kept && now < w.d.plans[secret].expires
                 && v.history == Grown(w.history, w.tick, PurgeRecorded(secret, w.d.plans[secret], now)))
    ensures Inv(v)
  {
    var kept := w.d.plans - {secret};
    if v.history == w.history && v.d.fsHealthy == w.d.fsHealthy {
      FewerPlansKeeps(w, v, kept);
      return;
    }
    FewerPlans(w.d.plans, w.history, w.tick, kept);
    if v.history == Grown(w.history, w.tick, Tripped) && !v.d.fsHealthy {
      OutsideMemoryKeeps(w, v, Tripped, kept);
    } else {
      OutsideMemoryKeeps(w, v, PurgeRecorded(secret, w.d.plans[secret], now), kept);
    }
  }

  lemma TripKeeps(w: World)
    requires Inv(w)
    ensures Inv(Trip(w))
  {
    if w.d.lane == Idle { OutsideMemoryKeeps(w, Trip(w), Tripped, w.d.plans); } else { StillStep(w, Trip(w)); }
  }

  lemma CrashKeeps(w: World, cfg: Config)
    requires Inv(w)
    ensures Inv(Crash(w, cfg))
  {
    HistoryGrows(w.history, w.tick, Crashed);
    var g := Grown(w.history, w.tick, Crashed);
    forall x | x in g && x.effect.Tripped? ensures CrashBetween(g, x.tick, w.tick + 1) {
      assert Entry(w.tick, Crashed) in g;
    }
  }

  lemma CommitScanKeeps(w: World, rows: map<string, Artifact>, complete: bool)
    requires Inv(w)
    ensures Inv(CommitScan(w, rows, complete))
  {
    StillStep(w, CommitScan(w, rows, complete));
  }

  lemma FailScanKeeps(w: World, stored: bool)
    requires Inv(w)
    ensures Inv(FailScan(w, stored))
  {
    StillStep(w, FailScan(w, stored));
  }

  lemma OutsideKeeps(w: World, root: string, name: string, identity: Option<Identity>)
    requires Inv(w)
    ensures Inv(Outside(w, root, name, identity))
  {
    StillStep(w, Outside(w, root, name, identity));
  }

  lemma LockedStepKeeps(w: World, s: Step)
    requires Inv(w) && (s.DoPreview? || s.DoConsume? || s.DoBegin? || s.DoRename? || s.DoRecord? || s.DoPrepare?)
    ensures Inv(Next(w, s))
  {
    match s
    case DoPreview(kind, id, policy, now, audited) => PreviewKeeps(w, kind, id, policy, now, audited);
    case DoConsume(token, endpoint, confirmation, now, stored) =>
      ConsumeKeeps(w, token, endpoint, confirmation, now, stored);
    case DoBegin(action, seen, stored) => BeginKeeps(w, action, seen, stored);
    case DoRename(fault, stored) => RenameKeeps(w, fault, stored);
    case DoRecord(at, stored) => RecordKeeps(w, at, stored);
    case DoPrepare(stored) => PrepareKeeps(w, stored);
  }

  lemma PurgeStepKeeps(w: World, s: Step)
    requires Inv(w) && (s.DoUnlink? || s.DoComplete?)
    ensures Inv(Next(w, s))
  {
    match s
    case DoUnlink(plan, fault) => UnlinkKeeps(w, plan, fault);
    case DoComplete(action, secret, now, at, unreadable, stored) =>
      CompleteKeeps(w, action, secret, now, at, unreadable, stored);
  }

  lemma ScanStepKeeps(w: World, s: Step)
    requires Inv(w) && (s.DoCommitScan? || s.DoFailScan?)
    ensures Inv(Next(w, s))
  {
    match s
    case DoCommitScan(rows, complete) => CommitScanKeeps(w, rows, complete);
    case DoFailScan(stored) => FailScanKeeps(w, stored);
  }

  lemma SurroundingsKeep(w: World, s: Step)
    requires Inv(w) && (s.DoTrip? || s.DoCrash? || s.DoOutside?)
    ensures Inv(Next(w, s))
  {
    match s
    case DoTrip => TripKeeps(w);
    case DoCrash(cfg) => CrashKeeps(w, cfg);
    case DoOutside(root, name, identity) => OutsideKeeps(w, root, name, identity);
  }

  lemma StepKeeps(w: World, s: Step)
    requires Inv(w)
    ensures Inv(Next(w, s))
  {
    if s.DoPreview? || s.DoConsume? || s.DoBegin? || s.DoRename? || s.DoRecord? || s.DoPrepare? {
      LockedStepKeeps(w, s);
    } else if s.DoUnlink? || s.DoComplete? {
      PurgeStepKeeps(w, s);
    } else if s.DoCommitScan? || s.DoFailScan? {
      ScanStepKeeps(w, s);
    } else {
      SurroundingsKeep(w, s);
    }
  }

  lemma {:induction false} RunKeeps(cfg: Config, fs: Files, steps: seq<Step>)
    ensures Inv(Run(Initial(cfg, fs), steps))
  {
    if steps != [] {
      RunKeeps(cfg, fs, steps[..|steps| - 1]);
      StepKeeps(Run(Initial(cfg, fs), steps[..|steps| - 1]), steps[|steps| - 1]);
    }
  }

  // ---------------------------------------------------------------------------------------------
  // The theorems
  // ---------------------------------------------------------------------------------------------

  /// The whole chain behind an effect, in order: its approval was issued for exactly this binding, was
  /// consumed before it expired, and an intent row carrying the same binding as read back from durable
  /// state was committed, all before the effect.
  ghost predicate Authorized(h: History, x: Entry)
    requires IsEffect(x.effect)
  {
    exists at, expires ::
      && Has(h, x.effect.action, Consumed(x.effect.token, x.effect.binding, at, expires)) && at < expires
      && Has(h, x.effect.token, Issued(x.effect.binding, expires))
      && Has(h, x.effect.intent, Intended(x.effect.action, x.effect.token, x.effect.binding))
      && x.effect.token < x.effect.action < x.effect.intent < x.tick
  }

  lemma ReachableKeeps(w: World)
    requires Reachable(w)
    ensures Inv(w)
  {
    var cfg, fs, steps: seq<Step> :| Reaches(cfg, fs, steps, w);
    RunKeeps(cfg, fs, steps);
  }

  /// That chain stands behind every rename and every purge plan of every run.
  lemma EveryEffectIsAuthorized(w: World, x: Entry)
    requires Reachable(w) && x in w.history && IsEffect(x.effect)
    ensures Authorized(w.history, x)
  {
    ReachableKeeps(w);
    var h := w.history;
    assert Has(h, x.effect.intent, Intended(x.effect.action, x.effect.token, x.effect.binding));
    assert ConsumedAt(h, x.effect.action, x.effect.token, x.effect.binding);
    var at, expires :| Has(h, x.effect.action, Consumed(x.effect.token, x.effect.binding, at, expires));
  }

  /// No approval stands behind two effects.
  lemma EffectsUseDistinctApprovals(w: World, x: Entry, y: Entry)
    requires Reachable(w) && x in w.history && y in w.history
    requires IsEffect(x.effect) && IsEffect(y.effect) && x.effect.token == y.effect.token
    ensures x == y
  {
    ReachableKeeps(w);
    EveryEffectIsAuthorized(w, x);
    EveryEffectIsAuthorized(w, y);
    var at, expires :| Has(w.history, x.effect.action, Consumed(x.effect.token, x.effect.binding, at, expires));
    var at2, expires2 :| Has(w.history, y.effect.action, Consumed(y.effect.token, y.effect.binding, at2, expires2));
  }

  /// Once the filesystem circuit has opened, nothing is renamed and no plan is issued until a restart.
  lemma CircuitLatches(w: World, x: Entry, y: Entry)
    requires Reachable(w) && x in w.history && y in w.history
    requires x.effect.Tripped? && IsEffect(y.effect) && x.tick < y.tick
    ensures CrashBetween(w.history, x.tick, y.tick)
  {
    ReachableKeeps(w);
  }

  /// A plan is prepared no earlier than the grace deadline of the row it was read from.
  ghost predicate PreparedAfterGrace(h: History, secret: nat, plan: Plan) {
    exists x :: x in h && x.tick == secret && x.effect.Planning? && x.effect.plan == plan && PlanMatches(x.effect)
  }

  /// A purged row is written at most once per plan, for a plan prepared after grace, before its expiry.
  lemma PurgedRowsFollowPlans(w: World, x: Entry)
    requires Reachable(w) && x in w.history && x.effect.PurgeRecorded?
    ensures PreparedAfterGrace(w.history, x.effect.secret, x.effect.plan)
    ensures x.effect.secret < x.tick && x.effect.at < x.effect.plan.expires
    ensures forall y :: y in w.history && y.effect.PurgeRecorded? && y.effect.secret == x.effect.secret ==> y == x
  {
    ReachableKeeps(w);
    assert PlannedAs(w.history, x.effect.secret, x.effect.plan);
    var p :| p in w.history && p.tick == x.effect.secret && p.effect.Planning? && p.effect.plan == x.effect.plan;
    assert PlanMatches(p.effect);
  }

  /// What the step that records a purge has checked: both the action id and the secret of the outstanding
  /// plan, and the quarantine path empty; it gives the plan up.
  predicate RecordsPurge(w: World, s: Step, e: Effect)
    requires e.PurgeRecorded?
  {
    && s.DoComplete? && s.secret == e.secret && s.action == e.plan.action && e.at == s.now
    && e.secret in w.d.plans && w.d.plans[e.secret] == e.plan && e.plan.path !in w.fs.entries
  }

  lemma OthersRecordNothing(w: World, s: Step, x: Entry)
    requires !s.DoComplete? && x in Next(w, s).history && x !in w.history
    ensures !x.effect.PurgeRecorded?
  {}

  lemma OnlyCompletionRecords(w: World, s: Step, x: Entry)
    requires x in Next(w, s).history && x !in w.history && x.effect.PurgeRecorded?
    ensures RecordsPurge(w, s, x.effect) && x.effect.secret !in Next(w, s).d.plans
  {
    if !s.DoComplete? { OthersRecordNothing(w, s, x); }
  }

  /// At most one purge plan is outstanding.
  lemma AtMostOnePlan(w: World)
    requires Reachable(w)
    ensures |w.d.plans| <= 1
  {
    ReachableKeeps(w);
  }
}
