/// Cooldowns and automatic actions over whole runs of evaluations and retention passes
/// (internal/policy/policy.go; internal/daemon/policy.go and automatic.go;
/// internal/storage/query_policy.go and retention.go).

module Policy {
  import opened Common

  datatype Mode = Audit | Recommend | Enforce | OtherMode

  datatype Definition = Definition(
    id: string, enabled: bool, mode: Mode, states: seq<string>, agents: seq<string>, executables: seq<string>,
    requireDetached: bool, requireSessionEnded: bool, minStable: int, cooldown: int, automatic: bool)

  /// The facts about one classified process; `at` is when it was sampled, ZERO_TIME for "never".
  datatype Target = Target(
    key: string, at: Time, state: string, stableSince: Time, agent: string, executable: string,
    detached: bool, sessionEnded: bool, protected_: bool)

  datatype Result = Candidate | Refused | Cooldown

  /// A stored decision; ids grow and are never reused.
  datatype Decision =
      Decision(id: nat, evaluation: nat, policy: string, key: string, at: Time, result: Result, until: Time)

  // ---------------------------------------------------------------------------------------------
  // One decision
  // ---------------------------------------------------------------------------------------------

  predicate Matches(def: Definition, t: Target) {
    && def.enabled && def.mode != OtherMode && t.state in def.states && t.agent in def.agents
    && t.executable in def.executables
    && (def.requireDetached ==> t.detached) && (def.requireSessionEnded ==> t.sessionEnded)
    && t.at != ZERO_TIME && t.stableSince != ZERO_TIME && t.at - t.stableSince >= def.minStable
  }

  /// The outcome and the end of its cooldown, when the policy matches.
  function Evaluate(def: Definition, t: Target, prior: Time): Option<(Result, Time)> {
    if !Matches(def, t) then None
    else if t.protected_ then Some((Refused, 0))
    else if prior > t.at then Some((Cooldown, prior))
    else Some((Candidate, t.at + def.cooldown))
  }

  // ---------------------------------------------------------------------------------------------
  // Stored decisions
  // ---------------------------------------------------------------------------------------------

  datatype Store = Store(decisions: seq<Decision>, evaluation: nat, nextId: nat)

  predicate For(d: Decision, policy: string, key: string) {
    d.result == Candidate && d.policy == policy && d.key == key
  }

  /// `LastCandidateCooldown`: the newest candidate row of exactly this pair, or 0.
  function LastCooldown(rows: seq<Decision>, policy: string, key: string): Time {
    if rows == [] then 0
    else if For(rows[|rows| - 1], policy, key) then rows[|rows| - 1].until
    else LastCooldown(rows[..|rows| - 1], policy, key)
  }

  /// One process against the first `n` policies.
  function AgainstPolicies(st: Store, rows: seq<Decision>, t: Target, policies: seq<Definition>,
                           n: nat): (out: seq<Decision>)
    requires n <= |policies|
  {
    if n == 0 then rows
    else
      var before := AgainstPolicies(st, rows, t, policies, n - 1);
      var def := policies[n - 1];
      match Evaluate(def, t, LastCooldown(st.decisions, def.id, t.key))
      case None => before
      case Some((result, until)) =>
        before + [Decision(st.nextId + |before|, st.evaluation + 1, def.id, t.key, t.at, result, until)]
  }

  /// The records of one batch: every classified process against every policy, cooldowns read beforehand.
  function Batch(st: Store, targets: seq<Target>, policies: seq<Definition>): seq<Decision> {
    if targets == [] then []
    else
      AgainstPolicies(st, Batch(st, targets[..|targets| - 1], policies), targets[|targets| - 1], policies, |policies|)
  }

  // ---------------------------------------------------------------------------------------------
  // Retention
  // ---------------------------------------------------------------------------------------------

  predicate Expendable(d: Decision, cutoff: Time, now: Time, newest: nat) {
    d.at < cutoff && d.evaluation != newest && (d.result != Candidate || d.until <= now)
  }

  function Compacted(rows: seq<Decision>, cutoff: Time, now: Time, newest: nat): seq<Decision> {
    if rows == [] then []
    else if Expendable(rows[|rows| - 1], cutoff, now, newest) then Compacted(rows[..|rows| - 1], cutoff, now, newest)
    else Compacted(rows[..|rows| - 1], cutoff, now, newest) + [rows[|rows| - 1]]
  }

  // ---------------------------------------------------------------------------------------------
  // Runs
  // ---------------------------------------------------------------------------------------------

  /// An automatic attempt names the decision that authorized it.
  datatype Attempt = Attempt(decision: Decision)

  /// A committed evaluation may be followed by one automatic attempt: `live` are the processes not marked
  /// exited, `automatic` says whether the global mode allows enforcement.
  datatype Event =
    | Evaluated(targets: seq<Target>, policies: seq<Definition>, live: set<string>, automatic: bool)
    | NotCommitted
    | FailureRecorded
    | Retained(cutoff: Time, now: Time)

  /// `emitted` and `attempts` are the history: all decisions ever committed, all automatic attempts.
  datatype World = World(st: Store, emitted: seq<Decision>, attempts: seq<Attempt>, clock: Time)

  function Latest(clock: Time, rows: seq<Decision>): (r: Time)
    ensures r >= clock && forall d :: d in rows ==> d.at <= r
  {
    if rows == [] then clock
    else
      var before := Latest(clock, rows[..|rows| - 1]);
      assert rows == rows[..|rows| - 1] + [rows[|rows| - 1]];
      if rows[|rows| - 1].at > before then rows[|rows| - 1].at else before
  }

  /// `CurrentPolicyDecisions`: the newest evaluation's decisions for live processes, the last per pair.
  function CurrentDecisions(st: Store, rows: seq<Decision>, live: set<string>): seq<Decision> {
    if rows == [] then []
    else
      var d := rows[0];
      var later := CurrentDecisions(st, rows[1..], live);
      if d.evaluation == st.evaluation && d.key in live && !Superseded(d, rows[1..]) then [d] + later else later
  }

  predicate Superseded(d: Decision, later: seq<Decision>) {
    exists x :: x in later && x.evaluation == d.evaluation && x.policy == d.policy && x.key == d.key
  }

  predicate Enforceable(d: Decision, policies: seq<Definition>) {
    && d.result == Candidate
    && exists p :: p in policies && p.id == d.policy && p.enabled && p.mode == Enforce && p.automatic
  }

  /// The first enforceable current decision.
  function Selected(rows: seq<Decision>, policies: seq<Definition>): Option<Decision> {
    if rows == [] then None
    else if Enforceable(rows[0], policies) then Some(rows[0])
    else Selected(rows[1..], policies)
  }

  function Step(w: World, e: Event): World {
    match e
    case Evaluated(targets, policies, live, automatic) =>
      var batch := Batch(w.st, targets, policies);
      var st := Store(w.st.decisions + batch, w.st.evaluation + 1, w.st.nextId + |batch|);
      var chosen := if automatic then Selected(CurrentDecisions(st, st.decisions, live), policies) else None;
      World(st, w.emitted + batch, if chosen.None? then w.attempts else w.attempts + [Attempt(chosen.value)],
            Latest(w.clock, batch))
    case NotCommitted => w
    case FailureRecorded => w.(st := w.st.(evaluation := w.st.evaluation + 1))
    case Retained(cutoff, now) =>
      w.(st := w.st.(decisions := Compacted(w.st.decisions, cutoff, now, w.st.evaluation)),
         clock := if now > w.clock then now else w.clock)
  }

  const INITIAL := World(Store([], 0, 1), [], [], ZERO_TIME)

  function After(events: seq<Event>): World {
    if events == [] then INITIAL else Step(After(events[..|events| - 1]), events[|events| - 1])
  }

  /// What configuration and snapshots guarantee, and a clock that does not run backwards: policy ids are
  /// unique and cooldowns not negative, a batch holds each exact process once, and no sample or retention
  /// pass is older than what was committed before.
  predicate Orderly(w: World, e: Event) {
    match e
    case Evaluated(targets, policies, _, _) =>
      && (forall i, j :: 0 <= i < j < |policies| ==> policies[i].id != policies[j].id)
      && (forall p :: p in policies ==> p.cooldown >= 0)
      && (forall i, j :: 0 <= i < j < |targets| ==> targets[i].key != targets[j].key)
      && (forall t :: t in targets ==> t.at >= w.clock)
    case Retained(_, now) => now >= w.clock
    case _ => true
  }

  ghost predicate OrderlyRun(events: seq<Event>) {
    events == [] || (OrderlyRun(events[..|events| - 1]) && Orderly(After(events[..|events| - 1]), events[|events| - 1]))
  }

  // ---------------------------------------------------------------------------------------------
  // What a batch holds
  // ---------------------------------------------------------------------------------------------

  predicate SamePair(d: Decision, e: Decision) { d.policy == e.policy && d.key == e.key }

  /// One record of the batch, seen from the state before it.
  predicate FreshRecord(st: Store, d: Decision, targets: seq<Target>, policies: seq<Definition>) {
    && d.evaluation == st.evaluation + 1
    && (exists t :: t in targets && t.key == d.key && t.at == d.at && (d.result == Refused <==> t.protected_))
    && (d.result == Candidate ==>
          && LastCooldown(st.decisions, d.policy, d.key) <= d.at
          && exists p :: p in policies && p.id == d.policy && d.until == d.at + p.cooldown)
  }

  ghost predicate FreshRecords(st: Store, rows: seq<Decision>, targets: seq<Target>, policies: seq<Definition>) {
    forall d :: d in rows ==> FreshRecord(st, d, targets, policies)
  }

  ghost predicate DistinctPairs(rows: seq<Decision>) {
    forall i, j :: 0 <= i < j < |rows| ==> !SamePair(rows[i], rows[j])
  }

  lemma RecordIsFresh(st: Store, d: Decision, t: Target, def: Definition, targets: seq<Target>,
                      policies: seq<Definition>)
    requires t in targets && def in policies
    requires Evaluate(def, t, LastCooldown(st.decisions, def.id, t.key)).Some?
    requires var r := Evaluate(def, t, LastCooldown(st.decisions, def.id, t.key)).value;
             d.evaluation == st.evaluation + 1 && d.policy == def.id && d.key == t.key && d.at == t.at
                 && d.result == r.0 && d.until == r.1
    ensures FreshRecord(st, d, targets, policies)
  {}

  lemma {:induction false} AgainstPoliciesFresh(st: Store, rows: seq<Decision>, t: Target, targets: seq<Target>,
                                                policies: seq<Definition>, n: nat)
    requires n <= |policies| && t in targets && FreshRecords(st, rows, targets, policies)
    ensures FreshRecords(st, AgainstPolicies(st, rows, t, policies, n), targets, policies)
  {
    if n > 0 {
      AgainstPoliciesFresh(st, rows, t, targets, policies, n - 1);
      var out, before := AgainstPolicies(st, rows, t, policies, n), AgainstPolicies(st, rows, t, policies, n - 1);
      if out != before {
        RecordIsFresh(st, out[|before|], t, policies[n - 1], targets, policies);
      }
    }
  }

  lemma MoreTargets(st: Store, rows: seq<Decision>, targets: seq<Target>, more: seq<Target>, policies: seq<Definition>)
    requires FreshRecords(st, rows, targets, policies) && forall t :: t in targets ==> t in more
    ensures FreshRecords(st, rows, more, policies)
  {}

  lemma {:induction false} BatchFresh(st: Store, targets: seq<Target>, policies: seq<Definition>)
    ensures FreshRecords(st, Batch(st, targets, policies), targets, policies)
  {
    if targets != [] {
      var init, t := targets[..|targets| - 1], targets[|targets| - 1];
      BatchFresh(st, init, policies);
      MoreTargets(st, Batch(st, init, policies), init, targets, policies);
      AgainstPoliciesFresh(st, Batch(st, init, policies), t, targets, policies, |policies|);
    }
  }

  /// The records of one process come last and carry the first `n` policies' ids.
  ghost predicate Extends(rows: seq<Decision>, out: seq<Decision>, t: Target, policies: seq<Definition>, n: nat)
    requires n <= |policies|
  {
    && |out| >= |rows| && out[..|rows|] == rows
    && forall i :: |rows| <= i < |out| ==>
         out[i].key == t.key && exists m :: 0 <= m < n && policies[m].id == out[i].policy
  }

  lemma {:induction false} AgainstPoliciesDistinct(st: Store, rows: seq<Decision>, t: Target, policies: seq<Definition>,
                                                   n: nat)
    requires n <= |policies| && DistinctPairs(rows) && (forall d :: d in rows ==> d.key != t.key)
    requires forall i, j :: 0 <= i < j < |policies| ==> policies[i].id != policies[j].id
    ensures Extends(rows, AgainstPolicies(st, rows, t, policies, n), t, policies, n)
    ensures DistinctPairs(AgainstPolicies(st, rows, t, policies, n))
  {
    if n > 0 {
      AgainstPoliciesDistinct(st, rows, t, policies, n - 1);
      var out, before := AgainstPolicies(st, rows, t, policies, n), AgainstPolicies(st, rows, t, policies, n - 1);
      if out != before {
        var d := out[|before|];
        forall i | 0 <= i < |before| ensures !SamePair(before[i], d) {
          if i < |rows| {
            assert before[i] == before[..|rows|][i] == rows[i];
            assert rows[i] in rows;
          } else {
            var m :| 0 <= m < n - 1 && policies[m].id == before[i].policy;
          }
        }
        forall i | |rows| <= i < |out|
          ensures out[i].key == t.key && exists m :: 0 <= m < n && policies[m].id == out[i].policy
        {
          if i < |before| {
            var m :| 0 <= m < n - 1 && policies[m].id == before[i].policy;
            assert policies[m].id == out[i].policy;
          } else {
            assert policies[n - 1].id == out[i].policy;
          }
        }
      }
    }
  }

  lemma {:induction false} BatchDistinct(st: Store, targets: seq<Target>, policies: seq<Definition>)
    requires forall i, j :: 0 <= i < j < |policies| ==> policies[i].id != policies[j].id
    requires forall i, j :: 0 <= i < j < |targets| ==> targets[i].key != targets[j].key
    ensures DistinctPairs(Batch(st, targets, policies))
  {
    if targets != [] {
      var init, t := targets[..|targets| - 1], targets[|targets| - 1];
      BatchDistinct(st, init, policies);
      BatchFresh(st, init, policies);
      forall d | d in Batch(st, init, policies) ensures d.key != t.key {
        var x :| x in init && x.key == d.key && x.at == d.at;
      }
      AgainstPoliciesDistinct(st, Batch(st, init, policies), t, policies, |policies|);
    }
  }

  // ---------------------------------------------------------------------------------------------
  // Cooldowns survive commits and retention
  // ---------------------------------------------------------------------------------------------

  /// Appending a batch either leaves a pair's cooldown alone or ends it where a record of the batch says.
  lemma {:induction false} LastCooldownAppends(rows: seq<Decision>, batch: seq<Decision>, policy: string, key: string)
    ensures (LastCooldown(rows + batch, policy, key) == LastCooldown(rows, policy, key)
              && forall d :: d in batch ==> !For(d, policy, key))
            || exists d :: d in batch && For(d, policy, key) && LastCooldown(rows + batch, policy, key) == d.until
  {
    if batch == [] {
      assert rows + batch == rows;
    } else {
      var init, d := batch[..|batch| - 1], batch[|batch| - 1];
      assert (rows + batch)[..|rows + batch| - 1] == rows + init;
      assert batch == init + [d];
      LastCooldownAppends(rows, init, policy, key);
      if For(d, policy, key) { assert d in batch; }
    }
  }

  /// Retention never shortens a cooldown that is still running.
  lemma {:induction false} RetentionKeepsCooldowns(rows: seq<Decision>, cutoff: Time, now: Time, newest: nat,
                                                   policy: string, key: string)
    ensures LastCooldown(Compacted(rows, cutoff, now, newest), policy, key) == LastCooldown(rows, policy, key)
            || LastCooldown(rows, policy, key) <= now
  {
    if rows != [] {
      RetentionKeepsCooldowns(rows[..|rows| - 1], cutoff, now, newest, policy, key);
    }
  }

  // ---------------------------------------------------------------------------------------------
  // The invariant
  // ---------------------------------------------------------------------------------------------

  /// Every candidate ever emitted still blocks its pair, or its cooldown is over.
  ghost predicate Remembered(w: World) {
    forall d :: d in w.emitted && d.result == Candidate ==>
      d.until <= LastCooldown(w.st.decisions, d.policy, d.key) || d.until <= w.clock
  }

  ghost predicate Stored(w: World) { forall d :: d in w.st.decisions ==> d in w.emitted }

  ghost predicate Past(rows: seq<Decision>, evaluation: nat) { forall d :: d in rows ==> d.evaluation <= evaluation }

  predicate CandidatesInOrder(d: Decision, e: Decision) {
    d.result == Candidate && e.result == Candidate && SamePair(d, e) && d.evaluation < e.evaluation
  }

  /// Candidates of one pair in different evaluations are a whole cooldown apart.
  ghost predicate Spaced(rows: seq<Decision>) {
    forall d, e :: d in rows && e in rows && CandidatesInOrder(d, e) ==> e.at >= d.until
  }

  ghost predicate OnePerEvaluation(rows: seq<Decision>) {
    forall d, e :: d in rows && e in rows && SamePair(d, e) && d.evaluation == e.evaluation ==> d == e
  }

  ghost predicate Authorized(w: World) {
    && (forall i :: 0 <= i < |w.attempts| ==>
          w.attempts[i].decision in w.emitted && w.attempts[i].decision.result == Candidate
          && w.attempts[i].decision.evaluation <= w.st.evaluation)
    && (forall i, j :: 0 <= i < j < |w.attempts| ==>
         w.attempts[i].decision.evaluation < w.attempts[j].decision.evaluation)
  }

  ghost predicate Inv(w: World) {
    && Remembered(w) && Past(w.emitted, w.st.evaluation) && Past(w.st.decisions, w.st.evaluation) && Stored(w)
    && Spaced(w.emitted) && OnePerEvaluation(w.emitted) && Authorized(w)
  }

  lemma BatchOutlasts(w: World, targets: seq<Target>, policies: seq<Definition>, d: Decision)
    requires Orderly(w, Evaluated(targets, policies, {}, false)) && d in Batch(w.st, targets, policies)
    requires d.result == Candidate
    ensures d.at >= w.clock && d.until >= d.at && LastCooldown(w.st.decisions, d.policy, d.key) <= d.at
  {
    BatchFresh(w.st, targets, policies);
    assert FreshRecord(w.st, d, targets, policies);
  }

  lemma EvaluatedRemembers(w: World, targets: seq<Target>, policies: seq<Definition>, v: World)
    requires Remembered(w) && Orderly(w, Evaluated(targets, policies, {}, false))
    requires v.st.decisions == w.st.decisions + Batch(w.st, targets, policies)
    requires v.emitted == w.emitted + Batch(w.st, targets, policies) && v.clock >= w.clock
    ensures Remembered(v)
  {
    var batch := Batch(w.st, targets, policies);
    BatchDistinct(w.st, targets, policies);
    forall d | d in v.emitted && d.result == Candidate
      ensures d.until <= LastCooldown(v.st.decisions, d.policy, d.key) || d.until <= v.clock
    {
      LastCooldownAppends(w.st.decisions, batch, d.policy, d.key);
      if d in batch {
        var x :| x in batch && For(x, d.policy, d.key)
            && LastCooldown(w.st.decisions + batch, d.policy, d.key) == x.until;
        SamePairSameRecord(batch, d, x);
      } else if LastCooldown(v.st.decisions, d.policy, d.key) != LastCooldown(w.st.decisions, d.policy, d.key) {
        var x :| x in batch && For(x, d.policy, d.key)
            && LastCooldown(w.st.decisions + batch, d.policy, d.key) == x.until;
        BatchOutlasts(w, targets, policies, x);
      }
    }
  }

  lemma SamePairSameRecord(batch: seq<Decision>, d: Decision, e: Decision)
    requires DistinctPairs(batch) && d in batch && e in batch && SamePair(d, e)
    ensures d == e
  {}

  lemma EvaluatedSpaces(w: World, targets: seq<Target>, policies: seq<Definition>)
    requires Inv(w) && Orderly(w, Evaluated(targets, policies, {}, false))
    ensures Spaced(w.emitted + Batch(w.st, targets, policies))
    ensures OnePerEvaluation(w.emitted + Batch(w.st, targets, policies))
  {
    var batch := Batch(w.st, targets, policies);
    var rows := w.emitted + batch;
    BatchFresh(w.st, targets, policies);
    BatchDistinct(w.st, targets, policies);
    forall d, e | d in rows && e in rows && CandidatesInOrder(d, e) ensures e.at >= d.until {
      if e in batch && d !in batch { BatchOutlasts(w, targets, policies, e); }
    }
    forall d, e | d in rows && e in rows && SamePair(d, e) && d.evaluation == e.evaluation ensures d == e {
      if d in batch && e in batch { SamePairSameRecord(batch, d, e); }
    }
  }

  lemma {:induction false} SelectedIsEnforceable(rows: seq<Decision>, policies: seq<Definition>)
    requires Selected(rows, policies).Some?
    ensures Selected(rows, policies).value in rows && Enforceable(Selected(rows, policies).value, policies)
  {
    if !Enforceable(rows[0], policies) { SelectedIsEnforceable(rows[1..], policies); }
  }

  lemma {:induction false} CurrentAreNewest(st: Store, rows: seq<Decision>, live: set<string>)
    ensures forall d :: d in CurrentDecisions(st, rows, live) ==>
        d in rows && d.evaluation == st.evaluation && d.key in live
  {
    if rows != [] { CurrentAreNewest(st, rows[1..], live); }
  }

  lemma AttemptFollowsDecision(w: World, e: Event)
    requires Authorized(w) && Past(w.st.decisions, w.st.evaluation) && e.Evaluated?
    ensures Authorized(Step(w, e))
  {
    var v := Step(w, e);
    BatchFresh(w.st, e.targets, e.policies);
    if |v.attempts| > |w.attempts| {
      var d := v.attempts[|w.attempts|].decision;
      SelectedIsEnforceable(CurrentDecisions(v.st, v.st.decisions, e.live), e.policies);
      CurrentAreNewest(v.st, v.st.decisions, e.live);
      assert d in Batch(w.st, e.targets, e.policies);
    }
  }

  lemma BatchStaysPast(w: World, e: Event)
    requires Past(w.emitted, w.st.evaluation) && Past(w.st.decisions, w.st.evaluation) && e.Evaluated?
    ensures Past(Step(w, e).emitted, w.st.evaluation + 1) && Past(Step(w, e).st.decisions, w.st.evaluation + 1)
  {
    BatchFresh(w.st, e.targets, e.policies);
  }

  lemma EvaluatedKeeps(w: World, e: Event)
    requires Inv(w) && e.Evaluated? && Orderly(w, e)
    ensures Inv(Step(w, e))
  {
    BatchStaysPast(w, e);
    EvaluatedRemembers(w, e.targets, e.policies, Step(w, e));
    EvaluatedSpaces(w, e.targets, e.policies);
    AttemptFollowsDecision(w, e);
  }

  lemma {:induction false} CompactedIsSubset(rows: seq<Decision>, cutoff: Time, now: Time, newest: nat)
    ensures forall d :: d in Compacted(rows, cutoff, now, newest) ==> d in rows
  {
    if rows != [] {
      CompactedIsSubset(rows[..|rows| - 1], cutoff, now, newest);
      assert rows == rows[..|rows| - 1] + [rows[|rows| - 1]];
    }
  }

  lemma StepKeeps(w: World, e: Event)
    requires Inv(w) && Orderly(w, e)
    ensures Inv(Step(w, e))
  {
    match e
    case Evaluated(_, _, _, _) => EvaluatedKeeps(w, e);
    case NotCommitted =>
    case FailureRecorded =>
    case Retained(cutoff, now) =>
      CompactedIsSubset(w.st.decisions, cutoff, now, w.st.evaluation);
      forall d | d in w.emitted && d.result == Candidate
        ensures d.until <= LastCooldown(Step(w, e).st.decisions, d.policy, d.key) || d.until <= Step(w, e).clock
      {
        RetentionKeepsCooldowns(w.st.decisions, cutoff, now, w.st.evaluation, d.policy, d.key);
      }
  }

  lemma {:induction false} RunKeeps(events: seq<Event>)
    requires OrderlyRun(events)
    ensures Inv(After(events))
  {
    if events != [] {
      RunKeeps(events[..|events| - 1]);
      StepKeeps(After(events[..|events| - 1]), events[|events| - 1]);
    }
  }

  // ---------------------------------------------------------------------------------------------
  // The theorems
  // ---------------------------------------------------------------------------------------------

  lemma SpacedApart(rows: seq<Decision>, d: Decision, e: Decision)
    requires Spaced(rows) && OnePerEvaluation(rows) && d in rows && e in rows
    requires d.result == Candidate && e.result == Candidate && SamePair(d, e)
    ensures d == e || (d.evaluation < e.evaluation && e.at >= d.until)
        || (e.evaluation < d.evaluation && d.at >= e.until)
  {}

  /// Evaluation number `k` of the run made decision `d` under this policy definition.
  ghost predicate DecidedAt(events: seq<Event>, k: nat, d: Decision, p: Definition) {
    && k < |events| && events[k].Evaluated? && p in events[k].policies && p.id == d.policy
    && d.until == d.at + p.cooldown
    && d in Batch(After(events[..k]).st, events[k].targets, events[k].policies)
  }

  lemma {:induction false} EmittedWasDecided(events: seq<Event>, d: Decision)
    requires d in After(events).emitted && d.result == Candidate
    ensures exists k: nat, p :: DecidedAt(events, k, d, p)
  {
    var init, e := events[..|events| - 1], events[|events| - 1];
    var w := After(init);
    if d in w.emitted {
      EmittedWasDecided(init, d);
      var k: nat, p :| DecidedAt(init, k, d, p);
      assert init[..k] == events[..k];
      assert DecidedAt(events, k, d, p);
    } else {
      BatchFresh(w.st, e.targets, e.policies);
      assert FreshRecord(w.st, d, e.targets, e.policies);
      var p :| p in e.policies && p.id == d.policy && d.until == d.at + p.cooldown;
      assert DecidedAt(events, |events| - 1, d, p);
    }
  }

  /// `e` came at least the cooldown after `d` of the very policy definition that `d` was decided under.
  ghost predicate CooldownApart(events: seq<Event>, d: Decision, e: Decision) {
    d.evaluation < e.evaluation && exists k: nat, p :: DecidedAt(events, k, d, p) && e.at >= d.at + p.cooldown
  }

  lemma UntilIsCooldown(events: seq<Event>, d: Decision, e: Decision)
    requires d in After(events).emitted && d.result == Candidate && d.evaluation < e.evaluation && e.at >= d.until
    ensures CooldownApart(events, d, e)
  {
    EmittedWasDecided(events, d);
    var k: nat, p :| DecidedAt(events, k, d, p);
  }

  /// Over every run with retention in between, two candidate decisions for one policy and process are
  /// either the same or at least the cooldown apart that the earlier one's policy had.
  lemma CandidatesAreSpaced(events: seq<Event>, w: World, d: Decision, e: Decision)
    requires OrderlyRun(events) && w == After(events) && d in w.emitted && e in w.emitted
    requires d.result == Candidate && e.result == Candidate && SamePair(d, e)
    ensures d == e || CooldownApart(events, d, e) || CooldownApart(events, e, d)
  {
    RunKeeps(events);
    SpacedApart(w.emitted, d, e);
    if d != e {
      if d.evaluation < e.evaluation { UntilIsCooldown(events, d, e); } else { UntilIsCooldown(events, e, d); }
    }
  }

  /// Automatic attempts map one to one to candidate decisions, at most one per evaluation, and attempts on
  /// one pair are at least the earlier one's policy cooldown apart.
  lemma AttemptsAreSpaced(events: seq<Event>, w: World, i: nat, j: nat)
    requires OrderlyRun(events) && w == After(events) && i < j < |w.attempts|
    ensures var d, e := w.attempts[i].decision, w.attempts[j].decision;
            && d in w.emitted && e in w.emitted && d.result == Candidate && e.result == Candidate
            && d.evaluation < e.evaluation && (SamePair(d, e) ==> CooldownApart(events, d, e))
  {
    RunKeeps(events);
    var d, e := w.attempts[i].decision, w.attempts[j].decision;
    assert d in w.emitted && e in w.emitted;
    if SamePair(d, e) {
      SpacedApart(w.emitted, d, e);
      UntilIsCooldown(events, d, e);
    }
  }

  lemma {:induction false} LastCooldownIsARow(rows: seq<Decision>, policy: string, key: string)
    ensures LastCooldown(rows, policy, key) == 0
            || exists d :: d in rows && For(d, policy, key) && d.until == LastCooldown(rows, policy, key)
  {
    if rows != [] {
      LastCooldownIsARow(rows[..|rows| - 1], policy, key);
      assert rows == rows[..|rows| - 1] + [rows[|rows| - 1]];
      if For(rows[|rows| - 1], policy, key) { assert rows[|rows| - 1] in rows; }
    }
  }

  /// In every reachable world a retention pass leaves each pair exactly as blocked, at any later time, as
  /// it was: no running cooldown is cut short and no older one resurfaces.
  lemma RetentionKeepsBlocking(events: seq<Event>, w: World, cutoff: Time, now: Time, policy: string, key: string,
                               at: Time)
    requires OrderlyRun(events) && w == After(events) && now >= w.clock && at >= now && at >= 0
    ensures LastCooldown(Compacted(w.st.decisions, cutoff, now, w.st.evaluation), policy, key) > at
            <==> LastCooldown(w.st.decisions, policy, key) > at
  {
    RunKeeps(events);
    var kept := Compacted(w.st.decisions, cutoff, now, w.st.evaluation);
    RetentionKeepsCooldowns(w.st.decisions, cutoff, now, w.st.evaluation, policy, key);
    if LastCooldown(kept, policy, key) > at {
      LastCooldownIsARow(kept, policy, key);
      CompactedIsSubset(w.st.decisions, cutoff, now, w.st.evaluation);
      var d :| d in kept && For(d, policy, key) && d.until == LastCooldown(kept, policy, key);
      assert d in w.emitted;
    }
  }

  /// A candidate's cooldown is its policy's: it ends that long after the sample it was decided on.
  lemma CandidateCooldown(w: World, targets: seq<Target>, policies: seq<Definition>, d: Decision)
    requires d in Batch(w.st, targets, policies) && d.result == Candidate
    ensures exists p :: p in policies && p.id == d.policy && d.until == d.at + p.cooldown
  {
    BatchFresh(w.st, targets, policies);
  }

  /// An attempt is made for a current candidate of a live process that is not protected, under an automatic
  /// enforcing policy.
  lemma AttemptIsEnforceable(w: World, e: Event)
    requires e.Evaluated? && |Step(w, e).attempts| > |w.attempts| && Past(w.st.decisions, w.st.evaluation)
    ensures e.automatic && |Step(w, e).attempts| == |w.attempts| + 1
    ensures var d := Step(w, e).attempts[|w.attempts|].decision;
            && d in Batch(w.st, e.targets, e.policies) && d.key in e.live && Enforceable(d, e.policies)
            && exists t :: t in e.targets && t.key == d.key && t.at == d.at && !t.protected_
  {
    var v := Step(w, e);
    BatchFresh(w.st, e.targets, e.policies);
    SelectedIsEnforceable(CurrentDecisions(v.st, v.st.decisions, e.live), e.policies);
    CurrentAreNewest(v.st, v.st.decisions, e.live);
  }

  // ---------------------------------------------------------------------------------------------
  // The loops
  // ---------------------------------------------------------------------------------------------

  method EvaluatePolicies(st: Store, targets: seq<Target>, policies: seq<Definition>) returns (batch: seq<Decision>)
    ensures batch == Batch(st, targets, policies)
  {
    batch := [];
    for i := 0 to |targets|
      invariant batch == Batch(st, targets[..i], policies)
    {
      assert targets[..i + 1][..i] == targets[..i];
      var t := targets[i];
      ghost var before := batch;
      for n := 0 to |policies|
        invariant batch == AgainstPolicies(st, before, t, policies, n)
      {
        var def := policies[n];
        var decision := Evaluate(def, t, LastCooldown(st.decisions, def.id, t.key));
        if decision.None? { continue; }
        batch := batch + [Decision(st.nextId + |batch|, st.evaluation + 1, def.id, t.key, t.at, decision.value.0,
                                   decision.value.1)];
      }
    }
    assert targets[..|targets|] == targets;
  }

  method SelectAutomatic(current: seq<Decision>, policies: seq<Definition>) returns (chosen: Option<Decision>)
    ensures chosen == Selected(current, policies)
  {
    for i := 0 to |current|
      invariant Selected(current, policies) == Selected(current[i..], policies)
    {
      if Enforceable(current[i], policies) {
        return Some(current[i]);
      }
    }
    chosen := None;
  }
}
