/// The gate of process actions: full revalidation against the newest committed evaluation, the intent row,
/// the signal, the result (internal/daemon/action.go, action_revalidation.go, automatic.go and
/// backend_policy.go).

module ProcessActions {
  import opened Common
  import opened Policy
  import D = PolicyDecisions

  datatype Authority = Manual | Automatic

  /// What an action is authorized by; its digest covers exactly the decision, with the classification state
  /// it was made in, and the policy definition.
  datatype Approval = Approval(decision: Decision, state: string, policy: Definition, authority: Authority)

  /// What revalidation meets: the stored decisions, the configuration, the processes not marked exited, and the
  /// fresh facts about the process; None when the exact process, its executable, its session or a fresh sample
  /// of it is no longer to be had.
  datatype Situation =
      Situation(st: Store, policies: seq<Definition>, mode: Mode, live: set<string>, observed: Option<Target>)

  // ---------------------------------------------------------------------------------------------
  // Revalidation
  // ---------------------------------------------------------------------------------------------

  function DefinitionOf(policies: seq<Definition>, id: string): Option<Definition> {
    if policies == [] then None else if policies[0].id == id then Some(policies[0]) else DefinitionOf(policies[1..], id)
  }

  function RecordOf(rows: seq<Decision>, d: Decision): Option<Decision> {
    if rows == [] then None
    else if rows[0].id == d.id && rows[0].evaluation == d.evaluation then Some(rows[0])
    else RecordOf(rows[1..], d)
  }

  predicate Recommending(p: Definition) { p.enabled && p.mode == Recommend }

  predicate Enforcing(p: Definition) { p.enabled && p.mode == Enforce && p.automatic }

  predicate AuthorityEnabled(s: Situation, authority: Authority, def: Definition) {
    match authority
    case Manual =>
      s.mode in {Recommend, Enforce} && (exists p :: p in s.policies && Recommending(p)) && Recommending(def)
    case Automatic => s.mode == Enforce && (exists p :: p in s.policies && Enforcing(p)) && Enforcing(def)
  }

  /// `isRecommendation` and `isEnforceable`.
  predicate StillEligible(s: Situation, authority: Authority, d: Decision) {
    var def := DefinitionOf(s.policies, d.policy);
    match authority
    case Manual =>
      def.Some? && d.result in {Candidate, Cooldown} && s.mode in {Recommend, Enforce} && Recommending(def.value)
    case Automatic => def.Some? && d.result == Candidate && s.mode == Enforce && Enforcing(def.value)
  }

  /// The fresh facts are of the same exact process in the same state and make it a candidate again.
  predicate StillCandidate(a: Approval, def: Definition, observed: Option<Target>) {
    && observed.Some? && observed.value.key == a.decision.key && observed.value.state == a.state
    && !observed.value.protected_
    && var decision := Evaluate(def, observed.value, ZERO_TIME);
       decision.Some? && decision.value.0 == Candidate
  }

  function Current(s: Situation): seq<Decision> { CurrentDecisions(s.st, s.st.decisions, s.live) }

  /// `revalidateCleanup`, check by check.
  predicate Revalidated(s: Situation, a: Approval) {
    var def, record := DefinitionOf(s.policies, a.policy.id), RecordOf(Current(s), a.decision);
    && def.Some? && def.value.mode == a.policy.mode && AuthorityEnabled(s, a.authority, def.value)
    && record.Some? && StillEligible(s, a.authority, record.value)
    && record.value == a.decision && def.value == a.policy
    && StillCandidate(a, def.value, s.observed)
  }

  lemma {:induction false} DefinitionIsListed(policies: seq<Definition>, id: string)
    ensures DefinitionOf(policies, id).Some? ==>
        DefinitionOf(policies, id).value in policies && DefinitionOf(policies, id).value.id == id
  {
    if policies != [] && policies[0].id != id { DefinitionIsListed(policies[1..], id); }
  }

  lemma {:induction false} RecordIsListed(rows: seq<Decision>, d: Decision)
    ensures RecordOf(rows, d).Some? ==> RecordOf(rows, d).value in rows
  {
    if rows != [] && !(rows[0].id == d.id && rows[0].evaluation == d.evaluation) { RecordIsListed(rows[1..], d); }
  }

  /// What authority means for a decision, in terms of the configuration.
  predicate Empowered(s: Situation, a: Approval) {
    && a.policy in s.policies
    && match a.authority
       case Manual =>
         a.decision.result in {Candidate, Cooldown} && s.mode in {Recommend, Enforce} && Recommending(a.policy)
       case Automatic => s.mode == Enforce && Enforcing(a.policy) && a.decision.result == Candidate
  }

  lemma {:induction false} OnlyDefinition(policies: seq<Definition>, p: Definition)
    requires p in policies && forall i, j :: 0 <= i < j < |policies| ==> policies[i].id != policies[j].id
    ensures DefinitionOf(policies, p.id) == Some(p)
  {
    if policies[0] != p {
      var i :| 0 <= i < |policies| && policies[i] == p;
      assert policies[1..][i - 1] == p;
      OnlyDefinition(policies[1..], p);
    }
  }

  lemma {:induction false} OnlyRecord(rows: seq<Decision>, d: Decision)
    requires d in rows && forall i, j :: 0 <= i < j < |rows| ==> rows[i].id != rows[j].id
    ensures RecordOf(rows, d) == Some(d)
  {
    if rows[0] != d {
      var i :| 0 <= i < |rows| && rows[i] == d;
      assert rows[1..][i - 1] == d;
      OnlyRecord(rows[1..], d);
    }
  }

  predicate UniqueIds(s: Situation) {
    && (forall i, j :: 0 <= i < j < |s.policies| ==> s.policies[i].id != s.policies[j].id)
    && (forall i, j :: 0 <= i < j < |Current(s)| ==> Current(s)[i].id != Current(s)[j].id)
  }

  /// Where ids are unique and a decision names the policy it was approved for, revalidation passes exactly
  /// when that very decision is a current one of the newest evaluation for a live process, its definition is
  /// unchanged and still carries the authority, and the fresh facts make the process a candidate again.
  lemma RevalidatedExactly(s: Situation, a: Approval)
    requires UniqueIds(s) && a.decision.policy == a.policy.id
    ensures Revalidated(s, a)
        <==> a.decision in Current(s) && Empowered(s, a) && StillCandidate(a, a.policy, s.observed)
  {
    DefinitionIsListed(s.policies, a.policy.id);
    RecordIsListed(Current(s), a.decision);
    if a.policy in s.policies { OnlyDefinition(s.policies, a.policy); }
    if a.decision in Current(s) { OnlyRecord(Current(s), a.decision); }
  }

  /// The fresh facts: the exact process is there, in the state it was approved in, unprotected, and meets the
  /// policy.
  predicate FreshlyMet(a: Approval, observed: Option<Target>) {
    && observed.Some? && observed.value.key == a.decision.key && observed.value.state == a.state
    && !observed.value.protected_ && D.Meets(a.policy, observed.value) && ZERO_TIME <= observed.value.at
  }

  /// The mode, the policy and the kind of decision that each authority needs.
  predicate MayAct(s: Situation, a: Approval) {
    && a.policy in s.policies && a.policy.enabled
    && match a.authority
       case Manual =>
         s.mode in {Recommend, Enforce} && a.policy.mode == Recommend && a.decision.result in {Candidate, Cooldown}
       case Automatic =>
         s.mode == Enforce && a.policy.mode == Enforce && a.policy.automatic && a.decision.result == Candidate
  }

  /// The decision is a row of the newest evaluation for a live process, the last of its pair.
  ghost predicate StandsNow(s: Situation, d: Decision) {
    exists k: nat :: k < |s.st.decisions| && D.IsCurrent(s.st, s.live, k) && s.st.decisions[k] == d
  }

  lemma CurrentIff(s: Situation, d: Decision)
    ensures d in Current(s) <==> StandsNow(s, d)
  {
    var positions := D.CurrentExactly(s.st, s.live);
    if d in Current(s) {
      var i :| 0 <= i < |Current(s)| && Current(s)[i] == d;
      assert positions[i] in positions;
    }
    if StandsNow(s, d) {
      var k: nat :| k < |s.st.decisions| && D.IsCurrent(s.st, s.live, k) && s.st.decisions[k] == d;
      var i :| 0 <= i < |positions| && positions[i] == k;
      assert Current(s)[i] == d;
    }
  }

  lemma StillCandidateIff(a: Approval, observed: Option<Target>)
    ensures StillCandidate(a, a.policy, observed) <==> FreshlyMet(a, observed)
  {}

  /// The same in terms of rows, definitions and facts.
  lemma PassesExactly(s: Situation, a: Approval)
    requires UniqueIds(s) && a.decision.policy == a.policy.id
    ensures Revalidated(s, a) <==> StandsNow(s, a.decision) && MayAct(s, a) && FreshlyMet(a, s.observed)
  {
    RevalidatedExactly(s, a);
    CurrentIff(s, a.decision);
    StillCandidateIff(a, s.observed);
  }

  /// In any case nothing passes but a current decision of the newest evaluation, for a live process.
  lemma RevalidatedIsCurrent(s: Situation, a: Approval)
    requires Revalidated(s, a)
    ensures a.decision in Current(s) && a.decision in s.st.decisions
    ensures a.decision.evaluation == s.st.evaluation && a.decision.key in s.live && a.policy in s.policies
    ensures StillCandidate(a, a.policy, s.observed)
    ensures a.authority == Automatic ==> s.mode == Enforce && Enforceable(a.decision, s.policies)
  {
    DefinitionIsListed(s.policies, a.policy.id);
    DefinitionIsListed(s.policies, a.decision.policy);
    RecordIsListed(Current(s), a.decision);
    CurrentAreNewest(s.st, s.st.decisions, s.live);
  }

  /// An automatic attempt of the evaluation just committed passes exactly when the fresh facts still hold.
  lemma AttemptPassesIffFresh(w: World, e: Event, a: Approval, s: Situation)
    requires e.Evaluated? && |Step(w, e).attempts| > |w.attempts| && Past(w.st.decisions, w.st.evaluation)
    requires a.decision == Step(w, e).attempts[|w.attempts|].decision && a.authority == Automatic
    requires a.policy in e.policies && a.policy.id == a.decision.policy
    requires s.st == Step(w, e).st && s.policies == e.policies && s.mode == Enforce && s.live == e.live && UniqueIds(s)
    ensures Revalidated(s, a) <==> StillCandidate(a, a.policy, s.observed)
  {
    AttemptIsEnforceable(w, e);
    SelectedIsEnforceable(Current(s), e.policies);
    RevalidatedExactly(s, a);
    var p :| p in e.policies && p.id == a.decision.policy && p.enabled && p.mode == Enforce && p.automatic;
    OnlyDefinition(e.policies, p);
    OnlyDefinition(e.policies, a.policy);
  }

  // ---------------------------------------------------------------------------------------------
  // What one action leaves in the log
  // ---------------------------------------------------------------------------------------------

  datatype Outcome = Attempting | Signalled | Failed | Rejected

  /// A committed write of an action row, or a signal sent, with what it was sent for and in what situation.
  datatype Entry =
    | Wrote(action: nat, outcome: Outcome)
    | Sent(action: nat, approval: Approval, situation: Situation)

  /// `begun` and `finished` say whether the first and the last transaction land, `accepted` whether the
  /// operating system takes the signal.
  function Trace(action: nat, a: Approval, s: Situation, begun: bool, accepted: bool, finished: bool): seq<Entry> {
    if !begun then []
    else if !Revalidated(s, a) then [Wrote(action, Rejected)]
    else if !finished then [Wrote(action, Attempting), Sent(action, a, s)]
    else [Wrote(action, Attempting), Sent(action, a, s), Wrote(action, if accepted then Signalled else Failed)]
  }

  /// Each signal directly follows the committed intent row of its own action, was revalidated, and is the
  /// only one of its action.
  ghost predicate Gated(log: seq<Entry>) {
    && (forall i :: 0 <= i < |log| && log[i].Sent? ==>
          Revalidated(log[i].situation, log[i].approval) && i > 0 && log[i - 1] == Wrote(log[i].action, Attempting))
    && (forall i, j :: 0 <= i < j < |log| && log[i].Sent? && log[j].Sent? ==> log[i].action != log[j].action)
  }

  ghost predicate Unused(log: seq<Entry>, action: nat) { forall e :: e in log ==> e.action != action }

  lemma TraceStaysGated(log: seq<Entry>, action: nat, a: Approval, s: Situation, begun: bool, accepted: bool,
                        finished: bool)
    requires Gated(log) && Unused(log, action)
    ensures Gated(log + Trace(action, a, s, begun, accepted, finished))
  {
    var trace := Trace(action, a, s, begun, accepted, finished);
    var all := log + trace;
    forall i | 0 <= i < |all| && all[i].Sent?
      ensures Revalidated(all[i].situation, all[i].approval) && i > 0 && all[i - 1] == Wrote(all[i].action, Attempting)
    {
      if i >= |log| { assert all[i] == trace[i - |log|] && all[i - 1] == trace[i - |log| - 1]; }
    }
  }

  /// What every signal of a gated log was sent for.
  lemma SignalsAreForCurrentDecisions(log: seq<Entry>, i: nat)
    requires Gated(log) && i < |log| && log[i].Sent?
    ensures var a, s := log[i].approval, log[i].situation;
            && a.decision in Current(s) && a.decision.evaluation == s.st.evaluation && a.decision.key in s.live
            && StillCandidate(a, a.policy, s.observed)
            && (a.authority == Automatic ==> s.mode == Enforce && Enforceable(a.decision, s.policies))
    ensures i > 0 && log[i - 1] == Wrote(log[i].action, Attempting)
  {
    RevalidatedIsCurrent(log[i].situation, log[i].approval);
  }

  /// The row of an action is what was last written of it.
  function RowAfter(log: seq<Entry>, action: nat): Option<Outcome> {
    if log == [] then None
    else
      var e := log[|log| - 1];
      if e.Wrote? && e.action == action then Some(e.outcome) else RowAfter(log[..|log| - 1], action)
  }

  /// What one action does: nothing without its intent row, a refusal when revalidation fails, and else a signal
  /// whose outcome is recorded when the last transaction lands.
  lemma TraceExactly(action: nat, a: Approval, s: Situation, begun: bool, accepted: bool, finished: bool)
    ensures var trace := Trace(action, a, s, begun, accepted, finished);
            && (forall e :: e in trace ==> e.action == action)
            && (Sent(action, a, s) in trace <==> begun && Revalidated(s, a))
            && (RowAfter(trace, action) == None <==> !begun)
            && (RowAfter(trace, action) == Some(Rejected) <==> begun && !Revalidated(s, a))
            && (RowAfter(trace, action) == Some(Attempting) <==> begun && Revalidated(s, a) && !finished)
            && (RowAfter(trace, action) == Some(Signalled) <==> begun && Revalidated(s, a) && finished && accepted)
            && (RowAfter(trace, action) == Some(Failed) <==> begun && Revalidated(s, a) && finished && !accepted)
            && |trace| == if !begun then 0 else if !Revalidated(s, a) then 1 else if !finished then 2 else 3
  {
    if begun && Revalidated(s, a) {
      var two := [Wrote(action, Attempting), Sent(action, a, s)];
      assert two[..1] == [Wrote(action, Attempting)];
      assert RowAfter(two[..1], action) == Some(Attempting);
      assert Sent(action, a, s) == two[1];
      var last := Wrote(action, if accepted then Signalled else Failed);
      assert (two + [last])[..2] == two && (two + [last])[1] == two[1];
    }
  }

  /// The stored rows are what the log leaves.
  ghost predicate RowsMatch(actions: map<nat, Outcome>, log: seq<Entry>) {
    && (forall e :: e in log ==> e.action in actions)
    && (forall action :: action in actions ==> RowAfter(log, action) == Some(actions[action]))
  }

  lemma WriteMatches(actions: map<nat, Outcome>, log: seq<Entry>, action: nat, outcome: Outcome)
    requires RowsMatch(actions, log)
    ensures RowsMatch(actions[action := outcome], log + [Wrote(action, outcome)])
  {
    assert (log + [Wrote(action, outcome)])[..|log|] == log;
  }

  lemma SignalMatches(actions: map<nat, Outcome>, log: seq<Entry>, action: nat, a: Approval, s: Situation)
    requires RowsMatch(actions, log) && action in actions
    ensures RowsMatch(actions, log + [Sent(action, a, s)])
  {
    assert (log + [Sent(action, a, s)])[..|log|] == log;
  }

  // ---------------------------------------------------------------------------------------------
  // The gate
  // ---------------------------------------------------------------------------------------------

  method FindDefinition(policies: seq<Definition>, id: string) returns (def: Option<Definition>)
    ensures def == DefinitionOf(policies, id)
  {
    for i := 0 to |policies|
      invariant DefinitionOf(policies, id) == DefinitionOf(policies[i..], id)
    {
      if policies[i].id == id { return Some(policies[i]); }
    }
    def := None;
  }

  method FindRecord(rows: seq<Decision>, d: Decision) returns (record: Option<Decision>)
    ensures record == RecordOf(rows, d)
  {
    for i := 0 to |rows|
      invariant RecordOf(rows, d) == RecordOf(rows[i..], d)
    {
      if rows[i].id == d.id && rows[i].evaluation == d.evaluation { return Some(rows[i]); }
    }
    record := None;
  }

  /// `revalidateCleanup`.
  method Revalidate(s: Situation, a: Approval) returns (ok: bool)
    ensures ok <==> Revalidated(s, a)
  {
    var def := FindDefinition(s.policies, a.policy.id);
    if def.None? || def.value.mode != a.policy.mode || !AuthorityEnabled(s, a.authority, def.value) { return false; }
    var record := FindRecord(Current(s), a.decision);
    if record.None? || !StillEligible(s, a.authority, record.value) { return false; }
    if record.value != a.decision || def.value != a.policy { return false; }
    ok := StillCandidate(a, def.value, s.observed);
  }

  class ActionGate {
    var actions: map<nat, Outcome>
    /// Everything done so far, in order.
    var log: seq<Entry>

    constructor ()
      ensures actions == map[] && log == [] && Valid()
    {
      actions, log := map[], [];
    }

    ghost predicate Valid() reads this {
      Gated(log) && RowsMatch(actions, log)
    }

    method Write(action: nat, outcome: Outcome)
      requires RowsMatch(actions, log)
      modifies this
      ensures RowsMatch(actions, log)
      ensures actions == old(actions)[action := outcome] && log == old(log) + [Wrote(action, outcome)]
    {
      WriteMatches(actions, log, action, outcome);
      actions, log := actions[action := outcome], log + [Wrote(action, outcome)];
    }

    /// The intent row, the signal and the result.
    method Proceed(action: nat, a: Approval, s: Situation, accepted: bool, finished: bool)
      requires RowsMatch(actions, log) && Revalidated(s, a)
      modifies this
      ensures RowsMatch(actions, log) && log == old(log) + Trace(action, a, s, true, accepted, finished)
      ensures actions ==
          old(actions)[action := if !finished then Attempting else if accepted then Signalled else Failed]
    {
      Write(action, Attempting);
      SignalMatches(actions, log, action, a, s);
      log := log + [Sent(action, a, s)];
      if finished { Write(action, if accepted then Signalled else Failed); }
    }

    /// `executeCleanupLocked`: revalidation, the intent row, the signal, the result, in this order; a refusal
    /// leaves a rejected row and no signal.
    method ExecuteCleanup(action: nat, a: Approval, s: Situation, begun: bool, accepted: bool, finished: bool)
      returns (sent: bool)
      requires Valid() && action !in actions
      modifies this
      ensures Valid()
      ensures sent <==> Revalidated(s, a) && begun
      ensures log == old(log) + Trace(action, a, s, begun, accepted, finished)
      ensures actions - {action} == old(actions)
    {
      TraceStaysGated(log, action, a, s, begun, accepted, finished);
      var revalidated := Revalidate(s, a);
      sent := revalidated && begun;
      if sent {
        Proceed(action, a, s, accepted, finished);
      } else if begun {
        Write(action, Rejected);
      }
    }
  }
}
