/// What an evaluation decides for whom, and what it attempts, in terms of the processes and the definitions
/// themselves (internal/policy/policy.go; internal/daemon/policy.go and automatic.go;
/// internal/storage/query_policy.go).

module PolicyDecisions {
  import opened Common
  import opened Policy

  // ---------------------------------------------------------------------------------------------
  // One decision
  // ---------------------------------------------------------------------------------------------

  /// The policy is switched on in a known mode, is meant for processes like this one, and the process has been
  /// seen in that state for long enough.
  predicate Meets(p: Definition, t: Target) {
    && p.enabled && p.mode in {Audit, Recommend, Enforce}
    && t.state in p.states && t.agent in p.agents && t.executable in p.executables
    && (t.detached || !p.requireDetached) && (t.sessionEnded || !p.requireSessionEnded)
    && t.at != ZERO_TIME && t.stableSince != ZERO_TIME && t.stableSince + p.minStable <= t.at
  }

  /// The newest stored candidate of the pair ends its cooldown at `until`; without one it ended at 0.
  ghost predicate CoolsUntil(rows: seq<Decision>, policy: string, key: string, until: Time) {
    || (until == 0 && forall d :: d in rows && d.policy == policy && d.key == key ==> d.result != Candidate)
    || exists i :: NewestCandidate(rows, policy, key, i) && rows[i].until == until
  }

  ghost predicate NewestCandidate(rows: seq<Decision>, policy: string, key: string, i: int) {
    && 0 <= i < |rows| && rows[i].result == Candidate && rows[i].policy == policy && rows[i].key == key
    && forall j :: i < j < |rows| && rows[j].policy == policy && rows[j].key == key ==> rows[j].result != Candidate
  }

  lemma {:induction false} StoredCooldown(rows: seq<Decision>, policy: string, key: string)
    ensures CoolsUntil(rows, policy, key, LastCooldown(rows, policy, key))
  {
    if rows != [] {
      var init, n := rows[..|rows| - 1], |rows| - 1;
      assert rows == init + [rows[n]];
      StoredCooldown(init, policy, key);
      if For(rows[n], policy, key) {
        assert NewestCandidate(rows, policy, key, n);
      } else if i :| NewestCandidate(init, policy, key, i) && init[i].until == LastCooldown(init, policy, key) {
        assert NewestCandidate(rows, policy, key, i);
      }
    }
  }

  lemma OneCooldown(rows: seq<Decision>, policy: string, key: string, a: Time, b: Time)
    requires CoolsUntil(rows, policy, key, a) && CoolsUntil(rows, policy, key, b)
    ensures a == b
  {
    if i :| NewestCandidate(rows, policy, key, i) && rows[i].until == a {
      assert rows[i] in rows;
      if j :| NewestCandidate(rows, policy, key, j) && rows[j].until == b {
        assert i == j;
      }
    }
  }

  /// The decision for one process under one policy: refused exactly when protected, else cooling exactly when
  /// an earlier candidate's cooldown is not over at the sample, else a candidate with the policy's cooldown.
  ghost predicate DecidedFor(st: Store, d: Decision, t: Target, p: Definition) {
    && Meets(p, t) && d.policy == p.id && d.key == t.key && d.at == t.at && d.evaluation == st.evaluation + 1
    && exists until :: CoolsUntil(st.decisions, p.id, t.key, until) && Outcome(d, t, p, until)
  }

  predicate Outcome(d: Decision, t: Target, p: Definition, until: Time) {
    && (d.result == Refused <==> t.protected_)
    && (d.result == Cooldown <==> !t.protected_ && until > t.at)
    && (d.result == Candidate <==> !t.protected_ && until <= t.at)
    && d.until == match d.result case Refused => 0 case Cooldown => until case Candidate => t.at + p.cooldown
  }

  /// That leaves no choice.
  lemma DecisionIsDetermined(st: Store, d: Decision, e: Decision, t: Target, p: Definition)
    requires DecidedFor(st, d, t, p) && DecidedFor(st, e, t, p)
    ensures d == e.(id := d.id)
  {
    var x :| CoolsUntil(st.decisions, p.id, t.key, x) && Outcome(d, t, p, x);
    var y :| CoolsUntil(st.decisions, p.id, t.key, y) && Outcome(e, t, p, y);
    OneCooldown(st.decisions, p.id, t.key, x, y);
  }

  lemma EvaluateDecides(st: Store, t: Target, p: Definition, id: nat)
    ensures var r := Evaluate(p, t, LastCooldown(st.decisions, p.id, t.key));
            && (r.Some? <==> Meets(p, t))
            && (r.Some? ==>
                 DecidedFor(st, Decision(id, st.evaluation + 1, p.id, t.key, t.at, r.value.0, r.value.1), t, p))
  {
    var until := LastCooldown(st.decisions, p.id, t.key);
    StoredCooldown(st.decisions, p.id, t.key);
    var r := Evaluate(p, t, until);
    if r.Some? {
      assert Outcome(Decision(id, st.evaluation + 1, p.id, t.key, t.at, r.value.0, r.value.1), t, p, until);
    }
  }

  // ---------------------------------------------------------------------------------------------
  // One batch
  // ---------------------------------------------------------------------------------------------

  /// For which process and which policy a decision was made: positions in the two lists.
  datatype Pair = Pair(target: nat, policy: nat)

  predicate Earlier(a: Pair, b: Pair) { a.target < b.target || (a.target == b.target && a.policy < b.policy) }

  /// `pairs` says for whom each row was decided: in the order of processes, then policies, with consecutive
  /// ids.
  ghost predicate Explains(st: Store, rows: seq<Decision>, pairs: seq<Pair>, targets: seq<Target>,
                           policies: seq<Definition>)
  {
    && |pairs| == |rows|
    && (forall k :: 0 <= k < |rows| ==> Explained(st, rows[k], pairs[k], targets, policies))
    && (forall k :: 0 <= k < |rows| ==> rows[k].id == st.nextId + k)
    && (forall j, k :: 0 <= j < k < |rows| ==> Earlier(pairs[j], pairs[k]))
  }

  ghost predicate Explained(st: Store, d: Decision, pair: Pair, targets: seq<Target>, policies: seq<Definition>) {
    && pair.target < |targets| && pair.policy < |policies|
    && DecidedFor(st, d, targets[pair.target], policies[pair.policy])
  }

  /// Every matching pair before `end` has a row.
  ghost predicate Covers(pairs: seq<Pair>, targets: seq<Target>, policies: seq<Definition>, end: Pair) {
    forall i, m :: 0 <= i < |targets| && 0 <= m < |policies| && Earlier(Pair(i, m), end) ==>
      Meets(policies[m], targets[i]) ==> Pair(i, m) in pairs
  }

  ghost predicate AllBefore(pairs: seq<Pair>, end: Pair) { forall pair :: pair in pairs ==> Earlier(pair, end) }

  lemma OneMoreRow(st: Store, rows: seq<Decision>, pairs: seq<Pair>, targets: seq<Target>, policies: seq<Definition>,
                   d: Decision, pair: Pair)
    requires Explains(st, rows, pairs, targets, policies) && AllBefore(pairs, pair)
    requires Explained(st, d, pair, targets, policies) && d.id == st.nextId + |rows|
    ensures Explains(st, rows + [d], pairs + [pair], targets, policies)
  {
    forall j | 0 <= j < |rows| ensures Earlier(pairs[j], pair) { assert pairs[j] in pairs; }
  }

  lemma {:induction false} ProcessDecides(st: Store, rows: seq<Decision>, before: seq<Pair>, targets: seq<Target>,
                                          i: nat, policies: seq<Definition>, n: nat)
    returns (pairs: seq<Pair>)
    requires i < |targets| && n <= |policies| && Explains(st, rows, before, targets, policies)
    requires AllBefore(before, Pair(i, 0)) && Covers(before, targets, policies, Pair(i, 0))
    ensures Explains(st, AgainstPolicies(st, rows, targets[i], policies, n), pairs, targets, policies)
    ensures AllBefore(pairs, Pair(i, n)) && Covers(pairs, targets, policies, Pair(i, n))
  {
    if n == 0 {
      pairs := before;
    } else {
      var earlier := ProcessDecides(st, rows, before, targets, i, policies, n - 1);
      var out := AgainstPolicies(st, rows, targets[i], policies, n - 1);
      pairs := earlier;
      EvaluateDecides(st, targets[i], policies[n - 1], st.nextId + |out|);
      if Meets(policies[n - 1], targets[i]) {
        var more := AgainstPolicies(st, rows, targets[i], policies, n);
        OneMoreRow(st, out, earlier, targets, policies, more[|out|], Pair(i, n - 1));
        assert more == out + [more[|out|]];
        pairs := earlier + [Pair(i, n - 1)];
      }
      NextPolicy(earlier, pairs, targets, policies, i, n - 1);
    }
  }

  lemma NextPolicy(earlier: seq<Pair>, pairs: seq<Pair>, targets: seq<Target>, policies: seq<Definition>, i: nat,
                   n: nat)
    requires i < |targets| && n < |policies|
    requires pairs == if Meets(policies[n], targets[i]) then earlier + [Pair(i, n)] else earlier
    requires AllBefore(earlier, Pair(i, n)) && Covers(earlier, targets, policies, Pair(i, n))
    ensures AllBefore(pairs, Pair(i, n + 1)) && Covers(pairs, targets, policies, Pair(i, n + 1))
  {}

  lemma NextProcess(pairs: seq<Pair>, targets: seq<Target>, policies: seq<Definition>, i: nat)
    requires AllBefore(pairs, Pair(i, |policies|)) && Covers(pairs, targets, policies, Pair(i, |policies|))
    ensures AllBefore(pairs, Pair(i + 1, 0)) && Covers(pairs, targets, policies, Pair(i + 1, 0))
  {}

  lemma {:induction false} ProcessesDecide(st: Store, targets: seq<Target>, policies: seq<Definition>, n: nat)
    returns (pairs: seq<Pair>)
    requires n <= |targets|
    ensures Explains(st, Batch(st, targets[..n], policies), pairs, targets, policies)
    ensures AllBefore(pairs, Pair(n, 0)) && Covers(pairs, targets, policies, Pair(n, 0))
  {
    if n == 0 {
      pairs := [];
    } else {
      var before := ProcessesDecide(st, targets, policies, n - 1);
      assert targets[..n][..n - 1] == targets[..n - 1];
      pairs := ProcessDecides(st, Batch(st, targets[..n - 1], policies), before, targets, n - 1, policies, |policies|);
      NextProcess(pairs, targets, policies, n - 1);
    }
  }

  /// A batch holds exactly one decision for every process and policy that match, in order of processes and then
  /// policies, and each is decided as described.
  lemma BatchDecides(st: Store, targets: seq<Target>, policies: seq<Definition>) returns (pairs: seq<Pair>)
    ensures Explains(st, Batch(st, targets, policies), pairs, targets, policies)
    ensures forall i, m :: 0 <= i < |targets| && 0 <= m < |policies| ==>
              (Pair(i, m) in pairs <==> Meets(policies[m], targets[i]))
  {
    pairs := ProcessesDecide(st, targets, policies, |targets|);
    assert targets[..|targets|] == targets;
  }

  // ---------------------------------------------------------------------------------------------
  // One attempt
  // ---------------------------------------------------------------------------------------------

  /// No later row of the same evaluation is for the same pair.
  ghost predicate LastOfPair(rows: seq<Decision>, k: nat)
    requires k < |rows|
  {
    forall j :: k < j < |rows| && rows[j].evaluation == rows[k].evaluation && rows[j].policy == rows[k].policy ==>
      rows[j].key != rows[k].key
  }

  ghost predicate IsCurrent(st: Store, live: set<string>, k: nat)
    requires k < |st.decisions|
  {
    st.decisions[k].evaluation == st.evaluation && st.decisions[k].key in live && LastOfPair(st.decisions, k)
  }

  ghost predicate Increasing(positions: seq<nat>) {
    forall i, j :: 0 <= i < j < |positions| ==> positions[i] < positions[j]
  }

  /// `positions` are those of the rows that count, from `from` on, in order.
  ghost predicate Picks(rows: seq<Decision>, st: Store, live: set<string>, from: nat, out: seq<Decision>,
                        positions: seq<nat>)
  {
    && |positions| == |out| && Increasing(positions)
    && (forall i :: 0 <= i < |out| ==> from <= positions[i] < |rows| && rows[positions[i]] == out[i])
    && (forall k: nat :: from <= k < |rows| ==>
          (k in positions <==> rows[k].evaluation == st.evaluation && rows[k].key in live && LastOfPair(rows, k)))
  }

  lemma SupersededLater(rows: seq<Decision>, k: nat)
    requires k < |rows|
    ensures Superseded(rows[k], rows[k + 1..]) <==> !LastOfPair(rows, k)
  {
    if Superseded(rows[k], rows[k + 1..]) {
      var x :| x in rows[k + 1..] && x.evaluation == rows[k].evaluation && x.policy == rows[k].policy
               && x.key == rows[k].key;
      var j :| 0 <= j < |rows[k + 1..]| && rows[k + 1..][j] == x;
      assert rows[k + 1 + j] == x;
    } else {
      forall j | k < j < |rows| ensures rows[j] in rows[k + 1..] { assert rows[k + 1..][j - k - 1] == rows[j]; }
    }
  }

  lemma {:induction false} CurrentFrom(rows: seq<Decision>, st: Store, live: set<string>, from: nat)
    returns (positions: seq<nat>)
    requires from <= |rows|
    ensures Picks(rows, st, live, from, CurrentDecisions(st, rows[from..], live), positions)
    decreases |rows| - from
  {
    if from == |rows| {
      positions := [];
    } else {
      var later := CurrentFrom(rows, st, live, from + 1);
      assert rows[from..][1..] == rows[from + 1..];
      SupersededLater(rows, from);
      var d := rows[from];
      positions := if d.evaluation == st.evaluation && d.key in live && LastOfPair(rows, from) then [from] + later
                   else later;
    }
  }

  /// The current decisions are, in order, exactly the newest evaluation's for live processes, the last of each
  /// pair.
  lemma CurrentExactly(st: Store, live: set<string>) returns (positions: seq<nat>)
    ensures |positions| == |CurrentDecisions(st, st.decisions, live)| && Increasing(positions)
    ensures forall i :: 0 <= i < |positions| ==>
              positions[i] < |st.decisions| && st.decisions[positions[i]] == CurrentDecisions(st, st.decisions, live)[i]
    ensures forall k: nat :: k < |st.decisions| ==> (k in positions <==> IsCurrent(st, live, k))
  {
    assert st.decisions[0..] == st.decisions;
    positions := CurrentFrom(st.decisions, st, live, 0);
  }

  /// A candidate under a policy that enforces automatically.
  ghost predicate ActsOn(d: Decision, policies: seq<Definition>) {
    d.result == Candidate && exists p :: p in policies && Acts(p) && p.id == d.policy
  }

  predicate Acts(p: Definition) { p.enabled && p.mode == Enforce && p.automatic }

  /// The first row that automatic enforcement acts on.
  ghost predicate FirstActedOn(st: Store, live: set<string>, policies: seq<Definition>, k: nat)
    requires k < |st.decisions|
  {
    && IsCurrent(st, live, k) && ActsOn(st.decisions[k], policies)
    && forall j :: 0 <= j < k && IsCurrent(st, live, j) ==> !ActsOn(st.decisions[j], policies)
  }

  lemma {:induction false} SelectedIsFirst(rows: seq<Decision>, policies: seq<Definition>) returns (i: nat)
    ensures i <= |rows| && (Selected(rows, policies).Some? <==> i < |rows|)
    ensures i < |rows| ==> Selected(rows, policies) == Some(rows[i]) && ActsOn(rows[i], policies)
    ensures forall j :: 0 <= j < i ==> !ActsOn(rows[j], policies)
  {
    if rows == [] {
      i := 0;
    } else {
      assert Enforceable(rows[0], policies) <==> ActsOn(rows[0], policies) by {
        assert forall p: Definition :: Acts(p) <==> p.enabled && p.mode == Enforce && p.automatic;
      }
      if ActsOn(rows[0], policies) {
        i := 0;
      } else {
        i := SelectedIsFirst(rows[1..], policies);
        i := i + 1;
        forall j | 0 <= j < i ensures !ActsOn(rows[j], policies) {
          if j > 0 { assert rows[1..][j - 1] == rows[j]; }
        }
      }
    }
  }

  /// After a committed evaluation an automatic attempt is made exactly when enforcement is on and some current
  /// decision can be acted on, and it is made for the first of them.
  lemma AttemptIff(w: World, e: Event)
    requires e.Evaluated?
    ensures var v := Step(w, e);
            && (v.attempts != w.attempts <==>
                 e.automatic && exists k: nat :: k < |v.st.decisions| && FirstActedOn(v.st, e.live, e.policies, k))
            && (v.attempts != w.attempts ==>
                 exists k: nat :: k < |v.st.decisions| && FirstActedOn(v.st, e.live, e.policies, k)
                   && v.attempts == w.attempts + [Attempt(v.st.decisions[k])])
  {
    var v := Step(w, e);
    var rows := CurrentDecisions(v.st, v.st.decisions, e.live);
    var positions := CurrentExactly(v.st, e.live);
    var i := SelectedIsFirst(rows, e.policies);
    if i < |rows| {
      FirstRowActedOn(v.st, e.live, e.policies, rows, positions, i);
    } else {
      forall k: nat | k < |v.st.decisions| ensures !FirstActedOn(v.st, e.live, e.policies, k) {
        if IsCurrent(v.st, e.live, k) {
          var j :| 0 <= j < |positions| && positions[j] == k;
          assert rows[j] == v.st.decisions[k];
        }
      }
    }
  }

  lemma FirstRowActedOn(st: Store, live: set<string>, policies: seq<Definition>, rows: seq<Decision>,
                        positions: seq<nat>, i: nat)
    requires |positions| == |rows| && Increasing(positions) && i < |rows|
    requires forall j :: 0 <= j < |positions| ==>
               positions[j] < |st.decisions| && st.decisions[positions[j]] == rows[j]
    requires forall k: nat :: k < |st.decisions| ==> (k in positions <==> IsCurrent(st, live, k))
    requires ActsOn(rows[i], policies) && forall j :: 0 <= j < i ==> !ActsOn(rows[j], policies)
    ensures FirstActedOn(st, live, policies, positions[i])
  {
    var k := positions[i];
    assert k in positions;
    forall j: nat | j < k && IsCurrent(st, live, j) ensures !ActsOn(st.decisions[j], policies) {
      var l :| 0 <= l < |positions| && positions[l] == j;
      assert rows[l] == st.decisions[j];
    }
  }
}
