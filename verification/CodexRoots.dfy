/// Session roots of the Codex adapter (internal/adapters/codex/codex.go): candidates that descend
/// from another candidate of the same session are shadowed, the rest are kept as roots.

module CodexRoots {
  import opened Common
  import opened ProcessTree

  const CONFIDENCE_ROOT_DETECTION: real := 0.5

  /// What inspection of one process found; `native` is "" when the agent exposed no session id.
  datatype Signals = Signals(identityConfidence: real, native: string)

  datatype Candidate = Candidate(key: Key, native: string)

  type Candidates = map<int, Candidate>

  predicate Qualifies(p: Process, signals: Signals) {
    p.detailed && signals.identityConfidence >= CONFIDENCE_ROOT_DETECTION
  }

  /// What the first loop of `DetectRootProcesses` collects: a later qualifying entry of a PID replaces an
  /// earlier one.
  function Collect(s: Snapshot, signals: seq<Signals>): Candidates
    requires |signals| == |s|
  {
    if s == [] then map[]
    else
      var n := |s| - 1;
      var before := Collect(s[..n], signals[..n]);
      if Qualifies(s[n], signals[n]) then before[s[n].pid := Candidate(s[n].Id(), signals[n].native)] else before
  }

  ghost predicate LastQualifying(s: Snapshot, signals: seq<Signals>, pid: int, i: nat)
    requires |signals| == |s|
  {
    && i < |s| && s[i].pid == pid && Qualifies(s[i], signals[i])
    && forall j :: i < j < |s| && s[j].pid == pid ==> !Qualifies(s[j], signals[j])
  }

  /// The candidate of a PID is its last qualifying entry, and there is no other.
  lemma {:induction false} CandidateIsLastQualifying(s: Snapshot, signals: seq<Signals>, pid: int)
    requires |signals| == |s|
    ensures pid in Collect(s, signals) <==> exists i: nat :: LastQualifying(s, signals, pid, i)
    ensures forall i: nat :: LastQualifying(s, signals, pid, i) ==>
              pid in Collect(s, signals) && Collect(s, signals)[pid] == Candidate(s[i].Id(), signals[i].native)
  {
    if s != [] {
      var n := |s| - 1;
      CandidateIsLastQualifying(s[..n], signals[..n], pid);
      if s[n].pid == pid && Qualifies(s[n], signals[n]) {
        assert LastQualifying(s, signals, pid, n);
      } else {
        forall i: nat ensures LastQualifying(s, signals, pid, i) <==> LastQualifying(s[..n], signals[..n], pid, i) {
          QualifyingBefore(s, signals, pid, i);
        }
      }
    }
  }

  lemma QualifyingBefore(s: Snapshot, signals: seq<Signals>, pid: int, i: nat)
    requires |signals| == |s| && s != [] && !(s[|s| - 1].pid == pid && Qualifies(s[|s| - 1], signals[|s| - 1]))
    ensures LastQualifying(s, signals, pid, i) <==> LastQualifying(s[..|s| - 1], signals[..|s| - 1], pid, i)
  {
    var n := |s| - 1;
    assert forall j :: 0 <= j < n ==> s[..n][j] == s[j] && signals[..n][j] == signals[j];
  }

  lemma {:induction false} QualifyingIsCandidate(s: Snapshot, signals: seq<Signals>, i: nat)
    requires |signals| == |s| && i < |s| && Qualifies(s[i], signals[i])
    ensures s[i].pid in Collect(s, signals)
  {
    var n := |s| - 1;
    if i < n { QualifyingIsCandidate(s[..n], signals[..n], i); }
  }

  method CollectCandidates(s: Snapshot, signals: seq<Signals>) returns (candidates: Candidates)
    requires |signals| == |s|
    ensures candidates == Collect(s, signals)
    ensures forall pid :: pid in candidates <==>
              exists i :: 0 <= i < |s| && s[i].pid == pid && Qualifies(s[i], signals[i])
    ensures forall pid :: pid in candidates ==>
              exists i: nat :: LastQualifying(s, signals, pid, i)
                && candidates[pid] == Candidate(s[i].Id(), signals[i].native)
  {
    candidates := map[];
    for n := 0 to |s|
      invariant candidates == Collect(s[..n], signals[..n])
    {
      assert s[..n + 1][..n] == s[..n] && signals[..n + 1][..n] == signals[..n];
      if Qualifies(s[n], signals[n]) {
        candidates := candidates[s[n].pid := Candidate(s[n].Id(), signals[n].native)];
      }
    }
    assert s[..|s|] == s && signals[..|s|] == signals;
    forall pid | pid in candidates
      ensures exists i: nat ::
                LastQualifying(s, signals, pid, i) && candidates[pid] == Candidate(s[i].Id(), signals[i].native)
    {
      CandidateIsLastQualifying(s, signals, pid);
    }
    forall i | 0 <= i < |s| && Qualifies(s[i], signals[i])
      ensures s[i].pid in candidates
    {
      QualifyingIsCandidate(s, signals, i);
    }
  }

  /// `above` hides `below`: both name one session, or `below` names none.
  predicate Hides(candidates: Candidates, above: int, below: int)
    requires below in candidates
  {
    above in candidates && (candidates[below].native == "" || candidates[below].native == candidates[above].native)
  }

  ghost predicate Shadowed(s: Snapshot, candidates: Candidates, pid: int)
    requires pid in candidates
  {
    exists a :: a in AncestorChain(s, pid) && Hides(candidates, a, pid)
  }

  ghost predicate Kept(s: Snapshot, candidates: Candidates, pid: int) {
    pid in candidates && !Shadowed(s, candidates, pid)
  }

  /// `roots` is exactly the kept part of `candidates`.
  ghost predicate KeptPart(s: Snapshot, candidates: Candidates, roots: Candidates) {
    && (forall pid :: pid in roots <==> Kept(s, candidates, pid))
    && (forall pid :: pid in roots ==> roots[pid] == candidates[pid])
  }

  /// The second loop of `DetectRootProcesses`; `order` is the order in which the map yields its keys.
  method DetectRoots(t: Tree, candidates: Candidates, order: seq<int>) returns (roots: Candidates)
    requires Built(t, t.snap)
    requires forall pid :: pid in order <==> pid in candidates
    ensures KeptPart(t.snap, candidates, roots)
  {
    roots := map[];
    for n := 0 to |order|
      invariant forall pid :: pid in roots <==> Kept(t.snap, candidates, pid) && pid in order[..n]
      invariant forall pid :: pid in roots ==> pid in candidates && roots[pid] == candidates[pid]
    {
      var pid := order[n];
      assert pid in candidates && order[..n + 1] == order[..n] + [pid];
      var chain := Ancestors(t, pid);
      var shadowed := false;
      for i := 0 to |chain|
        invariant !shadowed
        invariant forall a :: a in chain[..i] ==> !Hides(candidates, a, pid)
      {
        if Hides(candidates, chain[i], pid) {
          shadowed := true;
          break;
        }
      }
      if !shadowed {
        roots := roots[pid := candidates[pid]];
      }
    }
  }

  // ---------------------------------------------------------------------------------------------
  // Attribution
  // ---------------------------------------------------------------------------------------------

  /// A session id is the agent's own id made printable, or a digest of the root's process key.
  datatype SessionId = Native(text: string) | Derived(key: Key)

  predicate Printable(c: char) {
    'a' <= c <= 'z' || 'A' <= c <= 'Z' || '0' <= c <= '9' || c == '-' || c == '_'
  }

  const MAX_NATIVE: nat := 64

  function Sanitize(text: string): (r: string)
    ensures |r| == if |text| < MAX_NATIVE then |text| else MAX_NATIVE
    ensures forall i :: 0 <= i < |r| ==> Printable(r[i]) && (Printable(text[i]) ==> r[i] == text[i])
  {
    var kept := if |text| < MAX_NATIVE then text else text[..MAX_NATIVE];
    seq(|kept|, i requires 0 <= i < |kept| => if Printable(kept[i]) then kept[i] else '-')
  }

  function DeriveSessionId(root: Candidate): SessionId {
    if root.native != "" then Native(Sanitize(root.native)) else Derived(root.key)
  }

  datatype Attribution = Attribution(session: SessionId, root: int, isRoot: bool)

  function NearestRoot(chain: seq<int>, roots: Candidates): (r: Option<int>)
    ensures r.Some? ==> r.value in chain && r.value in roots
    ensures r.None? ==> forall a :: a in chain ==> a !in roots
  {
    if chain == [] then None
    else if chain[0] in roots then Some(chain[0])
    else NearestRoot(chain[1..], roots)
  }

  /// `AttributeProcess`: a root is its own session, any other process belongs to the nearest root above.
  function AttributeProcess(s: Snapshot, roots: Candidates, p: Process): Option<Attribution> {
    if p.pid in roots && roots[p.pid].key == p.Id() then
      Some(Attribution(DeriveSessionId(roots[p.pid]), p.pid, true))
    else match NearestRoot(AncestorChain(s, p.pid), roots)
      case None => None
      case Some(r) => Some(Attribution(DeriveSessionId(roots[r]), r, false))
  }

  // ---------------------------------------------------------------------------------------------
  // Every shadowed candidate has a kept root above it
  // ---------------------------------------------------------------------------------------------

  lemma {:induction false} UpAdds(s: Snapshot, j: nat, k: nat, x: int)
    requires Up(s, j, x).Some?
    ensures Up(s, j + k, x) == Up(s, k, Up(s, j, x).value)
  {
    if j > 0 {
      UpAdds(s, j - 1, k, Parent(s, x).value);
    }
  }

  lemma {:induction false} UpEnds(s: Snapshot, n: nat, k: nat, x: int)
    requires Up(s, n, x) == None && n <= k
    ensures Up(s, k, x) == None
    decreases k
  {
    if n < k {
      UpEnds(s, n, k - 1, x);
      UpStep(s, k - 1, x);
    }
  }

  /// On the way up from `x`, whatever of `pids` is an ancestor of one that is met is met after it.
  ghost predicate InOrder(s: Snapshot, pids: set<int>, x: int) {
    forall j: nat, a :: OutOfOrder(s, x, j, a) && AncestorChain(s, x)[j] in pids ==> a !in pids
  }

  /// `a` is above a process met on the way up from `x`, but is not met after it.
  ghost predicate OutOfOrder(s: Snapshot, x: int, j: nat, a: int) {
    var chain := AncestorChain(s, x);
    j < |chain| && a in AncestorChain(s, chain[j]) && a !in chain[j + 1..]
  }

  /// `r` is a candidate that would hide whatever a hider of `c` hides.
  predicate Stands(candidates: Candidates, c: int, r: int)
    requires c in candidates
  {
    r in candidates && (candidates[c].native != "" ==> candidates[r].native == candidates[c].native)
  }

  lemma {:induction false} Topmost(candidates: Candidates, c: int, chain: seq<int>) returns (j: nat)
    requires c in candidates && exists a :: a in chain && Stands(candidates, c, a)
    ensures j < |chain| && Stands(candidates, c, chain[j])
    ensures forall a :: a in chain[j + 1..] ==> !Stands(candidates, c, a)
  {
    var n := |chain| - 1;
    assert chain == chain[..n] + [chain[n]];
    if Stands(candidates, c, chain[n]) {
      j := n;
    } else {
      j := Topmost(candidates, c, chain[..n]);
      assert chain[j + 1..] == chain[..n][j + 1..] + [chain[n]];
    }
  }

  /// Main result: where candidates are met in order, a shadowed one has a kept root among its ancestors, with
  /// the same native id when it has one.
  lemma ShadowedHasKeptRoot(s: Snapshot, candidates: Candidates, c: int)
    requires c in candidates && Shadowed(s, candidates, c) && InOrder(s, candidates.Keys, c)
    ensures exists r :: r in AncestorChain(s, c) && Kept(s, candidates, r)
                        && (candidates[c].native != "" ==> candidates[r].native == candidates[c].native)
  {
    var chain := AncestorChain(s, c);
    var a :| a in chain && Hides(candidates, a, c);
    assert Stands(candidates, c, a);
    var j := Topmost(candidates, c, chain);
    if Shadowed(s, candidates, chain[j]) {
      var b :| b in AncestorChain(s, chain[j]) && Hides(candidates, b, chain[j]);
      assert Stands(candidates, c, b);
      assert OutOfOrder(s, c, j, b);
    }
    assert chain[j] in chain;
  }

  predicate IsCandidate(candidates: Candidates, p: Process) { p.pid in candidates && candidates[p.pid].key == p.Id() }

  /// There every candidate is given a session: its own when kept, else that of the nearest kept root above it.
  lemma EveryCandidateHasSession(s: Snapshot, candidates: Candidates, roots: Candidates, p: Process)
    requires KeptPart(s, candidates, roots)
    requires IsCandidate(candidates, p) && InOrder(s, candidates.Keys, p.pid)
    ensures AttributeProcess(s, roots, p).Some?
    ensures AttributeProcess(s, roots, p).value.isRoot <==> Kept(s, candidates, p.pid)
    ensures AttributeProcess(s, roots, p).value.isRoot ==> AttributeProcess(s, roots, p).value.root == p.pid
    ensures AttributeProcess(s, roots, p).value.root in roots
  {
    if Shadowed(s, candidates, p.pid) { ShadowedHasKeptRoot(s, candidates, p.pid); }
  }

  // ---------------------------------------------------------------------------------------------
  // The condition is exact for what one snapshot lets be collected
  // ---------------------------------------------------------------------------------------------

  /// The PIDs that can become candidates: those of processes observed in detail.
  function Detailed(s: Snapshot): set<int> { set i | 0 <= i < |s| && s[i].detailed :: s[i].pid }

  lemma FewerInOrder(s: Snapshot, pids: set<int>, fewer: set<int>, x: int)
    requires InOrder(s, pids, x) && fewer <= pids
    ensures InOrder(s, fewer, x)
  {}

  lemma CollectedAreDetailed(s: Snapshot, signals: seq<Signals>)
    requires |signals| == |s|
    ensures Collect(s, signals).Keys <= Detailed(s)
  {
    forall pid | pid in Collect(s, signals) ensures pid in Detailed(s) {
      CandidateIsLastQualifying(s, signals, pid);
      var i: nat :| LastQualifying(s, signals, pid, i);
    }
  }

  predicate OneOf(n: int, i: int, k: int, l: int) { n == i || n == k || n == l }

  /// Inspection finds the processes at these positions to be the agent's, without a native id, and no others.
  predicate Picks(s: Snapshot, signals: seq<Signals>, i: int, k: int, l: int) {
    && |signals| == |s|
    && forall n :: 0 <= n < |s| ==> signals[n] == Signals(if OneOf(n, i, k, l) then 1.0 else 0.0, "")
  }

  lemma PicksExist(s: Snapshot, i: int, k: int, l: int) returns (signals: seq<Signals>)
    ensures Picks(s, signals, i, k, l)
  {
    signals := seq(|s|, n => Signals(if OneOf(n, i, k, l) then 1.0 else 0.0, ""));
  }

  /// What that collects: one candidate per PID of a picked entry that was observed in detail.
  lemma PickedCandidate(s: Snapshot, signals: seq<Signals>, i: int, k: int, l: int, n: nat)
    requires Picks(s, signals, i, k, l) && n < |s| && s[n].detailed && OneOf(n, i, k, l)
    requires forall m :: 0 <= m < |s| && OneOf(m, i, k, l) && s[m].pid == s[n].pid ==> m == n
    ensures s[n].pid in Collect(s, signals) && Collect(s, signals)[s[n].pid] == Candidate(s[n].Id(), "")
  {
    CandidateIsLastQualifying(s, signals, s[n].pid);
    assert LastQualifying(s, signals, s[n].pid, n);
  }

  lemma OnlyPicked(s: Snapshot, signals: seq<Signals>, i: int, k: int, l: int, pid: int)
    requires Picks(s, signals, i, k, l) && pid in Collect(s, signals)
    ensures exists n :: 0 <= n < |s| && OneOf(n, i, k, l) && s[n].pid == pid && Collect(s, signals)[pid].native == ""
  {
    CandidateIsLastQualifying(s, signals, pid);
    var n: nat :| LastQualifying(s, signals, pid, n);
  }

  ghost predicate HasKeptRoot(s: Snapshot, candidates: Candidates, x: int) {
    exists r :: r in AncestorChain(s, x) && Kept(s, candidates, r)
  }

  lemma DetailedEntry(s: Snapshot, pid: int) returns (i: nat)
    requires pid in Detailed(s)
    ensures i < |s| && s[i].pid == pid && s[i].detailed
  {
    i :| 0 <= i < |s| && s[i].detailed && s[i].pid == pid;
  }

  /// An ancestor met out of order stands outside the chain of `x`, or is `x`, or has `chain[j]` above it too.
  lemma OutOfOrderHides(s: Snapshot, x: int, j: nat, a: int)
    requires OutOfOrder(s, x, j, a)
    ensures a != AncestorChain(s, x)[j] && x != AncestorChain(s, x)[j]
    ensures a in AncestorChain(s, x) ==> AncestorChain(s, x)[j] in AncestorChain(s, a)
  {
    var chain := AncestorChain(s, x);
    var r := chain[j];
    ChainListsAncestors(s, x);
    ChainListsAncestors(s, r);
    assert r in chain;
    if a in chain {
      var i :| 0 <= i < |chain| && chain[i] == a;
      assert forall n :: j < n < |chain| ==> chain[n] == chain[j + 1..][n - j - 1];
      UpAdds(s, i + 1, j - i, x);
      WalkIsUp(s, x, {x}, MAX_TREE_DEPTH);
      assert 1 <= j - i <= MAX_TREE_DEPTH && Up(s, j - i, a) == Some(r);
      ChainListsAncestors(s, a);
    }
  }

  /// With just these three as candidates `x` is shadowed and nobody on its chain is kept.
  lemma ThreeLoseRoot(s: Snapshot, candidates: Candidates, x: int, j: nat, a: int)
    requires OutOfOrder(s, x, j, a) && candidates.Keys == {x, AncestorChain(s, x)[j], a}
    requires forall pid :: pid in candidates ==> candidates[pid].native == ""
    ensures Shadowed(s, candidates, x) && !HasKeptRoot(s, candidates, x)
  {
    var chain := AncestorChain(s, x);
    var r := chain[j];
    OutOfOrderHides(s, x, j, a);
    ChainListsAncestors(s, x);
    assert r in chain && Hides(candidates, r, x);
    assert Hides(candidates, a, r) && Shadowed(s, candidates, r);
    if a in chain { assert Hides(candidates, r, a) && Shadowed(s, candidates, a); }
  }

  /// Inspection can make candidates of the processes at three positions, and of no others.
  lemma ThreeCollected(s: Snapshot, i: nat, k: nat, l: nat) returns (signals: seq<Signals>)
    requires i < |s| && k < |s| && l < |s| && s[i].detailed && s[k].detailed && s[l].detailed
    requires (s[k].pid == s[i].pid ==> k == i) && (s[l].pid == s[i].pid ==> l == i) && (s[l].pid == s[k].pid ==> l == k)
    ensures |signals| == |s| && IsCandidate(Collect(s, signals), s[i])
    ensures Collect(s, signals).Keys == {s[i].pid, s[k].pid, s[l].pid}
    ensures forall pid :: pid in Collect(s, signals) ==> Collect(s, signals)[pid].native == ""
  {
    signals := PicksExist(s, i, k, l);
    PickedCandidate(s, signals, i, k, l, i);
    PickedCandidate(s, signals, i, k, l, k);
    PickedCandidate(s, signals, i, k, l, l);
    forall pid | pid in Collect(s, signals)
      ensures pid in {s[i].pid, s[k].pid, s[l].pid} && Collect(s, signals)[pid].native == ""
    {
      OnlyPicked(s, signals, i, k, l, pid);
    }
  }

  /// What inspection may find of this snapshot so that the process observed at position `i`, on whose way up
  /// others are met out of order, is a shadowed candidate without a kept root above it.
  lemma LosingSignals(s: Snapshot, i: nat) returns (signals: seq<Signals>)
    requires i < |s| && s[i].detailed && !InOrder(s, Detailed(s), s[i].pid)
    ensures |signals| == |s| && IsCandidate(Collect(s, signals), s[i])
    ensures Shadowed(s, Collect(s, signals), s[i].pid) && !HasKeptRoot(s, Collect(s, signals), s[i].pid)
  {
    var x := s[i].pid;
    var j: nat, a :| OutOfOrder(s, x, j, a) && AncestorChain(s, x)[j] in Detailed(s) && a in Detailed(s);
    OutOfOrderHides(s, x, j, a);
    var k := DetailedEntry(s, AncestorChain(s, x)[j]);
    var l := i;
    if a != x { l := DetailedEntry(s, a); }
    signals := ThreeCollected(s, i, k, l);
    ThreeLoseRoot(s, Collect(s, signals), x, j, a);
  }

  /// Whatever inspection finds of the processes of this snapshot, shadowing `x` leaves it a kept root above.
  ghost predicate AlwaysHasKeptRoot(s: Snapshot, x: int) {
    forall signals: seq<Signals> ::
      |signals| == |s| && x in Collect(s, signals) && Shadowed(s, Collect(s, signals), x) ==>
          HasKeptRoot(s, Collect(s, signals), x)
  }

  /// Whatever inspection finds, the process is given a session whenever it is a candidate.
  ghost predicate AlwaysHasSession(s: Snapshot, p: Process) {
    forall signals: seq<Signals>, roots ::
      |signals| == |s| && KeptPart(s, Collect(s, signals), roots) && IsCandidate(Collect(s, signals), p)
      ==> AttributeProcess(s, roots, p).Some?
  }

  lemma InOrderKeepsRoot(s: Snapshot, signals: seq<Signals>, x: int)
    requires |signals| == |s| && InOrder(s, Detailed(s), x) && x in Collect(s, signals)
    requires Shadowed(s, Collect(s, signals), x)
    ensures HasKeptRoot(s, Collect(s, signals), x)
  {
    CollectedAreDetailed(s, signals);
    FewerInOrder(s, Detailed(s), Collect(s, signals).Keys, x);
    ShadowedHasKeptRoot(s, Collect(s, signals), x);
  }

  /// Over everything that can be collected from a snapshot, shadowing always leaves a kept root exactly when
  /// the processes observed in detail are met in order on the way up.
  lemma KeptRootIffInOrder(s: Snapshot, x: int)
    requires x in Detailed(s)
    ensures AlwaysHasKeptRoot(s, x) <==> InOrder(s, Detailed(s), x)
  {
    if InOrder(s, Detailed(s), x) {
      forall signals: seq<Signals> | |signals| == |s| && x in Collect(s, signals) && Shadowed(s, Collect(s, signals), x)
        ensures HasKeptRoot(s, Collect(s, signals), x)
      {
        InOrderKeepsRoot(s, signals, x);
      }
    } else {
      var i := DetailedEntry(s, x);
      var signals := LosingSignals(s, i);
    }
  }

  lemma NoSession(s: Snapshot, candidates: Candidates, p: Process) returns (roots: Candidates)
    requires IsCandidate(candidates, p) && Shadowed(s, candidates, p.pid) && !HasKeptRoot(s, candidates, p.pid)
    ensures KeptPart(s, candidates, roots) && AttributeProcess(s, roots, p).None?
  {
    roots := map pid | pid in candidates && Kept(s, candidates, pid) :: candidates[pid];
    assert forall r :: r in AncestorChain(s, p.pid) ==> r !in roots;
  }

  lemma InOrderHasSession(s: Snapshot, signals: seq<Signals>, roots: Candidates, p: Process)
    requires |signals| == |s| && InOrder(s, Detailed(s), p.pid)
    requires KeptPart(s, Collect(s, signals), roots) && IsCandidate(Collect(s, signals), p)
    ensures AttributeProcess(s, roots, p).Some?
  {
    CollectedAreDetailed(s, signals);
    FewerInOrder(s, Detailed(s), Collect(s, signals).Keys, p.pid);
    EveryCandidateHasSession(s, Collect(s, signals), roots, p);
  }

  /// A process observed in detail is given a session whenever it is a candidate under exactly that condition.
  lemma SessionIffInOrder(s: Snapshot, p: Process)
    requires p in s && p.detailed
    ensures AlwaysHasSession(s, p) <==> InOrder(s, Detailed(s), p.pid)
  {
    if InOrder(s, Detailed(s), p.pid) {
      forall signals: seq<Signals>, roots
        | |signals| == |s| && KeptPart(s, Collect(s, signals), roots) && IsCandidate(Collect(s, signals), p)
        ensures AttributeProcess(s, roots, p).Some?
      {
        InOrderHasSession(s, signals, roots, p);
      }
    } else {
      var i: nat :| i < |s| && s[i] == p;
      var signals := LosingSignals(s, i);
      var roots := NoSession(s, Collect(s, signals), p);
    }
  }

  // ---------------------------------------------------------------------------------------------
  // At most 128 links are in order
  // ---------------------------------------------------------------------------------------------

  /// The believed links above `pid` end, without a cycle, within the walk bound.
  ghost predicate Grounded(s: Snapshot, pid: int) { Up(s, MAX_TREE_DEPTH + 1, pid) == None }

  lemma ParentIsOther(s: Snapshot, x: int)
    requires Parent(s, x).Some?
    ensures Parent(s, x).value != x
  {}

  /// Links that return to a process never end.
  lemma {:induction false} NoReturn(s: Snapshot, x: int, c: nat, k: nat)
    requires c > 0 && Up(s, c, x) == Some(x)
    ensures Up(s, k, x).Some?
    decreases k
  {
    if k <= c {
      if Up(s, k, x) == None { UpEnds(s, k, c, x); }
    } else {
      UpAdds(s, c, k - c, x);
      NoReturn(s, x, c, k - c);
    }
  }

  lemma GroundedIsInOrder(s: Snapshot, pids: set<int>, x: int)
    requires Grounded(s, x)
    ensures InOrder(s, pids, x)
  {
    var chain := AncestorChain(s, x);
    forall j: nat, a ensures !OutOfOrder(s, x, j, a) {
      if j < |chain| && a in AncestorChain(s, chain[j]) { GroundedAncestorFollows(s, x, j, a); }
    }
  }

  lemma GroundedAncestorFollows(s: Snapshot, x: int, j: nat, a: int)
    requires Grounded(s, x) && j < |AncestorChain(s, x)| && a in AncestorChain(s, AncestorChain(s, x)[j])
    ensures a in AncestorChain(s, x)[j + 1..]
  {
    var chain := AncestorChain(s, x);
    ChainListsAncestors(s, x);
    ChainListsAncestors(s, chain[j]);
    var k :| 1 <= k <= MAX_TREE_DEPTH && Up(s, k, chain[j]) == Some(a);
    UpAdds(s, j + 1, k, x);
    var n := j + 1 + k;
    if n > MAX_TREE_DEPTH { UpEnds(s, MAX_TREE_DEPTH + 1, n, x); }
    if a == x { NoReturn(s, x, n, MAX_TREE_DEPTH + 1); }
    assert IsAncestor(s, x, a);
    var i :| 0 <= i < |chain| && chain[i] == a;
    if i <= j { ReturnsAbove(s, x, i + 1, n); }
    assert chain[j + 1..][i - j - 1] == a;
  }

  /// No process is met twice on links that end.
  lemma ReturnsAbove(s: Snapshot, x: int, i: nat, n: nat)
    requires i < n && Up(s, i, x).Some? && Up(s, n, x) == Up(s, i, x)
    ensures !Grounded(s, x)
  {
    var a := Up(s, i, x).value;
    UpAdds(s, i, n - i, x);
    NoReturn(s, a, n - i, MAX_TREE_DEPTH + 1);
    UpAdds(s, i, MAX_TREE_DEPTH + 1, x);
    if Grounded(s, x) { UpEnds(s, MAX_TREE_DEPTH + 1, i + MAX_TREE_DEPTH + 1, x); }
  }

  /// In a snapshot observed in detail throughout, processes are met in order exactly when the links end within
  /// the bound.
  lemma InOrderIffGrounded(s: Snapshot, x: int)
    requires forall p :: p in s ==> p.detailed
    ensures InOrder(s, Detailed(s), x) <==> Grounded(s, x)
  {
    if Grounded(s, x) {
      GroundedIsInOrder(s, Detailed(s), x);
    } else {
      LastIsOutOfOrder(s, x);
    }
  }

  lemma {:induction false} LinkedAreListed(s: Snapshot, x: int, k: nat)
    requires k > 0 && Up(s, k, x).Some?
    ensures exists p :: p in s && p.pid == Up(s, k, x).value
  {
    UpStep(s, k - 1, x);
    var below := Up(s, k - 1, x).value;
    assert Parent(s, below) == Up(s, k, x);
    assert ByPid(s, Up(s, k, x).value).Some?;
  }

  lemma LinkedIsDetailed(s: Snapshot, x: int, k: nat)
    requires (forall p :: p in s ==> p.detailed) && k > 0 && Up(s, k, x).Some?
    ensures Up(s, k, x).value in Detailed(s)
  {
    LinkedAreListed(s, x, k);
    var p :| p in s && p.pid == Up(s, k, x).value;
    var i :| 0 <= i < |s| && s[i] == p;
    assert s[i].detailed && s[i].pid == p.pid;
  }

  /// The last process of a chain that was cut off has a parent, and that is not met after it.
  lemma LastIsOutOfOrder(s: Snapshot, x: int)
    requires !Grounded(s, x) && forall p :: p in s ==> p.detailed
    ensures !InOrder(s, Detailed(s), x)
  {
    var chain := AncestorChain(s, x);
    WalkIsUp(s, x, {x}, MAX_TREE_DEPTH);
    if Up(s, 1, x) == None { UpEnds(s, 1, MAX_TREE_DEPTH + 1, x); }
    UpStep(s, 0, x);
    ParentIsOther(s, x);
    var n := |chain|;
    assert n > 0;
    if Up(s, n + 1, x) == None { UpEnds(s, n + 1, MAX_TREE_DEPTH + 1, x); }
    UpStep(s, n, x);
    assert Up(s, n - 1 + 1, x) == Some(chain[n - 1]);
    var r, a := chain[n - 1], Up(s, n + 1, x).value;
    ParentIsOther(s, r);
    UpStep(s, 0, r);
    ChainListsAncestors(s, r);
    assert Up(s, 1, r) == Some(a) && IsAncestor(s, r, a);
    LinkedIsDetailed(s, x, n);
    LinkedIsDetailed(s, x, n + 1);
    assert chain[n - 1 + 1..] == [];
    assert OutOfOrder(s, x, n - 1, a);
  }

  // ---------------------------------------------------------------------------------------------
  // Whose session a shadowed candidate gets
  // ---------------------------------------------------------------------------------------------

  lemma {:induction false} NearestRootIsFirst(chain: seq<int>, roots: Candidates) returns (i: nat)
    requires NearestRoot(chain, roots).Some?
    ensures i < |chain| && NearestRoot(chain, roots) == Some(chain[i]) && chain[i] in roots
    ensures forall j :: 0 <= j < i ==> chain[j] !in roots
  {
    if chain[0] in roots {
      i := 0;
    } else {
      i := NearestRootIsFirst(chain[1..], roots);
      i := i + 1;
      assert forall j :: 1 <= j < i ==> chain[j] == chain[1..][j - 1];
    }
  }

  /// `r` is a kept root of the session that candidate `c` names for itself.
  predicate OwnRoot(candidates: Candidates, roots: Candidates, c: int, r: int)
    requires c in candidates
  {
    r in roots && DeriveSessionId(roots[r]) == DeriveSessionId(candidates[c])
  }

  /// On the way up, every root of another session comes after some root of the candidate's own.
  ghost predicate OwnRootIsNearest(chain: seq<int>, candidates: Candidates, roots: Candidates, c: int)
    requires c in candidates
  {
    forall i :: 0 <= i < |chain| && chain[i] in roots && !OwnRoot(candidates, roots, c, chain[i]) ==>
      exists j :: 0 <= j < i && OwnRoot(candidates, roots, c, chain[j])
  }

  /// A shadowed candidate that names its session is attributed to that session exactly when no kept root of
  /// another session stands below all kept roots of its own.
  lemma OwnSessionIffOwnRootIsNearest(s: Snapshot, candidates: Candidates, roots: Candidates, p: Process)
    requires KeptPart(s, candidates, roots) && IsCandidate(candidates, p) && InOrder(s, candidates.Keys, p.pid)
    requires Shadowed(s, candidates, p.pid) && candidates[p.pid].native != ""
    ensures AttributeProcess(s, roots, p).Some?
    ensures AttributeProcess(s, roots, p).value.session == DeriveSessionId(candidates[p.pid])
            <==> OwnRootIsNearest(AncestorChain(s, p.pid), candidates, roots, p.pid)
  {
    EveryCandidateHasSession(s, candidates, roots, p);
    var chain := AncestorChain(s, p.pid);
    var i := NearestRootIsFirst(chain, roots);
    if OwnRoot(candidates, roots, p.pid, chain[i]) {
      forall k | 0 <= k < |chain| && chain[k] in roots && !OwnRoot(candidates, roots, p.pid, chain[k])
        ensures exists j :: 0 <= j < k && OwnRoot(candidates, roots, p.pid, chain[j])
      {
        assert i < k;
      }
    } else {
      assert forall j :: 0 <= j < i ==> !OwnRoot(candidates, roots, p.pid, chain[j]);
    }
  }

  // ---------------------------------------------------------------------------------------------
  // Where the adapter does less than it promises
  // ---------------------------------------------------------------------------------------------

  function Worker(pid: int, ppid: int, start: Time): Process {
    Process(pid, ppid, start, Running, true, 0)
  }

  /// Two candidates that started at one instant and claim each other as parent: both are shadowed,
  /// no root is kept and neither is given a session.
  lemma ParentCycleLosesBothRoots()
    ensures var s := [Worker(2, 3, 7), Worker(3, 2, 7)];
            var candidates := map[2 := Candidate(Key(2, 7), ""), 3 := Candidate(Key(3, 7), "")];
            && DistinctPids(s) && Shadowed(s, candidates, 2) && Shadowed(s, candidates, 3)
            && KeptPart(s, candidates, map[])
            && AttributeProcess(s, map[], s[0]) == None
  {
    var two, three := Worker(2, 3, 7), Worker(3, 2, 7);
    var s := [two, three];
    var candidates := map[2 := Candidate(Key(2, 7), ""), 3 := Candidate(Key(3, 7), "")];
    assert s[..1] == [two];
    assert ByPid(s, 2) == Some(two) && ByPid(s, 3) == Some(three);
    assert Parent(s, 2) == Some(3) && Parent(s, 3) == Some(2);
    assert Up(s, 0, 2) == Some(2) && Up(s, 0, 3) == Some(3);
    assert Up(s, 1, 2) == Some(3) && Up(s, 1, 3) == Some(2);
    assert IsAncestor(s, 2, 3) && IsAncestor(s, 3, 2);
    ChainListsAncestors(s, 2);
    ChainListsAncestors(s, 3);
    assert Hides(candidates, 3, 2) && Hides(candidates, 2, 3);
  }

  /// A line of `n` processes: PID 2 at the top, each later PID the child of the one before.
  function Line(n: nat): Snapshot {
    seq(n, i => Worker(i + 2, i + 1, i))
  }

  lemma {:induction false} LineByPid(n: nat, pid: int)
    ensures ByPid(Line(n), pid) == if 2 <= pid < n + 2 then Some(Worker(pid, pid - 1, pid - 2)) else None
  {
    if n > 0 {
      assert Line(n)[..n - 1] == Line(n - 1);
      LineByPid(n - 1, pid);
    }
  }

  lemma LineParent(n: nat, pid: int)
    ensures Parent(Line(n), pid) == if 2 < pid < n + 2 then Some(pid - 1) else None
  {
    LineByPid(n, pid);
    LineByPid(n, pid - 1);
  }

  lemma {:induction false} LineUp(n: nat, k: nat, pid: int)
    requires 2 <= pid < n + 2
    ensures Up(Line(n), k, pid) == if k <= pid - 2 then Some(pid - k) else None
  {
    if k > 0 {
      LineParent(n, pid);
      if pid > 2 { LineUp(n, k - 1, pid - 1); }
    }
  }

  lemma LineAncestors(n: nat, pid: int, a: int)
    requires 2 <= pid < n + 2
    ensures IsAncestor(Line(n), pid, a) <==> 2 <= a < pid && pid - a <= MAX_TREE_DEPTH
  {
    if 2 <= a < pid { LineUp(n, pid - a, pid); }
    if IsAncestor(Line(n), pid, a) {
      var k :| 1 <= k <= MAX_TREE_DEPTH && Up(Line(n), k, pid) == Some(a);
      LineUp(n, k, pid);
    }
  }

  lemma LineChain(n: nat, pid: int)
    requires 2 <= pid < n + 2
    ensures forall a :: a in AncestorChain(Line(n), pid) <==> 2 <= a < pid && pid - a <= MAX_TREE_DEPTH
  {
    ChainListsAncestors(Line(n), pid);
    forall a ensures a in AncestorChain(Line(n), pid) <==> 2 <= a < pid && pid - a <= MAX_TREE_DEPTH {
      LineAncestors(n, pid, a);
    }
  }

  /// One level beyond the walk bound is enough to lose a candidate: the bottom of a line of 130 sees
  /// the shadowed ancestor 128 levels up but not the kept root 129 levels up.
  lemma DeepTreeLosesCandidate(n: nat)
    requires n == MAX_TREE_DEPTH + 2
    ensures var candidates: Candidates :=
              map[2 := Candidate(Key(2, 0), ""), 3 := Candidate(Key(3, 1), ""),
                  n + 1 := Candidate(Key(n + 1, n - 1), "")];
            && DistinctPids(Line(n)) && Shadowed(Line(n), candidates, n + 1)
            && forall r :: r in AncestorChain(Line(n), n + 1) ==> !Kept(Line(n), candidates, r)
  {
    var candidates: Candidates :=
      map[2 := Candidate(Key(2, 0), ""), 3 := Candidate(Key(3, 1), ""), n + 1 := Candidate(Key(n + 1, n - 1), "")];
    LineChain(n, n + 1);
    LineChain(n, 3);
    assert Hides(candidates, 3, n + 1) && Hides(candidates, 2, 3);
    assert 2 in AncestorChain(Line(n), 3);
    assert Shadowed(Line(n), candidates, 3);
  }

  /// The first link up from the bottom of a line of three.
  lemma NearestAbove()
    ensures AncestorChain(Line(3), 4) != [] && AncestorChain(Line(3), 4)[0] == 3
  {
    LineChain(3, 4);
    ChainListsAncestors(Line(3), 4);
    LineUp(3, 1, 4);
    assert 3 in AncestorChain(Line(3), 4);
    assert Up(Line(3), 0 + 1, 4) == Some(AncestorChain(Line(3), 4)[0]);
  }

  /// A shadowed candidate that names its session can still be attributed to another one, when a root
  /// of a different session stands between it and its own.
  lemma NearestRootMayBeAnotherSession()
    ensures var candidates :=
              map[2 := Candidate(Key(2, 0), "a"), 3 := Candidate(Key(3, 1), "b"), 4 := Candidate(Key(4, 2), "a")];
            var roots := candidates - {4};
            && KeptPart(Line(3), candidates, roots)
            && AttributeProcess(Line(3), roots, Worker(4, 3, 2)) == Some(Attribution(Native("b"), 3, false))
            && DeriveSessionId(candidates[4]) == DeriveSessionId(candidates[2]) == Native("a")
  {
    var candidates :=
      map[2 := Candidate(Key(2, 0), "a"), 3 := Candidate(Key(3, 1), "b"), 4 := Candidate(Key(4, 2), "a")];
    LineChain(3, 2);
    LineChain(3, 3);
    LineChain(3, 4);
    assert 2 in AncestorChain(Line(3), 4) && Hides(candidates, 2, 4);
    assert Shadowed(Line(3), candidates, 4);
    NearestAbove();
    assert Sanitize("a") == "a" && Sanitize("b") == "b";
  }
}
