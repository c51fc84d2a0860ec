/// Which processes the Codex adapter takes for session roots and whom it attributes to them, in terms of the
/// snapshot, the signals and parent links themselves (internal/adapters/codex/codex.go and paths.go).

module CodexMeaning {
  import opened Common
  import opened ProcessTree
  import opened CodexRoots

  // ---------------------------------------------------------------------------------------------
  // Roots
  // ---------------------------------------------------------------------------------------------

  /// Read in detail, and its identity as an agent is at least as likely as not.
  predicate LooksLikeAgent(p: Process, signals: Signals) { p.detailed && signals.identityConfidence >= 0.5 }

  /// The last entry of the PID that looks like an agent.
  predicate LastAgent(s: Snapshot, signals: seq<Signals>, pid: int, i: int)
    requires |signals| == |s|
  {
    && 0 <= i < |s| && s[i].pid == pid && LooksLikeAgent(s[i], signals[i])
    && forall j :: i < j < |s| && s[j].pid == pid ==> !LooksLikeAgent(s[j], signals[j])
  }

  /// The candidates are exactly the PIDs with such an entry, with its identity and its native session id.
  lemma CandidatesExactly(s: Snapshot, signals: seq<Signals>, pid: int)
    requires |signals| == |s|
    ensures pid in Collect(s, signals) <==> exists i :: LastAgent(s, signals, pid, i)
    ensures forall i :: LastAgent(s, signals, pid, i) ==>
              && pid in Collect(s, signals)
              && Collect(s, signals)[pid] == Candidate(Key(pid, s[i].startTime), signals[i].native)
  {
    CandidateIsLastQualifying(s, signals, pid);
    assert forall i: nat :: LastAgent(s, signals, pid, i) <==> LastQualifying(s, signals, pid, i);
  }

  /// `a` is between 1 and 128 intact links above `x`.
  ghost predicate Above(s: Snapshot, x: int, a: int) {
    a != x && exists k :: 1 <= k <= 128 && Up(s, k, x) == Some(a)
  }

  lemma AncestorsAreAbove(s: Snapshot, x: int, a: int)
    ensures a in AncestorChain(s, x) <==> Above(s, x, a)
  {
    ChainListsAncestors(s, x);
    assert IsAncestor(s, x, a) <==> Above(s, x, a);
  }

  /// A candidate becomes a root exactly when it names a session that no candidate above it names, or names none
  /// and has no candidate above it.
  lemma RootsExactly(s: Snapshot, candidates: Candidates, roots: Candidates, pid: int)
    requires KeptPart(s, candidates, roots)
    ensures pid in roots <==>
              && pid in candidates
              && forall a :: Above(s, pid, a) && a in candidates ==>
                   candidates[pid].native != "" && candidates[a].native != candidates[pid].native
    ensures pid in roots ==> pid in candidates && roots[pid] == candidates[pid]
  {
    forall a ensures a in AncestorChain(s, pid) <==> Above(s, pid, a) { AncestorsAreAbove(s, pid, a); }
  }

  // ---------------------------------------------------------------------------------------------
  // Sessions
  // ---------------------------------------------------------------------------------------------

  predicate Plain(c: char) {
    'a' <= c <= 'z' || 'A' <= c <= 'Z' || '0' <= c <= '9' || c == '-' || c == '_'
  }

  /// The session a root stands for: its native id, cut to 64 characters with dashes for unsafe ones, or one
  /// derived from its identity.
  predicate StandsFor(root: Candidate, id: SessionId) {
    if root.native == "" then id == Derived(root.key)
    else
      && id.Native? && |id.text| == (if |root.native| > 64 then 64 else |root.native|)
      && forall i :: 0 <= i < |id.text| ==> id.text[i] == if Plain(root.native[i]) then root.native[i] else '-'
  }

  lemma SessionExactly(root: Candidate, id: SessionId)
    ensures id == DeriveSessionId(root) <==> StandsFor(root, id)
  {
    assert StandsFor(root, DeriveSessionId(root));
    if StandsFor(root, id) && root.native != "" {
      assert id.text == DeriveSessionId(root).text;
    }
  }

  /// The nearest root on the way up from `x` is `k` links above it.
  ghost predicate NearestAt(s: Snapshot, roots: Candidates, x: int, k: nat, r: int) {
    && 1 <= k <= 128 && Up(s, k, x) == Some(r) && r in roots && r != x
    && forall j, a :: 1 <= j < k && Up(s, j, x) == Some(a) ==> a !in roots && a != x
  }

  lemma {:induction false} NearestIndex(chain: seq<int>, roots: Candidates) returns (i: nat)
    ensures i <= |chain| && forall j :: 0 <= j < i ==> chain[j] !in roots
    ensures NearestRoot(chain, roots) == if i < |chain| then Some(chain[i]) else None
    ensures i < |chain| ==> chain[i] in roots
  {
    if chain == [] || chain[0] in roots {
      i := 0;
    } else {
      i := NearestIndex(chain[1..], roots);
      i := i + 1;
      forall j | 0 <= j < i ensures chain[j] !in roots {
        if j > 0 { assert chain[1..][j - 1] == chain[j]; }
      }
    }
  }

  lemma NearestExactly(s: Snapshot, roots: Candidates, x: int)
    ensures NearestRoot(AncestorChain(s, x), roots).None? <==> forall a :: Above(s, x, a) ==> a !in roots
    ensures NearestRoot(AncestorChain(s, x), roots).Some? ==>
        exists k: nat :: NearestAt(s, roots, x, k, NearestRoot(AncestorChain(s, x), roots).value)
  {
    var chain := AncestorChain(s, x);
    var i := NearestIndex(chain, roots);
    ChainListsAncestors(s, x);
    ChainIsShort(s, x, {x}, MAX_TREE_DEPTH);
    forall a ensures a in chain <==> Above(s, x, a) { AncestorsAreAbove(s, x, a); }
    if i < |chain| {
      forall j, a | 1 <= j < i + 1 && Up(s, j, x) == Some(a) ensures a !in roots && a != x {
        assert chain[j - 1] == a && a in chain;
      }
      assert chain[i] in chain;
      assert NearestAt(s, roots, x, i + 1, chain[i]);
    }
  }

  lemma {:induction false} ChainIsShort(s: Snapshot, x: int, seen: set<int>, fuel: nat)
    ensures |Walk(s, x, seen, fuel)| <= fuel
    decreases fuel
  {
    if fuel > 0 && Parent(s, x).Some? && Parent(s, x).value !in seen {
      ChainIsShort(s, Parent(s, x).value, seen + {Parent(s, x).value}, fuel - 1);
    }
  }

  /// A root is attributed to its own session. Any other process goes to the session of the nearest root above it,
  /// and to none exactly when there is no root above it.
  lemma AttributionExactly(s: Snapshot, roots: Candidates, p: Process)
    ensures var at := AttributeProcess(s, roots, p);
            if p.pid in roots && roots[p.pid].key == Key(p.pid, p.startTime) then
              at.Some? && at.value.isRoot && at.value.root == p.pid && StandsFor(roots[p.pid], at.value.session)
            else
              && (at.None? <==> forall a :: Above(s, p.pid, a) ==> a !in roots)
              && (at.Some? ==>
                   && !at.value.isRoot && at.value.root in roots
                   && StandsFor(roots[at.value.root], at.value.session)
                   && exists k: nat :: NearestAt(s, roots, p.pid, k, at.value.root))
  {
    NearestExactly(s, roots, p.pid);
    var at := AttributeProcess(s, roots, p);
    if at.Some? { SessionExactly(roots[at.value.root], at.value.session); }
  }
}
