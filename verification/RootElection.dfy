/// Electing one root process per claimed session (internal/sessions/session_build.go).

module RootElection {
  import opened Common

  /// A detected root; `session` is the id its adapter derives, None when no adapter or session claims it.
  datatype Root = Root(startTime: Time, session: Option<string>)

  type Roots = map<int, Root>

  predicate Claims(roots: Roots, pid: int, session: string) {
    pid in roots && roots[pid].session == Some(session)
  }

  /// The election order: the earlier start wins, and between equal starts the lower PID.
  predicate Precedes(roots: Roots, p: int, q: int)
    requires p in roots && q in roots
  {
    roots[p].startTime < roots[q].startTime || (roots[p].startTime == roots[q].startTime && p <= q)
  }

  ghost predicate Claimed(roots: Roots, among: seq<int>, id: string) {
    exists p :: p in among && Claims(roots, p, id)
  }

  /// `chosen` names the first claimant of every claimed session, `secondary` all the others.
  ghost predicate Elected(roots: Roots, among: seq<int>, chosen: map<string, int>, secondary: map<int, string>) {
    && (forall id :: id in chosen <==> Claimed(roots, among, id))
    && (forall id :: id in chosen ==>
          && chosen[id] in among && Claims(roots, chosen[id], id)
          && forall q :: q in among && Claims(roots, q, id) ==> Precedes(roots, chosen[id], q))
    && (forall p :: p in secondary <==>
          p in among && p in roots && roots[p].session.Some? && chosen[roots[p].session.value] != p)
    && (forall p :: p in secondary ==> Claims(roots, p, secondary[p]))
  }

  /// The outcome is determined by the claims alone.
  lemma ElectionIsUnique(roots: Roots, among: seq<int>, c1: map<string, int>, s1: map<int, string>,
                         c2: map<string, int>, s2: map<int, string>)
    requires Elected(roots, among, c1, s1) && Elected(roots, among, c2, s2)
    ensures c1 == c2 && s1 == s2
  {
    forall id ensures id in c1 <==> id in c2 {}
    forall id | id in c1 ensures c1[id] == c2[id] {
      assert Precedes(roots, c1[id], c2[id]) && Precedes(roots, c2[id], c1[id]);
    }
    assert c1 == c2;
    forall p ensures p in s1 <==> p in s2 {}
    forall p | p in s1 ensures s1[p] == s2[p] {
      assert Claims(roots, p, s1[p]) && Claims(roots, p, s2[p]);
    }
  }

  /// No process is both the root of a session and a secondary claimant, and no process roots two sessions.
  lemma RootsAreNotSecondary(roots: Roots, among: seq<int>, chosen: map<string, int>, secondary: map<int, string>)
    requires Elected(roots, among, chosen, secondary)
    ensures forall id :: id in chosen ==> chosen[id] !in secondary
    ensures forall a, b :: a in chosen && b in chosen && chosen[a] == chosen[b] ==> a == b
  {}

  predicate Ascending(s: seq<int>) {
    forall i, j :: 0 <= i < j < |s| ==> s[i] < s[j]
  }

  function Insert(s: seq<int>, x: int): (r: seq<int>)
    requires Ascending(s) && x !in s
    ensures Ascending(r) && forall y :: y in r <==> y in s || y == x
  {
    if s == [] || x < s[0] then [x] + s
    else
      var rest := Insert(s[1..], x);
      assert s[0] !in s[1..];
      var r := [s[0]] + rest;
      assert forall k :: 0 < k < |r| ==> r[k] == rest[k - 1] && rest[k - 1] in rest;
      r
  }

  /// `sort.Ints` over the keys of the root map, in the order the map yields them.
  method SortPids(order: seq<int>) returns (out: seq<int>)
    requires NoDuplicates(order)
    ensures Ascending(out) && forall p :: p in out <==> p in order
  {
    out := [];
    for i := 0 to |order|
      invariant Ascending(out) && forall p :: p in out <==> p in order[..i]
    {
      assert order[..i + 1] == order[..i] + [order[i]];
      out := Insert(out, order[i]);
    }
    assert order[..|order|] == order;
  }

  datatype SessionRecord = SessionRecord(id: string, rootPid: int)

  /// The first pass of `buildSessions`: visit the claimants in ascending PID order and keep the earliest.
  method Elect(roots: Roots, pids: seq<int>) returns (chosen: map<string, int>, secondary: map<int, string>)
    requires Ascending(pids) && forall p :: p in pids <==> p in roots
    ensures Elected(roots, pids, chosen, secondary)
  {
    chosen, secondary := map[], map[];
    for i := 0 to |pids|
      invariant Elected(roots, pids[..i], chosen, secondary)
    {
      var pid := pids[i];
      ghost var c0, s0 := chosen, secondary;
      assert pids[..i + 1] == pids[..i] + [pid];
      if roots[pid].session.Some? {
        var id := roots[pid].session.value;
        if id !in chosen {
          chosen := chosen[id := pid];
        } else {
          var incumbent := chosen[id];
          if roots[pid].startTime < roots[incumbent].startTime {
            chosen := chosen[id := pid];
            secondary := secondary[incumbent := id];
          } else {
            secondary := secondary[pid := id];
          }
        }
      }
      OneMoreClaimant(roots, pids[..i], pid, c0, s0, chosen, secondary);
    }
    assert pids[..|pids|] == pids;
  }

  /// `buildSessions`: one record for every claimed session, its root the elected process.
  method BuildSessions(roots: Roots, order: seq<int>)
    returns (sessions: seq<SessionRecord>, secondary: map<int, string>, ghost chosen: map<string, int>)
    requires NoDuplicates(order) && forall p :: p in order <==> p in roots
    ensures Elected(roots, order, chosen, secondary)
    ensures forall id, p :: SessionRecord(id, p) in sessions <==> id in chosen && chosen[id] == p
    ensures forall i, j :: 0 <= i < j < |sessions| ==>
        sessions[i].rootPid < sessions[j].rootPid && sessions[i].id != sessions[j].id
  {
    var pids := SortPids(order);
    var won;
    won, secondary := Elect(roots, pids);
    chosen := won;
    SameMembersSameElection(roots, pids, order, chosen, secondary);
    sessions := RecordSessions(roots, pids, won);
    assert forall r :: r in sessions ==> SessionRecord(r.id, r.rootPid) in sessions;
  }

  /// The second pass of `buildSessions`.
  method RecordSessions(roots: Roots, pids: seq<int>, chosen: map<string, int>) returns (sessions: seq<SessionRecord>)
    requires Ascending(pids) && forall p :: p in pids <==> p in roots
    requires forall id :: id in chosen <==> Claimed(roots, pids, id)
    requires forall id :: id in chosen ==> Claims(roots, chosen[id], id)
    ensures forall id, p :: SessionRecord(id, p) in sessions <==> id in chosen && chosen[id] == p
    ensures forall i, j :: 0 <= i < j < |sessions| ==> sessions[i].rootPid < sessions[j].rootPid
  {
    sessions := [];
    for i := 0 to |pids|
      invariant forall id, p :: SessionRecord(id, p) in sessions <==> id in chosen && chosen[id] == p && p in pids[..i]
      invariant forall r :: r in sessions ==> r.rootPid in pids[..i]
      invariant forall i, j :: 0 <= i < j < |sessions| ==> sessions[i].rootPid < sessions[j].rootPid
    {
      var pid := pids[i];
      assert pids[..i + 1] == pids[..i] + [pid];
      if roots[pid].session.Some? {
        var id := roots[pid].session.value;
        assert Claims(roots, pid, id) && Claimed(roots, pids, id);
        if chosen[id] == pid {
          assert forall r :: r in sessions ==> SessionRecord(r.id, r.rootPid) == r;
          sessions := sessions + [SessionRecord(id, pid)];
        }
      }
    }
    assert forall id :: id in chosen ==> chosen[id] in roots;
  }

  lemma SameMembersSameElection(roots: Roots, a: seq<int>, b: seq<int>, chosen: map<string, int>,
                                secondary: map<int, string>)
    requires forall p :: p in a <==> p in b
    requires Elected(roots, a, chosen, secondary)
    ensures Elected(roots, b, chosen, secondary)
  {}

  lemma OneMoreClaimant(roots: Roots, before: seq<int>, pid: int, c0: map<string, int>, s0: map<int, string>,
                        c1: map<string, int>, s1: map<int, string>)
    requires pid in roots && forall p :: p in before ==> p < pid && p in roots
    requires Elected(roots, before, c0, s0)
    requires match roots[pid].session
             case None => c1 == c0 && s1 == s0
             case Some(id) =>
               if id !in c0 then c1 == c0[id := pid] && s1 == s0
               else if roots[pid].startTime < roots[c0[id]].startTime then c1 == c0[id := pid] && s1 == s0[c0[id] := id]
               else c1 == c0 && s1 == s0[pid := id]
    ensures Elected(roots, before + [pid], c1, s1)
  {
    var after := before + [pid];
    assert forall p :: p in after <==> p in before || p == pid;
    forall id ensures Claimed(roots, after, id) <==> Claimed(roots, before, id) || Claims(roots, pid, id) {
      if p :| p in after && Claims(roots, p, id) { assert p in before || p == pid; }
      if p :| p in before && Claims(roots, p, id) { assert p in after; }
      if Claims(roots, pid, id) { assert pid in after; }
    }
    forall id | id in c1
      ensures c1[id] in after && Claims(roots, c1[id], id)
      ensures forall q :: q in after && Claims(roots, q, id) ==> Precedes(roots, c1[id], q)
    {
      if id in c0 { assert Claims(roots, c0[id], id); }
    }
  }
}
