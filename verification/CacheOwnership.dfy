/// Exactly what a provider observation reports, and exactly what it leaves unprotected, in terms of the
/// sessions and the metadata themselves (internal/cacheprovider/codex/provider.go).

module CacheOwnership {
  import opened Common
  import opened CacheProvider

  // ---------------------------------------------------------------------------------------------
  // Whose file it is
  // ---------------------------------------------------------------------------------------------

  /// A Codex session with a home whose native id is this thread id.
  predicate Names(s: Session, thread: string) {
    s.codex && s.root.Some? && s.native != "" && s.native == thread
  }

  /// Session `i` and no other names the thread.
  predicate NamedOnlyBy(sessions: seq<Session>, thread: string, i: int) {
    && 0 <= i < |sessions| && Names(sessions[i], thread)
    && forall j :: 0 <= j < |sessions| && j != i ==> !Names(sessions[j], thread)
  }

  lemma {:induction false} NoMatch(sessions: seq<Session>, thread: string)
    ensures Matches(sessions, thread) == [] <==> forall j :: 0 <= j < |sessions| ==> !Names(sessions[j], thread)
  {
    if sessions != [] {
      var init := sessions[..|sessions| - 1];
      NoMatch(init, thread);
      assert forall j :: 0 <= j < |init| ==> init[j] == sessions[j];
    }
  }

  lemma {:induction false} OneMatch(sessions: seq<Session>, thread: string)
    ensures |Matches(sessions, thread)| == 1 <==> exists i :: NamedOnlyBy(sessions, thread, i)
    ensures forall i :: NamedOnlyBy(sessions, thread, i) ==> Matches(sessions, thread) == [sessions[i]]
  {
    if sessions != [] {
      var init, n := sessions[..|sessions| - 1], |sessions| - 1;
      assert sessions == init + [sessions[n]];
      OneMatch(init, thread);
      NoMatch(init, thread);
      if Names(sessions[n], thread) {
        if Matches(init, thread) == [] { assert NamedOnlyBy(sessions, thread, n); }
        forall i | NamedOnlyBy(sessions, thread, i) ensures Matches(sessions, thread) == [sessions[i]] {
          assert i == n;
        }
      } else {
        forall i ensures NamedOnlyBy(sessions, thread, i) <==> NamedOnlyBy(init, thread, i) {}
      }
    }
  }

  /// A regular file with one link, on the device of its root, both the user's.
  predicate Plain(uid: int, root: Identity, e: Identity) {
    root.uid == uid && e.uid == uid && e.device == root.device && e.regular && e.nlink == 1
  }

  /// Completed with near certainty, and no live process claims it.
  predicate Over(s: Session) { s.completed && s.live == 0 && s.confidence >= 0.95 }

  /// The file is plainly the user's and named after the thread of exactly one known session, which is over.
  ghost predicate Ownable(uid: int, sessions: seq<Session>, root: Identity, e: Entry) {
    && Plain(uid, root, e.identity) && e.thread.Some?
    && exists i :: NamedOnlyBy(sessions, e.thread.value, i) && Over(sessions[i])
  }

  /// The session an artifact is filed under: the only one that names its thread, if there is one.
  ghost predicate FiledUnder(sessions: seq<Session>, e: Entry, session: string) {
    if e.thread.Some? && exists i :: NamedOnlyBy(sessions, e.thread.value, i) then
      exists i :: NamedOnlyBy(sessions, e.thread.value, i) && session == sessions[i].id
    else session == ""
  }

  lemma EntryExactly(uid: int, sessions: seq<Session>, root: string, identity: Identity, e: Entry)
    ensures var a := ArtifactOf(uid, sessions, root, identity, e);
            && a.root == root && a.entry == e && FiledUnder(sessions, e, a.session)
            && (!a.protected_ <==> Ownable(uid, sessions, identity, e))
  {
    if e.thread.Some? {
      OneMatch(sessions, e.thread.value);
      if i :| NamedOnlyBy(sessions, e.thread.value, i) {
        forall j | NamedOnlyBy(sessions, e.thread.value, j) ensures j == i {}
      }
    }
  }

  // ---------------------------------------------------------------------------------------------
  // What is listed
  // ---------------------------------------------------------------------------------------------

  datatype Listed = Listed(root: string, identity: Identity, entry: Entry)

  /// The entries of a root, in order, without the quarantine directory.
  function ListedIn(root: string, identity: Identity, entries: seq<Entry>): seq<Listed> {
    if entries == [] then []
    else
      var before, e := ListedIn(root, identity, entries[..|entries| - 1]), entries[|entries| - 1];
      if e.name == ".ghostgc-quarantine" then before else before + [Listed(root, identity, e)]
  }

  /// The whole contents of the roots, one after the other.
  function Contents(fs: map<string, Root>, roots: seq<string>): seq<Listed> {
    if roots == [] then []
    else
      var before, root := Contents(fs, roots[..|roots| - 1]), roots[|roots| - 1];
      if root in fs && fs[root].Present? then before + ListedIn(root, fs[root].identity, fs[root].entries) else before
  }

  /// `a` reports `l`; protection is exact where the whole root was read.
  ghost predicate Reports(a: Artifact, l: Listed, uid: int, sessions: seq<Session>, whole: bool) {
    && a.root == l.root && a.entry == l.entry && FiledUnder(sessions, l.entry, a.session)
    && (!a.protected_ <==> whole && Ownable(uid, sessions, l.identity, l.entry))
  }

  ghost predicate ReportsAll(artifacts: seq<Artifact>, listed: seq<Listed>, uid: int, sessions: seq<Session>,
                             whole: bool)
  {
    && |artifacts| == |listed|
    && forall k :: 0 <= k < |listed| ==> Reports(artifacts[k], listed[k], uid, sessions, whole)
  }

  lemma {:induction false} RootReported(uid: int, sessions: seq<Session>, root: string, identity: Identity,
                                        entries: seq<Entry>, whole: bool)
    ensures ReportsAll(ArtifactsOf(uid, sessions, root, identity, entries, whole), ListedIn(root, identity, entries),
                       uid, sessions, whole)
  {
    if entries != [] {
      RootReported(uid, sessions, root, identity, entries[..|entries| - 1], whole);
      EntryExactly(uid, sessions, root, identity, entries[|entries| - 1]);
    }
  }

  /// How many entries the roots hold.
  function Total(fs: map<string, Root>, roots: seq<string>): nat {
    if roots == [] then 0
    else
      var before, root := Total(fs, roots[..|roots| - 1]), roots[|roots| - 1];
      if root in fs && fs[root].Present? then before + |fs[root].entries| else before
  }

  /// Nothing that is reached is unreadable.
  predicate Readable(fs: map<string, Root>, roots: seq<string>) {
    forall root :: root in roots ==> root !in fs || !fs[root].Broken?
  }

  /// The bound was never used up with something left to read.
  ghost predicate Enough(fs: map<string, Root>, roots: seq<string>, bound: int) {
    Total(fs, roots) <= bound && forall k :: 0 <= k < |roots| ==> Total(fs, roots[..k]) < bound
  }

  lemma EnoughSplits(fs: map<string, Root>, roots: seq<string>, bound: int)
    requires roots != []
    ensures Enough(fs, roots, bound)
      <==> (Enough(fs, roots[..|roots| - 1], bound) && Total(fs, roots[..|roots| - 1]) < bound
            && Total(fs, roots) <= bound)
  {
    var init := roots[..|roots| - 1];
    assert forall k :: 0 <= k <= |init| ==> init[..k] == roots[..k];
    assert init[..|init|] == init;
  }

  /// The walk stays complete exactly while the bound suffices, and has then reported everything.
  lemma {:induction false} WalkExactly(start: Walk, uid: int, sessions: seq<Session>, fs: map<string, Root>,
                                       roots: seq<string>)
    requires start.artifacts == [] && !start.stopped && !start.failed && start.remaining >= 1
    ensures var w := Walked(start, uid, sessions, fs, roots);
            && (w.complete && !w.failed ==> start.complete && Enough(fs, roots, start.remaining) && Readable(fs, roots))
            && (start.complete && Enough(fs, roots, start.remaining) && Readable(fs, roots) ==> w.complete && !w.failed)
            && (w.complete && !w.failed ==>
                 && !w.stopped && w.remaining == start.remaining - Total(fs, roots)
                 && ReportsAll(w.artifacts, Contents(fs, roots), uid, sessions, true))
  {
    if roots != [] {
      var init, root := roots[..|roots| - 1], roots[|roots| - 1];
      WalkExactly(start, uid, sessions, fs, init);
      EnoughSplits(fs, roots, start.remaining);
      assert roots == init + [root];
      var before := Walked(start, uid, sessions, fs, init);
      if before.complete && !before.failed && root in fs && fs[root].Present? {
        RootReported(uid, sessions, root, fs[root].identity, Bounded(fs[root].entries, before.remaining),
                     |fs[root].entries| <= before.remaining);
      }
    }
  }

  // ---------------------------------------------------------------------------------------------
  // A walk that runs out
  // ---------------------------------------------------------------------------------------------

  lemma {:induction false} ListedPrefix(root: string, identity: Identity, entries: seq<Entry>, n: nat)
    requires n <= |entries|
    ensures ListedIn(root, identity, entries[..n]) <= ListedIn(root, identity, entries)
  {
    if n == |entries| {
      assert entries[..n] == entries;
    } else {
      assert entries[..|entries| - 1][..n] == entries[..n];
      ListedPrefix(root, identity, entries[..|entries| - 1], n);
    }
  }

  /// The artifacts are those of a first part of what the roots hold.
  ghost predicate ReportsSome(artifacts: seq<Artifact>, listed: seq<Listed>) {
    && |artifacts| <= |listed|
    && forall k :: 0 <= k < |artifacts| ==> artifacts[k].root == listed[k].root && artifacts[k].entry == listed[k].entry
  }

  function Least(a: int, b: int): int { if a < b then a else b }

  lemma VisitInOrder(w: Walk, uid: int, sessions: seq<Session>, fs: map<string, Root>, root: string, bound: int,
                     listed: seq<Listed>)
    requires !w.failed && !w.stopped && 1 <= w.remaining <= bound && root in fs && fs[root].Present?
    requires ReportsSome(w.artifacts, listed) && |w.artifacts| == |listed|
    ensures var v := Visit(w, uid, sessions, fs, root);
            && ReportsSome(v.artifacts, listed + ListedIn(root, fs[root].identity, fs[root].entries))
            && (|fs[root].entries| <= w.remaining ==>
                 |v.artifacts| == |listed + ListedIn(root, fs[root].identity, fs[root].entries)|)
  {
    var entries, identity := fs[root].entries, fs[root].identity;
    var read := Bounded(entries, w.remaining);
    assert read == entries[..|read|];
    ListedPrefix(root, identity, entries, |read|);
    RootReported(uid, sessions, root, identity, read, |entries| <= w.remaining);
  }

  /// Without an unreadable root a walk inspects as much as the bound allows, and reports it in order.
  lemma {:induction false} WalkInOrder(start: Walk, uid: int, sessions: seq<Session>, fs: map<string, Root>,
                                       roots: seq<string>)
    requires start.artifacts == [] && !start.stopped && !start.failed && start.remaining >= 1
    ensures var w := Walked(start, uid, sessions, fs, roots);
            !w.failed ==>
              && ReportsSome(w.artifacts, Contents(fs, roots))
              && start.remaining - w.remaining == Least(start.remaining, Total(fs, roots))
              && (Total(fs, roots) <= start.remaining ==> |w.artifacts| == |Contents(fs, roots)|)
              && (w.stopped ==> w.remaining == 0)
    ensures Walked(start, uid, sessions, fs, roots).failed
      <==> exists k :: 0 <= k < |roots| && Unreadable(fs, roots, start.remaining, k)
  {
    if roots != [] {
      var init, root := roots[..|roots| - 1], roots[|roots| - 1];
      WalkInOrder(start, uid, sessions, fs, init);
      var before := Walked(start, uid, sessions, fs, init);
      if !before.failed && !before.stopped && before.remaining >= 1 && root in fs && fs[root].Present? {
        VisitInOrder(before, uid, sessions, fs, root, start.remaining, Contents(fs, init));
      }
      UnreadableSplits(fs, roots, start.remaining);
    }
  }

  /// Root `k` cannot be read, and the walk gets there.
  predicate Unreadable(fs: map<string, Root>, roots: seq<string>, bound: int, k: int)
    requires 0 <= k < |roots|
  {
    roots[k] in fs && fs[roots[k]].Broken? && Total(fs, roots[..k]) < bound
  }

  lemma UnreadableSplits(fs: map<string, Root>, roots: seq<string>, bound: int)
    requires roots != []
    ensures var init := roots[..|roots| - 1];
            (exists k :: 0 <= k < |roots| && Unreadable(fs, roots, bound, k))
            <==> (Unreadable(fs, roots, bound, |roots| - 1)
                  || exists k :: 0 <= k < |init| && Unreadable(fs, init, bound, k))
  {
    var init := roots[..|roots| - 1];
    assert forall k :: 0 <= k <= |init| ==> init[..k] == roots[..k];
    forall k | 0 <= k < |init| ensures Unreadable(fs, init, bound, k) <==> Unreadable(fs, roots, bound, k) {}
  }

  // ---------------------------------------------------------------------------------------------
  // The whole observation
  // ---------------------------------------------------------------------------------------------

  lemma {:induction false} RootsExactly(sessions: seq<Session>, allowed: set<string>)
    ensures NoDuplicates(Roots(sessions, allowed))
    ensures forall root :: root in Roots(sessions, allowed) <==>
              root in allowed && exists s :: s in sessions && s.codex && s.root == Some(root)
  {
    if sessions != [] {
      var init, s := sessions[..|sessions| - 1], sessions[|sessions| - 1];
      assert sessions == init + [s];
      RootsExactly(init, allowed);
    }
  }

  /// The sessions and roots that an observation looks at.
  function Known(sessions: seq<Session>, bound: nat): seq<Session> {
    if |sessions| <= bound then sessions else sessions[..bound]
  }

  function Visited(sessions: seq<Session>, allowed: set<string>, bound: nat): seq<string> {
    var roots := Roots(Known(sessions, bound), allowed);
    if |roots| <= bound then roots else roots[..bound]
  }

  function Start(sessions: seq<Session>, allowed: set<string>, bound: nat): Walk {
    Walk([], |sessions| <= bound && |Roots(Known(sessions, bound), allowed)| <= bound, bound, false, false)
  }

  lemma ObservationWalks(uid: int, allowed: set<string>, sessions: seq<Session>, fs: map<string, Root>, bound: nat)
    returns (w: Walk)
    requires bound >= 1
    ensures w == Walked(Start(sessions, allowed, bound), uid, Known(sessions, bound), fs,
                        Visited(sessions, allowed, bound))
    ensures Observation(uid, allowed, sessions, fs, bound) ==
        if w.failed then Refused
        else Observed(if w.complete then w.artifacts else ProtectAll(w.artifacts), w.complete, bound - w.remaining)
  {
    var known := Known(sessions, bound);
    assert known == Bounded(sessions, bound);
    assert Visited(sessions, allowed, bound) == Bounded(Roots(known, allowed), bound);
    w := Walked(Start(sessions, allowed, bound), uid, known, fs, Visited(sessions, allowed, bound));
  }

  /// An observation is refused exactly without a bound or when it comes to a root it cannot read.
  lemma ObservationRefusedIff(uid: int, allowed: set<string>, sessions: seq<Session>, fs: map<string, Root>, bound: nat)
    ensures var roots := Visited(sessions, allowed, bound);
            Observation(uid, allowed, sessions, fs, bound).Refused?
            <==> (bound == 0 || exists k :: 0 <= k < |roots| && Unreadable(fs, roots, bound, k))
  {
    if bound >= 1 {
      var _ := ObservationWalks(uid, allowed, sessions, fs, bound);
      WalkInOrder(Start(sessions, allowed, bound), uid, Known(sessions, bound), fs, Visited(sessions, allowed, bound));
    }
  }

  /// An observation is complete exactly when sessions, roots and entries all fit the bound. It then reports every
  /// entry, unprotected exactly when its owner is sure and over.
  lemma CompleteExactly(uid: int, allowed: set<string>, sessions: seq<Session>, fs: map<string, Root>, bound: nat)
    requires Observation(uid, allowed, sessions, fs, bound).Observed?
    ensures var seen, roots := Observation(uid, allowed, sessions, fs, bound), Visited(sessions, allowed, bound);
            && (seen.complete <==>
                 |sessions| <= bound && |Roots(Known(sessions, bound), allowed)| <= bound && Enough(fs, roots, bound))
            && (seen.complete ==> ReportsAll(seen.artifacts, Contents(fs, roots), uid, sessions, true))
  {
    var roots := Visited(sessions, allowed, bound);
    var w := ObservationWalks(uid, allowed, sessions, fs, bound);
    ObservationRefusedIff(uid, allowed, sessions, fs, bound);
    EnoughIsReadable(fs, roots, bound);
    WalkExactly(Start(sessions, allowed, bound), uid, Known(sessions, bound), fs, roots);
  }

  /// An incomplete one inspects as much as the bound allows and reports a first part, all protected.
  lemma IncompleteExactly(uid: int, allowed: set<string>, sessions: seq<Session>, fs: map<string, Root>, bound: nat)
    requires Observation(uid, allowed, sessions, fs, bound).Observed?
    ensures var seen, roots := Observation(uid, allowed, sessions, fs, bound), Visited(sessions, allowed, bound);
            && seen.inspected == Least(bound, Total(fs, roots))
            && (!seen.complete ==>
                 && ReportsSome(seen.artifacts, Contents(fs, roots))
                 && (Total(fs, roots) <= bound ==> |seen.artifacts| == |Contents(fs, roots)|)
                 && forall a :: a in seen.artifacts ==> a.protected_)
  {
    var roots := Visited(sessions, allowed, bound);
    var w := ObservationWalks(uid, allowed, sessions, fs, bound);
    WalkInOrder(Start(sessions, allowed, bound), uid, Known(sessions, bound), fs, roots);
  }

  lemma EnoughIsReadable(fs: map<string, Root>, roots: seq<string>, bound: int)
    requires forall k :: 0 <= k < |roots| ==> !Unreadable(fs, roots, bound, k)
    ensures Enough(fs, roots, bound) ==> Readable(fs, roots)
  {
    if Enough(fs, roots, bound) {
      forall root | root in roots ensures root !in fs || !fs[root].Broken? {
        var k :| 0 <= k < |roots| && roots[k] == root;
        assert !Unreadable(fs, roots, bound, k);
      }
    }
  }
}
