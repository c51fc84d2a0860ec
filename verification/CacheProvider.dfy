/// The bounded traversal of the Codex shell-snapshot provider: which entries it reports, and which of
/// them it leaves unprotected (internal/cacheprovider/codex/provider.go).

module CacheProvider {
  import opened Common

  /// `root` is the snapshot directory beneath the session's Codex home, when it has a home.
  datatype Session =
      Session(id: string, codex: bool, native: string, root: Option<string>, completed: bool, live: int,
              confidence: real)

  datatype Identity = Identity(uid: int, device: int, regular: bool, nlink: int)

  /// `thread` is the thread id the file name carries, when the name has the pinned form; the artifact id and
  /// the digests are those computed from the root's and the entry's metadata.
  datatype Entry = Entry(
    name: string, identity: Identity, thread: Option<string>, id: string, identityDigest: string,
    manifestDigest: string, size: int)

  /// One provider root as the filesystem answers for it.
  datatype Root = Absent | Broken | Present(identity: Identity, entries: seq<Entry>)

  datatype Artifact = Artifact(root: string, entry: Entry, session: string, protected_: bool)

  datatype Result = Refused | Observed(artifacts: seq<Artifact>, complete: bool, inspected: nat)

  const QUARANTINE_DIRECTORY := ".ghostgc-quarantine"
  const MINIMUM_CONFIDENCE := 0.95

  // ---------------------------------------------------------------------------------------------
  // Ownership of one entry
  // ---------------------------------------------------------------------------------------------

  predicate Relevant(s: Session) { s.codex && s.root.Some? }

  /// The known sessions that carry this thread id.
  function Matches(sessions: seq<Session>, thread: string): seq<Session> {
    if sessions == [] then []
    else
      var s := sessions[|sessions| - 1];
      var before := Matches(sessions[..|sessions| - 1], thread);
      if Relevant(s) && s.native != "" && s.native == thread then before + [s] else before
  }

  predicate Sound(uid: int, root: Identity, e: Identity) {
    root.uid == uid && e.uid == uid && e.device == root.device && e.regular && e.nlink == 1
  }

  predicate Finished(s: Session) { s.confidence >= MINIMUM_CONFIDENCE && s.completed && s.live == 0 }

  function ArtifactOf(uid: int, sessions: seq<Session>, root: string, identity: Identity, e: Entry): Artifact {
    if e.thread.None? then Artifact(root, e, "", true)
    else
      var matches := Matches(sessions, e.thread.value);
      if |matches| != 1 then Artifact(root, e, "", true)
      else Artifact(root, e, matches[0].id, !(Sound(uid, identity, e.identity) && Finished(matches[0])))
  }

  // ---------------------------------------------------------------------------------------------
  // The traversal
  // ---------------------------------------------------------------------------------------------

  /// Progress of the walk; `failed` after an unreadable root, `stopped` once the bound is used up.
  datatype Walk = Walk(artifacts: seq<Artifact>, complete: bool, remaining: int, stopped: bool, failed: bool)

  /// The distinct allowed roots of the sessions.
  function Roots(sessions: seq<Session>, allowed: set<string>): seq<string> {
    if sessions == [] then []
    else
      var s := sessions[|sessions| - 1];
      var before := Roots(sessions[..|sessions| - 1], allowed);
      if Relevant(s) && s.root.value in allowed && s.root.value !in before then before + [s.root.value] else before
  }

  function Bounded<T>(s: seq<T>, bound: int): seq<T>
    requires bound >= 0
  {
    if |s| > bound then s[..bound] else s
  }

  function ArtifactsOf(uid: int, sessions: seq<Session>, root: string, identity: Identity, entries: seq<Entry>,
                       whole: bool): seq<Artifact>
  {
    if entries == [] then []
    else
      var e := entries[|entries| - 1];
      var before := ArtifactsOf(uid, sessions, root, identity, entries[..|entries| - 1], whole);
      if e.name == QUARANTINE_DIRECTORY then before
      else
        var a := ArtifactOf(uid, sessions, root, identity, e);
        before + [if whole then a else a.(protected_ := true)]
  }

  function Visit(w: Walk, uid: int, sessions: seq<Session>, fs: map<string, Root>, root: string): Walk
    requires w.remaining >= 0
  {
    if w.stopped || w.failed then w
    else if w.remaining < 1 then w.(complete := false, stopped := true)
    else
      match Read(fs, root, Absent)
      case Absent => w
      case Broken => w.(failed := true)
      case Present(identity, entries) =>
        var listed := Bounded(entries, w.remaining);
        var whole := |entries| <= w.remaining;
        Walk(w.artifacts + ArtifactsOf(uid, sessions, root, identity, listed, whole),
             w.complete && whole, w.remaining - |listed|, false, false)
  }

  function Walked(start: Walk, uid: int, sessions: seq<Session>, fs: map<string, Root>, roots: seq<string>): (w: Walk)
    requires start.remaining >= 0
    ensures 0 <= w.remaining <= start.remaining
    ensures w.complete ==> start.complete
  {
    if roots == [] then start
    else Visit(Walked(start, uid, sessions, fs, roots[..|roots| - 1]), uid, sessions, fs, roots[|roots| - 1])
  }

  function ProtectAll(artifacts: seq<Artifact>): (r: seq<Artifact>)
    ensures |r| == |artifacts|
    ensures forall i :: 0 <= i < |r| ==> r[i] == artifacts[i].(protected_ := true)
  {
    if artifacts == [] then []
    else ProtectAll(artifacts[..|artifacts| - 1]) + [artifacts[|artifacts| - 1].(protected_ := true)]
  }

  function Observation(uid: int, allowed: set<string>, sessions: seq<Session>, fs: map<string, Root>,
                       bound: int): Result
  {
    if bound < 1 then Refused
    else
      var known := Bounded(sessions, bound);
      var roots := Bounded(Roots(known, allowed), bound);
      var start := Walk([], |sessions| <= bound && |Roots(known, allowed)| <= bound, bound, false, false);
      var w := Walked(start, uid, known, fs, roots);
      if w.failed then Refused
      else Observed(if w.complete then w.artifacts else ProtectAll(w.artifacts), w.complete, bound - w.remaining)
  }

  // ---------------------------------------------------------------------------------------------
  // What the traversal promises
  // ---------------------------------------------------------------------------------------------

  predicate Reported(artifacts: seq<Artifact>, root: string, e: Entry) {
    exists a :: a in artifacts && a.root == root && a.entry == e
  }

  /// Every entry of `root` other than the quarantine directory is reported.
  predicate Enumerated(artifacts: seq<Artifact>, fs: map<string, Root>, root: string) {
    match Read(fs, root, Absent)
    case Absent => true
    case Broken => false
    case Present(_, entries) =>
      forall e :: e in entries && e.name != QUARANTINE_DIRECTORY ==> Reported(artifacts, root, e)
  }

  /// What an artifact that is not protected must satisfy.
  predicate Exclusive(a: Artifact, uid: int, sessions: seq<Session>, fs: map<string, Root>) {
    && a.entry.thread.Some?
    && |Matches(sessions, a.entry.thread.value)| == 1
    && a.session == Matches(sessions, a.entry.thread.value)[0].id
    && Finished(Matches(sessions, a.entry.thread.value)[0])
    && Read(fs, a.root, Absent).Present?
    && a.entry in Read(fs, a.root, Absent).entries
    && Sound(uid, Read(fs, a.root, Absent).identity, a.entry.identity)
  }

  ghost predicate UnprotectedAreExclusive(artifacts: seq<Artifact>, uid: int, sessions: seq<Session>,
                                          fs: map<string, Root>)
  {
    forall a :: a in artifacts && !a.protected_ ==> Exclusive(a, uid, sessions, fs)
  }

  lemma {:induction false} ArtifactsReportEntries(uid: int, sessions: seq<Session>, root: string, identity: Identity,
                                                  entries: seq<Entry>, whole: bool)
    ensures forall e :: e in entries && e.name != QUARANTINE_DIRECTORY
              ==> Reported(ArtifactsOf(uid, sessions, root, identity, entries, whole), root, e)
    ensures forall a :: a in ArtifactsOf(uid, sessions, root, identity, entries, whole) ==>
              a.root == root && a.entry in entries
              && (!a.protected_ ==> whole && a == ArtifactOf(uid, sessions, root, identity, a.entry))
  {
    if entries != [] {
      var init, e := entries[..|entries| - 1], entries[|entries| - 1];
      ArtifactsReportEntries(uid, sessions, root, identity, init, whole);
      assert entries == init + [e];
      var before := ArtifactsOf(uid, sessions, root, identity, init, whole);
      var after := ArtifactsOf(uid, sessions, root, identity, entries, whole);
      forall x | x in entries && x.name != QUARANTINE_DIRECTORY ensures Reported(after, root, x) {
        if x in init {
          var a :| a in before && a.root == root && a.entry == x;
          assert a in after;
        } else {
          assert after[|after| - 1].entry == x;
          assert after[|after| - 1] in after;
        }
      }
    }
  }

  lemma VisitExclusive(w: Walk, uid: int, sessions: seq<Session>, fs: map<string, Root>, root: string)
    requires w.remaining >= 0 && UnprotectedAreExclusive(w.artifacts, uid, sessions, fs)
    ensures UnprotectedAreExclusive(Visit(w, uid, sessions, fs, root).artifacts, uid, sessions, fs)
  {
    if !w.stopped && !w.failed && w.remaining >= 1 && Read(fs, root, Absent).Present? {
      var entries := Read(fs, root, Absent).entries;
      var listed := Bounded(entries, w.remaining);
      ArtifactsReportEntries(uid, sessions, root, Read(fs, root, Absent).identity, listed, |entries| <= w.remaining);
    }
  }

  lemma VisitEnumerates(w: Walk, uid: int, sessions: seq<Session>, fs: map<string, Root>, root: string)
    requires w.remaining >= 0 && !w.stopped
    requires !Visit(w, uid, sessions, fs, root).failed && Visit(w, uid, sessions, fs, root).complete
    ensures Enumerated(Visit(w, uid, sessions, fs, root).artifacts, fs, root)
  {
    if Read(fs, root, Absent).Present? {
      var entries := Read(fs, root, Absent).entries;
      var identity := Read(fs, root, Absent).identity;
      ArtifactsReportEntries(uid, sessions, root, identity, entries, true);
      var added := ArtifactsOf(uid, sessions, root, identity, entries, true);
      forall e | e in entries && e.name != QUARANTINE_DIRECTORY ensures Reported(w.artifacts + added, root, e) {
        var a :| a in added && a.root == root && a.entry == e;
        assert a in w.artifacts + added;
      }
    }
  }

  lemma VisitKeepsEnumerated(w: Walk, uid: int, sessions: seq<Session>, fs: map<string, Root>, root: string,
                             other: string)
    requires w.remaining >= 0 && Enumerated(w.artifacts, fs, other)
    ensures Enumerated(Visit(w, uid, sessions, fs, root).artifacts, fs, other)
  {}

  lemma {:induction false} WalkPromises(start: Walk, uid: int, sessions: seq<Session>, fs: map<string, Root>,
                                        roots: seq<string>)
    requires start.remaining >= 0 && start.artifacts == [] && !start.stopped && !start.failed
    ensures var w := Walked(start, uid, sessions, fs, roots);
            && UnprotectedAreExclusive(w.artifacts, uid, sessions, fs)
            && (w.stopped ==> !w.complete)
            && (w.complete && !w.failed ==> forall root :: root in roots ==> Enumerated(w.artifacts, fs, root))
  {
    if roots != [] {
      var init, last := roots[..|roots| - 1], roots[|roots| - 1];
      WalkPromises(start, uid, sessions, fs, init);
      var before := Walked(start, uid, sessions, fs, init);
      VisitExclusive(before, uid, sessions, fs, last);
      var w := Visit(before, uid, sessions, fs, last);
      if w.complete && !w.failed {
        VisitEnumerates(before, uid, sessions, fs, last);
        forall root | root in roots ensures Enumerated(w.artifacts, fs, root) {
          if root != last {
            assert root in init;
            VisitKeepsEnumerated(before, uid, sessions, fs, last, root);
          }
        }
      }
    }
  }

  lemma {:induction false} RootsCover(sessions: seq<Session>, allowed: set<string>, s: Session)
    requires s in sessions && Relevant(s) && s.root.value in allowed
    ensures s.root.value in Roots(sessions, allowed)
  {
    var init := sessions[..|sessions| - 1];
    assert sessions == init + [sessions[|sessions| - 1]];
    if s in init { RootsCover(init, allowed, s); }
  }

  /// A complete observation has enumerated the whole root of every known session, and an incomplete one
  /// protects all it saw; never are more entries inspected than the bound allows.
  lemma CompleteMeansEnumerated(uid: int, allowed: set<string>, sessions: seq<Session>, fs: map<string, Root>,
                                bound: int)
    ensures match Observation(uid, allowed, sessions, fs, bound)
            case Refused => true
            case Observed(artifacts, complete, inspected) =>
              && inspected <= bound
              && (complete ==> forall s :: s in sessions && Relevant(s) && s.root.value in allowed
                                 ==> Enumerated(artifacts, fs, s.root.value))
              && (!complete ==> forall a :: a in artifacts ==> a.protected_)
  {
    if bound >= 1 {
      var known := Bounded(sessions, bound);
      var all := Roots(known, allowed);
      var start := Walk([], |sessions| <= bound && |all| <= bound, bound, false, false);
      WalkPromises(start, uid, known, fs, Bounded(all, bound));
      var w := Walked(start, uid, known, fs, Bounded(all, bound));
      if w.complete && !w.failed {
        assert known == sessions && Bounded(all, bound) == all;
        forall s | s in sessions && Relevant(s) && s.root.value in allowed
          ensures Enumerated(w.artifacts, fs, s.root.value)
        {
          RootsCover(sessions, allowed, s);
        }
      }
    }
  }

  /// Whatever is left unprotected is a sound regular file of the user's own, named after a thread that
  /// exactly one of all the known sessions carries, and that session is finished.
  lemma UnprotectedIsExclusivelyOwned(uid: int, allowed: set<string>, sessions: seq<Session>, fs: map<string, Root>,
                                      bound: int, a: Artifact)
    requires Observation(uid, allowed, sessions, fs, bound).Observed?
    requires a in Observation(uid, allowed, sessions, fs, bound).artifacts && !a.protected_
    ensures Observation(uid, allowed, sessions, fs, bound).complete
    ensures Exclusive(a, uid, sessions, fs)
  {
    var known := Bounded(sessions, bound);
    var all := Roots(known, allowed);
    var start := Walk([], |sessions| <= bound && |all| <= bound, bound, false, false);
    WalkPromises(start, uid, known, fs, Bounded(all, bound));
    CompleteMeansEnumerated(uid, allowed, sessions, fs, bound);
    assert known == sessions;
  }

  // ---------------------------------------------------------------------------------------------
  // The provider's loops
  // ---------------------------------------------------------------------------------------------

  lemma {:induction false} HaltedStays(start: Walk, uid: int, sessions: seq<Session>, fs: map<string, Root>,
                                       roots: seq<string>, n: nat)
    requires start.remaining >= 0 && n <= |roots|
    requires var w := Walked(start, uid, sessions, fs, roots[..n]); w.stopped || w.failed
    ensures Walked(start, uid, sessions, fs, roots) == Walked(start, uid, sessions, fs, roots[..n])
  {
    if n < |roots| {
      assert roots[..|roots| - 1][..n] == roots[..n];
      HaltedStays(start, uid, sessions, fs, roots[..|roots| - 1], n);
    } else {
      assert roots[..n] == roots;
    }
  }

  method CollectRoots(sessions: seq<Session>, allowed: set<string>) returns (roots: seq<string>)
    ensures roots == Roots(sessions, allowed)
  {
    roots := [];
    for n := 0 to |sessions|
      invariant roots == Roots(sessions[..n], allowed)
    {
      assert sessions[..n + 1][..n] == sessions[..n];
      var s := sessions[n];
      if !s.codex || s.root.None? { continue; }
      if s.root.value in allowed && s.root.value !in roots {
        roots := roots + [s.root.value];
      }
    }
    assert sessions[..|sessions|] == sessions;
  }

  method Report(uid: int, sessions: seq<Session>, root: string, identity: Identity, entries: seq<Entry>, whole: bool)
    returns (artifacts: seq<Artifact>)
    ensures artifacts == ArtifactsOf(uid, sessions, root, identity, entries, whole)
  {
    artifacts := [];
    for n := 0 to |entries|
      invariant artifacts == ArtifactsOf(uid, sessions, root, identity, entries[..n], whole)
    {
      assert entries[..n + 1][..n] == entries[..n];
      var e := entries[n];
      if e.name == QUARANTINE_DIRECTORY { continue; }
      var a := ArtifactOf(uid, sessions, root, identity, e);
      if !whole { a := a.(protected_ := true); }
      artifacts := artifacts + [a];
    }
    assert entries[..|entries|] == entries;
  }

  method Traverse(start: Walk, uid: int, sessions: seq<Session>, fs: map<string, Root>, roots: seq<string>)
    returns (w: Walk)
    requires start.remaining >= 0 && !start.stopped && !start.failed
    ensures w == Walked(start, uid, sessions, fs, roots)
  {
    w := start;
    for n := 0 to |roots|
      invariant !w.stopped && !w.failed
      invariant w == Walked(start, uid, sessions, fs, roots[..n])
    {
      assert roots[..n + 1][..n] == roots[..n];
      ghost var next := Visit(w, uid, sessions, fs, roots[n]);
      assert next == Walked(start, uid, sessions, fs, roots[..n + 1]);
      if next.stopped || next.failed { HaltedStays(start, uid, sessions, fs, roots, n + 1); }
      if w.remaining < 1 {
        return w.(complete := false, stopped := true);
      }
      var root := Read(fs, roots[n], Absent);
      if root.Absent? { continue; }
      if root.Broken? { return w.(failed := true); }
      var listed, whole := Bounded(root.entries, w.remaining), |root.entries| <= w.remaining;
      var found := Report(uid, sessions, roots[n], root.identity, listed, whole);
      w := Walk(w.artifacts + found, w.complete && whole, w.remaining - |listed|, false, false);
    }
    assert roots[..|roots|] == roots;
  }

  /// Cuts a list at the bound and says whether it was whole.
  method Truncate<T>(s: seq<T>, bound: int) returns (r: seq<T>, whole: bool)
    requires bound >= 0
    ensures r == Bounded(s, bound) && (whole <==> |s| <= bound)
  {
    r, whole := s, true;
    if |r| > bound {
      r := r[..bound];
      whole := false;
    }
  }

  method Observe(uid: int, allowed: set<string>, sessions: seq<Session>, fs: map<string, Root>, bound: int)
    returns (result: Result)
    ensures result == Observation(uid, allowed, sessions, fs, bound)
  {
    if bound < 1 { return Refused; }
    var known, whole := Truncate(sessions, bound);
    var all := CollectRoots(known, allowed);
    var roots, reached := Truncate(all, bound);
    var w := Traverse(Walk([], whole && reached, bound, false, false), uid, known, fs, roots);
    if w.failed { return Refused; }
    var artifacts := if w.complete then w.artifacts else ProtectAll(w.artifacts);
    result := Observed(artifacts, w.complete, bound - w.remaining);
  }
}
