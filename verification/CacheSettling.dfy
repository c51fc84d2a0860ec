/// How a cache artifact becomes recommended over a whole run of evaluations and actions
/// (internal/cachepolicy/evaluate.go, internal/daemon/cache_scan.go,
/// internal/storage/cache_query.go, cache_write.go and cache_transition.go).

module CacheSettling {
  import opened Common
  import P = CacheProvider

  datatype Lifecycle =
    Observed | Protected | Settling | StaleCandidate | Recommended | Quarantined | Restored | Purged | Partial | Failed

  /// The content a digest pair pins: the identity digest and the manifest digest.
  datatype Digests = Digests(identity: string, manifest: string)

  /// One artifact as a provider reports it: observed, or already protected.
  datatype Observation = Observation(id: string, digests: Digests, size: int, protected_: bool)

  datatype CachePolicy = CachePolicy(id: string, enabled: bool, recommend: bool)

  datatype Config = Config(minStable: int, maxBytes: int, recommend: bool, policies: seq<CachePolicy>)

  /// The configuration loader refuses shorter windows.
  predicate Valid(cfg: Config) { cfg.minStable >= MINUTE }

  /// The stored projection of one artifact; `evaluation` is the evaluation that last observed it.
  datatype Artifact =
      Artifact(digests: Digests, stableSince: Time, lifecycle: Lifecycle, policy: string, evaluation: nat)

  // ---------------------------------------------------------------------------------------------
  // One observation
  // ---------------------------------------------------------------------------------------------

  function EnabledPolicy(policies: seq<CachePolicy>): Option<CachePolicy> {
    if policies == [] then None
    else if policies[0].enabled then Some(policies[0])
    else EnabledPolicy(policies[1..])
  }

  predicate HistoryEligible(l: Lifecycle) {
    l.Observed? || l.Settling? || l.StaleCandidate? || l.Recommended? || l.Restored?
  }

  predicate OverBound(cfg: Config, o: Observation) { o.size < 0 || o.size > cfg.maxBytes }

  predicate Continues(previous: Option<Artifact>, o: Observation) {
    previous.Some? && HistoryEligible(previous.value.lifecycle) && previous.value.digests == o.digests
  }

  function Evaluate(cfg: Config, now: Time, o: Observation, previous: Option<Artifact>, evaluation: nat): Artifact {
    var since := if Continues(previous, o) then previous.value.stableSince else now;
    if o.protected_ || OverBound(cfg, o) then Artifact(o.digests, since, Protected, "", evaluation)
    else if previous.None? || now - since < cfg.minStable then Artifact(o.digests, since, Settling, "", evaluation)
    else
      match EnabledPolicy(cfg.policies)
      case None => Artifact(o.digests, since, StaleCandidate, "", evaluation)
      case Some(p) =>
        Artifact(o.digests, since, if cfg.recommend && p.recommend then Recommended else StaleCandidate, p.id,
                 evaluation)
  }

  /// The first enabled policy of the list.
  predicate FirstEnabled(policies: seq<CachePolicy>, i: int) {
    0 <= i < |policies| && policies[i].enabled && forall j :: 0 <= j < i ==> !policies[j].enabled
  }

  /// The policy used is the first enabled one.
  lemma {:induction false} EnabledPolicyIsFirst(policies: seq<CachePolicy>)
    ensures EnabledPolicy(policies).None? ==> forall i :: !FirstEnabled(policies, i)
    ensures EnabledPolicy(policies).Some? ==>
        exists i :: FirstEnabled(policies, i) && policies[i] == EnabledPolicy(policies).value
  {
    if policies != [] {
      EnabledPolicyIsFirst(policies[1..]);
      if policies[0].enabled {
        assert FirstEnabled(policies, 0);
      } else if EnabledPolicy(policies).Some? {
        var i :| FirstEnabled(policies[1..], i) && policies[1..][i] == EnabledPolicy(policies).value;
        assert FirstEnabled(policies, i + 1);
      } else {
        forall i ensures !FirstEnabled(policies, i) {
          if FirstEnabled(policies, i) { assert FirstEnabled(policies[1..], i - 1); }
        }
      }
    }
  }

  /// Every verdict of one observation, in terms of what was observed and what is stored of it: barred ones are
  /// protected, the others settle until they have a history of the configured time, and the first enabled policy
  /// decides whether that is a recommendation.
  lemma VerdictsExactly(cfg: Config, now: Time, o: Observation, previous: Option<Artifact>, evaluation: nat)
    ensures var a := Evaluate(cfg, now, o, previous, evaluation);
            var barred := o.protected_ || o.size < 0 || o.size > cfg.maxBytes;
            var same := previous.Some? && previous.value.digests == o.digests
                             && previous.value.lifecycle in {Observed, Settling, StaleCandidate, Recommended, Restored};
            var since := if same then previous.value.stableSince else now;
            var settled := !barred && previous.Some? && now - since >= cfg.minStable;
            && (a.lifecycle == Protected <==> barred)
            && (a.lifecycle == Settling <==> !barred && !settled)
            && (a.lifecycle == Recommended <==>
                 settled && cfg.recommend && exists i :: FirstEnabled(cfg.policies, i) && cfg.policies[i].recommend)
            && (a.lifecycle == StaleCandidate <==>
                 settled
                 && !(cfg.recommend && exists i :: FirstEnabled(cfg.policies, i) && cfg.policies[i].recommend))
            && a.digests == o.digests && a.stableSince == since && a.evaluation == evaluation
            && (settled ==> forall i :: FirstEnabled(cfg.policies, i) ==> a.policy == cfg.policies[i].id)
            && (!settled || (forall i :: !FirstEnabled(cfg.policies, i)) ==> a.policy == "")
  {
    EnabledPolicyIsFirst(cfg.policies);
  }

  predicate Candidate(a: Artifact) { a.lifecycle.StaleCandidate? || a.lifecycle.Recommended? }

  // ---------------------------------------------------------------------------------------------
  // The stored projection and what changes it
  // ---------------------------------------------------------------------------------------------

  /// `newest` is the greatest evaluation id ever committed.
  datatype Store = Store(rows: map<string, Artifact>, newest: nat)

  const EMPTY := Store(map[], 0)

  /// `CacheArtifactMap`: history is read only from the newest evaluation.
  function Current(st: Store, id: string): Option<Artifact> {
    if id in st.rows && st.rows[id].evaluation == st.newest then Some(st.rows[id]) else None
  }

  datatype Event =
    | Scan(now: Time, cfg: Config, observed: seq<Observation>)
    | FailedScan(recorded: bool)
    | MovedToQuarantine(id: string, digests: Digests)
    | MovedBack(id: string, digests: Digests, now: Time)
    | Deleted(id: string)
    | PartlyDone(id: string)
    | Compacted(gone: set<string>)

  /// The upserts of one evaluation over the first `n` observations; history is the state before the scan.
  function Upserts(before: Store, e: Event, n: nat): map<string, Artifact>
    requires e.Scan? && n <= |e.observed|
  {
    if n == 0 then before.rows
    else
      var o := e.observed[n - 1];
      Upserts(before, e, n - 1)[o.id := Evaluate(e.cfg, e.now, o, Current(before, o.id), before.newest + 1)]
  }

  function SetRow(st: Store, id: string, a: Artifact): Store { st.(rows := st.rows[id := a]) }

  function Step(st: Store, e: Event): Store {
    match e
    case Scan(_, _, observed) => Store(Upserts(st, e, |observed|), st.newest + 1)
    case FailedScan(recorded) => if recorded then st.(newest := st.newest + 1) else st
    case MovedToQuarantine(id, digests) =>
      if id !in st.rows then st else SetRow(st, id, st.rows[id].(lifecycle := Quarantined, digests := digests))
    case MovedBack(id, digests, now) =>
      if id !in st.rows then st
      else SetRow(st, id, st.rows[id].(lifecycle := Restored, digests := digests, stableSince := now))
    case Deleted(id) => if id !in st.rows then st else SetRow(st, id, st.rows[id].(lifecycle := Purged))
    case PartlyDone(id) => if id !in st.rows then st else SetRow(st, id, st.rows[id].(lifecycle := Partial))
    case Compacted(gone) =>
      st.(rows := map id | id in st.rows && (id !in gone || st.rows[id].evaluation == st.newest) :: st.rows[id])
  }

  function After(events: seq<Event>): Store {
    if events == [] then EMPTY else Step(After(events[..|events| - 1]), events[|events| - 1])
  }

  /// Retention takes from the projection at most what is named and not current.
  lemma CompactedExactly(st: Store, gone: set<string>, id: string)
    ensures var after := Step(st, Compacted(gone));
            && after.newest == st.newest
            && (id in after.rows <==> id in st.rows && (id in gone ==> st.rows[id].evaluation == st.newest))
            && (id in after.rows ==> after.rows[id] == st.rows[id])
  {}

  // ---------------------------------------------------------------------------------------------
  // What an unbroken window is
  // ---------------------------------------------------------------------------------------------

  /// The observation that decides the row of `id`: the last one of that id.
  function LastOf(observed: seq<Observation>, id: string): Option<Observation> {
    if observed == [] then None
    else if observed[|observed| - 1].id == id then Some(observed[|observed| - 1])
    else LastOf(observed[..|observed| - 1], id)
  }

  /// A committed evaluation that holds `id`, unprotected and within the byte bound, with these digests.
  predicate Holds(e: Event, id: string, d: Digests) {
    && e.Scan? && LastOf(e.observed, id).Some?
    && var o := LastOf(e.observed, id).value; !o.protected_ && !OverBound(e.cfg, o) && o.digests == d
  }

  /// An event that does not interrupt the stability of `id`.
  predicate Undisturbed(e: Event, id: string, d: Digests) {
    match e
    case Scan(_, _, _) => Holds(e, id, d)
    case FailedScan(recorded) => !recorded
    case MovedToQuarantine(x, _) => x != id
    case MovedBack(x, _, _) => x != id
    case Deleted(x) => x != id
    case PartlyDone(x) => x != id
    case Compacted(_) => true
  }

  /// What a window can start with: an evaluation holding the artifact, or its restoration.
  predicate Opens(e: Event, id: string, d: Digests, since: Time) {
    || (Holds(e, id, d) && e.now == since)
    || (e.MovedBack? && e.id == id && e.digests == d && e.now == since)
  }

  /// Everything after index `a` leaves `id` undisturbed.
  ghost predicate UndisturbedAfter(events: seq<Event>, a: nat, id: string, d: Digests) {
    forall k :: a < k < |events| ==> Undisturbed(events[k], id, d)
  }

  ghost predicate Window(events: seq<Event>, a: nat, id: string, d: Digests, since: Time) {
    a < |events| && Opens(events[a], id, d, since) && UndisturbedAfter(events, a, id, d)
  }

  ghost predicate HasWindow(events: seq<Event>, id: string, d: Digests, since: Time) {
    exists a: nat :: Window(events, a, id, d, since)
  }

  // ---------------------------------------------------------------------------------------------
  // Every current row rests on a window
  // ---------------------------------------------------------------------------------------------

  lemma {:induction false} UpsertsUntouched(before: Store, e: Event, n: nat, id: string)
    requires e.Scan? && n <= |e.observed| && LastOf(e.observed[..n], id).None?
    ensures id in Upserts(before, e, n) <==> id in before.rows
    ensures id in before.rows ==> Upserts(before, e, n)[id] == before.rows[id]
  {
    if n > 0 {
      assert e.observed[..n][..n - 1] == e.observed[..n - 1];
      UpsertsUntouched(before, e, n - 1, id);
    }
  }

  lemma {:induction false} UpsertsLast(before: Store, e: Event, n: nat, id: string)
    requires e.Scan? && n <= |e.observed| && LastOf(e.observed[..n], id).Some?
    ensures id in Upserts(before, e, n)
    ensures Upserts(before, e, n)[id]
         == Evaluate(e.cfg, e.now, LastOf(e.observed[..n], id).value, Current(before, id), before.newest + 1)
  {
    if n > 0 {
      assert e.observed[..n][..n - 1] == e.observed[..n - 1];
      assert LastOf(e.observed[..n], id) ==
        if e.observed[n - 1].id == id then Some(e.observed[n - 1]) else LastOf(e.observed[..n - 1], id);
      if e.observed[n - 1].id != id { UpsertsLast(before, e, n - 1, id); }
    }
  }

  lemma {:induction false} LastOfHasId(observed: seq<Observation>, id: string)
    ensures LastOf(observed, id).Some? ==> LastOf(observed, id).value.id == id && LastOf(observed, id).value in observed
    ensures LastOf(observed, id).None? <==> forall o :: o in observed ==> o.id != id
  {
    if observed != [] {
      LastOfHasId(observed[..|observed| - 1], id);
      assert observed == observed[..|observed| - 1] + [observed[|observed| - 1]];
    }
  }

  /// Evaluation ids never exceed the newest one.
  lemma {:induction false} EvaluationsAreBounded(events: seq<Event>, id: string)
    requires id in After(events).rows
    ensures After(events).rows[id].evaluation <= After(events).newest
  {
    if events != [] {
      var init, e := events[..|events| - 1], events[|events| - 1];
      var st := After(init);
      if e.Scan? {
        assert e.observed[..|e.observed|] == e.observed;
        if LastOf(e.observed, id).Some? {
          UpsertsLast(st, e, |e.observed|, id);
        } else {
          UpsertsUntouched(st, e, |e.observed|, id);
          EvaluationsAreBounded(init, id);
        }
      } else if id in st.rows {
        EvaluationsAreBounded(init, id);
      }
    }
  }

  /// A scan makes exactly the observed artifacts current.
  lemma CurrentAfterScan(events: seq<Event>, e: Event, id: string)
    requires e.Scan?
    ensures var st := After(events); var next := Step(st, e);
            Current(next, id) ==
              match LastOf(e.observed, id)
              case None => None
              case Some(o) => Some(Evaluate(e.cfg, e.now, o, Current(st, id), st.newest + 1))
  {
    var st := After(events);
    assert e.observed[..|e.observed|] == e.observed;
    if LastOf(e.observed, id).Some? {
      UpsertsLast(st, e, |e.observed|, id);
    } else {
      UpsertsUntouched(st, e, |e.observed|, id);
      if id in st.rows { EvaluationsAreBounded(events, id); }
    }
  }

  /// A current row with usable history rests on an unbroken window of the run that begins at `stableSince`.
  ghost predicate RestsOnWindow(events: seq<Event>, id: string) {
    match Current(After(events), id)
    case None => true
    case Some(a) => HistoryEligible(a.lifecycle) ==> HasWindow(events, id, a.digests, a.stableSince)
  }

  lemma OpenWindow(events: seq<Event>, id: string, d: Digests, since: Time)
    requires events != [] && Opens(events[|events| - 1], id, d, since)
    ensures HasWindow(events, id, d, since)
  {
    assert Window(events, |events| - 1, id, d, since);
  }

  lemma ExtendWindow(events: seq<Event>, e: Event, id: string, d: Digests, since: Time)
    requires HasWindow(events, id, d, since) && Undisturbed(e, id, d)
    ensures HasWindow(events + [e], id, d, since)
  {
    var a: nat :| Window(events, a, id, d, since);
    assert (events + [e])[a] == events[a];
    forall k | a < k < |events + [e]| ensures Undisturbed((events + [e])[k], id, d) {
      if k < |events| { assert (events + [e])[k] == events[k]; }
    }
    assert Window(events + [e], a, id, d, since);
  }

  lemma ScanRests(init: seq<Event>, e: Event, id: string)
    requires e.Scan? && RestsOnWindow(init, id)
    ensures RestsOnWindow(init + [e], id)
  {
    var events := init + [e];
    assert events[..|events| - 1] == init;
    CurrentAfterScan(init, e, id);
    if LastOf(e.observed, id).Some? {
      var o := LastOf(e.observed, id).value;
      var a := Evaluate(e.cfg, e.now, o, Current(After(init), id), After(init).newest + 1);
      if HistoryEligible(a.lifecycle) {
        assert Holds(e, id, o.digests);
        if Continues(Current(After(init), id), o) {
          ExtendWindow(init, e, id, o.digests, a.stableSince);
        } else {
          assert events[|events| - 1] == e;
          OpenWindow(events, id, o.digests, e.now);
        }
      }
    }
  }

  lemma OtherEventRests(init: seq<Event>, e: Event, id: string)
    requires !e.Scan? && RestsOnWindow(init, id)
    ensures RestsOnWindow(init + [e], id)
  {
    var events := init + [e];
    assert events[..|events| - 1] == init;
    var before, after := Current(After(init), id), Current(After(events), id);
    if after.Some? && HistoryEligible(after.value.lifecycle) {
      if e.FailedScan? && e.recorded {
        EvaluationsAreBounded(init, id);
        assert false;
      }
      if e.MovedBack? && e.id == id {
        assert events[|events| - 1] == e;
        OpenWindow(events, id, e.digests, e.now);
      } else {
        assert before == after;
        ExtendWindow(init, e, id, after.value.digests, after.value.stableSince);
      }
    }
  }

  lemma {:induction false} CurrentRowsRestOnWindows(events: seq<Event>, id: string)
    ensures RestsOnWindow(events, id)
  {
    if events != [] {
      var init, e := events[..|events| - 1], events[|events| - 1];
      assert events == init + [e];
      CurrentRowsRestOnWindows(init, id);
      if e.Scan? { ScanRests(init, e, id); } else { OtherEventRests(init, e, id); }
    }
  }

  // ---------------------------------------------------------------------------------------------
  // Recommended means settled
  // ---------------------------------------------------------------------------------------------

  /// A strictly earlier window of at least the configured length that ends in this scan.
  ghost predicate SettledWindow(init: seq<Event>, e: Event, id: string, d: Digests, since: Time) {
    HasWindow(init, id, d, since) && Holds(e, id, d) && e.now - since >= e.cfg.minStable
  }

  ghost predicate Settled(init: seq<Event>, e: Event, id: string, d: Digests) {
    exists since :: SettledWindow(init, e, id, d, since)
  }

  /// Over every run, a scan concludes "stale candidate" or "recommended" only when an unbroken run of
  /// committed evaluations, or a restoration and such a run, held the artifact with the same identity and
  /// manifest, unprotected and within bounds, for at least the configured time up to this scan.
  lemma CandidateRestsOnSettledWindow(init: seq<Event>, e: Event, id: string)
    requires e.Scan? && Valid(e.cfg)
    requires Current(Step(After(init), e), id).Some? && Candidate(Current(Step(After(init), e), id).value)
    ensures Settled(init, e, id, Current(Step(After(init), e), id).value.digests)
  {
    CurrentAfterScan(init, e, id);
    CurrentRowsRestOnWindows(init, id);
    var o := LastOf(e.observed, id).value;
    var a := Current(Step(After(init), e), id).value;
    assert Continues(Current(After(init), id), o);
    assert SettledWindow(init, e, id, o.digests, a.stableSince);
  }

  /// Recommendation adds exactly two authorities to being a candidate.
  lemma RecommendedExactly(init: seq<Event>, e: Event, id: string)
    requires e.Scan? && Current(Step(After(init), e), id).Some?
    ensures var a := Current(Step(After(init), e), id).value;
            a.lifecycle.Recommended? <==>
              Candidate(a) && e.cfg.recommend && EnabledPolicy(e.cfg.policies).Some?
                  && EnabledPolicy(e.cfg.policies).value.recommend
  {
    CurrentAfterScan(init, e, id);
  }

  // ---------------------------------------------------------------------------------------------
  // The converse: a settled run of evaluations forces the conclusion
  // ---------------------------------------------------------------------------------------------

  predicate Timed(e: Event) { e.Scan? || e.MovedBack? }

  ghost predicate NoneLater(events: seq<Event>, t: Time) { forall e :: e in events && Timed(e) ==> e.now <= t }

  lemma {:induction false} StableSinceIsPast(events: seq<Event>, id: string, t: Time)
    requires NoneLater(events, t) && id in After(events).rows
    ensures After(events).rows[id].stableSince <= t
  {
    if events != [] {
      var init, e := events[..|events| - 1], events[|events| - 1];
      var st := After(init);
      assert e in events && forall x :: x in init ==> x in events;
      if id in st.rows { StableSinceIsPast(init, id, t); }
      if e.Scan? {
        assert e.observed[..|e.observed|] == e.observed;
        if LastOf(e.observed, id).Some? {
          UpsertsLast(st, e, |e.observed|, id);
        } else {
          UpsertsUntouched(st, e, |e.observed|, id);
        }
      }
    }
  }

  /// The current row of `id` has usable history with these digests reaching back at least to `since`.
  ghost predicate SettledSince(events: seq<Event>, id: string, d: Digests, since: Time) {
    match Current(After(events), id)
    case None => false
    case Some(a) => HistoryEligible(a.lifecycle) && a.digests == d && a.stableSince <= since
  }

  lemma HeldScanSettles(init: seq<Event>, e: Event, id: string, d: Digests)
    requires Holds(e, id, d) && NoneLater(init, e.now)
    ensures SettledSince(init + [e], id, d, e.now)
  {
    assert (init + [e])[..|init|] == init;
    CurrentAfterScan(init, e, id);
    if id in After(init).rows { StableSinceIsPast(init, id, e.now); }
  }

  lemma UndisturbedKeepsSettled(init: seq<Event>, e: Event, id: string, d: Digests, since: Time)
    requires SettledSince(init, id, d, since) && Undisturbed(e, id, d)
    ensures SettledSince(init + [e], id, d, since)
  {
    assert (init + [e])[..|init|] == init;
    if e.Scan? { CurrentAfterScan(init, e, id); }
  }

  lemma {:induction false} UndisturbedRunKeepsSettled(events: seq<Event>, a: nat, id: string, d: Digests)
    requires a < |events| && Holds(events[a], id, d) && NoneLater(events[..a], events[a].now)
    requires UndisturbedAfter(events, a, id, d)
    ensures SettledSince(events, id, d, events[a].now)
  {
    var init, e := events[..|events| - 1], events[|events| - 1];
    assert events == init + [e];
    if a == |events| - 1 {
      HeldScanSettles(init, e, id, d);
    } else {
      assert init[..a] == events[..a];
      UndisturbedRunKeepsSettled(init, a, id, d);
      UndisturbedKeepsSettled(init, e, id, d, events[a].now);
    }
  }

  /// The other direction: an undisturbed run of evaluations as long as the configured time always ends in
  /// a candidate.
  lemma SettledRunForcesCandidate(events: seq<Event>, a: nat, e: Event, id: string, d: Digests)
    requires a < |events| && Holds(events[a], id, d) && NoneLater(events[..a], events[a].now)
    requires UndisturbedAfter(events, a, id, d)
    requires Holds(e, id, d) && e.now - events[a].now >= e.cfg.minStable
    ensures var now := Current(Step(After(events), e), id); now.Some? && Candidate(now.value)
  {
    UndisturbedRunKeepsSettled(events, a, id, d);
    CurrentAfterScan(events, e, id);
  }

  // ---------------------------------------------------------------------------------------------
  // Failed scans
  // ---------------------------------------------------------------------------------------------

  /// A failed scan whose failure is recorded, an incomplete one (all of it protected), a protected
  /// observation and an absence all restart the window: the next scan can at best be settling.
  lemma InterruptionRestarts(events: seq<Event>, bad: Event, e: Event, id: string)
    requires e.Scan? && Valid(e.cfg)
    requires (bad.FailedScan? && bad.recorded) || (bad.Scan? && forall d :: !Holds(bad, id, d))
    ensures var now := Current(Step(Step(After(events), bad), e), id); now.Some? ==> !Candidate(now.value)
  {
    var run := events + [bad];
    assert run[..|events|] == events;
    CurrentAfterScan(run, e, id);
    if bad.FailedScan? {
      if id in After(events).rows { EvaluationsAreBounded(events, id); }
    } else {
      CurrentAfterScan(events, bad, id);
      if LastOf(bad.observed, id).Some? { assert !Holds(bad, id, LastOf(bad.observed, id).value.digests); }
    }
  }

  predicate Concludes(st: Store, e: Event, id: string)
    requires e.Scan?
  {
    Current(Step(st, e), id).Some? && Candidate(Current(Step(st, e), id).value)
  }

  /// A candidate survives a failed scan just before if and only if that failure was not recorded and it would
  /// have been one without it.
  lemma FailureSurvivedIff(events: seq<Event>, recorded: bool, e: Event, id: string)
    requires e.Scan? && Valid(e.cfg)
    ensures Concludes(After(events + [FailedScan(recorded)]), e, id) <==> !recorded && Concludes(After(events), e, id)
  {
    var run := events + [FailedScan(recorded)];
    assert run[..|events|] == events;
    if recorded { InterruptionRestarts(events, FailedScan(recorded), e, id); }
  }

  /// A current row but for the number of its evaluation.
  function Stripped(a: Option<Artifact>): Option<Artifact> {
    match a case None => None case Some(row) => Some(row.(evaluation := 0))
  }

  /// The two runs leave the same current rows, as far as anything but evaluation numbers goes.
  ghost predicate SameCurrent(left: seq<Event>, right: seq<Event>) {
    forall id :: Stripped(Current(After(left), id)) == Stripped(Current(After(right), id))
  }

  lemma EvaluatesAlike(cfg: Config, now: Time, o: Observation, left: Option<Artifact>, right: Option<Artifact>, m: nat,
                       n: nat)
    requires Stripped(left) == Stripped(right)
    ensures Stripped(Some(Evaluate(cfg, now, o, left, m))) == Stripped(Some(Evaluate(cfg, now, o, right, n)))
  {}

  lemma ScansAlike(left: seq<Event>, right: seq<Event>, e: Event, id: string)
    requires e.Scan? && Stripped(Current(After(left), id)) == Stripped(Current(After(right), id))
    ensures Stripped(Current(Step(After(left), e), id)) == Stripped(Current(Step(After(right), e), id))
  {
    CurrentAfterScan(left, e, id);
    CurrentAfterScan(right, e, id);
    if LastOf(e.observed, id).Some? {
      EvaluatesAlike(e.cfg, e.now, LastOf(e.observed, id).value, Current(After(left), id), Current(After(right), id),
                     After(left).newest + 1, After(right).newest + 1);
    }
  }

  /// Every other event does to the current row what depends on the row and the event alone.
  lemma OtherAfter(events: seq<Event>, e: Event, id: string)
    requires !e.Scan?
    ensures Stripped(Current(Step(After(events), e), id)) == StrippedAfter(Stripped(Current(After(events), id)), e, id)
  {
    if id in After(events).rows { EvaluationsAreBounded(events, id); }
  }

  function StrippedAfter(row: Option<Artifact>, e: Event, id: string): Option<Artifact>
    requires !e.Scan?
  {
    if row.None? then None
    else
      match e
      case FailedScan(recorded) => if recorded then None else row
      case MovedToQuarantine(x, digests) =>
        if x == id then Some(row.value.(lifecycle := Quarantined, digests := digests)) else row
      case MovedBack(x, digests, now) =>
        if x == id then Some(row.value.(lifecycle := Restored, digests := digests, stableSince := now)) else row
      case Deleted(x) => if x == id then Some(row.value.(lifecycle := Purged)) else row
      case PartlyDone(x) => if x == id then Some(row.value.(lifecycle := Partial)) else row
      case Compacted(_) => row
  }

  lemma StepsAlike(left: seq<Event>, right: seq<Event>, e: Event)
    requires SameCurrent(left, right)
    ensures SameCurrent(left + [e], right + [e])
  {
    assert (left + [e])[..|left|] == left && (right + [e])[..|right|] == right;
    forall id ensures Stripped(Current(After(left + [e]), id)) == Stripped(Current(After(right + [e]), id)) {
      if e.Scan? {
        ScansAlike(left, right, e, id);
      } else {
        OtherAfter(left, e, id);
        OtherAfter(right, e, id);
      }
    }
  }

  lemma {:induction false} RunsAlike(left: seq<Event>, right: seq<Event>, more: seq<Event>)
    requires SameCurrent(left, right)
    ensures SameCurrent(left + more, right + more)
  {
    if more == [] {
      assert left + more == left && right + more == right;
    } else {
      var init, e := more[..|more| - 1], more[|more| - 1];
      RunsAlike(left, right, init);
      StepsAlike(left + init, right + init, e);
      assert left + more == (left + init) + [e] && right + more == (right + init) + [e];
    }
  }

  /// A failure, at any position of a run: unrecorded, it is as if it had not happened; recorded, as if nothing
  /// had happened before it. Every later conclusion is the same as in the run so shortened.
  lemma FailureAnywhereIff(before: seq<Event>, recorded: bool, more: seq<Event>, e: Event, id: string)
    requires e.Scan?
    ensures Concludes(After(before + [FailedScan(recorded)] + more), e, id)
      <==> Concludes(After((if recorded then [] else before) + more), e, id)
  {
    var failed, shorter := before + [FailedScan(recorded)], if recorded then [] else before;
    assert failed[..|before|] == before;
    forall x ensures Stripped(Current(After(failed), x)) == Stripped(Current(After(shorter), x)) {
      OtherAfter(before, FailedScan(recorded), x);
    }
    RunsAlike(failed, shorter, more);
    ScansAlike(failed + more, shorter + more, e, id);
  }

  ghost predicate NoFailureAfter(events: seq<Event>, a: nat) { forall k :: a < k < |events| ==> !events[k].FailedScan? }

  ghost predicate FailureFreeWindow(events: seq<Event>, a: nat, id: string, d: Digests, since: Time) {
    Window(events, a, id, d, since) && NoFailureAfter(events, a)
  }

  /// When every failure is recorded, a candidate has a settled window in which no scan failed at all.
  lemma RecordedFailuresBreakWindows(init: seq<Event>, e: Event, id: string)
    requires e.Scan? && Valid(e.cfg) && Concludes(After(init), e, id)
    requires forall x :: x in init && x.FailedScan? ==> x.recorded
    ensures exists a: nat, since ::
              FailureFreeWindow(init, a, id, Current(Step(After(init), e), id).value.digests, since)
                  && e.now - since >= e.cfg.minStable
  {
    var d := Current(Step(After(init), e), id).value.digests;
    CandidateRestsOnSettledWindow(init, e, id);
    var since :| SettledWindow(init, e, id, d, since);
    var a: nat :| Window(init, a, id, d, since);
    assert FailureFreeWindow(init, a, id, d, since);
  }

  const ONE_MINUTE := Config(MINUTE, 10, true, [CachePolicy("p", true, true)])
  const SEEN := Observation("a", Digests("i", "m"), 1, false)

  lemma OneObservation(now: Time)
    ensures LastOf(Scan(now, ONE_MINUTE, [SEEN]).observed, "a") == Some(SEEN)
  {}

  /// Concrete run: a failed scan whose own record could not be written leaves no trace, and the artifact
  /// is recommended across it; the same run with the failure recorded only settles.
  lemma UnrecordedFailureGoesUnnoticed()
    ensures var fails := (recorded: bool) =>
              Current(After([Scan(0, ONE_MINUTE, [SEEN]), FailedScan(recorded), Scan(MINUTE, ONE_MINUTE, [SEEN])]),
                      "a");
            && fails(false).Some? && fails(false).value.lifecycle == Recommended
            && fails(true).Some? && fails(true).value.lifecycle == Settling
  {
    var first, last := Scan(0, ONE_MINUTE, [SEEN]), Scan(MINUTE, ONE_MINUTE, [SEEN]);
    OneObservation(0);
    OneObservation(MINUTE);
    forall recorded: bool
      ensures Current(After([first, FailedScan(recorded), last]), "a").Some?
      ensures Current(After([first, FailedScan(recorded), last]), "a").value.lifecycle
           == if recorded then Settling else Recommended
    {
      var run := [first, FailedScan(recorded)];
      assert [first, FailedScan(recorded), last][..2] == run;
      assert run[..1] == [first];
      assert [first][..0] == [];
      CurrentAfterScan([], first, "a");
      CurrentAfterScan(run, last, "a");
      assert After([first]) == Step(EMPTY, first);
      assert After(run) == Step(After([first]), FailedScan(recorded));
    }
  }

  // ---------------------------------------------------------------------------------------------
  // The scanner
  // ---------------------------------------------------------------------------------------------

  /// What the provider hands back: everything it saw, protected throughout when the scan was incomplete.
  datatype Provided = Provided(observed: seq<Observation>, complete: bool)

  function Translated(artifacts: seq<P.Artifact>): (r: seq<Observation>)
    ensures |r| == |artifacts|
    ensures forall i :: 0 <= i < |r| ==> r[i] == Translate(artifacts[i])
  {
    if artifacts == [] then [] else Translated(artifacts[..|artifacts| - 1]) + [Translate(artifacts[|artifacts| - 1])]
  }

  function Translate(a: P.Artifact): Observation {
    Observation(a.entry.id, Digests(a.entry.identityDigest, a.entry.manifestDigest), a.entry.size, a.protected_)
  }

  /// What the scan receives of the provider's observation.
  function Provide(uid: int, allowed: set<string>, sessions: seq<P.Session>, fs: map<string, P.Root>,
                   bound: int): Option<Provided>
  {
    match P.Observation(uid, allowed, sessions, fs, bound)
    case Refused => None
    case Observed(artifacts, complete, _) => Some(Provided(Translated(artifacts), complete))
  }

  lemma HeldIsUnprotected(artifacts: seq<P.Artifact>, now: Time, cfg: Config, id: string, d: Digests)
    requires Holds(Scan(now, cfg, Translated(artifacts)), id, d)
    ensures exists a :: a in artifacts && a.entry.id == id && !a.protected_
  {
    var observed := Translated(artifacts);
    LastOfHasId(observed, id);
    var o := LastOf(observed, id).value;
    var i :| 0 <= i < |observed| && observed[i] == o;
    assert artifacts[i] in artifacts && Translate(artifacts[i]) == o;
  }

  /// An incomplete observation of the provider can recommend nothing, and leaves nothing that a later scan
  /// could build on.
  lemma IncompleteScanHoldsNothing(uid: int, allowed: set<string>, sessions: seq<P.Session>, fs: map<string, P.Root>,
                                   bound: int, now: Time, cfg: Config, id: string, d: Digests)
    requires Provide(uid, allowed, sessions, fs, bound).Some?
    requires !Provide(uid, allowed, sessions, fs, bound).value.complete
    ensures !Holds(Scan(now, cfg, Provide(uid, allowed, sessions, fs, bound).value.observed), id, d)
  {
    P.CompleteMeansEnumerated(uid, allowed, sessions, fs, bound);
    var artifacts := P.Observation(uid, allowed, sessions, fs, bound).artifacts;
    if Holds(Scan(now, cfg, Translated(artifacts)), id, d) { HeldIsUnprotected(artifacts, now, cfg, id, d); }
  }

  /// Every scan of a settled window that comes from the provider was complete and saw the artifact in sole
  /// possession of a finished session.
  lemma HeldMeansExclusivelyOwned(uid: int, allowed: set<string>, sessions: seq<P.Session>, fs: map<string, P.Root>,
                                  bound: int, now: Time, cfg: Config, id: string, d: Digests)
    requires Provide(uid, allowed, sessions, fs, bound).Some?
    requires Holds(Scan(now, cfg, Provide(uid, allowed, sessions, fs, bound).value.observed), id, d)
    ensures Provide(uid, allowed, sessions, fs, bound).value.complete
    ensures exists a :: a in P.Observation(uid, allowed, sessions, fs, bound).artifacts && a.entry.id == id
                        && P.Exclusive(a, uid, sessions, fs)
  {
    var artifacts := P.Observation(uid, allowed, sessions, fs, bound).artifacts;
    HeldIsUnprotected(artifacts, now, cfg, id, d);
    var a :| a in artifacts && a.entry.id == id && !a.protected_;
    P.UnprotectedIsExclusivelyOwned(uid, allowed, sessions, fs, bound, a);
  }

  class Scanner {
    var store: Store
    var healthy: bool

    constructor ()
      ensures store == EMPTY && !healthy
    {
      store, healthy := EMPTY, false;
    }

    /// One cache scan. `result` is None when reading history, sessions or the provider fails; `persists`
    /// and `records` say whether the evaluation and the record of a failure reach the database.
    method Run(now: Time, cfg: Config, result: Option<Provided>, persists: bool, records: bool)
      modifies this
      ensures store ==
        Step(old(store),
             if result.Some? && persists then Scan(now, cfg, result.value.observed) else FailedScan(records))
      ensures healthy <==> result.Some? && persists && result.value.complete
    {
      if result.None? || !persists {
        RecordFailure(records);
        return;
      }
      var observed := result.value.observed;
      ghost var e := Scan(now, cfg, observed);
      var rows := store.rows;
      for n := 0 to |observed|
        invariant store == old(store)
        invariant rows == Upserts(store, e, n)
      {
        var o := observed[n];
        rows := rows[o.id := Evaluate(cfg, now, o, Current(store, o.id), store.newest + 1)];
      }
      store := Store(rows, store.newest + 1);
      healthy := result.value.complete;
    }

    method RecordFailure(records: bool)
      modifies this
      ensures store == Step(old(store), FailedScan(records)) && !healthy
    {
      healthy := false;
      if records { store := store.(newest := store.newest + 1); }
    }
  }
}
