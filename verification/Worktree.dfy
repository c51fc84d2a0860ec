/// When a Git worktree counts as stale, over whole runs of scans, failures, restarts and lifecycle writes
/// (internal/worktree/state.go; internal/daemon/worktree_scan.go, worktree_scan_failure.go,
/// worktree_retired_scan.go; internal/storage/worktree.go).

module Worktree {
  import opened Common

  datatype State = Active | Observing | Stale | Protected | Unknown | Missing | Retired | Removed

  /// What must stay the same for inactivity to be continuous.
  datatype Facts =
      Facts(path: string, device: nat, inode: nat, sources: string, head: string, ref: string, fingerprint: string)

  /// One observation. `canonical`, `complete` and `present` are the inspection's own verdicts; `active`
  /// and `evidence` say whether a process or session uses the path and whether process evidence is whole.
  datatype Seen = Seen(
    facts: Facts, present: bool, prunable: bool, complete: bool, canonical: bool, protection: seq<string>,
    active: bool, evidence: bool)

  /// A stored row; instants are nanoseconds and 0 stands for "none".
  datatype Row = Row(facts: Facts, state: State, lastSeen: Time, inactiveSince: Time, started: Time, registered: bool)

  datatype Config = Config(staleAfter: int, scanInterval: int)

  // ---------------------------------------------------------------------------------------------
  // One observation
  // ---------------------------------------------------------------------------------------------

  /// Present, complete, canonical, unused and unprotected.
  predicate Quiet(o: Seen) {
    o.present && !o.prunable && o.evidence && o.complete && o.canonical && !o.active && o.protection == []
  }

  function Disturbed(o: Seen): State
    requires !Quiet(o)
  {
    if !o.present || o.prunable then Missing
    else if !o.evidence || !o.complete || !o.canonical then Unknown
    else if o.active then Active
    else Protected
  }

  predicate Watching(s: State) { s == Observing || s == Stale }

  /// A previous row that the observation continues: same facts, same daemon, seen recently enough.
  predicate Continues(prior: Option<Row>, facts: Facts, now: Time, started: Time, cfg: Config) {
    && prior.Some? && Watching(prior.value.state) && prior.value.facts == facts && prior.value.started == started
    && prior.value.lastSeen != 0 && prior.value.lastSeen <= now && now - prior.value.lastSeen <= 2 * cfg.scanInterval
  }

  /// `worktreeRecord` with `Classify`.
  function Observe(prior: Option<Row>, o: Seen, now: Time, started: Time, cfg: Config): Row {
    if prior.Some? && prior.value.state == Retired then prior.value.(lastSeen := now, registered := true)
    else if !Quiet(o) then Row(o.facts, Disturbed(o), now, 0, started, true)
    else if !Continues(prior, o.facts, now, started, cfg) then Row(o.facts, Observing, now, now, started, true)
    else
      var since :=
        if prior.value.inactiveSince == 0 || now < prior.value.inactiveSince then now
        else prior.value.inactiveSince;
      Row(o.facts, if now - since >= cfg.staleAfter then Stale else Observing, now, since, started, true)
  }

  // ---------------------------------------------------------------------------------------------
  // Runs
  // ---------------------------------------------------------------------------------------------

  /// A scan sees the rows that the bounded listing returns and whatever worktrees it discovers; a failed
  /// scan resets every row if its record reaches the database, and then also writes the inventory it could
  /// still collect. The lifecycle writes are those of retirement, restoration and removal.
  datatype Event =
    | Scan(now: Time, cfg: Config, listed: set<string>, observed: map<string, Seen>)
    | Incomplete(now: Time, listed: set<string>)
    | FailedScan(recorded: bool, refreshed: map<string, Row>)
    | Restarted(started: Time)
    | RetiredAt(id: string, path: string, at: Time)
    | RestoredAt(id: string, path: string, at: Time)
    | RemovedAt(id: string)
    | Pruned(gone: set<string>)

  datatype World = World(rows: map<string, Row>, started: Time)

  /// The stored row, when the listing returned it; removed tombstones are never listed.
  function Prior(w: World, listed: set<string>, id: string): Option<Row> {
    if id in w.rows && id in listed && w.rows[id].state != Removed then Some(w.rows[id]) else None
  }

  function MissingRow(r: Row, started: Time): Row {
    if r.state == Retired then r.(registered := false)
    else r.(state := Missing, inactiveSince := 0, started := started, registered := false)
  }

  /// What a scan writes for one row.
  function ScannedRow(w: World, e: Event, id: string): Row
    requires e.Scan? && (id in w.rows || id in e.observed)
  {
    if id in e.observed then Observe(Prior(w, e.listed, id), e.observed[id], e.now, w.started, e.cfg)
    else if Prior(w, e.listed, id).None? then w.rows[id]
    else if w.rows[id].state == Retired then MissingRow(w.rows[id], w.started).(lastSeen := e.now)
    else MissingRow(w.rows[id], w.started)
  }

  function Scanned(w: World, e: Event): map<string, Row>
    requires e.Scan?
  {
    map id | id in w.rows.Keys + e.observed.Keys :: ScannedRow(w, e, id)
  }

  function Unknowing(r: Row, started: Time): Row { r.(state := Unknown, inactiveSince := 0, started := started) }

  /// `ResetWorktreeInactivity`: every row but tombstones and retired ones.
  function Reset(rows: map<string, Row>, started: Time): map<string, Row> {
    map id | id in rows ::
      if rows[id].state == Removed || rows[id].state == Retired then rows[id] else Unknowing(rows[id], started)
  }

  function Step(w: World, e: Event): World {
    match e
    case Scan(_, _, _, _) => w.(rows := Scanned(w, e))
    case Incomplete(_, listed) =>
      w.(rows := map id | id in w.rows ::
           if Prior(w, listed, id).Some? then Unknowing(w.rows[id], w.started) else w.rows[id])
    case FailedScan(recorded, refreshed) =>
      if !recorded then w
      else w.(rows := Reset(w.rows, w.started) + map id | id in refreshed :: Unknowing(refreshed[id], w.started))
    case Restarted(started) => w.(started := started)
    case RetiredAt(id, path, at) =>
      if id !in w.rows then w
      else
        w.(rows := w.rows[id := w.rows[id].(state := Retired, facts := w.rows[id].facts.(path := path),
                                            lastSeen := at)])
    case RestoredAt(id, path, at) =>
      if id !in w.rows then w
      else w.(rows := w.rows[id := w.rows[id].(
                state := Observing, facts := w.rows[id].facts.(path := path), lastSeen := at, inactiveSince := 0)])
    case RemovedAt(id) => if id !in w.rows then w else w.(rows := w.rows[id := w.rows[id].(state := Removed)])
    case Pruned(gone) => w.(rows := map id | id in w.rows && (id !in gone || w.rows[id].registered) :: w.rows[id])
  }

  function After(started: Time, events: seq<Event>): World {
    if events == [] then World(map[], started) else Step(After(started, events[..|events| - 1]), events[|events| - 1])
  }

  // ---------------------------------------------------------------------------------------------
  // What one observation concludes
  // ---------------------------------------------------------------------------------------------

  /// Inactive time that the previous row counts goes on: same facts, same daemon, last seen at most two
  /// intervals ago and not in the future.
  predicate CountsOn(prior: Option<Row>, o: Seen, now: Time, started: Time, cfg: Config) {
    && prior.Some? && prior.value.state in {Observing, Stale} && prior.value.started == started
    && prior.value.facts == o.facts && prior.value.lastSeen != 0
    && prior.value.lastSeen <= now <= prior.value.lastSeen + 2 * cfg.scanInterval
  }

  /// Since when: an instant that is missing or in the future starts again.
  predicate SinceWhen(prior: Option<Row>, o: Seen, now: Time, started: Time, cfg: Config, since: Time) {
    since == if CountsOn(prior, o, now, started, cfg) && 0 != prior.value.inactiveSince <= now
             then prior.value.inactiveSince else now
  }

  /// Every verdict of an observation, in terms of what was seen.
  lemma VerdictsExactly(prior: Option<Row>, o: Seen, now: Time, started: Time, cfg: Config, since: Time)
    requires SinceWhen(prior, o, now, started, cfg, since)
    ensures var r := Observe(prior, o, now, started, cfg);
            var retired := prior.Some? && prior.value.state == Retired;
            var there := !retired && o.present && !o.prunable;
            var known := there && o.evidence && o.complete && o.canonical;
            var quiet := known && !o.active && o.protection == [];
            && (r.state == Retired <==> retired)
            && (r.state == Missing <==> !retired && !there)
            && (r.state == Unknown <==> there && !known)
            && (r.state == Active <==> known && o.active)
            && (r.state == Protected <==> known && !o.active && o.protection != [])
            && (r.state == Stale <==>
                 quiet && CountsOn(prior, o, now, started, cfg) && now - since >= cfg.staleAfter)
            && (r.state == Observing <==>
                 quiet && !(CountsOn(prior, o, now, started, cfg) && now - since >= cfg.staleAfter))
            && r.lastSeen == now && r.registered
            && (retired ==> r == prior.value.(lastSeen := now, registered := true))
            && (!retired ==> r.facts == o.facts && r.started == started)
            && (!retired ==> r.inactiveSince == if quiet then since else 0)
  {}

  /// A row that no observation is for: one the listing returned is missing, a retired one only unregistered, and
  /// any other stays.
  lemma UnseenExactly(w: World, e: Event, id: string)
    requires e.Scan? && id in w.rows && id !in e.observed
    ensures var before := w.rows[id];
            && id in Step(w, e).rows
            && var r := Step(w, e).rows[id];
               if id !in e.listed || before.state == Removed then r == before
               else if before.state == Retired then r == before.(lastSeen := e.now, registered := false)
               else r == before.(state := Missing, inactiveSince := 0, started := w.started, registered := false)
  {}

  /// One that was observed is judged against its listed row, unless that is a tombstone.
  lemma SeenExactly(w: World, e: Event, id: string)
    requires e.Scan? && id in e.observed
    ensures id in Step(w, e).rows
    ensures forall prior ::
              (prior == if id in w.rows && id in e.listed
                  && w.rows[id].state != Removed then Some(w.rows[id]) else None)
              ==> Step(w, e).rows[id] == Observe(prior, e.observed[id], e.now, w.started, e.cfg)
  {}

  /// Pruning takes exactly the named rows that are not registered.
  lemma PruningExactly(w: World, gone: set<string>, id: string)
    ensures var v := Step(w, Pruned(gone));
            && (id in v.rows <==> id in w.rows && (id in gone ==> w.rows[id].registered))
            && (id in v.rows ==> v.rows[id] == w.rows[id]) && v.started == w.started
  {}

  /// A recorded failure, and an incomplete scan for what it listed, leave every row unknown that is neither
  /// removed nor, for a failure, retired; an unrecorded failure changes nothing.
  lemma InterruptionsExactly(w: World, e: Event, id: string)
    requires e.FailedScan? || e.Incomplete?
    requires e.FailedScan? ==> id !in e.refreshed
    ensures var v := Step(w, e);
            var spared := if e.FailedScan? then !e.recorded || id !in w.rows || w.rows[id].state in {Removed, Retired}
                          else id !in e.listed || id !in w.rows || w.rows[id].state == Removed;
            && (id in v.rows <==> id in w.rows) && v.started == w.started
            && (id in w.rows ==>
                 v.rows[id] == if spared then w.rows[id]
                               else w.rows[id].(state := Unknown, inactiveSince := 0, started := w.started))
  {}

  // ---------------------------------------------------------------------------------------------
  // What an unbroken window of inactivity is
  // ---------------------------------------------------------------------------------------------

  /// A scan that finds the worktree quiet with these facts.
  predicate Sighting(e: Event, id: string, facts: Facts) {
    e.Scan? && id in e.observed && Quiet(e.observed[id]) && e.observed[id].facts == facts
  }

  /// When the worktree was last observed before the end of `events`.
  function LastSighting(events: seq<Event>, id: string): Option<Time> {
    if events == [] then None
    else if events[|events| - 1].Scan? && id in events[|events| - 1].observed then Some(events[|events| - 1].now)
    else LastSighting(events[..|events| - 1], id)
  }

  /// An event inside a window: a sighting of the listed row no more than two intervals after the previous
  /// one, or something that leaves the row alone.
  predicate Undisturbed(before: seq<Event>, e: Event, id: string, facts: Facts) {
    match e
    case Scan(now, cfg, listed, observed) =>
      if id in observed then
        && Sighting(e, id, facts) && id in listed
        && LastSighting(before, id).Some? && 0 <= now - LastSighting(before, id).value <= 2 * cfg.scanInterval
      else id !in listed
    case Incomplete(_, listed) => id !in listed
    case FailedScan(recorded, _) => !recorded
    case Restarted(_) => false
    case RetiredAt(x, _, _) => x != id
    case RestoredAt(x, _, _) => x != id
    case RemovedAt(x) => x != id
    case Pruned(_) => true
  }

  ghost predicate Window(events: seq<Event>, a: nat, id: string, facts: Facts) {
    && a < |events| && Sighting(events[a], id, facts)
    && forall k :: a < k < |events| ==> Undisturbed(events[..k], events[k], id, facts)
  }

  /// The row rests on a window that begins at its `inactiveSince`.
  ghost predicate HasWindow(events: seq<Event>, id: string, r: Row) {
    exists a: nat :: Window(events, a, id, r.facts) && events[a].now == r.inactiveSince
  }

  /// The row counts inactive time, and this daemon wrote it.
  predicate Ongoing(w: World, id: string) {
    id in w.rows && Watching(w.rows[id].state) && w.rows[id].inactiveSince != 0 && w.rows[id].started == w.started
  }

  ghost predicate Rests(events: seq<Event>, id: string, w: World) {
    Ongoing(w, id) ==> HasWindow(events, id, w.rows[id]) && LastSighting(events, id) == Some(w.rows[id].lastSeen)
  }

  lemma WindowGrows(events: seq<Event>, e: Event, id: string, r: Row)
    requires HasWindow(events, id, r) && Undisturbed(events, e, id, r.facts)
    ensures HasWindow(events + [e], id, r)
  {
    var a: nat :| Window(events, a, id, r.facts) && events[a].now == r.inactiveSince;
    var longer := events + [e];
    forall k | a < k < |longer| ensures Undisturbed(longer[..k], longer[k], id, r.facts) {
      if k < |events| { assert longer[..k] == events[..k]; } else { assert longer[..k] == events; }
    }
    assert Window(longer, a, id, r.facts);
  }

  lemma WindowOpens(events: seq<Event>, e: Event, id: string, r: Row)
    requires Sighting(e, id, r.facts) && e.now == r.inactiveSince
    ensures HasWindow(events + [e], id, r)
  {
    assert Window(events + [e], |events|, id, r.facts);
  }

  lemma LastSightingGrows(events: seq<Event>, e: Event, id: string)
    ensures LastSighting(events + [e], id) ==
        if e.Scan? && id in e.observed then Some(e.now) else LastSighting(events, id)
  {}

  lemma ScanRests(events: seq<Event>, e: Event, id: string, w: World)
    requires e.Scan? && Rests(events, id, w)
    ensures Rests(events + [e], id, Step(w, e))
  {
    LastSightingGrows(events, e, id);
    var next := Step(w, e);
    if Ongoing(next, id) {
      var r := next.rows[id];
      if id in e.observed {
        var prior := Prior(w, e.listed, id);
        var o := e.observed[id];
        if Continues(prior, o.facts, e.now, w.started, e.cfg) && r.inactiveSince == prior.value.inactiveSince
            && prior.value.inactiveSince != 0 {
          assert Undisturbed(events, e, id, r.facts);
          WindowGrows(events, e, id, w.rows[id]);
          SameWindow(events + [e], id, w.rows[id], r);
        } else {
          WindowOpens(events, e, id, r);
        }
      } else {
        assert r == w.rows[id];
        WindowGrows(events, e, id, r);
      }
    }
  }

  lemma SameWindow(events: seq<Event>, id: string, r: Row, s: Row)
    requires HasWindow(events, id, r) && s.facts == r.facts && s.inactiveSince == r.inactiveSince
    ensures HasWindow(events, id, s)
  {}

  lemma OtherRests(events: seq<Event>, e: Event, id: string, w: World)
    requires !e.Scan? && Rests(events, id, w) && (e.Restarted? && id in w.rows ==> w.rows[id].started < e.started)
    ensures Rests(events + [e], id, Step(w, e))
  {
    LastSightingGrows(events, e, id);
    var next := Step(w, e);
    if Ongoing(next, id) {
      assert w.rows[id] == next.rows[id];
      WindowGrows(events, e, id, w.rows[id]);
    }
  }

  /// Daemons start one after the other.
  ghost predicate StartsIncrease(started: Time, events: seq<Event>) {
    events == [] ||
    ( && StartsIncrease(started, events[..|events| - 1])
      && (events[|events| - 1].Restarted? ==>
           events[|events| - 1].started > After(started, events[..|events| - 1]).started))
  }

  lemma {:induction false} RowsAreNotNewer(started: Time, events: seq<Event>, id: string)
    requires StartsIncrease(started, events) && id in After(started, events).rows
    ensures After(started, events).rows[id].started <= After(started, events).started
  {
    if events != [] {
      var init, e := events[..|events| - 1], events[|events| - 1];
      if id in After(started, init).rows { RowsAreNotNewer(started, init, id); }
    }
  }

  lemma {:induction false} OngoingRowsRest(started: Time, events: seq<Event>, id: string)
    requires StartsIncrease(started, events)
    ensures Rests(events, id, After(started, events))
  {
    if events != [] {
      var init, e := events[..|events| - 1], events[|events| - 1];
      var w := After(started, init);
      assert events == init + [e];
      OngoingRowsRest(started, init, id);
      if e.Scan? {
        ScanRests(init, e, id, w);
      } else {
        if id in w.rows { RowsAreNotNewer(started, init, id); }
        OtherRests(init, e, id, w);
      }
    }
  }

  /// The last scan of the run found the worktree stale.
  predicate ConcludesStale(w: World, e: Event, id: string) {
    e.Scan? && id in e.observed && Step(w, e).rows[id].state == Stale
  }

  /// A window that ends in this scan and spans at least the configured time.
  ghost predicate LongWindow(events: seq<Event>, a: nat, id: string, facts: Facts) {
    && Window(events, a, id, facts) && events[|events| - 1].Scan?
    && events[|events| - 1].now - events[a].now >= events[|events| - 1].cfg.staleAfter
  }

  /// A stale verdict means: from some sighting on, one daemon saw the same worktree quiet, with the same
  /// path, directory identity, sources, HEAD, ref and status, at most two intervals apart, with no other
  /// verdict, recorded failure, restart or lifecycle write in between, for at least the configured time.
  lemma StaleRestsOnLongWindow(started: Time, events: seq<Event>, e: Event, id: string)
    requires StartsIncrease(started, events) && ConcludesStale(After(started, events), e, id) && e.cfg.staleAfter > 0
    ensures exists a: nat :: LongWindow(events + [e], a, id, e.observed[id].facts)
  {
    var w := After(started, events);
    var run := events + [e];
    assert run[..|events|] == events;
    var r := Step(w, e).rows[id];
    assert StartsIncrease(started, run);
    OngoingRowsRest(started, run, id);
    StaleCountsFromSince(Prior(w, e.listed, id), e.observed[id], e.now, w.started, e.cfg);
    if r.inactiveSince != 0 {
      assert Ongoing(Step(w, e), id);
      var a: nat :| Window(run, a, id, r.facts) && run[a].now == r.inactiveSince;
      assert LongWindow(run, a, id, e.observed[id].facts);
    } else {
      assert false;
    }
  }

  lemma StaleCountsFromSince(prior: Option<Row>, o: Seen, now: Time, started: Time, cfg: Config)
    requires Observe(prior, o, now, started, cfg).state == Stale && cfg.staleAfter > 0
    ensures var r := Observe(prior, o, now, started, cfg);
            r.inactiveSince != 0 && now - r.inactiveSince >= cfg.staleAfter && r.facts == o.facts
                && r.started == started
  {}

  // ---------------------------------------------------------------------------------------------
  // The converse
  // ---------------------------------------------------------------------------------------------

  /// The row has counted inactive time without a break since no later than `since`.
  ghost predicate CountingSince(started: Time, events: seq<Event>, id: string, facts: Facts, since: Time) {
    var w := After(started, events);
    && Ongoing(w, id) && w.rows[id].facts == facts && w.rows[id].inactiveSince <= since
    && LastSighting(events, id) == Some(w.rows[id].lastSeen) && w.rows[id].inactiveSince <= w.rows[id].lastSeen
    && w.rows[id].lastSeen != 0 && w.rows[id].registered
  }

  /// The scan does not read a retired row of the worktree.
  predicate Countable(w: World, e: Event, id: string)
    requires e.Scan?
  {
    Prior(w, e.listed, id).Some? ==> w.rows[id].state != Retired
  }

  lemma SightingCounts(started: Time, events: seq<Event>, e: Event, id: string, facts: Facts)
    requires Sighting(e, id, facts) && e.now != 0 && Countable(After(started, events), e, id)
    ensures CountingSince(started, events + [e], id, facts, e.now)
  {
    assert (events + [e])[..|events|] == events;
    LastSightingGrows(events, e, id);
  }

  lemma UndisturbedCounts(started: Time, events: seq<Event>, e: Event, id: string, facts: Facts, since: Time)
    requires CountingSince(started, events, id, facts, since) && Undisturbed(events, e, id, facts)
    requires e.Scan? ==> e.now != 0
    ensures CountingSince(started, events + [e], id, facts, since)
  {
    assert (events + [e])[..|events|] == events;
    LastSightingGrows(events, e, id);
  }

  lemma WindowOfPrefix(events: seq<Event>, a: nat, id: string, facts: Facts)
    requires Window(events, a, id, facts) && a < |events| - 1
    ensures Window(events[..|events| - 1], a, id, facts)
    ensures Undisturbed(events[..|events| - 1], events[|events| - 1], id, facts)
  {
    var init := events[..|events| - 1];
    forall k | a < k < |init| ensures Undisturbed(init[..k], init[k], id, facts) {
      assert init[..k] == events[..k];
    }
  }

  lemma {:induction false} WindowCounts(started: Time, events: seq<Event>, a: nat, id: string, facts: Facts)
    requires Window(events, a, id, facts) && Countable(After(started, events[..a]), events[a], id)
    requires forall e :: e in events && e.Scan? ==> e.now != 0
    ensures CountingSince(started, events, id, facts, events[a].now)
  {
    var init, e := events[..|events| - 1], events[|events| - 1];
    assert events == init + [e] && e in events;
    assert init[..a] == events[..a];
    if a == |init| {
      assert init[..a] == init;
      SightingCounts(started, init, e, id, facts);
    } else {
      assert forall x :: x in init ==> x in events;
      WindowOfPrefix(events, a, id, facts);
      WindowCounts(started, init, a, id, facts);
      UndisturbedCounts(started, init, e, id, facts, events[a].now);
    }
  }

  /// The other direction: such a window, opened by a scan that reads no retired row, always ends stale.
  lemma LongWindowForcesStale(started: Time, events: seq<Event>, a: nat, id: string, facts: Facts)
    requires LongWindow(events, a, id, facts) && Sighting(events[|events| - 1], id, facts) && a < |events| - 1
    requires Countable(After(started, events[..a]), events[a], id)
    requires forall e :: e in events && e.Scan? ==> e.now != 0
    ensures After(started, events).rows[id].state == Stale
  {
    var init, e := events[..|events| - 1], events[|events| - 1];
    assert init[..a] == events[..a];
    assert forall x :: x in init ==> x in events;
    WindowOfPrefix(events, a, id, facts);
    WindowCounts(started, init, a, id, facts);
  }

  // ---------------------------------------------------------------------------------------------
  // Exactly when
  // ---------------------------------------------------------------------------------------------

  predicate RetiredRow(w: World, id: string) { id in w.rows && w.rows[id].state == Retired && w.rows[id].registered }

  lemma UndisturbedStaysRetired(w: World, before: seq<Event>, e: Event, id: string, facts: Facts)
    requires RetiredRow(w, id) && Undisturbed(before, e, id, facts)
    ensures RetiredRow(Step(w, e), id)
  {}

  /// A window that opens on a retired row never counts: the row stays retired throughout.
  lemma {:induction false} RetiredThroughout(started: Time, events: seq<Event>, a: nat, id: string, facts: Facts)
    requires Window(events, a, id, facts) && !Countable(After(started, events[..a]), events[a], id)
    ensures RetiredRow(After(started, events), id)
  {
    var init := events[..|events| - 1];
    assert init[..a] == events[..a];
    if a == |init| {
      assert events[..a] == init;
    } else {
      WindowOfPrefix(events, a, id, facts);
      RetiredThroughout(started, init, a, id, facts);
      UndisturbedStaysRetired(After(started, init), init, events[|events| - 1], id, facts);
    }
  }

  /// A long window that began at event `a`, with a sighting that read no retired row, and ends in the scan `e`.
  ghost predicate CountedWindow(started: Time, events: seq<Event>, e: Event, a: nat, id: string)
    requires e.Scan? && id in e.observed
  {
    && a < |events| && LongWindow(events + [e], a, id, e.observed[id].facts)
    && Sighting(e, id, e.observed[id].facts) && Countable(After(started, events[..a]), events[a], id)
  }

  lemma CountedWindowIsStale(started: Time, events: seq<Event>, e: Event, a: nat, id: string)
    requires e.Scan? && id in e.observed && CountedWindow(started, events, e, a, id)
    requires forall x :: x in events + [e] && x.Scan? ==> x.now != 0
    ensures ConcludesStale(After(started, events), e, id)
  {
    var run := events + [e];
    assert run[..|events|] == events && run[..a] == events[..a];
    LongWindowForcesStale(started, run, a, id, e.observed[id].facts);
  }

  /// Over every run a scan finds a worktree stale if and only if it ends such a window.
  lemma StaleIff(started: Time, events: seq<Event>, e: Event, id: string)
    requires StartsIncrease(started, events) && e.Scan? && e.cfg.staleAfter > 0 && id in e.observed
    requires forall x :: x in events + [e] && x.Scan? ==> x.now != 0
    ensures ConcludesStale(After(started, events), e, id) <==> exists a: nat :: CountedWindow(started, events, e, a, id)
  {
    if ConcludesStale(After(started, events), e, id) {
      StaleRestsOnLongWindow(started, events, e, id);
      var run, facts := events + [e], e.observed[id].facts;
      var a: nat :| LongWindow(run, a, id, facts);
      assert run[..|events|] == events && run[..a] == events[..a];
      if !Countable(After(started, run[..a]), run[a], id) { RetiredThroughout(started, run, a, id, facts); }
      WindowOfPrefix(run, a, id, facts);
      assert CountedWindow(started, events, e, a, id);
    } else {
      forall a: nat ensures !CountedWindow(started, events, e, a, id) {
        if CountedWindow(started, events, e, a, id) { CountedWindowIsStale(started, events, e, a, id); }
      }
    }
  }

  // ---------------------------------------------------------------------------------------------
  // What failures do
  // ---------------------------------------------------------------------------------------------

  /// A recorded failure leaves no row counting: everything but tombstones and retired rows is unknown.
  lemma RecordedFailureStopsEveryWindow(w: World, refreshed: map<string, Row>, id: string)
    ensures !Ongoing(Step(w, FailedScan(true, refreshed)), id)
  {}

  /// Retirement is exempt from the reset, but not from the inventory a failed or incomplete scan rewrites.
  lemma RetirementSurvivesExactly(w: World, e: Event, id: string)
    requires id in w.rows && w.rows[id].state == Retired && (e.Incomplete? || e.FailedScan?)
    ensures id in Step(w, e).rows && Step(w, e).rows[id].state == Retired <==>
              (e.Incomplete? && id !in e.listed) || (e.FailedScan? && (!e.recorded || id !in e.refreshed))
  {}

  /// A stale verdict survives a failed scan just before if and only if that failure was not recorded and the
  /// worktree would have been stale without it.
  lemma FailureSurvivedIff(w: World, recorded: bool, refreshed: map<string, Row>, e: Event, id: string)
    requires e.Scan? && e.cfg.staleAfter > 0
    ensures ConcludesStale(Step(w, FailedScan(recorded, refreshed)), e, id) <==> !recorded && ConcludesStale(w, e, id)
  {
    var failed := Step(w, FailedScan(recorded, refreshed));
    if recorded && id in e.observed && Prior(failed, e.listed, id).Some? {
      assert !Watching(failed.rows[id].state);
    }
  }

  lemma {:induction false} AfterAlike(started: Time, left: seq<Event>, right: seq<Event>, more: seq<Event>)
    requires After(started, left) == After(started, right)
    ensures After(started, left + more) == After(started, right + more)
  {
    if more == [] {
      assert left + more == left && right + more == right;
    } else {
      var init := more[..|more| - 1];
      AfterAlike(started, left, right, init);
      assert (left + more)[..|left + more| - 1] == left + init && (right + more)[..|right + more| - 1] == right + init;
    }
  }

  /// No window reaches back over a recorded failure.
  lemma WindowsStartAfterFailure(started: Time, events: seq<Event>, k: nat, e: Event, a: nat, id: string)
    requires k < |events| && events[k].FailedScan? && events[k].recorded
    requires e.Scan? && id in e.observed && CountedWindow(started, events, e, a, id)
    ensures k < a
  {
    var run := events + [e];
    assert run[k] == events[k] && run[a] == events[a];
    assert !Undisturbed(run[..k], run[k], id, e.observed[id].facts);
  }

  /// A failure at any position of a run: unrecorded, it is as if it had not happened; recorded, a later scan
  /// finds a worktree stale if and only if it ends a long window that began after the failure.
  lemma FailureAnywhereIff(started: Time, before: seq<Event>, failure: Event, more: seq<Event>, e: Event, id: string)
    requires failure.FailedScan? && StartsIncrease(started, before + [failure] + more)
    requires e.Scan? && e.cfg.staleAfter > 0 && id in e.observed
    requires forall x :: x in before + [failure] + more + [e] && x.Scan? ==> x.now != 0
    ensures !failure.recorded ==>
              (ConcludesStale(After(started, before + [failure] + more), e, id)
               <==> ConcludesStale(After(started, before + more), e, id))
    ensures failure.recorded ==>
              (ConcludesStale(After(started, before + [failure] + more), e, id)
               <==> exists a: nat :: |before| < a && CountedWindow(started, before + [failure] + more, e, a, id))
  {
    var run := before + [failure] + more;
    if failure.recorded {
      StaleIff(started, run, e, id);
      assert run[|before|] == failure;
      forall a: nat | CountedWindow(started, run, e, a, id) ensures |before| < a {
        WindowsStartAfterFailure(started, run, |before|, e, a, id);
      }
    } else {
      assert (before + [failure])[..|before|] == before;
      AfterAlike(started, before + [failure], before, more);
    }
  }

  const QUIET := Seen(Facts("/w", 1, 2, "root", "h", "r", "f"), true, false, true, true, [], false, true)
  const EVERY_MINUTE := Config(MINUTE, MINUTE)

  function LookAt(now: Time): Event { Scan(now, EVERY_MINUTE, {"w"}, map["w" := QUIET]) }

  lemma AfterFailure(recorded: bool)
    ensures var w := After(1, [LookAt(1), FailedScan(recorded, map[])]);
            && "w" in w.rows && w.started == 1
            && w.rows["w"] ==
                 if recorded then Row(QUIET.facts, Unknown, 1, 0, 1, true)
                 else Row(QUIET.facts, Observing, 1, 1, 1, true)
  {
    var run := [LookAt(1), FailedScan(recorded, map[])];
    assert run[..1] == [LookAt(1)];
    assert [LookAt(1)][..0] == [];
    assert After(1, [LookAt(1)]) == Step(After(1, []), LookAt(1));
  }

  /// Concrete run: a failed scan whose transaction did not land leaves the window open, and the worktree is
  /// stale across it; with the failure recorded it is not.
  lemma UnrecordedFailureGoesUnnoticed()
    ensures ConcludesStale(After(1, [LookAt(1), FailedScan(false, map[])]), LookAt(MINUTE + 1), "w")
    ensures !ConcludesStale(After(1, [LookAt(1), FailedScan(true, map[])]), LookAt(MINUTE + 1), "w")
  {
    AfterFailure(false);
    AfterFailure(true);
  }

  // ---------------------------------------------------------------------------------------------
  // The loops of one scan
  // ---------------------------------------------------------------------------------------------

  /// The listing without tombstones, as the scan keys it by id.
  function Listed(w: World, listed: seq<string>): map<string, Row> {
    map id | id in listed && id in w.rows && w.rows[id].state != Removed :: w.rows[id]
  }

  method RecordObserved(w: World, e: Event, previous: map<string, Row>, ids: seq<string>)
    returns (batch: map<string, Row>)
    requires e.Scan? && forall id :: id in ids <==> id in e.observed
    requires forall id :: Prior(w, e.listed, id) == if id in previous then Some(previous[id]) else None
    ensures batch.Keys == w.rows.Keys + e.observed.Keys
    ensures forall id :: id in batch ==> batch[id] == if id in e.observed then ScannedRow(w, e, id) else w.rows[id]
  {
    batch := w.rows;
    for i := 0 to |ids|
      invariant batch.Keys == w.rows.Keys + (set id | id in ids[..i])
      invariant forall id :: id in batch ==> batch[id] == if id in ids[..i] then ScannedRow(w, e, id) else w.rows[id]
    {
      var id := ids[i];
      var prior := if id in previous then Some(previous[id]) else None;
      batch := batch[id := Observe(prior, e.observed[id], e.now, w.started, e.cfg)];
      assert ids[..i + 1] == ids[..i] + [id];
    }
    assert ids[..|ids|] == ids;
  }

  lemma MissingIsWritten(w: World, e: Event, previous: map<string, Row>, id: string)
    requires e.Scan? && id in w.rows && id !in e.observed
    requires Prior(w, e.listed, id) == if id in previous then Some(previous[id]) else None
    ensures id in previous ==>
        ScannedRow(w, e, id) == if previous[id].state == Retired
            then MissingRow(previous[id], w.started).(lastSeen := e.now)
                                else MissingRow(previous[id], w.started)
    ensures id !in previous ==> ScannedRow(w, e, id) == w.rows[id]
  {}

  method RecordMissing(w: World, e: Event, previous: map<string, Row>, listed: seq<string>, observed: map<string, Row>)
    returns (batch: map<string, Row>)
    requires e.Scan? && e.listed == set id | id in listed
    requires forall id :: Prior(w, e.listed, id) == if id in previous then Some(previous[id]) else None
    requires observed.Keys == w.rows.Keys + e.observed.Keys
    requires forall id :: id in observed ==>
        observed[id] == if id in e.observed then ScannedRow(w, e, id) else w.rows[id]
    ensures batch == Scanned(w, e)
  {
    batch := observed;
    for i := 0 to |listed|
      invariant batch.Keys == observed.Keys
      invariant forall id :: id in batch ==>
                  batch[id] == if id in e.observed || id in listed[..i] then ScannedRow(w, e, id) else w.rows[id]
    {
      var id := listed[i];
      if id in w.rows && id !in e.observed { MissingIsWritten(w, e, previous, id); }
      if id in previous && id !in e.observed {
        var missing := MissingRow(previous[id], w.started);
        batch := batch[id := if previous[id].state == Retired then missing.(lastSeen := e.now) else missing];
      }
      assert listed[..i + 1] == listed[..i] + [id];
    }
    assert listed[..|listed|] == listed;
    forall id | id in batch ensures batch[id] == ScannedRow(w, e, id) {
      if id !in e.observed && id !in listed { assert Prior(w, e.listed, id).None?; }
    }
  }

  class Inventory {
    var rows: map<string, Row>
    var started: Time

    constructor (started: Time)
      ensures View() == After(started, [])
    {
      rows, this.started := map[], started;
    }

    function View(): World reads this { World(rows, started) }

    /// One due scan, committed: observed worktrees first, then the listed rows that were not seen.
    method Collect(now: Time, cfg: Config, listed: seq<string>, ids: seq<string>, observed: map<string, Seen>)
      requires forall id :: id in ids <==> id in observed
      modifies this`rows
      ensures View() == Step(old(View()), Scan(now, cfg, (set id | id in listed), observed))
    {
      var e := Scan(now, cfg, (set id | id in listed), observed);
      var previous := Listed(View(), listed);
      var batch := RecordObserved(View(), e, previous, ids);
      rows := RecordMissing(View(), e, previous, listed, batch);
    }
  }
}
