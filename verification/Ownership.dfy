/// Durable session ownership across scans, failed writes, crashes and restarts
/// (internal/sessions/attribute.go, sessions.go, reconcile.go; internal/storage/write.go and
/// query_process.go).

module Ownership {
  import opened Common
  import opened ProcessTree

  /// What is recorded once, at the first observation of a process.
  datatype Facts = Facts(originalPpid: int, observed: bool, firstSeen: Time)

  datatype Row = Row(session: string, key: Key, confidence: real, facts: Facts, lastSeen: Time)

  datatype Claim = Claim(session: string, confidence: real)

  /// The in-memory association, keyed by exact process.
  type Memory = map<Key, Row>

  /// The stored process row: when it was last seen and whether it was marked exited.
  datatype ProcessRow = ProcessRow(lastSeen: Time, exited: bool)

  datatype Store = Store(rows: seq<Row>, processes: map<Key, ProcessRow>)

  // ---------------------------------------------------------------------------------------------
  // Reconciling one snapshot
  // ---------------------------------------------------------------------------------------------

  /// One scan's evidence: `live` claims come from adapters, `environment` claims from inherited variables.
  datatype ScanInput =
      ScanInput(taken: Time, snap: Snapshot, selfUid: int, live: map<Key, Claim>, environment: map<Key, Claim>)

  predicate Inspected(scan: ScanInput, p: Process) { p.detailed && p.uid == scan.selfUid }

  /// `attribute`: live evidence first, then recorded ownership, then the environment.
  function Attribute(m: Memory, scan: ScanInput, key: Key): Option<Claim> {
    if key in scan.live then Some(scan.live[key])
    else if key in m then Some(Claim(m[key].session, m[key].confidence))
    else if key in scan.environment then Some(scan.environment[key])
    else None
  }

  function LinkOf(s: Snapshot, pid: int): LinkState {
    match ByPid(s, pid) case None => Missing case Some(p) => ClassifyLink(s, p)
  }

  /// `enrich` and `recordProcess`: a known process keeps its facts, a new one takes them from the snapshot.
  function Enrich(m: Memory, scan: ScanInput, p: Process): Facts {
    if p.Id() in m then m[p.Id()].facts
    else Facts(p.ppid, LinkOf(scan.snap, p.pid) == Intact, scan.taken)
  }

  predicate Detached(f: Facts, p: Process) { f.observed && p.ppid != f.originalPpid }

  predicate Attributed(m: Memory, scan: ScanInput, p: Process) {
    Inspected(scan, p) && Attribute(m, scan, p.Id()).Some?
  }

  function RecordOf(m: Memory, scan: ScanInput, p: Process): Row
    requires Attributed(m, scan, p)
  {
    var claim := Attribute(m, scan, p.Id()).value;
    Row(claim.session, p.Id(), claim.confidence, Enrich(m, scan, p), scan.taken)
  }

  /// The ownership records of the first `n` processes.
  function Records(m: Memory, scan: ScanInput, n: nat): seq<Row>
    requires n <= |scan.snap|
  {
    if n == 0 then []
    else if Attributed(m, scan, scan.snap[n - 1]) then Records(m, scan, n - 1) + [RecordOf(m, scan, scan.snap[n - 1])]
    else Records(m, scan, n - 1)
  }

  function Reconciled(m: Memory, scan: ScanInput): seq<Row> { Records(m, scan, |scan.snap|) }

  /// Pending associations keyed by process; a later record of one process wins.
  function Pending(records: seq<Row>): map<Key, Row> {
    if records == [] then map[]
    else Pending(records[..|records| - 1])[records[|records| - 1].key := records[|records| - 1]]
  }

  // ---------------------------------------------------------------------------------------------
  // Storage
  // ---------------------------------------------------------------------------------------------

  /// The upsert: one row per session and process; on conflict confidence only rises and the facts stay.
  function UpsertOwnership(rows: seq<Row>, rec: Row): seq<Row> {
    if rows == [] then [rec]
    else if rows[0].session == rec.session && rows[0].key == rec.key then
      [rows[0].(confidence := if rows[0].confidence >= rec.confidence then rows[0].confidence else rec.confidence,
                lastSeen := rec.lastSeen)] + rows[1..]
    else [rows[0]] + UpsertOwnership(rows[1..], rec)
  }

  function UpsertAll(rows: seq<Row>, records: seq<Row>): seq<Row> {
    if records == [] then rows
    else UpsertOwnership(UpsertAll(rows, records[..|records| - 1]), records[|records| - 1])
  }

  predicate Recorded(records: seq<Row>, key: Key) { exists r :: r in records && r.key == key }

  /// Every recorded process is seen now; every other live row last seen before now is marked exited.
  function PersistProcesses(processes: map<Key, ProcessRow>, records: seq<Row>, now: Time): map<Key, ProcessRow> {
    map key | key in processes.Keys + (set r | r in records :: r.key) ::
      if Recorded(records, key) then ProcessRow(now, false)
      else if processes[key].lastSeen < now then processes[key].(exited := true)
      else processes[key]
  }

  function Persist(st: Store, records: seq<Row>, now: Time): Store {
    Store(UpsertAll(st.rows, records), PersistProcesses(st.processes, records, now))
  }

  predicate Live(st: Store, key: Key) { key !in st.processes || !st.processes[key].exited }

  /// `LiveOwnership`: fold the rows of live processes; the most confident row wins, the earlier on a tie.
  function LiveOwnership(st: Store, rows: seq<Row>): Memory {
    if rows == [] then map[]
    else
      var before := LiveOwnership(st, rows[..|rows| - 1]);
      var r := rows[|rows| - 1];
      if !Live(st, r.key) || (r.key in before && before[r.key].confidence >= r.confidence) then before
      else before[r.key := r]
  }

  /// The row that should win for `key`: the first among the most confident.
  predicate BestAt(rows: seq<Row>, i: nat, key: Key) {
    && i < |rows| && rows[i].key == key
    && (forall j :: 0 <= j < |rows| && rows[j].key == key ==> rows[j].confidence <= rows[i].confidence)
    && (forall j :: 0 <= j < i && rows[j].key == key ==> rows[j].confidence < rows[i].confidence)
  }

  lemma RecordedInit(rows: seq<Row>, key: Key)
    requires rows != []
    ensures Recorded(rows, key) <==> Recorded(rows[..|rows| - 1], key) || rows[|rows| - 1].key == key
  {}

  /// Exactly the recorded keys of processes not marked exited are loaded.
  lemma {:induction false} LiveOwnershipLoads(st: Store, rows: seq<Row>, key: Key)
    ensures key in LiveOwnership(st, rows)
      <==> (key !in st.processes || !st.processes[key].exited) && exists r :: r in rows && r.key == key
  {
    if rows != [] {
      LiveOwnershipLoads(st, rows[..|rows| - 1], key);
      RecordedInit(rows, key);
    }
  }

  lemma BestExtends(rows: seq<Row>, i: nat, key: Key)
    requires rows != [] && BestAt(rows[..|rows| - 1], i, key)
    requires rows[|rows| - 1].key == key ==> rows[|rows| - 1].confidence <= rows[i].confidence
    ensures BestAt(rows, i, key)
  {}

  lemma BestIsLast(rows: seq<Row>, key: Key)
    requires rows != [] && rows[|rows| - 1].key == key
    requires forall j :: 0 <= j < |rows| - 1 && rows[j].key == key ==> rows[j].confidence < rows[|rows| - 1].confidence
    ensures BestAt(rows, |rows| - 1, key)
  {}

  lemma {:induction false} LiveOwnershipPicksBest(st: Store, rows: seq<Row>, key: Key) returns (i: nat)
    requires key in LiveOwnership(st, rows)
    ensures BestAt(rows, i, key) && LiveOwnership(st, rows)[key] == rows[i]
  {
    var init, r := rows[..|rows| - 1], rows[|rows| - 1];
    var before := LiveOwnership(st, init);
    LiveOwnershipLoads(st, init, key);
    if key in before {
      i := LiveOwnershipPicksBest(st, init, key);
      assert rows[i] == init[i];
      if r.key == key && before[key].confidence < r.confidence {
        forall j | 0 <= j < |rows| - 1 && rows[j].key == key ensures rows[j].confidence < r.confidence {
          assert init[j] == rows[j];
        }
        BestIsLast(rows, key);
        i := |init|;
      } else {
        BestExtends(rows, i, key);
      }
    } else {
      i := |init|;
      forall j | 0 <= j < |rows| - 1 ensures rows[j].key != key {
        assert rows[j] in init;
      }
      BestIsLast(rows, key);
    }
  }

  // ---------------------------------------------------------------------------------------------
  // Runs
  // ---------------------------------------------------------------------------------------------

  /// What can happen to the association: a scan is persisted and committed, or persisted just before
  /// the daemon dies and starts again, or fails before its transaction lands; or the daemon restarts.
  datatype Event = Committed(scan: ScanInput) | Crashed(scan: ScanInput) | Failed(scan: ScanInput) | Restarted

  datatype State = State(memory: Memory, store: Store)

  const INITIAL := State(map[], Store([], map[]))

  predicate Persisted(e: Event) { e.Committed? || e.Crashed? }

  function Stored(s: State, scan: ScanInput): Store {
    Persist(s.store, Reconciled(s.memory, scan), scan.taken)
  }

  /// A new daemon starts empty and is seeded from storage.
  function Restart(st: Store): State { State(LiveOwnership(st, st.rows), st) }

  function Step(s: State, e: Event): State {
    match e
    case Committed(scan) => State(s.memory + Pending(Reconciled(s.memory, scan)), Stored(s, scan))
    case Crashed(scan) => Restart(Stored(s, scan))
    case Failed(_) => s
    case Restarted => Restart(s.store)
  }

  function After(events: seq<Event>): State {
    if events == [] then INITIAL else Step(After(events[..|events| - 1]), events[|events| - 1])
  }

  // ---------------------------------------------------------------------------------------------
  // Facts always come from one persisted sighting
  // ---------------------------------------------------------------------------------------------

  /// `f` is exactly what the snapshot of `scan` shows of the process `key`.
  predicate Shows(scan: ScanInput, p: Process, key: Key, f: Facts) {
    && p in scan.snap && p.Id() == key && Inspected(scan, p)
    && f == Facts(p.ppid, LinkOf(scan.snap, p.pid) == Intact, scan.taken)
  }

  ghost predicate Sighted(e: Event, key: Key, f: Facts) {
    Persisted(e) && exists p :: Shows(e.scan, p, key, f)
  }

  ghost predicate Origin(events: seq<Event>, key: Key, f: Facts) {
    exists i :: 0 <= i < |events| && Sighted(events[i], key, f)
  }

  ghost predicate RowsHaveOrigin(events: seq<Event>, rows: seq<Row>) {
    forall r :: r in rows ==> Origin(events, r.key, r.facts)
  }

  ghost predicate MemoryHasOrigin(events: seq<Event>, m: Memory) {
    forall key :: key in m ==> m[key].key == key && Origin(events, key, m[key].facts)
  }

  lemma OriginExtends(events: seq<Event>, e: Event, key: Key, f: Facts)
    requires Origin(events, key, f)
    ensures Origin(events + [e], key, f)
  {
    var i :| 0 <= i < |events| && Sighted(events[i], key, f);
    assert (events + [e])[i] == events[i];
  }

  lemma OriginHere(events: seq<Event>, e: Event, p: Process, key: Key, f: Facts)
    requires Persisted(e) && Shows(e.scan, p, key, f)
    ensures Origin(events + [e], key, f)
  {
    assert (events + [e])[|events|] == e;
    assert Sighted((events + [e])[|events|], key, f);
  }

  lemma {:induction false} RecordsHaveOrigin(events: seq<Event>, e: Event, m: Memory, n: nat)
    requires Persisted(e) && MemoryHasOrigin(events, m) && n <= |e.scan.snap|
    ensures RowsHaveOrigin(events + [e], Records(m, e.scan, n))
  {
    if n > 0 {
      RecordsHaveOrigin(events, e, m, n - 1);
      var p := e.scan.snap[n - 1];
      if Attributed(m, e.scan, p) {
        var r := RecordOf(m, e.scan, p);
        if p.Id() in m {
          OriginExtends(events, e, p.Id(), r.facts);
        } else {
          OriginHere(events, e, p, p.Id(), r.facts);
        }
      }
    }
  }

  /// An upserted row is an old one, the new one, or an old one with its facts kept.
  lemma {:induction false} UpsertKeepsFacts(rows: seq<Row>, rec: Row, r: Row)
    requires r in UpsertOwnership(rows, rec)
    ensures r == rec || exists x :: x in rows && x.key == r.key && x.session == r.session && x.facts == r.facts
  {
    if rows != [] {
      if rows[0].session == rec.session && rows[0].key == rec.key {
        var updated := UpsertOwnership(rows, rec);
        assert updated[1..] == rows[1..];
        if r == updated[0] {
          assert rows[0] in rows;
        } else {
          assert r in updated[1..];
          assert r in rows;
        }
      } else if r == rows[0] {
        assert rows[0] in rows;
      } else {
        UpsertKeepsFacts(rows[1..], rec, r);
        if r != rec {
          var x :| x in rows[1..] && x.key == r.key && x.session == r.session && x.facts == r.facts;
          assert x in rows;
        }
      }
    }
  }

  lemma UpsertHasOrigin(events: seq<Event>, rows: seq<Row>, rec: Row)
    requires RowsHaveOrigin(events, rows) && Origin(events, rec.key, rec.facts)
    ensures RowsHaveOrigin(events, UpsertOwnership(rows, rec))
  {
    forall r | r in UpsertOwnership(rows, rec) ensures Origin(events, r.key, r.facts) {
      UpsertKeepsFacts(rows, rec, r);
    }
  }

  lemma {:induction false} UpsertAllHasOrigin(events: seq<Event>, rows: seq<Row>, records: seq<Row>)
    requires RowsHaveOrigin(events, rows) && RowsHaveOrigin(events, records)
    ensures RowsHaveOrigin(events, UpsertAll(rows, records))
  {
    if records != [] {
      var init := records[..|records| - 1];
      forall r | r in init ensures r in records {}
      UpsertAllHasOrigin(events, rows, init);
      assert records[|records| - 1] in records;
      UpsertHasOrigin(events, UpsertAll(rows, init), records[|records| - 1]);
    }
  }

  lemma {:induction false} PendingComesFromRecords(records: seq<Row>, key: Key)
    ensures key in Pending(records) <==> Recorded(records, key)
    ensures key in Pending(records) ==> Pending(records)[key] in records && Pending(records)[key].key == key
  {
    if records != [] {
      PendingComesFromRecords(records[..|records| - 1], key);
      RecordedInit(records, key);
      assert records[|records| - 1] in records;
      assert forall r :: r in records[..|records| - 1] ==> r in records;
    }
  }

  lemma LiveOwnershipHasOrigin(events: seq<Event>, st: Store)
    requires RowsHaveOrigin(events, st.rows)
    ensures MemoryHasOrigin(events, LiveOwnership(st, st.rows))
  {
    var m := LiveOwnership(st, st.rows);
    forall key | key in m ensures m[key].key == key && Origin(events, key, m[key].facts) {
      var i := LiveOwnershipPicksBest(st, st.rows, key);
      assert st.rows[i] in st.rows;
    }
  }

  lemma StoredHasOrigin(events: seq<Event>, s: State, e: Event)
    requires Persisted(e) && MemoryHasOrigin(events, s.memory) && RowsHaveOrigin(events, s.store.rows)
    ensures RowsHaveOrigin(events + [e], Reconciled(s.memory, e.scan))
    ensures RowsHaveOrigin(events + [e], Stored(s, e.scan).rows)
  {
    RecordsHaveOrigin(events, e, s.memory, |e.scan.snap|);
    forall r | r in s.store.rows ensures Origin(events + [e], r.key, r.facts) {
      OriginExtends(events, e, r.key, r.facts);
    }
    UpsertAllHasOrigin(events + [e], s.store.rows, Reconciled(s.memory, e.scan));
  }

  lemma CommittedHasOrigin(events: seq<Event>, m: Memory, e: Event, records: seq<Row>)
    requires MemoryHasOrigin(events, m) && RowsHaveOrigin(events + [e], records)
    ensures MemoryHasOrigin(events + [e], m + Pending(records))
  {
    var next := m + Pending(records);
    forall key | key in next ensures next[key].key == key && Origin(events + [e], key, next[key].facts) {
      PendingComesFromRecords(records, key);
      if key !in Pending(records) { OriginExtends(events, e, key, m[key].facts); }
    }
  }

  /// Over every run, whatever is remembered or stored about a process's origin is what one persisted
  /// scan of this run saw of that exact process.
  lemma {:induction false} FactsHaveOrigin(events: seq<Event>)
    ensures MemoryHasOrigin(events, After(events).memory)
    ensures RowsHaveOrigin(events, After(events).store.rows)
  {
    if events != [] {
      var init, e := events[..|events| - 1], events[|events| - 1];
      assert events == init + [e];
      FactsHaveOrigin(init);
      var s := After(init);
      if Persisted(e) {
        StoredHasOrigin(init, s, e);
        if e.Committed? {
          CommittedHasOrigin(init, s.memory, e, Reconciled(s.memory, e.scan));
        } else {
          LiveOwnershipHasOrigin(events, Stored(s, e.scan));
        }
      } else {
        forall r | r in s.store.rows ensures Origin(events, r.key, r.facts) {
          OriginExtends(init, e, r.key, r.facts);
        }
        if e.Restarted? {
          LiveOwnershipHasOrigin(events, s.store);
        } else {
          forall key | key in s.memory ensures Origin(events, key, s.memory[key].facts) {
            OriginExtends(init, e, key, s.memory[key].facts);
          }
        }
      }
    }
  }

  /// An intact link was seen to the parent `ppid`: it was in the snapshot and no younger than the child.
  ghost predicate IntactUnder(e: Event, key: Key, ppid: int, firstSeen: Time) {
    && Persisted(e) && e.scan.taken == firstSeen
    && exists p :: p in e.scan.snap && p.Id() == key && p.ppid == ppid && LinkOf(e.scan.snap, p.pid) == Intact
  }

  /// The claim behind "detached": an earlier persisted scan of this run saw that exact process with an
  /// intact link to a parent it no longer has.
  lemma DetachedWasAttached(events: seq<Event>, scan: ScanInput, p: Process)
    requires p in scan.snap && Detached(Enrich(After(events).memory, scan, p), p)
    ensures exists i :: 0 <= i < |events|
              && IntactUnder(events[i], p.Id(), Enrich(After(events).memory, scan, p).originalPpid,
                             Enrich(After(events).memory, scan, p).firstSeen)
    ensures Enrich(After(events).memory, scan, p).originalPpid != p.ppid
  {
    FactsHaveOrigin(events);
    var f := Enrich(After(events).memory, scan, p);
    assert p.Id() in After(events).memory;
    assert Origin(events, p.Id(), f);
    var i :| 0 <= i < |events| && Sighted(events[i], p.Id(), f);
    var q :| Shows(events[i].scan, q, p.Id(), f);
    assert IntactUnder(events[i], p.Id(), f.originalPpid, f.firstSeen);
  }

  // ---------------------------------------------------------------------------------------------
  // Facts never change while the process is not forgotten
  // ---------------------------------------------------------------------------------------------

  /// Memory and every stored row agree that the origin of `key` is `f`.
  predicate KnownAs(s: State, key: Key, f: Facts) {
    && key in s.memory && s.memory[key].facts == f
    && RowsAgree(s.store.rows, key, f) && Recorded(s.store.rows, key)
  }

  predicate RowsAgree(rows: seq<Row>, key: Key, f: Facts) { forall r :: r in rows && r.key == key ==> r.facts == f }

  /// Whenever a daemon is seeded in `more`, the stored process row of `key` is not marked exited.
  predicate NeverForgotten(s: State, more: seq<Event>, key: Key)
    decreases |more|
  {
    more == [] ||
    ( && (more[0].Restarted? ==> Live(s.store, key))
      && (more[0].Crashed? ==> Live(Stored(s, more[0].scan), key))
      && NeverForgotten(Step(s, more[0]), more[1..], key))
  }

  function Continue(s: State, more: seq<Event>): State
    decreases |more|
  {
    if more == [] then s else Continue(Step(s, more[0]), more[1..])
  }

  lemma {:induction false} RecordsAgree(m: Memory, scan: ScanInput, n: nat, key: Key)
    requires key in m && n <= |scan.snap|
    ensures RowsAgree(Records(m, scan, n), key, m[key].facts)
  {
    if n > 0 { RecordsAgree(m, scan, n - 1, key); }
  }

  lemma {:induction false} UpsertAgrees(rows: seq<Row>, rec: Row, key: Key, f: Facts)
    requires RowsAgree(rows, key, f) && (rec.key == key ==> rec.facts == f)
    ensures RowsAgree(UpsertOwnership(rows, rec), key, f)
    ensures Recorded(UpsertOwnership(rows, rec), key) <==> Recorded(rows, key) || rec.key == key
  {
    UpsertRecords(rows, rec, key);
    forall r | r in UpsertOwnership(rows, rec) && r.key == key ensures r.facts == f {
      UpsertKeepsFacts(rows, rec, r);
    }
  }

  lemma {:induction false} UpsertRecords(rows: seq<Row>, rec: Row, key: Key)
    ensures Recorded(UpsertOwnership(rows, rec), key) <==> Recorded(rows, key) || rec.key == key
  {
    if rows == [] {
      assert rec in [rec];
    } else {
      var tail := UpsertOwnership(rows, rec)[1..];
      RecordedHead(rows, key);
      RecordedHead(UpsertOwnership(rows, rec), key);
      if rows[0].session == rec.session && rows[0].key == rec.key {
        assert tail == rows[1..];
      } else {
        assert tail == UpsertOwnership(rows[1..], rec);
        UpsertRecords(rows[1..], rec, key);
      }
    }
  }

  lemma RecordedHead(rows: seq<Row>, key: Key)
    requires rows != []
    ensures Recorded(rows, key) <==> rows[0].key == key || Recorded(rows[1..], key)
  {}

  lemma {:induction false} UpsertAllAgrees(rows: seq<Row>, records: seq<Row>, key: Key, f: Facts)
    requires RowsAgree(rows, key, f) && RowsAgree(records, key, f)
    ensures RowsAgree(UpsertAll(rows, records), key, f)
    ensures Recorded(UpsertAll(rows, records), key) <==> Recorded(rows, key) || Recorded(records, key)
  {
    if records != [] {
      var init, r := records[..|records| - 1], records[|records| - 1];
      assert forall x :: x in init ==> x in records;
      assert r in records;
      RecordedInit(records, key);
      UpsertAllAgrees(rows, init, key, f);
      UpsertAgrees(UpsertAll(rows, init), r, key, f);
    }
  }

  lemma StoredAgrees(s: State, scan: ScanInput, key: Key, f: Facts)
    requires KnownAs(s, key, f)
    ensures RowsAgree(Stored(s, scan).rows, key, f) && Recorded(Stored(s, scan).rows, key)
    ensures RowsAgree(Reconciled(s.memory, scan), key, f)
  {
    RecordsAgree(s.memory, scan, |scan.snap|, key);
    UpsertAllAgrees(s.store.rows, Reconciled(s.memory, scan), key, f);
  }

  /// A restart keeps what is known of a process exactly when its stored row is not marked exited.
  lemma RestartKnowsIffLive(st: Store, key: Key, f: Facts)
    requires RowsAgree(st.rows, key, f) && Recorded(st.rows, key)
    ensures KnownAs(Restart(st), key, f) <==> key !in st.processes || !st.processes[key].exited
    ensures key in Restart(st).memory <==> key !in st.processes || !st.processes[key].exited
  {
    LiveOwnershipLoads(st, st.rows, key);
    if Live(st, key) {
      var i := LiveOwnershipPicksBest(st, st.rows, key);
      assert st.rows[i] in st.rows;
    }
  }

  /// The one step that can lose what is known is a restart for which the stored row is marked exited.
  lemma StepKeepsKnown(s: State, e: Event, key: Key, f: Facts)
    requires KnownAs(s, key, f)
    ensures KnownAs(Step(s, e), key, f) <==> NeverForgotten(s, [e], key)
  {
    match e
    case Committed(scan) =>
      StoredAgrees(s, scan, key, f);
      PendingComesFromRecords(Reconciled(s.memory, scan), key);
    case Crashed(scan) =>
      StoredAgrees(s, scan, key, f);
      RestartKnowsIffLive(Stored(s, scan), key, f);
    case Failed(_) =>
    case Restarted =>
      RestartKnowsIffLive(s.store, key, f);
  }

  ghost predicate KnownThroughout(s: State, more: seq<Event>, key: Key, f: Facts) {
    forall n :: 0 <= n <= |more| ==> KnownAs(Continue(s, more[..n]), key, f)
  }

  lemma ThroughoutSplits(s: State, more: seq<Event>, key: Key, f: Facts)
    requires more != []
    ensures KnownThroughout(s, more, key, f)
        <==> KnownAs(s, key, f) && KnownThroughout(Step(s, more[0]), more[1..], key, f)
  {
    assert more[..0] == [];
    forall n | 0 < n <= |more| ensures Continue(s, more[..n]) == Continue(Step(s, more[0]), more[1..][..n - 1]) {
      assert more[..n][1..] == more[1..][..n - 1];
    }
    if KnownThroughout(s, more, key, f) {
      assert KnownAs(Continue(s, more[..0]), key, f);
      forall n | 0 <= n <= |more[1..]| ensures KnownAs(Continue(Step(s, more[0]), more[1..][..n]), key, f) {
        assert KnownAs(Continue(s, more[..n + 1]), key, f);
      }
    }
  }

  /// Original parent, observed flag and first-seen time never change, in memory or in any stored row, at any
  /// time of a continuation, if and only if in it no daemon is seeded while the process is marked exited.
  lemma {:induction false} FactsNeverChange(s: State, more: seq<Event>, key: Key, f: Facts)
    requires KnownAs(s, key, f)
    ensures KnownThroughout(s, more, key, f) <==> NeverForgotten(s, more, key)
    decreases |more|
  {
    if more == [] {
      assert more[..0] == [];
    } else {
      assert [more[0]][1..] == [];
      StepKeepsKnown(s, more[0], key, f);
      ThroughoutSplits(s, more, key, f);
      if KnownAs(Step(s, more[0]), key, f) {
        FactsNeverChange(Step(s, more[0]), more[1..], key, f);
      } else {
        assert more[1..][..0] == [];
        assert !KnownAs(Continue(Step(s, more[0]), more[1..][..0]), key, f);
      }
    }
  }

  /// Without a restart nothing is forgotten.
  lemma {:induction false} WithoutRestartNothingIsForgotten(s: State, more: seq<Event>, key: Key)
    requires forall e :: e in more ==> e.Committed? || e.Failed?
    ensures NeverForgotten(s, more, key)
    decreases |more|
  {
    if more != [] { WithoutRestartNothingIsForgotten(Step(s, more[0]), more[1..], key); }
  }

  /// Once recorded, an inspected process is attributed in every later scan, whatever adapters say.
  lemma OwnedStaysAttributed(s: State, key: Key, f: Facts, scan: ScanInput, p: Process)
    requires KnownAs(s, key, f) && p.Id() == key && Inspected(scan, p)
    ensures Attributed(s.memory, scan, p) && RecordOf(s.memory, scan, p).facts == f
    ensures key !in scan.live ==> RecordOf(s.memory, scan, p).session == s.memory[key].session
  {}

  // ---------------------------------------------------------------------------------------------
  // When facts do change
  // ---------------------------------------------------------------------------------------------

  lemma {:induction false} OneRecordPerProcess(m: Memory, scan: ScanInput, n: nat, i: nat)
    requires DistinctPids(scan.snap) && i < n <= |scan.snap| && Attributed(m, scan, scan.snap[i])
    ensures Recorded(Records(m, scan, n), scan.snap[i].Id())
    ensures forall r :: r in Records(m, scan, n) && r.key == scan.snap[i].Id() ==> r == RecordOf(m, scan, scan.snap[i])
  {
    var p, last := scan.snap[i], scan.snap[n - 1];
    if i < n - 1 {
      OneRecordPerProcess(m, scan, n - 1, i);
      assert last.pid != p.pid;
      if Attributed(m, scan, last) { RecordedInit(Records(m, scan, n), p.Id()); }
    } else {
      NoEarlierRecord(m, scan, n - 1, i);
      assert Records(m, scan, n)[|Records(m, scan, n - 1)|] == RecordOf(m, scan, p);
      assert RecordOf(m, scan, p) in Records(m, scan, n);
    }
  }

  lemma {:induction false} NoEarlierRecord(m: Memory, scan: ScanInput, n: nat, i: nat)
    requires DistinctPids(scan.snap) && n <= i < |scan.snap|
    ensures !Recorded(Records(m, scan, n), scan.snap[i].Id())
  {
    if n > 0 {
      NoEarlierRecord(m, scan, n - 1, i);
      assert scan.snap[n - 1].pid != scan.snap[i].pid;
      if Attributed(m, scan, scan.snap[n - 1]) { RecordedInit(Records(m, scan, n), scan.snap[i].Id()); }
    }
  }

  /// A process not in memory takes its facts from the committed scan that first attributes it.
  lemma FirstSightingSetsFacts(s: State, scan: ScanInput, i: nat)
    requires DistinctPids(scan.snap) && i < |scan.snap| && Attributed(s.memory, scan, scan.snap[i])
    requires scan.snap[i].Id() !in s.memory
    ensures var key := scan.snap[i].Id();
            var next := Step(s, Committed(scan)).memory;
            && key in next
            && next[key].facts ==
                 Facts(scan.snap[i].ppid, LinkOf(scan.snap, scan.snap[i].pid) == Intact, scan.taken)
  {
    var records := Reconciled(s.memory, scan);
    OneRecordPerProcess(s.memory, scan, |scan.snap|, i);
    PendingComesFromRecords(records, scan.snap[i].Id());
  }

  /// A persisted scan in which the process is not recorded marks it exited; the next daemon forgets it.
  lemma MissedThenRestartedForgets(s: State, missed: ScanInput, key: Key)
    requires key in s.store.processes && s.store.processes[key].lastSeen < missed.taken
    requires !Recorded(Reconciled(s.memory, missed), key)
    ensures key !in Continue(s, [Committed(missed), Restarted]).memory
  {
    var st := Stored(s, missed);
    assert !Live(st, key);
    LiveOwnershipLoads(st, st.rows, key);
    assert [Committed(missed), Restarted][1..] == [Restarted];
    assert [Restarted][1..] == [];
    var next := Step(s, Committed(missed));
    assert Continue(s, [Committed(missed), Restarted]) == Continue(next, [Restarted]);
    assert Continue(next, [Restarted]) == Continue(Step(next, Restarted), []);
  }

  const PARENT := Process(5, 1, 10, Running, true, 7)
  const CHILD := Process(6, 5, 20, Running, true, 7)

  function ScanAt(taken: Time, child: Process): ScanInput {
    ScanInput(taken, [PARENT, child], 7, map[CHILD.Id() := Claim("s", 1.0)], map[])
  }

  const SEEN := ScanAt(100, CHILD)
  const UNREADABLE := ScanAt(200, CHILD.(detailed := false))
  const REPARENTED := ScanAt(300, CHILD.(ppid := 1))

  lemma LookUp(child: Process, pid: int)
    requires child.pid == 6
    ensures ByPid([PARENT, child], pid)
         == if pid == 6 then Some(child) else if pid == 5 then Some(PARENT) else None
  {}

  /// With only the child owned or claimed, a scan records it or nothing.
  lemma RecordsOfTwo(m: Memory, taken: Time, child: Process)
    requires m.Keys <= {CHILD.Id()} && child.Id() == CHILD.Id() && child.uid == 7
    ensures Reconciled(m, ScanAt(taken, child))
         == if child.detailed then [RecordOf(m, ScanAt(taken, child), child)] else []
  {
    var scan := ScanAt(taken, child);
    assert !Attributed(m, scan, scan.snap[0]);
    assert Records(m, scan, 0) == [];
    assert Records(m, scan, 1) == [];
    assert scan.snap[1] == child;
    assert Attributed(m, scan, child) <==> child.detailed;
  }

  const FIRST := Row("s", CHILD.Id(), 1.0, Facts(5, true, 100), 100)

  lemma SeenIsRecorded()
    ensures Reconciled(map[], SEEN) == [FIRST]
  {
    RecordsOfTwo(map[], 100, CHILD);
    LookUp(CHILD, 6);
    LookUp(CHILD, 5);
  }

  lemma AfterSeen()
    ensures Step(INITIAL, Committed(SEEN)) ==
        State(map[CHILD.Id() := FIRST], Store([FIRST], map[CHILD.Id() := ProcessRow(100, false)]))
  {
    SeenIsRecorded();
    assert [FIRST][..0] == [];
    assert Pending([FIRST]) == map[CHILD.Id() := FIRST];
    assert UpsertAll([], [FIRST]) == [FIRST];
    assert FIRST in [FIRST];
    assert Recorded([FIRST], CHILD.Id());
  }

  /// Concrete run: the child is seen under its parent, then once without details, the daemon restarts,
  /// and the next scan takes the reaper for the original parent; the process no longer reads as detached.
  lemma MissedScanLosesTheOriginalParent()
    ensures var s := Continue(Step(INITIAL, Committed(SEEN)), [Committed(UNREADABLE), Restarted]);
            && KnownAs(Step(INITIAL, Committed(SEEN)), CHILD.Id(), Facts(5, true, 100))
            && CHILD.Id() !in s.memory
            && CHILD.Id() in Step(s, Committed(REPARENTED)).memory
            && Step(s, Committed(REPARENTED)).memory[CHILD.Id()].facts == Facts(1, false, 300)
  {
    AfterSeen();
    assert FIRST in [FIRST];
    var one := Step(INITIAL, Committed(SEEN));
    RecordsOfTwo(one.memory, 200, CHILD.(detailed := false));
    assert !Recorded([], CHILD.Id());
    MissedThenRestartedForgets(one, UNREADABLE, CHILD.Id());
    var s := Continue(one, [Committed(UNREADABLE), Restarted]);
    assert REPARENTED.snap[1].Id() == CHILD.Id();
    LookUp(CHILD.(ppid := 1), 6);
    LookUp(CHILD.(ppid := 1), 1);
    assert DistinctPids(REPARENTED.snap);
    FirstSightingSetsFacts(s, REPARENTED, 1);
  }

  // ---------------------------------------------------------------------------------------------
  // The reconciler object
  // ---------------------------------------------------------------------------------------------

  lemma PendingGrows(records: seq<Row>, r: Row)
    ensures Pending(records + [r]) == Pending(records)[r.key := r]
  {}

  /// The object the daemon keeps: reconciling reads `ownership`, only Commit and Seed change it.
  class Reconciler {
    var ownership: Memory

    constructor ()
      ensures ownership == map[]
    {
      ownership := map[];
    }

    method Reconcile(scan: ScanInput) returns (records: seq<Row>, pending: map<Key, Row>)
      ensures records == Reconciled(ownership, scan)
      ensures pending == Pending(records)
    {
      records, pending := [], map[];
      for n := 0 to |scan.snap|
        invariant records == Records(ownership, scan, n)
        invariant pending == Pending(records)
      {
        var p := scan.snap[n];
        if !p.detailed || p.uid != scan.selfUid { continue; }
        var claim := Attribute(ownership, scan, p.Id());
        if claim.None? { continue; }
        var own := Row(claim.value.session, p.Id(), claim.value.confidence, Enrich(ownership, scan, p), scan.taken);
        PendingGrows(records, own);
        records, pending := records + [own], pending[p.Id() := own];
      }
    }

    method Commit(records: seq<Row>, pending: map<Key, Row>)
      requires pending == Pending(records)
      modifies this
      ensures ownership == old(ownership) + Pending(records)
    {
      ownership := ownership + pending;
    }

    /// One scan cycle: whatever the store holds, the associations become the daemon's as one step of the run
    /// has it, and only once the scan is persisted.
    method Cycle(scan: ScanInput, persists: bool) returns (records: seq<Row>)
      modifies this
      ensures records == Reconciled(old(ownership), scan)
      ensures forall st: Store ::
                ownership == Step(State(old(ownership), st), if persists then Committed(scan) else Failed(scan)).memory
    {
      var pending;
      records, pending := Reconcile(scan);
      if persists { Commit(records, pending); }
    }

    /// Seeding a new daemon; the rows are folded in the order the query returns them.
    method Seed(st: Store)
      modifies this
      ensures ownership == old(ownership) + LiveOwnership(st, st.rows)
    {
      var loaded: Memory := map[];
      for n := 0 to |st.rows|
        invariant loaded == LiveOwnership(st, st.rows[..n])
      {
        var rec := st.rows[n];
        assert st.rows[..n + 1][..n] == st.rows[..n];
        if !Live(st, rec.key) { continue; }
        if rec.key in loaded && loaded[rec.key].confidence >= rec.confidence { continue; }
        loaded := loaded[rec.key := rec];
      }
      assert st.rows[..|st.rows|] == st.rows;
      ownership := ownership + loaded;
    }
  }
}
