/// Whom a scan records and for what, in memory and in storage, in terms of the claims and the snapshot
/// themselves (internal/sessions/attribute.go and reconcile.go; internal/storage/write.go).

module OwnershipRecords {
  import opened Common
  import opened ProcessTree
  import opened Ownership

  // ---------------------------------------------------------------------------------------------
  // One scan
  // ---------------------------------------------------------------------------------------------

  /// An entry that could be read in detail, of the user the daemon runs as.
  predicate Readable(scan: ScanInput, p: Process) { p.detailed && p.uid == scan.selfUid }

  predicate Claimed(m: Memory, scan: ScanInput, key: Key) { key in scan.live || key in m || key in scan.environment }

  /// What an adapter claims now comes before what was recorded, and that before what the environment says.
  predicate ClaimedBy(m: Memory, scan: ScanInput, key: Key, session: string, confidence: real) {
    if key in scan.live then scan.live[key] == Claim(session, confidence)
    else if key in m then m[key].session == session && m[key].confidence == confidence
    else key in scan.environment && scan.environment[key] == Claim(session, confidence)
  }

  /// The record of one snapshot entry. What was known of its origin stays; otherwise it is what the snapshot
  /// shows, and the parent counts as observed exactly when the entry's own lookup links to it intact.
  predicate RecordedAs(m: Memory, scan: ScanInput, p: Process, r: Row) {
    && Readable(scan, p) && r.key == p.Id() && r.lastSeen == scan.taken
    && ClaimedBy(m, scan, r.key, r.session, r.confidence)
    && (r.key in m ==> r.facts == m[r.key].facts)
    && (r.key !in m ==>
         && r.facts.originalPpid == p.ppid && r.facts.firstSeen == scan.taken
         && (r.facts.observed <==>
              ByPid(scan.snap, p.pid).Some? && ClassifyLink(scan.snap, ByPid(scan.snap, p.pid).value) == Intact))
  }

  /// Strictly increasing positions.
  ghost predicate Increasing(positions: seq<nat>) {
    forall i, j :: 0 <= i < j < |positions| ==> positions[i] < positions[j]
  }

  ghost predicate RecordsOf(m: Memory, scan: ScanInput, records: seq<Row>, positions: seq<nat>, n: nat)
    requires n <= |scan.snap|
  {
    && |positions| == |records| && Increasing(positions)
    && (forall k :: 0 <= k < |records| ==> positions[k] < n && RecordedAs(m, scan, scan.snap[positions[k]], records[k]))
    && (forall i: nat :: i < n ==>
         (i in positions <==> Readable(scan, scan.snap[i]) && Claimed(m, scan, scan.snap[i].Id())))
  }

  lemma EntryIsRecorded(m: Memory, scan: ScanInput, p: Process)
    ensures Attributed(m, scan, p) <==> Readable(scan, p) && Claimed(m, scan, p.Id())
    ensures Attributed(m, scan, p) ==> RecordedAs(m, scan, p, RecordOf(m, scan, p))
  {
    if ByPid(scan.snap, p.pid).Some? {
      var q := ByPid(scan.snap, p.pid).value;
      assert LinkOf(scan.snap, p.pid) == ClassifyLink(scan.snap, q);
    }
  }

  lemma {:induction false} FirstRecords(m: Memory, scan: ScanInput, n: nat) returns (positions: seq<nat>)
    requires n <= |scan.snap|
    ensures RecordsOf(m, scan, Records(m, scan, n), positions, n)
  {
    if n == 0 {
      positions := [];
    } else {
      positions := FirstRecords(m, scan, n - 1);
      var p := scan.snap[n - 1];
      EntryIsRecorded(m, scan, p);
      if Attributed(m, scan, p) {
        OneMoreRecord(m, scan, Records(m, scan, n - 1), positions, n - 1, RecordOf(m, scan, p));
        positions := positions + [n - 1];
      }
    }
  }

  lemma OneMoreRecord(m: Memory, scan: ScanInput, records: seq<Row>, positions: seq<nat>, n: nat, r: Row)
    requires n < |scan.snap| && RecordsOf(m, scan, records, positions, n)
    requires RecordedAs(m, scan, scan.snap[n], r) && Claimed(m, scan, scan.snap[n].Id())
    ensures RecordsOf(m, scan, records + [r], positions + [n], n + 1)
  {
    forall i: nat | i < n + 1
      ensures i in positions + [n] <==> Readable(scan, scan.snap[i]) && Claimed(m, scan, scan.snap[i].Id())
    {
      assert i in positions + [n] <==> i in positions || i == n;
    }
  }

  /// A scan records exactly the readable entries with a claim, in snapshot order, each for the claim that comes
  /// first.
  lemma ScanRecords(m: Memory, scan: ScanInput) returns (positions: seq<nat>)
    ensures RecordsOf(m, scan, Reconciled(m, scan), positions, |scan.snap|)
  {
    positions := FirstRecords(m, scan, |scan.snap|);
  }

  // ---------------------------------------------------------------------------------------------
  // What a committed scan leaves
  // ---------------------------------------------------------------------------------------------

  /// Some readable entry of the snapshot is this process, and there is a claim for it.
  ghost predicate Recordable(m: Memory, scan: ScanInput, key: Key) {
    Claimed(m, scan, key) && exists p :: p in scan.snap && p.Id() == key && Readable(scan, p)
  }

  ghost predicate HasEntry(m: Memory, scan: ScanInput, r: Row) {
    exists p :: p in scan.snap && RecordedAs(m, scan, p, r)
  }

  lemma RecordHasEntry(m: Memory, scan: ScanInput, positions: seq<nat>, r: Row)
    requires RecordsOf(m, scan, Reconciled(m, scan), positions, |scan.snap|) && r in Reconciled(m, scan)
    ensures HasEntry(m, scan, r)
  {
    var k :| 0 <= k < |Reconciled(m, scan)| && Reconciled(m, scan)[k] == r;
    assert scan.snap[positions[k]] in scan.snap;
  }

  lemma RecordableIff(m: Memory, scan: ScanInput, key: Key)
    ensures Recordable(m, scan, key) <==> exists r :: r in Reconciled(m, scan) && r.key == key
    ensures forall r :: r in Reconciled(m, scan) && r.key == key ==> ClaimedBy(m, scan, key, r.session, r.confidence)
    ensures forall r :: r in Reconciled(m, scan) ==> r.lastSeen == scan.taken
  {
    var records := Reconciled(m, scan);
    var positions := ScanRecords(m, scan);
    forall r | r in records ensures HasEntry(m, scan, r) { RecordHasEntry(m, scan, positions, r); }
    if Recordable(m, scan, key) {
      var p :| p in scan.snap && p.Id() == key && Readable(scan, p);
      var i: nat :| i < |scan.snap| && scan.snap[i] == p;
      assert i in positions;
      var k :| 0 <= k < |positions| && positions[k] == i;
      assert records[k] in records && records[k].key == key;
    }
    if r :| r in records && r.key == key {
      assert HasEntry(m, scan, r);
    }
  }

  lemma {:induction false} PendingKeys(records: seq<Row>, key: Key)
    ensures key in Pending(records) <==> exists r :: r in records && r.key == key
    ensures key in Pending(records) ==> Pending(records)[key] in records && Pending(records)[key].key == key
  {
    if records != [] {
      var init, last := records[..|records| - 1], records[|records| - 1];
      assert records == init + [last];
      PendingKeys(init, key);
      assert last in records;
    }
  }

  /// In memory a committed scan associates every recordable process with the claim that comes first, and
  /// leaves all other associations alone.
  lemma CommittedAssociates(s: State, scan: ScanInput, key: Key)
    ensures var m := Step(s, Committed(scan)).memory;
            && (Recordable(s.memory, scan, key) ==>
                 key in m && m[key].key == key && m[key].lastSeen == scan.taken
                 && ClaimedBy(s.memory, scan, key, m[key].session, m[key].confidence))
            && (!Recordable(s.memory, scan, key) ==>
                 (key in m <==> key in s.memory) && (key in m ==> m[key] == s.memory[key]))
  {
    RecordableIff(s.memory, scan, key);
    PendingKeys(Reconciled(s.memory, scan), key);
  }

  /// In storage it marks exactly the recordable processes as seen, and as exited exactly the others last seen
  /// before it. So does a scan whose daemon dies right after.
  lemma CommittedMarks(s: State, scan: ScanInput, key: Key)
    ensures var before, after := s.store.processes, Stored(s, scan).processes;
            && (Recordable(s.memory, scan, key) ==> key in after && after[key] == ProcessRow(scan.taken, false))
            && (!Recordable(s.memory, scan, key) ==>
                 && (key in after <==> key in before)
                 && (key in before ==>
                      && after[key].lastSeen == before[key].lastSeen
                      && (after[key].exited <==> before[key].exited || before[key].lastSeen < scan.taken)))
    ensures Step(s, Committed(scan)).store == Stored(s, scan) == Step(s, Crashed(scan)).store
  {
    RecordableIff(s.memory, scan, key);
  }

  predicate SameRow(a: Row, b: Row) { a.session == b.session && a.key == b.key }

  /// An upsert changes the first row of that session and process, whose confidence never falls, or appends one.
  lemma {:induction false} UpsertAt(rows: seq<Row>, rec: Row) returns (i: nat)
    ensures i <= |rows| && forall j :: 0 <= j < i ==> !SameRow(rows[j], rec)
    ensures i == |rows| ==> UpsertOwnership(rows, rec) == rows + [rec]
    ensures i < |rows| ==>
              && SameRow(rows[i], rec)
              && UpsertOwnership(rows, rec) ==
                   rows[i := rows[i].(confidence := if rec.confidence > rows[i].confidence then rec.confidence
                                                    else rows[i].confidence,
                                      lastSeen := rec.lastSeen)]
  {
    if rows == [] || SameRow(rows[0], rec) {
      i := 0;
    } else {
      i := UpsertAt(rows[1..], rec);
      i := i + 1;
    }
  }

  /// Row `j` stays where it is, keeps its origin and loses no confidence.
  predicate Survives(before: seq<Row>, after: seq<Row>, j: nat)
    requires j < |before| <= |after|
  {
    && SameRow(after[j], before[j]) && after[j].facts == before[j].facts
    && before[j].confidence <= after[j].confidence
  }

  lemma OneUpsertKeeps(rows: seq<Row>, rec: Row)
    ensures |rows| <= |UpsertOwnership(rows, rec)|
    ensures forall j: nat :: j < |rows| ==> Survives(rows, UpsertOwnership(rows, rec), j)
    ensures forall j: nat :: j < |rows| && !SameRow(rec, rows[j]) ==> UpsertOwnership(rows, rec)[j] == rows[j]
    ensures HasRow(UpsertOwnership(rows, rec), rec, rec.lastSeen)
    ensures forall r :: HasRow(rows, r, rec.lastSeen) ==> HasRow(UpsertOwnership(rows, rec), r, rec.lastSeen)
  {
    var i := UpsertAt(rows, rec);
    var after := UpsertOwnership(rows, rec);
    assert RowAt(after, i, rec, rec.lastSeen);
    forall r | HasRow(rows, r, rec.lastSeen) ensures HasRow(after, r, rec.lastSeen) {
      var k :| RowAt(rows, k, r, rec.lastSeen);
      assert RowAt(after, k, r, rec.lastSeen);
    }
  }

  lemma {:induction false} UpsertsKeep(rows: seq<Row>, records: seq<Row>, taken: Time)
    requires forall r :: r in records ==> r.lastSeen == taken
    ensures |rows| <= |UpsertAll(rows, records)|
    ensures forall j: nat :: j < |rows| ==> Survives(rows, UpsertAll(rows, records), j)
    ensures forall j: nat :: j < |rows| && (forall r :: r in records ==> !SameRow(r, rows[j])) ==>
              UpsertAll(rows, records)[j] == rows[j]
    ensures forall r :: r in records ==> HasRow(UpsertAll(rows, records), r, taken)
  {
    if records != [] {
      var init, last := records[..|records| - 1], records[|records| - 1];
      assert records == init + [last];
      UpsertsKeep(rows, init, taken);
      var before := UpsertAll(rows, init);
      OneUpsertKeeps(before, last);
      forall j: nat | j < |rows| ensures Survives(rows, UpsertAll(rows, records), j) {
        assert Survives(rows, before, j) && Survives(before, UpsertAll(rows, records), j);
      }
    }
  }

  /// There is a row for the record, at least as confident, seen now.
  predicate RowAt(rows: seq<Row>, i: int, r: Row, taken: Time) {
    0 <= i < |rows| && SameRow(rows[i], r) && r.confidence <= rows[i].confidence && rows[i].lastSeen == taken
  }

  ghost predicate HasRow(rows: seq<Row>, r: Row, taken: Time) { exists i :: RowAt(rows, i, r, taken) }

  /// The ownership rows: one seen now for every record, all others as they were, and none ever loses its origin
  /// or confidence.
  lemma CommittedRows(s: State, scan: ScanInput)
    ensures var before, after := s.store.rows, Stored(s, scan).rows;
            && |before| <= |after|
            && (forall j: nat :: j < |before| ==> Survives(before, after, j))
            && (forall j: nat :: j < |before| && !Recordable(s.memory, scan, before[j].key) ==> after[j] == before[j])
            && (forall r :: r in Reconciled(s.memory, scan) ==> HasRow(after, r, scan.taken))
  {
    var records := Reconciled(s.memory, scan);
    forall r | r in records ensures r.lastSeen == scan.taken && Recordable(s.memory, scan, r.key) {
      RecordableIff(s.memory, scan, r.key);
    }
    UpsertsKeep(s.store.rows, records, scan.taken);
  }
}
