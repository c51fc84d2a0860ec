/// What a conclusion of the daemon means in terms of the samples themselves: the deltas, the states and the
/// remembered windows do not appear in these statements (internal/daemon/activity.go, classification.go;
/// internal/process/activity.go; internal/classification/classification.go).

module EvidenceMeaning {
  import opened Common
  import opened ProcessTree
  import opened Activity
  import opened EvidenceRun
  import C = Classification

  // ---------------------------------------------------------------------------------------------
  // One scan
  // ---------------------------------------------------------------------------------------------

  /// Entry `i` of the snapshot is an attributed process, and `r` says what sampling it gave.
  predicate MeasuredAs(scan: ScanInput, i: nat, r: Measured) {
    && i < |scan.snap| && i < |scan.samples|
    && r.key == scan.snap[i].Id() && r.key in scan.attributions && scan.attributions[r.key].attributed
    && r.session == scan.attributions[r.key].session
    && (r.accepted.Some? <==> scan.samples[i].Some? && Usable(scan.samples[i].value, r.key, scan.taken))
    && (r.accepted.Some? ==> r.accepted == scan.samples[i])
  }

  /// A sample of the process asked for, not older than the snapshot.
  predicate Usable(s: Sample, key: Key, taken: Time) { s.key == key && s.taken != ZERO_TIME && taken <= s.taken }

  lemma {:induction false} RecordIsMeasured(m: Memory, scan: ScanInput, n: nat, r: Measured)
    requires n <= Visited(scan) && r in Measurements(m, scan, n)
    ensures exists i :: MeasuredAs(scan, i, r)
  {
    if r in Measurements(m, scan, n - 1) {
      RecordIsMeasured(m, scan, n - 1, r);
    } else {
      assert MeasuredAs(scan, n - 1, r);
    }
  }

  lemma {:induction false} ProcessIsRecorded(m: Memory, scan: ScanInput, n: nat, i: nat)
    requires i < n <= Visited(scan)
    requires scan.snap[i].Id() in scan.attributions && scan.attributions[scan.snap[i].Id()].attributed
    ensures exists r :: r in Measurements(m, scan, n) && MeasuredAs(scan, i, r)
  {
    if i == n - 1 {
      var r := Measure(m, scan, scan.snap[i], scan.samples[i]);
      assert Measurements(m, scan, n)[|Measurements(m, scan, n)| - 1] == r;
      assert MeasuredAs(scan, i, r);
    } else {
      ProcessIsRecorded(m, scan, n - 1, i);
      var r :| r in Measurements(m, scan, n - 1) && MeasuredAs(scan, i, r);
      assert r in Measurements(m, scan, n);
    }
  }

  lemma {:induction false} RecordIsClassified(m: Memory, scan: ScanInput, records: seq<Measured>, r: Measured)
    requires r in records && ByKey(scan.snap, r.key).Some?
    ensures exists e :: e in Entries(m, scan, records) && e.measured == r
  {
    var init, last := records[..|records| - 1], records[|records| - 1];
    assert records == init + [last];
    EntriesAppend(m, scan, init, last);
    if r in init {
      RecordIsClassified(m, scan, init, r);
    } else {
      var input := ClassifyInput(m, scan, last, ByKey(scan.snap, r.key).value);
      assert Entry(last, input, C.Classify(input)) in Entries(m, scan, records);
    }
  }

  /// What the entry says of the process: whether it lost its original parent, whether its session has
  /// ended, and its kernel status, all from the snapshot entry that lookup finds.
  predicate Described(scan: ScanInput, e: Entry, p: Process) {
    && p.Id() == e.measured.key && e.input.status == p.status
    && e.measured.key in scan.attributions
    && (e.input.detached <==>
          scan.attributions[e.measured.key].originalParentObserved
          && p.ppid != scan.attributions[e.measured.key].originalPpid)
    && (e.input.sessionEnded <==> e.measured.session in scan.ended)
  }

  lemma EntryIsDescribed(m: Memory, scan: ScanInput, e: Entry)
    requires e in ScanEntries(m, scan)
    ensures exists i :: MeasuredAs(scan, i, e.measured)
    ensures exists p :: p in scan.snap && ByKey(scan.snap, e.measured.key) == Some(p) && Described(scan, e, p)
  {
    EntryFacts(m, scan, Measurements(m, scan, Visited(scan)), e);
    RecordIsMeasured(m, scan, Visited(scan), e.measured);
    var i :| MeasuredAs(scan, i, e.measured);
    var p := ByKey(scan.snap, e.measured.key).value;
    assert Described(scan, e, p);
  }

  /// Exactly the attributed processes that sampling reaches and lookup finds are classified.
  lemma ClassifiedIff(m: Memory, scan: ScanInput, key: Key)
    ensures (exists e :: e in ScanEntries(m, scan) && e.measured.key == key)
      <==> ((exists i :: 0 <= i < |scan.snap| && i < |scan.samples| && scan.snap[i].Id() == key)
            && key in scan.attributions && scan.attributions[key].attributed && ByKey(scan.snap, key).Some?)
  {
    var records := Measurements(m, scan, Visited(scan));
    if e :| e in ScanEntries(m, scan) && e.measured.key == key {
      EntryFacts(m, scan, records, e);
      RecordIsMeasured(m, scan, Visited(scan), e.measured);
    }
    if i :| 0 <= i < |scan.snap| && i < |scan.samples| && scan.snap[i].Id() == key
            && key in scan.attributions && scan.attributions[key].attributed && ByKey(scan.snap, key).Some?
    {
      ProcessIsRecorded(m, scan, Visited(scan), i);
      var r :| r in records && MeasuredAs(scan, i, r);
      RecordIsClassified(m, scan, records, r);
    }
  }

  /// The sample of this scan and the one before it, when the two can be compared.
  predicate Compared(m: Memory, e: Entry, a: Sample, b: Sample) {
    && e.input.status != Zombie && e.measured.accepted == Some(b)
    && e.measured.key in m.baseline && m.baseline[e.measured.key] == a && Comparable(a, b)
  }

  ghost predicate HasEvidence(m: Memory, e: Entry) { exists a, b :: Compared(m, e, a, b) }

  /// Every verdict of a scan that does not take time, in terms of the two newest samples.
  lemma ScanVerdict(m: Memory, scan: ScanInput, e: Entry)
    requires e in ScanEntries(m, scan)
    ensures e.result.state == C.Crashed <==> e.input.status == Zombie
    ensures e.result.state == C.Unknown <==> e.input.status != Zombie && !HasEvidence(m, e)
    ensures forall a, b :: Compared(m, e, a, b) ==>
              var abandoned := e.input.detached && e.input.sessionEnded;
              && (e.result.state == C.Suspicious <==> abandoned && (Moved(a, b) || Holding(b)))
              && (e.result.state == C.Active <==> !abandoned && Moved(a, b))
              && (e.result.state in {C.Waiting, C.Hung} && Holding(b) <==> !abandoned && !Moved(a, b) && Holding(b))
              && (e.result.state in {C.Idle, C.Orphaned, C.Hung} && !Holding(b) <==> !Moved(a, b) && !Holding(b))
              && (e.result.state == C.Orphaned ==> abandoned)
              && (e.result.state == C.Hung ==> !abandoned && e.input.status == Stopped)
  {
    ScanEntryFacts(m, scan, e);
    C.VerdictsExactly(e.input);
    if e.measured.accepted.Some? {
      var a, b := Read(m.baseline, e.measured.key, NO_SAMPLE), e.measured.accepted.value;
      AcceptedIsUsable(m, scan, e);
      DeltaTellsSamples(a, b);
      SampledTellsDelta(DeriveActivity(a, b));
      assert Comparable(a, b) ==> e.input.status == Zombie || Compared(m, e, a, b);
    }
  }

  lemma SampledTellsDelta(d: Delta)
    ensures var a := ToSampled(d);
            && (a.cpuPercent > 0.0 || a.diskRead > 0 || a.diskWritten > 0 || a.networkChanged <==> Progress(d))
            && a.taken == d.taken
  {}

  lemma AcceptedIsUsable(m: Memory, scan: ScanInput, e: Entry)
    requires e in ScanEntries(m, scan) && e.measured.accepted.Some?
    ensures Usable(e.measured.accepted.value, e.measured.key, scan.taken)
  {
    EntryIsDescribed(m, scan, e);
    var i :| MeasuredAs(scan, i, e.measured);
  }

  // ---------------------------------------------------------------------------------------------
  // Scans that sample
  // ---------------------------------------------------------------------------------------------

  /// The newest scan that this daemon committed with samples, when it has committed one.
  function LastSampling(cadence: int, events: seq<Event>): Option<Time> {
    if events == [] then None
    else
      var init, e := events[..|events| - 1], events[|events| - 1];
      if e.Restart? then None
      else if e.Scan? && Samples(LastSampling(cadence, init), Interval(cadence, init), e.scan.taken) then
        Some(e.scan.taken)
      else LastSampling(cadence, init)
  }

  predicate Samples(last: Option<Time>, interval: int, taken: Time) {
    last.None? || taken - last.value >= interval
  }

  /// The sampling interval in force.
  function Interval(cadence: int, events: seq<Event>): int {
    if events == [] then cadence
    else if events[|events| - 1].Restart? then events[|events| - 1].cadence
    else Interval(cadence, events[..|events| - 1])
  }

  /// A scan samples exactly when it is the first of its daemon to be committed or the interval has passed
  /// since the last one that did.
  lemma {:induction false} SamplingIsSpaced(cadence: int, events: seq<Event>, taken: Time)
    requires forall e :: e in events && e.Scan? ==> e.scan.taken != ZERO_TIME
    ensures After(cadence, events).cadence == Interval(cadence, events)
    ensures After(cadence, events).lastActivityAt ==
        if LastSampling(cadence, events).None? then ZERO_TIME else LastSampling(cadence, events).value
    ensures LastSampling(cadence, events) != Some(ZERO_TIME)
    ensures Due(After(cadence, events), taken)
      <==> Samples(LastSampling(cadence, events), Interval(cadence, events), taken)
  {
    if events != [] {
      var init, e := events[..|events| - 1], events[|events| - 1];
      SamplingIsSpaced(cadence, init, if e.Scan? then e.scan.taken else taken);
    }
  }

  // ---------------------------------------------------------------------------------------------
  // Strong conclusions
  // ---------------------------------------------------------------------------------------------

  /// A due scan of the run took a complete sample of process `key`, which was no zombie.
  ghost predicate Seen(cadence: int, events: seq<Event>, pt: Point, key: Key) {
    && At(cadence, events, pt) && pt.entry.measured.key == key && pt.entry.input.status != Zombie
    && pt.entry.measured.accepted.Some? && Whole(pt.entry.measured.accepted.value)
  }

  /// Between two samples of it nothing was read, written, executed or sent, what it holds and its circumstances
  /// are the same.
  predicate Alike(a: Entry, b: Entry) {
    && a.measured.accepted.Some? && b.measured.accepted.Some?
    && SameCounters(a.measured.accepted.value, b.measured.accepted.value)
    && (Holding(a.measured.accepted.value) <==> Holding(b.measured.accepted.value))
    && a.input.status == b.input.status && a.input.detached == b.input.detached
    && a.input.sessionEnded == b.input.sessionEnded
  }

  function Instant(pt: Point): Time {
    if pt.entry.measured.accepted.Some? then pt.entry.measured.accepted.value.taken else ZERO_TIME
  }

  /// `b` is the next sample after `a`: no failure and no restart in between, and within two intervals.
  ghost predicate Next(cadence: int, events: seq<Event>, a: Point, b: Point, sampling: int) {
    && a.event < b.event <= |events| && (forall j :: a.event < j < b.event ==> Quiet(cadence, events, j))
    && 0 < Instant(b) - Instant(a) <= 2 * sampling
  }

  /// Consecutive samples of one process that was still throughout.
  ghost predicate StillSamples(cadence: int, events: seq<Event>, w: seq<Point>, key: Key, sampling: int) {
    && |w| > 0
    && (forall i :: 0 <= i < |w| ==> Seen(cadence, events, w[i], key) && Alike(w[0].entry, w[i].entry))
    && (forall i :: 0 < i < |w| ==> Next(cadence, events, w[i - 1], w[i], sampling))
  }

  /// Abandoned and holding nothing: what can be orphaned.
  predicate Abandoned(e: Entry) {
    && e.input.detached && e.input.sessionEnded
    && e.measured.accepted.Some? && !Holding(e.measured.accepted.value)
  }

  /// Stopped and not abandoned: what can be hung.
  predicate Halted(e: Entry) { e.input.status == Stopped && !(e.input.detached && e.input.sessionEnded) }

  lemma CompleteIsSeen(cadence: int, events: seq<Event>, pt: Point)
    requires At(cadence, events, pt) && CompleteSample(pt.entry)
    ensures Seen(cadence, events, pt, pt.entry.measured.key)
    ensures Instant(pt) == pt.entry.measured.activity.taken
    ensures !Holding(pt.entry.measured.accepted.value) <== C.Basis(pt.entry.measured.activity).0 == C.Idle
    ensures Holding(pt.entry.measured.accepted.value) <== C.Basis(pt.entry.measured.activity).0 == C.Waiting
  {
    var m := After(cadence, events[..pt.event]);
    ScanEntryFacts(m, events[pt.event].scan, pt.entry);
    DeltaTellsSamples(Read(m.baseline, pt.entry.measured.key, NO_SAMPLE), pt.entry.measured.accepted.value);
  }

  /// A window of evidence without progress consists of still samples.
  lemma WindowIsStill(cadence: int, events: seq<Event>, w: seq<Point>, sampling: int)
    requires Window(cadence, events, w, sampling) && CircumstancesOf(w[0].entry).basis in {C.Idle, C.Waiting}
    ensures StillSamples(cadence, events, w, w[0].entry.measured.key, sampling)
    ensures Instant(w[0]) == w[0].entry.measured.activity.taken
    ensures Instant(w[|w| - 1]) == w[|w| - 1].entry.measured.activity.taken
  {
    forall i | 0 <= i < |w|
      ensures Seen(cadence, events, w[i], w[0].entry.measured.key) && Alike(w[0].entry, w[i].entry)
      ensures Instant(w[i]) == w[i].entry.measured.activity.taken
    {
      PointIsStill(cadence, events, w, sampling, i);
    }
    forall i | 0 < i < |w| ensures Next(cadence, events, w[i - 1], w[i], sampling) {
      assert Follows(cadence, events, w[i - 1], w[i], sampling);
    }
  }

  lemma PointIsStill(cadence: int, events: seq<Event>, w: seq<Point>, sampling: int, i: nat)
    requires Window(cadence, events, w, sampling) && i < |w|
    requires CircumstancesOf(w[0].entry).basis in {C.Idle, C.Waiting}
    ensures Seen(cadence, events, w[i], w[0].entry.measured.key) && Alike(w[0].entry, w[i].entry)
    ensures Instant(w[i]) == w[i].entry.measured.activity.taken
  {
    assert At(cadence, events, w[i]) && CompleteSample(w[i].entry);
    assert At(cadence, events, w[0]) && CompleteSample(w[0].entry);
    CompleteIsSeen(cadence, events, w[i]);
    CompleteIsSeen(cadence, events, w[0]);
    assert CircumstancesOf(w[i].entry) == CircumstancesOf(w[0].entry);
    assert SameCounters(w[0].entry.measured.accepted.value, w[i].entry.measured.accepted.value);
  }

  ghost predicate LongStill(cadence: int, events: seq<Event>, scan: ScanInput, e: Entry, w: seq<Point>) {
    var longer := events + [Scan(scan)];
    && StillSamples(cadence, longer, w, e.measured.key, After(cadence, events).cadence)
    && w[|w| - 1] == Point(|events|, e)
    && Instant(w[|w| - 1]) - Instant(w[0]) >= 5 * MINUTE
  }

  /// A process is called orphaned only after five minutes of samples in which it was abandoned, held nothing
  /// and did nothing, without a failed scan or a restart in between.
  lemma OrphanedMeans(cadence: int, events: seq<Event>, scan: ScanInput, e: Entry)
    requires Due(After(cadence, events), scan.taken) && e in ScanEntries(After(cadence, events), scan)
    requires e.result.state == C.Orphaned
    ensures Abandoned(e) && exists w :: LongStill(cadence, events, scan, e, w)
  {
    OrphanedRestsOnWindow(cadence, events, scan, e);
    var w: seq<Point> :| OrphanEvidence(cadence, events, scan, e, w);
    var longer := events + [Scan(scan)];
    WindowIsStill(cadence, longer, w, After(cadence, events).cadence);
    assert At(cadence, longer, w[|w| - 1]) && CompleteSample(w[|w| - 1].entry);
    CompleteIsSeen(cadence, longer, w[|w| - 1]);
    assert LongStill(cadence, events, scan, e, w);
  }

  /// And hung only after five minutes in which it was stopped and did nothing.
  lemma HungMeans(cadence: int, events: seq<Event>, scan: ScanInput, e: Entry)
    requires Due(After(cadence, events), scan.taken) && e in ScanEntries(After(cadence, events), scan)
    requires e.result.state == C.Hung
    ensures Halted(e) && exists w :: LongStill(cadence, events, scan, e, w)
  {
    HungRestsOnWindow(cadence, events, scan, e);
    var w: seq<Point> :| HungEvidence(cadence, events, scan, e, w);
    WindowIsStill(cadence, events + [Scan(scan)], w, After(cadence, events).cadence);
    assert LongStill(cadence, events, scan, e, w);
  }

  // ---------------------------------------------------------------------------------------------
  // The converse
  // ---------------------------------------------------------------------------------------------

  lemma {:induction false} SampleBecomesBaseline(m: Memory, scan: ScanInput, n: nat, r: Measured)
    requires n <= Visited(scan) && DistinctPids(scan.snap)
    requires r in Measurements(m, scan, n) && r.accepted.Some?
    ensures r.key in Baselines(scan, n) && Baselines(scan, n)[r.key] == r.accepted.value
  {
    if r in Measurements(m, scan, n - 1) {
      SampleBecomesBaseline(m, scan, n - 1, r);
      MeasuredOnce(m, scan, n - 1);
      var i :| 0 <= i < n - 1 && scan.snap[i].Id() == r.key;
    }
  }

  lemma PointLeavesBaseline(cadence: int, events: seq<Event>, pt: Point)
    requires At(cadence, events, pt) && pt.entry.measured.accepted.Some?
    requires DistinctPids(events[pt.event].scan.snap)
    ensures var m := After(cadence, events[..pt.event + 1]);
            && pt.entry.measured.key in m.baseline
            && m.baseline[pt.entry.measured.key] == pt.entry.measured.accepted.value
  {
    var m, scan := After(cadence, events[..pt.event]), events[pt.event].scan;
    EntryFacts(m, scan, Measurements(m, scan, Visited(scan)), pt.entry);
    SampleBecomesBaseline(m, scan, Visited(scan), pt.entry.measured);
    assert events[..pt.event + 1][..pt.event] == events[..pt.event];
  }

  /// A sample is compared with the one taken of the process by the scan before.
  lemma BaselineIsPrevious(cadence: int, events: seq<Event>, a: Point, b: Point, key: Key, sampling: int)
    requires Seen(cadence, events, a, key) && Seen(cadence, events, b, key) && Next(cadence, events, a, b, sampling)
    requires DistinctPids(events[a.event].scan.snap)
    ensures var m := After(cadence, events[..b.event]);
            key in m.baseline && m.baseline[key] == a.entry.measured.accepted.value
  {
    PointLeavesBaseline(cadence, events, a);
    QuietKeepsMemory(cadence, events, a.event, b.event);
  }

  /// The state that a still sample stands for.
  lemma StillSampleIsComplete(cadence: int, events: seq<Event>, a: Point, b: Point, key: Key, sampling: int)
    requires Seen(cadence, events, a, key) && Seen(cadence, events, b, key) && Next(cadence, events, a, b, sampling)
    requires DistinctPids(events[a.event].scan.snap) && Alike(a.entry, b.entry)
    ensures CompleteSample(b.entry) && b.entry.measured.activity.taken == Instant(b)
    ensures C.Basis(b.entry.measured.activity).0 ==
        if Holding(b.entry.measured.accepted.value) then C.Waiting else C.Idle
  {
    var m, scan := After(cadence, events[..b.event]), events[b.event].scan;
    var x, y := a.entry.measured.accepted.value, b.entry.measured.accepted.value;
    BaselineIsPrevious(cadence, events, a, b, key, sampling);
    ScanEntryFacts(m, scan, b.entry);
    SamplesOfKey(cadence, events, a);
    SamplesOfKey(cadence, events, b);
    DeltaTellsSamples(x, y);
    SampledTellsDelta(DeriveActivity(x, y));
  }

  lemma SamplesOfKey(cadence: int, events: seq<Event>, pt: Point)
    requires At(cadence, events, pt) && pt.entry.measured.accepted.Some?
    ensures pt.entry.measured.accepted.value.key == pt.entry.measured.key && Instant(pt) != ZERO_TIME
  {
    var m, scan := After(cadence, events[..pt.event]), events[pt.event].scan;
    AcceptedIsUsable(m, scan, pt.entry);
  }

  /// Still samples at one interval from snapshots that repeat no PID; the first serves as baseline.
  ghost predicate SteadySamples(cadence: int, events: seq<Event>, w: seq<Point>, key: Key, sampling: int) {
    && StillSamples(cadence, events, w, key, sampling) && sampling > 0
    && forall i :: 0 <= i < |w| ==>
         DistinctPids(events[w[i].event].scan.snap) && After(cadence, events[..w[i].event]).cadence == sampling
  }

  lemma NeighboursAlike(a: Entry, b: Entry, c: Entry)
    requires Alike(a, b) && Alike(a, c)
    ensures Alike(b, c)
  {}

  lemma StillSampleCompletes(cadence: int, events: seq<Event>, w: seq<Point>, key: Key, sampling: int, i: nat)
    requires SteadySamples(cadence, events, w, key, sampling) && 0 < i < |w|
    ensures At(cadence, events, w[i]) && CompleteSample(w[i].entry)
    ensures w[i].entry.measured.activity.taken == Instant(w[i])
    ensures CircumstancesOf(w[i].entry) ==
        Circumstances(key, w[0].entry.input.status, w[0].entry.input.detached, w[0].entry.input.sessionEnded,
                      if Holding(w[0].entry.measured.accepted.value) then C.Waiting else C.Idle)
  {
    NeighboursAlike(w[0].entry, w[i - 1].entry, w[i].entry);
    StillSampleIsComplete(cadence, events, w[i - 1], w[i], key, sampling);
  }

  lemma StillIsWindow(cadence: int, events: seq<Event>, w: seq<Point>, key: Key, sampling: int)
    requires SteadySamples(cadence, events, w, key, sampling) && |w| > 1
    ensures SteadyRun(cadence, events, w[1..], sampling)
  {
    var r := w[1..];
    forall i | 0 <= i < |r|
      ensures At(cadence, events, r[i]) && CompleteSample(r[i].entry)
      ensures CircumstancesOf(r[i].entry) == CircumstancesOf(r[0].entry)
      ensures SameCounters(r[0].entry.measured.accepted.value, r[i].entry.measured.accepted.value)
    {
      StillSampleCompletes(cadence, events, w, key, sampling, i + 1);
      StillSampleCompletes(cadence, events, w, key, sampling, 1);
      NeighboursAlike(w[0].entry, w[1].entry, w[i + 1].entry);
    }
    forall i | 0 < i < |r| ensures Follows(cadence, events, r[i - 1], r[i], sampling) {
      assert Next(cadence, events, w[i], w[i + 1], sampling);
      StillSampleCompletes(cadence, events, w, key, sampling, i);
      StillSampleCompletes(cadence, events, w, key, sampling, i + 1);
    }
  }

  /// Conversely, five minutes of such samples after a first one always end in that conclusion.
  lemma StillSamplesMeanOrphaned(cadence: int, events: seq<Event>, w: seq<Point>, key: Key, sampling: int)
    requires SteadySamples(cadence, events, w, key, sampling) && |w| > 1
    requires Instant(w[|w| - 1]) - Instant(w[1]) >= 5 * MINUTE
    ensures w[|w| - 1].entry.result.state == C.Orphaned <==> Abandoned(w[|w| - 1].entry)
  {
    var r := w[1..];
    StillIsWindow(cadence, events, w, key, sampling);
    StillSampleCompletes(cadence, events, w, key, sampling, 1);
    StillSampleCompletes(cadence, events, w, key, sampling, |w| - 1);
    if Abandoned(w[|w| - 1].entry) { WindowForcesOrphaned(cadence, events, r, sampling); }
    VerdictIsAbandoned(cadence, events, w[|w| - 1]);
  }

  lemma VerdictIsAbandoned(cadence: int, events: seq<Event>, pt: Point)
    requires At(cadence, events, pt) && CompleteSample(pt.entry)
    ensures pt.entry.result.state == C.Orphaned ==> Abandoned(pt.entry)
    ensures pt.entry.result.state == C.Hung ==> Halted(pt.entry)
  {
    PointFacts(cadence, events, pt);
    CompleteIsSeen(cadence, events, pt);
    C.OrphanedExactly(pt.entry.input);
    C.HungExactly(pt.entry.input);
  }

  lemma StillSamplesMeanHung(cadence: int, events: seq<Event>, w: seq<Point>, key: Key, sampling: int)
    requires SteadySamples(cadence, events, w, key, sampling) && |w| > 1
    requires Instant(w[|w| - 1]) - Instant(w[1]) >= 5 * MINUTE
    ensures w[|w| - 1].entry.result.state == C.Hung <==> Halted(w[|w| - 1].entry)
  {
    var r := w[1..];
    StillIsWindow(cadence, events, w, key, sampling);
    StillSampleCompletes(cadence, events, w, key, sampling, 1);
    StillSampleCompletes(cadence, events, w, key, sampling, |w| - 1);
    if Halted(w[|w| - 1].entry) { WindowForcesHung(cadence, events, r, sampling); }
    VerdictIsAbandoned(cadence, events, w[|w| - 1]);
  }
}
