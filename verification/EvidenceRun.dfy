/// The evidence memory of the daemon over whole runs: what one scan samples and classifies, what it
/// commits, what a failed scan forgets (internal/daemon/activity.go, classification.go and scan.go).

module EvidenceRun {
  import opened Common
  import opened ProcessTree
  import opened Activity
  import C = Classification

  datatype Attribution = Attribution(session: string, attributed: bool, originalPpid: int, originalParentObserved: bool)

  /// The observations of one scan. `samples` answers the sampling calls in snapshot order; it is
  /// shorter than the snapshot when the sampling loop is cut off.
  datatype ScanInput = ScanInput(
    taken: Time, snap: Snapshot, attributions: map<Key, Attribution>, samples: seq<Option<Sample>>, ended: set<string>)

  /// The part of the daemon that carries evidence from one scan to the next.
  datatype Memory =
      Memory(cadence: int, lastActivityAt: Time, baseline: map<Key, Sample>, previous: map<Key, C.Previous>)

  function Fresh(cadence: int): Memory { Memory(cadence, ZERO_TIME, map[], map[]) }

  predicate Due(m: Memory, taken: Time) {
    m.lastActivityAt == ZERO_TIME || taken - m.lastActivityAt >= m.cadence
  }

  // ---------------------------------------------------------------------------------------------
  // Sampling
  // ---------------------------------------------------------------------------------------------

  /// One activity record; `accepted` is the sample it was drawn from, when sampling succeeded.
  datatype Measured = Measured(key: Key, session: string, accepted: Option<Sample>, activity: C.Sampled)

  function Accept(p: Process, taken: Time, s: Option<Sample>): Option<Sample> {
    if s.Some? && s.value.key == p.Id() && s.value.taken != ZERO_TIME && s.value.taken >= taken then s else None
  }

  function ToSampled(d: Delta): C.Sampled {
    C.Sampled(d.taken, d.baselineOk, d.cpuPercent, d.cpuKnown, BoundedInt64(d.diskRead), BoundedInt64(d.diskWritten),
              d.ioKnown, d.writableRepositoryFiles, d.filesKnown, d.connectedSockets, d.networkChanged, d.socketsKnown)
  }

  function Unavailable(taken: Time): C.Sampled {
    C.Sampled(taken, false, 0.0, false, 0, 0, false, 0, false, 0, false, false)
  }

  predicate Sampling(scan: ScanInput, p: Process) {
    p.Id() in scan.attributions && scan.attributions[p.Id()].attributed
  }

  function Measure(m: Memory, scan: ScanInput, p: Process, s: Option<Sample>): Measured
    requires Sampling(scan, p)
  {
    var accepted := Accept(p, scan.taken, s);
    Measured(p.Id(), scan.attributions[p.Id()].session, accepted,
             if accepted.None? then Unavailable(scan.taken)
             else ToSampled(DeriveActivity(Read(m.baseline, p.Id(), NO_SAMPLE), accepted.value)))
  }

  function Visited(scan: ScanInput): nat {
    if |scan.samples| < |scan.snap| then |scan.samples| else |scan.snap|
  }

  /// The records of the first `n` processes of the snapshot.
  function Measurements(m: Memory, scan: ScanInput, n: nat): seq<Measured>
    requires n <= Visited(scan)
  {
    if n == 0 then []
    else if Sampling(scan, scan.snap[n - 1]) then
      Measurements(m, scan, n - 1) + [Measure(m, scan, scan.snap[n - 1], scan.samples[n - 1])]
    else Measurements(m, scan, n - 1)
  }

  /// The baselines the same processes leave behind.
  function Baselines(scan: ScanInput, n: nat): map<Key, Sample>
    requires n <= Visited(scan)
  {
    if n == 0 then map[]
    else
      var p := scan.snap[n - 1];
      var accepted := Accept(p, scan.taken, scan.samples[n - 1]);
      if Sampling(scan, p) && accepted.Some? then Baselines(scan, n - 1)[p.Id() := accepted.value]
      else Baselines(scan, n - 1)
  }

  // ---------------------------------------------------------------------------------------------
  // Classifying
  // ---------------------------------------------------------------------------------------------

  datatype Entry = Entry(measured: Measured, input: C.Input, result: C.Result)

  /// A process is detached when the parent it was first seen with was observed and is no longer its parent.
  predicate Detached(a: Attribution, ppid: int) { a.originalParentObserved && ppid != a.originalPpid }

  function ClassifyInput(m: Memory, scan: ScanInput, r: Measured, p: Process): C.Input {
    var a := Read(scan.attributions, r.key, Attribution("", false, 0, false));
    C.Input(r.key, p.status, Detached(a, p.ppid), r.session in scan.ended, r.activity,
            Read(m.previous, r.key, C.NO_PREVIOUS), m.cadence)
  }

  /// The classified records, in order; a record whose exact process the snapshot lookup misses is dropped.
  function Entries(m: Memory, scan: ScanInput, records: seq<Measured>): seq<Entry> {
    if records == [] then []
    else
      var r := records[|records| - 1];
      var before := Entries(m, scan, records[..|records| - 1]);
      match ByKey(scan.snap, r.key)
      case None => before
      case Some(p) => var input := ClassifyInput(m, scan, r, p); before + [Entry(r, input, C.Classify(input))]
  }

  function ToPrevious(e: Entry): C.Previous {
    C.Previous(e.measured.key, e.result.basis, e.result.detached, e.result.sessionEnded, e.input.status,
               e.result.stableSince, e.measured.activity.taken)
  }

  function PreviousOf(entries: seq<Entry>): map<Key, C.Previous> {
    if entries == [] then map[]
    else
      var e := entries[|entries| - 1];
      PreviousOf(entries[..|entries| - 1])[e.measured.key := ToPrevious(e)]
  }

  function ScanEntries(m: Memory, scan: ScanInput): seq<Entry> {
    Entries(m, scan, Measurements(m, scan, Visited(scan)))
  }

  // ---------------------------------------------------------------------------------------------
  // Runs
  // ---------------------------------------------------------------------------------------------

  /// A scan either commits, fails (and its failure is recorded), or is abandoned because the daemon
  /// is being cancelled. A restart loses the memory and may change the cadence.
  datatype Event = Scan(scan: ScanInput) | FailedScan | AbandonedScan | Restart(cadence: int)

  function Step(m: Memory, e: Event): Memory {
    match e
    case Scan(scan) =>
      if Due(m, scan.taken) then
        Memory(m.cadence, scan.taken, Baselines(scan, Visited(scan)), PreviousOf(ScanEntries(m, scan)))
      else m
    case FailedScan => m.(previous := map[])
    case AbandonedScan => m
    case Restart(cadence) => Fresh(cadence)
  }

  function After(cadence: int, events: seq<Event>): Memory {
    if events == [] then Fresh(cadence) else Step(After(cadence, events[..|events| - 1]), events[|events| - 1])
  }

  /// One classified sample of a due scan: the scan's position in the run and the entry it produced.
  datatype Point = Point(event: nat, entry: Entry)

  ghost predicate At(cadence: int, events: seq<Event>, pt: Point) {
    && pt.event < |events| && events[pt.event].Scan?
    && Due(After(cadence, events[..pt.event]), events[pt.event].scan.taken)
    && pt.entry in ScanEntries(After(cadence, events[..pt.event]), events[pt.event].scan)
  }

  /// Event `j` samples nothing and forgets nothing.
  ghost predicate Quiet(cadence: int, events: seq<Event>, j: nat)
    requires j < |events|
  {
    events[j].AbandonedScan? || (events[j].Scan? && !Due(After(cadence, events[..j]), events[j].scan.taken))
  }

  datatype Circumstances = Circumstances(key: Key, status: Status, detached: bool, sessionEnded: bool, basis: C.State)

  function CircumstancesOf(e: Entry): Circumstances {
    Circumstances(e.measured.key, e.input.status, e.input.detached, e.input.sessionEnded,
                  C.Basis(e.measured.activity).0)
  }

  predicate CompleteSample(e: Entry) {
    e.measured.accepted.Some? && C.Complete(e.measured.activity) && e.input.status != Zombie
  }

  /// An unbroken window of evidence: complete samples of one process in unchanged circumstances, one
  /// per due scan, each at most two cadences after the one before, with nothing but quiet events between.
  ghost predicate Window(cadence: int, events: seq<Event>, w: seq<Point>, sampling: int) {
    |w| > 0 && Sampled(cadence, events, w) && Unchanged(w) && Spaced(cadence, events, w, sampling) && Still(w)
  }

  ghost predicate Sampled(cadence: int, events: seq<Event>, w: seq<Point>) {
    forall i :: 0 <= i < |w| ==> At(cadence, events, w[i]) && CompleteSample(w[i].entry)
  }

  ghost predicate Unchanged(w: seq<Point>) {
    forall i :: 0 <= i < |w| ==> CircumstancesOf(w[i].entry) == CircumstancesOf(w[0].entry)
  }

  ghost predicate Spaced(cadence: int, events: seq<Event>, w: seq<Point>, sampling: int) {
    forall i :: 0 < i < |w| ==> Follows(cadence, events, w[i - 1], w[i], sampling)
  }

  /// In an idle or waiting window no counter moves.
  ghost predicate Still(w: seq<Point>) {
    forall i :: 0 <= i < |w| && CircumstancesOf(w[0].entry).basis in {C.Idle, C.Waiting} ==>
      && w[0].entry.measured.accepted.Some? && w[i].entry.measured.accepted.Some?
      && SameCounters(w[0].entry.measured.accepted.value, w[i].entry.measured.accepted.value)
  }

  ghost predicate Follows(cadence: int, events: seq<Event>, a: Point, b: Point, sampling: int) {
    && a.event < b.event <= |events|
    && (forall j :: a.event < j < b.event ==> Quiet(cadence, events, j))
    && 0 < b.entry.measured.activity.taken - a.entry.measured.activity.taken <= 2 * sampling
  }

  /// The memory after `events` rests on window `w`.
  ghost predicate RestsOn(cadence: int, events: seq<Event>, key: Key, w: seq<Point>) {
    var m := After(cadence, events);
    && Window(cadence, events, w, m.cadence)
    && var last := w[|w| - 1];
    && last.entry.measured.key == key
    && key in m.previous && m.previous[key] == ToPrevious(last.entry)
    && key in m.baseline && m.baseline[key] == last.entry.measured.accepted.value
    && m.previous[key].stableSince == w[0].entry.measured.activity.taken
    && forall j :: last.event < j < |events| ==> Quiet(cadence, events, j)
  }

  // ---------------------------------------------------------------------------------------------
  // One scan
  // ---------------------------------------------------------------------------------------------

  lemma {:induction false} MeasurementFacts(m: Memory, scan: ScanInput, n: nat, r: Measured)
    requires n <= Visited(scan) && r in Measurements(m, scan, n)
    ensures r.accepted.Some? ==>
              && r.accepted.value.key == r.key && r.accepted.value.taken != ZERO_TIME
              && r.activity == ToSampled(DeriveActivity(Read(m.baseline, r.key, NO_SAMPLE), r.accepted.value))
    ensures r.accepted.None? ==> r.activity == Unavailable(scan.taken)
  {
    if r !in Measurements(m, scan, n - 1) {
      assert r == Measure(m, scan, scan.snap[n - 1], scan.samples[n - 1]);
    } else {
      MeasurementFacts(m, scan, n - 1, r);
    }
  }

  lemma {:induction false} EntryFacts(m: Memory, scan: ScanInput, records: seq<Measured>, e: Entry)
    requires e in Entries(m, scan, records)
    ensures e.measured in records && ByKey(scan.snap, e.measured.key).Some?
    ensures e.input == ClassifyInput(m, scan, e.measured, ByKey(scan.snap, e.measured.key).value)
    ensures e.result == C.Classify(e.input)
  {
    if e in Entries(m, scan, records[..|records| - 1]) {
      EntryFacts(m, scan, records[..|records| - 1], e);
    }
  }

  lemma {:induction false} PreviousHasEntry(entries: seq<Entry>, key: Key)
    requires key in PreviousOf(entries)
    ensures exists e :: e in entries && e.measured.key == key && PreviousOf(entries)[key] == ToPrevious(e)
  {
    var e := entries[|entries| - 1];
    if e.measured.key != key {
      PreviousHasEntry(entries[..|entries| - 1], key);
    }
  }

  /// `e` is the entry behind the remembered result of `key`, and its sample the remembered baseline.
  ghost predicate Remembered(entries: seq<Entry>, baselines: map<Key, Sample>, key: Key, e: Entry) {
    && e in entries && e.measured.key == key
    && key in PreviousOf(entries) && PreviousOf(entries)[key] == ToPrevious(e)
    && (e.measured.accepted.Some? ==> key in baselines && baselines[key] == e.measured.accepted.value)
  }

  lemma PreviousAppend(entries: seq<Entry>, e: Entry)
    ensures PreviousOf(entries + [e]) == PreviousOf(entries)[e.measured.key := ToPrevious(e)]
  {}

  lemma EntriesAppend(m: Memory, scan: ScanInput, records: seq<Measured>, r: Measured)
    ensures Entries(m, scan, records + [r]) ==
            match ByKey(scan.snap, r.key)
            case None => Entries(m, scan, records)
            case Some(p) =>
              Entries(m, scan, records) + [Entry(r, ClassifyInput(m, scan, r, p),
                                                 C.Classify(ClassifyInput(m, scan, r, p)))]
  {}

  ghost predicate HasRemembered(entries: seq<Entry>, baselines: map<Key, Sample>, key: Key) {
    exists e :: Remembered(entries, baselines, key, e)
  }

  lemma OneMoreRemembered(entries: seq<Entry>, e: Entry, baselines: map<Key, Sample>, after: map<Key, Sample>, key: Key)
    requires e.measured.key != key ==> HasRemembered(entries, baselines, key)
    requires after ==
        if e.measured.accepted.Some? then baselines[e.measured.key := e.measured.accepted.value] else baselines
    ensures HasRemembered(entries + [e], after, key)
  {
    PreviousAppend(entries, e);
    if e.measured.key == key {
      assert Remembered(entries + [e], after, key, e);
    } else {
      var earlier :| Remembered(entries, baselines, key, earlier);
      assert Remembered(entries + [e], after, key, earlier);
    }
  }

  /// The remembered result of a process comes from the sample that became its baseline.
  lemma {:induction false} PreviousMatchesBaseline(m: Memory, scan: ScanInput, n: nat, key: Key)
    requires n <= Visited(scan)
    requires key in PreviousOf(Entries(m, scan, Measurements(m, scan, n))) && ByKey(scan.snap, key).Some?
    ensures HasRemembered(Entries(m, scan, Measurements(m, scan, n)), Baselines(scan, n), key)
  {
    if n > 0 {
      var p := scan.snap[n - 1];
      if !Sampling(scan, p) {
        PreviousMatchesBaseline(m, scan, n - 1, key);
      } else {
        var records := Measurements(m, scan, n - 1);
        var r := Measure(m, scan, p, scan.samples[n - 1]);
        MeasuredKeyIsLooked(m, scan, records, r, key);
        if r.key != key {
          PreviousMatchesBaseline(m, scan, n - 1, key);
        }
        BaselineOfMeasured(m, scan, n);
        OneMoreMeasured(m, scan, records, r, Baselines(scan, n - 1), Baselines(scan, n), key);
      }
    }
  }

  lemma BaselineOfMeasured(m: Memory, scan: ScanInput, n: nat)
    requires 0 < n <= Visited(scan) && Sampling(scan, scan.snap[n - 1])
    ensures var r := Measure(m, scan, scan.snap[n - 1], scan.samples[n - 1]);
            && Baselines(scan, n) ==
                 (if r.accepted.Some? then Baselines(scan, n - 1)[r.key := r.accepted.value]
                     else Baselines(scan, n - 1))
            && Measurements(m, scan, n) == Measurements(m, scan, n - 1) + [r]
  {}

  lemma MeasuredKeyIsLooked(m: Memory, scan: ScanInput, records: seq<Measured>, r: Measured, key: Key)
    requires key in PreviousOf(Entries(m, scan, records + [r]))
    ensures r.key != key ==> key in PreviousOf(Entries(m, scan, records))
  {}

  lemma OneMoreMeasured(m: Memory, scan: ScanInput, records: seq<Measured>, r: Measured,
                        baselines: map<Key, Sample>, after: map<Key, Sample>, key: Key)
    requires ByKey(scan.snap, key).Some?
    requires r.key != key ==> HasRemembered(Entries(m, scan, records), baselines, key)
    requires after == if r.accepted.Some? then baselines[r.key := r.accepted.value] else baselines
    ensures HasRemembered(Entries(m, scan, records + [r]), after, key)
  {
    var before := Entries(m, scan, records);
    EntriesAppend(m, scan, records, r);
    if ByKey(scan.snap, r.key).Some? {
      var input := ClassifyInput(m, scan, r, ByKey(scan.snap, r.key).value);
      OneMoreRemembered(before, Entry(r, input, C.Classify(input)), baselines, after, key);
    } else {
      var earlier :| Remembered(before, baselines, key, earlier);
      assert Remembered(before, after, key, earlier);
    }
  }

  // ---------------------------------------------------------------------------------------------
  // Every run
  // ---------------------------------------------------------------------------------------------

  lemma WindowOnLongerRun(cadence: int, events: seq<Event>, e: Event, w: seq<Point>, sampling: int)
    requires Window(cadence, events, w, sampling)
    ensures Window(cadence, events + [e], w, sampling)
  {
    var longer := events + [e];
    assert forall i :: 0 <= i <= |events| ==> longer[..i] == events[..i];
    forall i | 0 <= i < |w| ensures At(cadence, longer, w[i]) && CompleteSample(w[i].entry) {
      assert At(cadence, events, w[i]);
      assert longer[..w[i].event] == events[..w[i].event];
    }
    forall i | 0 < i < |w| ensures Follows(cadence, longer, w[i - 1], w[i], sampling) {
      assert Follows(cadence, events, w[i - 1], w[i], sampling);
      assert At(cadence, events, w[i]);
      forall j | w[i - 1].event < j < w[i].event ensures Quiet(cadence, longer, j) {
        assert Quiet(cadence, events, j);
      }
    }
  }

  lemma WindowAppend(cadence: int, events: seq<Event>, w: seq<Point>, pt: Point, sampling: int)
    requires Window(cadence, events, w, sampling)
    requires At(cadence, events, pt) && CompleteSample(pt.entry)
    requires var last := w[|w| - 1];
             && Follows(cadence, events, last, pt, sampling)
             && CircumstancesOf(pt.entry) == CircumstancesOf(last.entry)
             && (CircumstancesOf(last.entry).basis in {C.Idle, C.Waiting} ==>
                   SameCounters(last.entry.measured.accepted.value, pt.entry.measured.accepted.value))
    ensures Window(cadence, events, w + [pt], sampling)
  {
    SampledAppend(cadence, events, w, pt);
    UnchangedAppend(w, pt);
    SpacedAppend(cadence, events, w, pt, sampling);
    StillAppend(w, pt);
  }

  lemma SampledAppend(cadence: int, events: seq<Event>, w: seq<Point>, pt: Point)
    requires Sampled(cadence, events, w) && At(cadence, events, pt) && CompleteSample(pt.entry)
    ensures Sampled(cadence, events, w + [pt])
  {}

  lemma UnchangedAppend(w: seq<Point>, pt: Point)
    requires |w| > 0 && Unchanged(w) && CircumstancesOf(pt.entry) == CircumstancesOf(w[|w| - 1].entry)
    ensures Unchanged(w + [pt])
  {}

  lemma SpacedAppend(cadence: int, events: seq<Event>, w: seq<Point>, pt: Point, sampling: int)
    requires |w| > 0 && Spaced(cadence, events, w, sampling) && Follows(cadence, events, w[|w| - 1], pt, sampling)
    ensures Spaced(cadence, events, w + [pt], sampling)
  {}

  lemma StillAppend(w: seq<Point>, pt: Point)
    requires |w| > 0 && Still(w) && Unchanged(w)
    requires CircumstancesOf(w[|w| - 1].entry).basis in {C.Idle, C.Waiting} ==>
               && w[|w| - 1].entry.measured.accepted.Some? && pt.entry.measured.accepted.Some?
               && SameCounters(w[|w| - 1].entry.measured.accepted.value, pt.entry.measured.accepted.value)
    ensures Still(w + [pt])
  {}

  /// What the classifier checks when it joins a sample to the remembered one.
  lemma Continues(m: Memory, scan: ScanInput, e0: Entry, e: Entry)
    requires e in ScanEntries(m, scan) && CompleteSample(e) && C.SameWindow(e.input)
    requires ConsistentEntry(e0) && CompleteSample(e0) && e0.measured.key == e.measured.key
    requires e0.measured.key in m.previous && m.previous[e0.measured.key] == ToPrevious(e0)
    requires e0.measured.key in m.baseline && m.baseline[e0.measured.key] == e0.measured.accepted.value
    ensures CircumstancesOf(e) == CircumstancesOf(e0)
    ensures 0 < e.measured.activity.taken - e0.measured.activity.taken <= 2 * m.cadence
    ensures CircumstancesOf(e).basis in {C.Idle, C.Waiting} ==>
        SameCounters(e0.measured.accepted.value, e.measured.accepted.value)
  {
    ScanEntryFacts(m, scan, e);
    var a, b := e0.measured.accepted.value, e.measured.accepted.value;
    var d := DeriveActivity(a, b);
    assert e.measured.activity == ToSampled(d);
    if C.Basis(ToSampled(d)).0 in {C.Idle, C.Waiting} {
      assert !Progress(d);
      NoProgressIffSameCounters(a, b);
    }
  }

  /// A sample that the classifier joins to the remembered window extends the window the memory rests on.
  lemma WindowExtends(cadence: int, events: seq<Event>, scan: ScanInput, entry: Entry, w: seq<Point>)
    requires var m := After(cadence, events);
             && Due(m, scan.taken) && entry in ScanEntries(m, scan) && CompleteSample(entry)
             && C.SameWindow(entry.input) && RestsOn(cadence, events, entry.measured.key, w)
    ensures Window(cadence, events + [Scan(scan)], w + [Point(|events|, entry)], After(cadence, events).cadence)
  {
    var m := After(cadence, events);
    var longer := events + [Scan(scan)];
    var last, pt := w[|w| - 1], Point(|events|, entry);
    assert At(cadence, events, last) && CompleteSample(last.entry);
    PointFacts(cadence, events, last);
    Continues(m, scan, last.entry, entry);
    WindowOnLongerRun(cadence, events, Scan(scan), w, m.cadence);
    assert At(cadence, longer, pt) by { assert longer[..|events|] == events; }
    forall j | last.event < j < |events| ensures Quiet(cadence, longer, j) {
      assert Quiet(cadence, events, j);
      assert longer[..j] == events[..j];
    }
    WindowAppend(cadence, longer, w, pt, m.cadence);
  }

  /// An entry that a scan can have produced.
  ghost predicate ConsistentEntry(e: Entry) {
    && e.result == C.Classify(e.input)
    && e.input.activity == e.measured.activity && e.input.key == e.measured.key
    && (e.measured.accepted.Some? ==>
          && e.measured.accepted.value.taken == e.measured.activity.taken
          && e.measured.accepted.value.socketsKnown == e.measured.activity.socketsKnown)
  }

  lemma ScanEntryFacts(m: Memory, scan: ScanInput, e: Entry)
    requires e in ScanEntries(m, scan)
    ensures ConsistentEntry(e) && ByKey(scan.snap, e.measured.key).Some?
    ensures e.input.previous == Read(m.previous, e.measured.key, C.NO_PREVIOUS) && e.input.cadence == m.cadence
    ensures e.measured.accepted.Some? ==>
              e.measured.activity ==
                  ToSampled(DeriveActivity(Read(m.baseline, e.measured.key, NO_SAMPLE), e.measured.accepted.value))
    ensures e.measured.accepted.None? ==> e.measured.activity == Unavailable(scan.taken)
  {
    EntryFacts(m, scan, Measurements(m, scan, Visited(scan)), e);
    MeasurementFacts(m, scan, Visited(scan), e.measured);
  }

  lemma PointFacts(cadence: int, events: seq<Event>, pt: Point)
    requires At(cadence, events, pt)
    ensures ConsistentEntry(pt.entry)
  {
    ScanEntryFacts(After(cadence, events[..pt.event]), events[pt.event].scan, pt.entry);
  }

  /// A sample that starts afresh is a window of its own.
  lemma WindowStarts(cadence: int, events: seq<Event>, scan: ScanInput, entry: Entry)
    requires var m := After(cadence, events);
             Due(m, scan.taken) && entry in ScanEntries(m, scan) && CompleteSample(entry)
    ensures Window(cadence, events + [Scan(scan)], [Point(|events|, entry)], After(cadence, events).cadence)
  {
    assert (events + [Scan(scan)])[..|events|] == events;
  }

  lemma ConclusiveIsComplete(m: Memory, scan: ScanInput, e: Entry)
    requires e in ScanEntries(m, scan) && e.result.basis in {C.Active, C.Waiting, C.Idle}
    ensures CompleteSample(e)
    ensures e.result.stableSince ==
        if C.SameWindow(e.input) then e.input.previous.stableSince else e.measured.activity.taken
    ensures C.SameWindow(e.input) ==>
              && e.measured.key in m.previous && m.previous[e.measured.key].basis == e.result.basis
              && e.input.previous == m.previous[e.measured.key]
  {
    ScanEntryFacts(m, scan, e);
  }

  /// A due, committed scan: the entry remembered for `key` continues the earlier window or starts one.
  lemma CommittedScanRestsOn(cadence: int, before: seq<Event>, scan: ScanInput, entry: Entry, w: seq<Point>)
    requires var m := After(cadence, before);
             && Due(m, scan.taken) && CompleteSample(entry)
             && Remembered(ScanEntries(m, scan), Baselines(scan, Visited(scan)), entry.measured.key, entry)
             && Window(cadence, before + [Scan(scan)], w, m.cadence)
             && w[|w| - 1] == Point(|before|, entry)
             && entry.result.stableSince == w[0].entry.measured.activity.taken
    ensures RestsOn(cadence, before + [Scan(scan)], entry.measured.key, w)
  {
    var longer := before + [Scan(scan)];
    assert longer[..|longer| - 1] == before && longer[|longer| - 1] == Scan(scan);
  }

  lemma QuietEventRestsOn(cadence: int, before: seq<Event>, e: Event, key: Key, w: seq<Point>)
    requires RestsOn(cadence, before, key, w)
    requires e.AbandonedScan? || (e.Scan? && !Due(After(cadence, before), e.scan.taken))
    ensures RestsOn(cadence, before + [e], key, w)
  {
    var longer := before + [e];
    assert longer[..|before|] == before;
    WindowOnLongerRun(cadence, before, e, w, After(cadence, before).cadence);
    forall j | w[|w| - 1].event < j < |longer| ensures Quiet(cadence, longer, j) {
      if j < |before| {
        assert Quiet(cadence, before, j);
        assert longer[..j] == before[..j];
      }
    }
  }

  ghost predicate Conclusive(m: Memory, key: Key) {
    key in m.previous && m.previous[key].basis in {C.Active, C.Waiting, C.Idle}
  }

  ghost predicate HasWindow(cadence: int, events: seq<Event>, key: Key) {
    exists w :: RestsOn(cadence, events, key, w)
  }

  lemma RememberedEntry(m: Memory, scan: ScanInput, key: Key) returns (e: Entry)
    requires key in PreviousOf(ScanEntries(m, scan))
    ensures Remembered(ScanEntries(m, scan), Baselines(scan, Visited(scan)), key, e)
  {
    PreviousHasEntry(ScanEntries(m, scan), key);
    var any :| any in ScanEntries(m, scan) && any.measured.key == key;
    ScanEntryFacts(m, scan, any);
    PreviousMatchesBaseline(m, scan, Visited(scan), key);
    e :| Remembered(ScanEntries(m, scan), Baselines(scan, Visited(scan)), key, e);
  }

  lemma DueScanExtends(cadence: int, before: seq<Event>, scan: ScanInput, entry: Entry, w: seq<Point>)
    requires var m := After(cadence, before);
             && Due(m, scan.taken) && CompleteSample(entry)
             && Remembered(ScanEntries(m, scan), Baselines(scan, Visited(scan)), entry.measured.key, entry)
             && C.SameWindow(entry.input) && RestsOn(cadence, before, entry.measured.key, w)
             && entry.result.stableSince == m.previous[entry.measured.key].stableSince
    ensures HasWindow(cadence, before + [Scan(scan)], entry.measured.key)
  {
    WindowExtends(cadence, before, scan, entry, w);
    CommittedScanRestsOn(cadence, before, scan, entry, w + [Point(|before|, entry)]);
  }

  lemma DueScanStarts(cadence: int, before: seq<Event>, scan: ScanInput, entry: Entry)
    requires var m := After(cadence, before);
             && Due(m, scan.taken) && CompleteSample(entry)
             && Remembered(ScanEntries(m, scan), Baselines(scan, Visited(scan)), entry.measured.key, entry)
             && entry.result.stableSince == entry.measured.activity.taken
    ensures HasWindow(cadence, before + [Scan(scan)], entry.measured.key)
  {
    WindowStarts(cadence, before, scan, entry);
    CommittedScanRestsOn(cadence, before, scan, entry, [Point(|before|, entry)]);
  }

  lemma DueScanHasWindow(cadence: int, before: seq<Event>, scan: ScanInput, entry: Entry)
    requires var m := After(cadence, before);
             && Due(m, scan.taken)
             && Remembered(ScanEntries(m, scan), Baselines(scan, Visited(scan)), entry.measured.key, entry)
             && entry.result.basis in {C.Active, C.Waiting, C.Idle}
             && (Conclusive(m, entry.measured.key) ==> HasWindow(cadence, before, entry.measured.key))
    ensures HasWindow(cadence, before + [Scan(scan)], entry.measured.key)
  {
    ConclusiveIsComplete(After(cadence, before), scan, entry);
    if C.SameWindow(entry.input) {
      var w: seq<Point> :| RestsOn(cadence, before, entry.measured.key, w);
      DueScanExtends(cadence, before, scan, entry, w);
    } else {
      DueScanStarts(cadence, before, scan, entry);
    }
  }

  /// Invariant of every run: whatever conclusive result is remembered rests on an unbroken window.
  lemma {:induction false} MemoryRestsOnWindow(cadence: int, events: seq<Event>, key: Key)
    requires Conclusive(After(cadence, events), key)
    ensures HasWindow(cadence, events, key)
  {
    var before, e := events[..|events| - 1], events[|events| - 1];
    assert events == before + [e];
    var m := After(cadence, before);
    if Conclusive(m, key) {
      MemoryRestsOnWindow(cadence, before, key);
    }
    if e.Scan? && Due(m, e.scan.taken) {
      var entry := RememberedEntry(m, e.scan, key);
      DueScanHasWindow(cadence, before, e.scan, entry);
    } else {
      var w: seq<Point> :| RestsOn(cadence, before, key, w);
      QuietEventRestsOn(cadence, before, e, key, w);
    }
  }

  lemma OneMoreGap(sampling: int, n: int)
    ensures 2 * sampling * n + 2 * sampling == 2 * sampling * (n + 1)
  {}

  lemma {:induction false} SpanBound(cadence: int, events: seq<Event>, w: seq<Point>, sampling: int)
    requires Window(cadence, events, w, sampling)
    ensures w[|w| - 1].entry.measured.activity.taken - w[0].entry.measured.activity.taken <= 2 * sampling * (|w| - 1)
  {
    if |w| > 1 {
      var init := w[..|w| - 1];
      assert Window(cadence, events, init, sampling);
      SpanBound(cadence, events, init, sampling);
      assert Follows(cadence, events, w[|w| - 2], w[|w| - 1], sampling);
      OneMoreGap(sampling, |w| - 2);
    }
  }

  /// `w` is an orphan's window: it ends in `entry` and every sample in it is a complete, idle sample of
  /// the same detached process in the same kernel status, its session ended, which holds neither a writable
  /// repository file nor a connected socket, with no counter moved.
  ghost predicate OrphanWindow(cadence: int, events: seq<Event>, w: seq<Point>, entry: Entry, sampling: int) {
    && Window(cadence, events, w, sampling)
    && w[|w| - 1].entry == entry
    && w[0].entry.measured.activity.taken == entry.result.stableSince
    && (forall i :: 0 <= i < |w| ==>
          && w[i].entry.measured.key == entry.measured.key
          && w[i].entry.input.detached && w[i].entry.input.sessionEnded
          && w[i].entry.input.status == entry.input.status
          && C.Basis(w[i].entry.measured.activity).0 == C.Idle
          && w[i].entry.measured.accepted.Some? && !Holding(w[i].entry.measured.accepted.value)
          && SameCounters(w[i].entry.measured.accepted.value, entry.measured.accepted.value))
  }

  lemma IdleWindowIsOrphanWindow(cadence: int, events: seq<Event>, w: seq<Point>, sampling: int)
    requires Window(cadence, events, w, sampling)
    requires var e := w[|w| - 1].entry;
             && CircumstancesOf(e).basis == C.Idle && e.input.detached && e.input.sessionEnded
             && w[0].entry.measured.activity.taken == e.result.stableSince
    ensures OrphanWindow(cadence, events, w, w[|w| - 1].entry, sampling)
  {
    var last := w[|w| - 1];
    assert CircumstancesOf(last.entry) == CircumstancesOf(w[0].entry);
    assert SameCounters(w[0].entry.measured.accepted.value, last.entry.measured.accepted.value);
    forall i | 0 <= i < |w|
      ensures CircumstancesOf(w[i].entry) == CircumstancesOf(last.entry)
      ensures !Holding(w[i].entry.measured.accepted.value)
      ensures SameCounters(w[i].entry.measured.accepted.value, last.entry.measured.accepted.value)
    {
      assert CircumstancesOf(w[i].entry) == CircumstancesOf(w[0].entry);
      assert SameCounters(w[0].entry.measured.accepted.value, w[i].entry.measured.accepted.value);
      IdleHoldsNothing(cadence, events, w[i]);
    }
  }

  lemma IdleHoldsNothing(cadence: int, events: seq<Event>, pt: Point)
    requires At(cadence, events, pt) && CompleteSample(pt.entry) && C.Basis(pt.entry.measured.activity).0 == C.Idle
    ensures !Holding(pt.entry.measured.accepted.value)
  {
    ScanEntryFacts(After(cadence, events[..pt.event]), events[pt.event].scan, pt.entry);
  }

  /// The window spans at least five minutes, so it holds at least 1 + 5min/(2*sampling) samples.
  ghost predicate LongEnough(w: seq<Point>, sampling: int)
    requires |w| > 0
  {
    && w[|w| - 1].entry.measured.activity.taken - w[0].entry.measured.activity.taken >= C.STRONG_CONCLUSION_WINDOW
    && 2 * sampling * (|w| - 1) >= C.STRONG_CONCLUSION_WINDOW
  }

  ghost predicate OrphanEvidence(cadence: int, events: seq<Event>, scan: ScanInput, entry: Entry, w: seq<Point>) {
    && OrphanWindow(cadence, events + [Scan(scan)], w, entry, After(cadence, events).cadence)
    && LongEnough(w, After(cadence, events).cadence)
    && w[|w| - 1].event == |events|
  }

  lemma OrphanedEntry(m: Memory, scan: ScanInput, e: Entry)
    requires e in ScanEntries(m, scan) && e.result.state == C.Orphaned
    ensures CompleteSample(e) && C.SameWindow(e.input) && Conclusive(m, e.measured.key)
    ensures e.result.stableSince == m.previous[e.measured.key].stableSince
  {
    ScanEntryFacts(m, scan, e);
    C.OrphanedExactly(e.input);
    ConclusiveIsComplete(m, scan, e);
  }

  lemma OrphanedExtendsWindow(cadence: int, events: seq<Event>, scan: ScanInput, entry: Entry)
    requires var m := After(cadence, events);
             && Due(m, scan.taken) && entry in ScanEntries(m, scan) && entry.result.state == C.Orphaned
             && CompleteSample(entry) && C.SameWindow(entry.input)
             && HasWindow(cadence, events, entry.measured.key) && entry.measured.key in m.previous
             && entry.result.stableSince == m.previous[entry.measured.key].stableSince
    ensures exists w :: OrphanEvidence(cadence, events, scan, entry, w)
  {
    var w: seq<Point> :| RestsOn(cadence, events, entry.measured.key, w);
    var m := After(cadence, events);
    var longer, full := events + [Scan(scan)], w + [Point(|events|, entry)];
    ScanEntryFacts(m, scan, entry);
    C.OrphanedExactly(entry.input);
    WindowExtends(cadence, events, scan, entry, w);
    SpanBound(cadence, longer, full, m.cadence);
    IdleWindowIsOrphanWindow(cadence, longer, full, m.cadence);
    assert OrphanEvidence(cadence, events, scan, entry, full);
  }

  /// Main result. When a scan concludes that a process is orphaned, the run contains an unbroken,
  /// long enough orphan's window of due scans that ends in that very scan.
  lemma OrphanedRestsOnWindow(cadence: int, events: seq<Event>, scan: ScanInput, entry: Entry)
    requires var m := After(cadence, events);
             Due(m, scan.taken) && entry in ScanEntries(m, scan) && entry.result.state == C.Orphaned
    ensures exists w :: OrphanEvidence(cadence, events, scan, entry, w)
  {
    OrphanedEntry(After(cadence, events), scan, entry);
    MemoryRestsOnWindow(cadence, events, entry.measured.key);
    OrphanedExtendsWindow(cadence, events, scan, entry);
  }

  /// `w` is a hung process's window: it ends in `entry` and every sample in it is a complete sample of the
  /// same stopped process, throughout idle or throughout waiting, and not both detached and past its session.
  ghost predicate HungWindow(cadence: int, events: seq<Event>, w: seq<Point>, entry: Entry, sampling: int) {
    && Window(cadence, events, w, sampling)
    && w[|w| - 1].entry == entry
    && w[0].entry.measured.activity.taken == entry.result.stableSince
    && (forall i :: 0 <= i < |w| ==> StoppedLike(w[i].entry, entry))
  }

  predicate StoppedLike(e: Entry, last: Entry) {
    && e.measured.key == last.measured.key && e.input.status == Stopped
    && C.Basis(e.measured.activity).0 == C.Basis(last.measured.activity).0
    && C.Basis(e.measured.activity).0 in {C.Idle, C.Waiting}
    && e.input.detached == last.input.detached && e.input.sessionEnded == last.input.sessionEnded
    && !(e.input.detached && e.input.sessionEnded)
  }

  ghost predicate HungEvidence(cadence: int, events: seq<Event>, scan: ScanInput, entry: Entry, w: seq<Point>) {
    && HungWindow(cadence, events + [Scan(scan)], w, entry, After(cadence, events).cadence)
    && LongEnough(w, After(cadence, events).cadence)
    && w[|w| - 1].event == |events|
  }

  lemma HungEntry(m: Memory, scan: ScanInput, e: Entry)
    requires e in ScanEntries(m, scan) && e.result.state == C.Hung
    ensures CompleteSample(e) && C.SameWindow(e.input) && Conclusive(m, e.measured.key) && StoppedLike(e, e)
    ensures e.result.stableSince == m.previous[e.measured.key].stableSince
    ensures e.measured.activity.taken - e.result.stableSince >= C.STRONG_CONCLUSION_WINDOW
  {
    ScanEntryFacts(m, scan, e);
    C.HungExactly(e.input);
    ConclusiveIsComplete(m, scan, e);
  }

  lemma StoppedWindowIsHungWindow(cadence: int, events: seq<Event>, w: seq<Point>, sampling: int)
    requires Window(cadence, events, w, sampling)
    requires var e := w[|w| - 1].entry; StoppedLike(e, e) && w[0].entry.measured.activity.taken == e.result.stableSince
    ensures HungWindow(cadence, events, w, w[|w| - 1].entry, sampling)
  {
    var last := w[|w| - 1];
    assert CircumstancesOf(last.entry) == CircumstancesOf(w[0].entry);
    forall i | 0 <= i < |w| ensures StoppedLike(w[i].entry, last.entry) {
      assert CircumstancesOf(w[i].entry) == CircumstancesOf(w[0].entry);
    }
  }

  lemma HungExtendsWindow(cadence: int, events: seq<Event>, scan: ScanInput, entry: Entry)
    requires var m := After(cadence, events);
             && Due(m, scan.taken) && entry in ScanEntries(m, scan) && CompleteSample(entry)
             && C.SameWindow(entry.input) && StoppedLike(entry, entry) && HasWindow(cadence, events, entry.measured.key)
             && entry.measured.key in m.previous
             && entry.result.stableSince == m.previous[entry.measured.key].stableSince
             && entry.measured.activity.taken - entry.result.stableSince >= C.STRONG_CONCLUSION_WINDOW
    ensures exists w :: HungEvidence(cadence, events, scan, entry, w)
  {
    var w: seq<Point> :| RestsOn(cadence, events, entry.measured.key, w);
    var m := After(cadence, events);
    var longer, full := events + [Scan(scan)], w + [Point(|events|, entry)];
    WindowExtends(cadence, events, scan, entry, w);
    SpanBound(cadence, longer, full, m.cadence);
    StoppedWindowIsHungWindow(cadence, longer, full, m.cadence);
    assert HungEvidence(cadence, events, scan, entry, full);
  }

  /// Likewise for "hung": the run contains an unbroken, long enough window of due scans of a process that is
  /// stopped throughout, and it ends in that very scan.
  lemma HungRestsOnWindow(cadence: int, events: seq<Event>, scan: ScanInput, entry: Entry)
    requires var m := After(cadence, events);
             Due(m, scan.taken) && entry in ScanEntries(m, scan) && entry.result.state == C.Hung
    ensures exists w :: HungEvidence(cadence, events, scan, entry, w)
  {
    HungEntry(After(cadence, events), scan, entry);
    MemoryRestsOnWindow(cadence, events, entry.measured.key);
    HungExtendsWindow(cadence, events, scan, entry);
  }

  // ---------------------------------------------------------------------------------------------
  // The converse: such a window forces the conclusion
  // ---------------------------------------------------------------------------------------------

  lemma {:induction false} MeasuredOnce(m: Memory, scan: ScanInput, n: nat)
    requires n <= Visited(scan) && DistinctPids(scan.snap)
    ensures forall r :: r in Measurements(m, scan, n) ==> exists i :: 0 <= i < n && scan.snap[i].Id() == r.key
    ensures OneRecordPerKey(Measurements(m, scan, n))
  {
    if n > 0 {
      MeasuredOnce(m, scan, n - 1);
      var p, before := scan.snap[n - 1], Measurements(m, scan, n - 1);
      forall r | r in before ensures exists i :: 0 <= i < n && scan.snap[i].Id() == r.key {
        var i :| 0 <= i < n - 1 && scan.snap[i].Id() == r.key;
        assert 0 <= i < n && scan.snap[i].Id() == r.key;
      }
      if Sampling(scan, p) {
        var r := Measure(m, scan, p, scan.samples[n - 1]);
        assert 0 <= n - 1 < n && scan.snap[n - 1].Id() == r.key;
        forall k | 0 <= k < |before| ensures before[k].key != r.key {
          assert before[k] in before;
          var i :| 0 <= i < n - 1 && scan.snap[i].Id() == before[k].key;
        }
      }
    }
  }

  ghost predicate OneRecordPerKey(records: seq<Measured>) {
    forall i, j :: 0 <= i < j < |records| ==> records[i].key != records[j].key
  }

  lemma {:induction false} LastEntryOfKey(m: Memory, scan: ScanInput, records: seq<Measured>, e: Entry)
    requires OneRecordPerKey(records) && e in Entries(m, scan, records)
    ensures e.measured.key in PreviousOf(Entries(m, scan, records))
    ensures PreviousOf(Entries(m, scan, records))[e.measured.key] == ToPrevious(e)
  {
    var before, r := records[..|records| - 1], records[|records| - 1];
    assert records == before + [r];
    EntriesAppend(m, scan, before, r);
    if ByKey(scan.snap, r.key).Some? {
      var input := ClassifyInput(m, scan, r, ByKey(scan.snap, r.key).value);
      PreviousAppend(Entries(m, scan, before), Entry(r, input, C.Classify(input)));
    }
    if e in Entries(m, scan, before) {
      EntryFacts(m, scan, before, e);
      LastEntryOfKey(m, scan, before, e);
    }
  }

  /// Without repeated PIDs a process has one entry per scan, so that entry is the remembered one.
  lemma OnlyEntryIsRemembered(m: Memory, scan: ScanInput, e: Entry)
    requires DistinctPids(scan.snap) && e in ScanEntries(m, scan)
    ensures e.measured.key in PreviousOf(ScanEntries(m, scan))
    ensures PreviousOf(ScanEntries(m, scan))[e.measured.key] == ToPrevious(e)
  {
    MeasuredOnce(m, scan, Visited(scan));
    LastEntryOfKey(m, scan, Measurements(m, scan, Visited(scan)), e);
  }

  lemma {:induction false} QuietKeepsMemory(cadence: int, events: seq<Event>, i: nat, j: nat)
    requires i < j <= |events|
    requires forall k :: i < k < j ==> Quiet(cadence, events, k)
    ensures After(cadence, events[..j]) == After(cadence, events[..i + 1])
    decreases j
  {
    if i + 1 < j {
      assert Quiet(cadence, events, j - 1);
      assert events[..j][..j - 1] == events[..j - 1];
      QuietKeepsMemory(cadence, events, i, j - 1);
    }
  }

  /// Between two points of a window the later sample is classified against the earlier result.
  lemma PreviousPoint(cadence: int, events: seq<Event>, a: Point, b: Point, sampling: int)
    requires At(cadence, events, a) && At(cadence, events, b) && Follows(cadence, events, a, b, sampling)
    requires DistinctPids(events[a.event].scan.snap) && a.entry.measured.key == b.entry.measured.key
    ensures b.entry.input.previous == ToPrevious(a.entry)
    ensures b.entry.input.cadence == After(cadence, events[..b.event]).cadence
  {
    var m := After(cadence, events[..a.event]);
    var scan := events[a.event].scan;
    OnlyEntryIsRemembered(m, scan, a.entry);
    assert events[..a.event + 1][..a.event] == events[..a.event];
    QuietKeepsMemory(cadence, events, a.event, b.event);
    ScanEntryFacts(After(cadence, events[..b.event]), events[b.event].scan, b.entry);
  }

  /// A window sampled at one cadence from snapshots that repeat no PID.
  ghost predicate SteadyRun(cadence: int, events: seq<Event>, w: seq<Point>, sampling: int) {
    && Window(cadence, events, w, sampling) && sampling > 0
    && forall i :: 0 <= i < |w| ==>
         DistinctPids(events[w[i].event].scan.snap) && After(cadence, events[..w[i].event]).cadence == sampling
  }

  /// Of a detached process with an ended session, idle.
  ghost predicate IdleOrphanRun(cadence: int, events: seq<Event>, w: seq<Point>, sampling: int) {
    && SteadyRun(cadence, events, w, sampling)
    && CircumstancesOf(w[0].entry).basis == C.Idle && w[0].entry.input.detached && w[0].entry.input.sessionEnded
  }

  /// Of a stopped process, idle or waiting, that is not both detached and past its session.
  ghost predicate StoppedRun(cadence: int, events: seq<Event>, w: seq<Point>, sampling: int) {
    SteadyRun(cadence, events, w, sampling) && StoppedLike(w[0].entry, w[0].entry)
  }

  lemma {:induction false} WindowTimesIncrease(cadence: int, events: seq<Event>, w: seq<Point>, sampling: int)
    requires Window(cadence, events, w, sampling)
    ensures w[0].entry.measured.activity.taken <= w[|w| - 1].entry.measured.activity.taken
  {
    if |w| > 1 {
      assert Window(cadence, events, w[..|w| - 1], sampling);
      WindowTimesIncrease(cadence, events, w[..|w| - 1], sampling);
      assert Follows(cadence, events, w[|w| - 2], w[|w| - 1], sampling);
    }
  }

  lemma RememberedSinceIsPast(cadence: int, events: seq<Event>, key: Key)
    requires Conclusive(After(cadence, events), key)
    ensures var p := After(cadence, events).previous[key]; p.stableSince <= p.sampledAt
  {
    MemoryRestsOnWindow(cadence, events, key);
    var w: seq<Point> :| RestsOn(cadence, events, key, w);
    WindowTimesIncrease(cadence, events, w, After(cadence, events).cadence);
  }

  lemma StableSinceIsPast(cadence: int, events: seq<Event>, pt: Point)
    requires At(cadence, events, pt) && CompleteSample(pt.entry)
    ensures pt.entry.result.stableSince <= pt.entry.measured.activity.taken
    ensures pt.entry.result.stableSince != ZERO_TIME
  {
    var m := After(cadence, events[..pt.event]);
    var scan := events[pt.event].scan;
    PointFacts(cadence, events, pt);
    ConclusiveIsComplete(m, scan, pt.entry);
    if C.SameWindow(pt.entry.input) {
      RememberedSinceIsPast(cadence, events[..pt.event], pt.entry.measured.key);
    }
  }

  lemma {:induction false} StableSinceReachesBack(cadence: int, events: seq<Event>, w: seq<Point>, sampling: int)
    requires SteadyRun(cadence, events, w, sampling)
    ensures w[|w| - 1].entry.result.stableSince <= w[0].entry.measured.activity.taken
    ensures w[|w| - 1].entry.result.stableSince != ZERO_TIME
  {
    var last := w[|w| - 1];
    assert At(cadence, events, last) && CompleteSample(last.entry);
    PointFacts(cadence, events, last);
    if |w| == 1 {
      StableSinceIsPast(cadence, events, last);
    } else {
      var init, prior := w[..|w| - 1], w[|w| - 2];
      assert Window(cadence, events, init, sampling);
      StableSinceReachesBack(cadence, events, init, sampling);
      assert Follows(cadence, events, prior, last, sampling);
      assert CircumstancesOf(prior.entry) == CircumstancesOf(w[0].entry) == CircumstancesOf(last.entry);
      PointFacts(cadence, events, prior);
      PreviousPoint(cadence, events, prior, last, sampling);
      JoinsPrevious(prior.entry, last.entry, sampling);
    }
  }

  lemma JoinsPrevious(a: Entry, b: Entry, sampling: int)
    requires ConsistentEntry(a) && CompleteSample(a) && a.result.stableSince != ZERO_TIME
    requires ConsistentEntry(b) && CompleteSample(b) && CircumstancesOf(a) == CircumstancesOf(b)
    requires b.input.previous == ToPrevious(a) && b.input.cadence == sampling > 0
    requires 0 < b.measured.activity.taken - a.measured.activity.taken <= 2 * sampling
    ensures C.SameWindow(b.input) && b.result.stableSince == a.result.stableSince
  {
  }

  /// Partner of the main result: whenever a run holds such a window of at least five minutes, the scan
  /// that ends it concludes that the process is orphaned.
  lemma WindowForcesOrphaned(cadence: int, events: seq<Event>, w: seq<Point>, sampling: int)
    requires IdleOrphanRun(cadence, events, w, sampling)
    requires w[|w| - 1].entry.measured.activity.taken - w[0].entry.measured.activity.taken >= C.STRONG_CONCLUSION_WINDOW
    ensures w[|w| - 1].entry.result.state == C.Orphaned
  {
    var last := w[|w| - 1];
    StableSinceReachesBack(cadence, events, w, sampling);
    assert At(cadence, events, last) && CompleteSample(last.entry);
    PointFacts(cadence, events, last);
    assert CircumstancesOf(last.entry) == CircumstancesOf(w[0].entry);
  }

  /// And every stopped window of at least five minutes ends in "hung".
  lemma WindowForcesHung(cadence: int, events: seq<Event>, w: seq<Point>, sampling: int)
    requires StoppedRun(cadence, events, w, sampling)
    requires w[|w| - 1].entry.measured.activity.taken - w[0].entry.measured.activity.taken >= C.STRONG_CONCLUSION_WINDOW
    ensures w[|w| - 1].entry.result.state == C.Hung
  {
    var last := w[|w| - 1];
    StableSinceReachesBack(cadence, events, w, sampling);
    assert At(cadence, events, last) && CompleteSample(last.entry);
    PointFacts(cadence, events, last);
    assert CircumstancesOf(last.entry) == CircumstancesOf(w[0].entry);
  }
}
