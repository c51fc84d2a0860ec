/// The daemon object that gathers, classifies and commits activity evidence, step by step
/// (internal/daemon/activity.go, classification.go and scan.go), against the run model.

module EvidenceDaemon {
  import opened Common
  import opened ProcessTree
  import opened Activity
  import opened EvidenceRun
  import C = Classification

  datatype ActivityBatch = ActivityBatch(due: bool, at: Time, records: seq<Measured>, baselines: map<Key, Sample>)

  datatype ClassificationBatch = ClassificationBatch(due: bool, current: seq<Entry>, previous: map<Key, C.Previous>)

  /// How a scan ends once its evidence is gathered: the transaction lands, some step fails and the
  /// failure is recorded, or the daemon is being cancelled.
  datatype Outcome = Persisted | Failed | Cancelled

  class Daemon {
    const cadence: int
    var lastActivityAt: Time
    var activityBaseline: map<Key, Sample>
    var classificationPrevious: map<Key, C.Previous>

    ghost function View(): Memory
      reads this
    {
      Memory(cadence, lastActivityAt, activityBaseline, classificationPrevious)
    }

    constructor (cadence: int)
      ensures View() == Fresh(cadence)
    {
      this.cadence := cadence;
      lastActivityAt := ZERO_TIME;
      activityBaseline, classificationPrevious := map[], map[];
    }

    method CollectActivity(scan: ScanInput) returns (batch: ActivityBatch)
      ensures batch.due <==> Due(View(), scan.taken)
      ensures batch.due ==> batch.at == scan.taken
      ensures batch.due ==> batch.records == Measurements(View(), scan, Visited(scan))
      ensures batch.due ==> batch.baselines == Baselines(scan, Visited(scan))
    {
      if lastActivityAt != ZERO_TIME && scan.taken - lastActivityAt < cadence {
        return ActivityBatch(false, ZERO_TIME, [], map[]);
      }
      var records: seq<Measured> := [];
      var baselines: map<Key, Sample> := map[];
      for i := 0 to Visited(scan)
        invariant records == Measurements(View(), scan, i)
        invariant baselines == Baselines(scan, i)
      {
        var p := scan.snap[i];
        var uid := p.Id();
        if uid in scan.attributions && scan.attributions[uid].attributed {
          var session := scan.attributions[uid].session;
          var accepted := Accept(p, scan.taken, scan.samples[i]);
          if accepted.None? {
            records := records + [Measured(uid, session, None, Unavailable(scan.taken))];
          } else {
            var delta := DeriveActivity(Read(activityBaseline, uid, NO_SAMPLE), accepted.value);
            baselines := baselines[uid := accepted.value];
            records := records + [Measured(uid, session, accepted, ToSampled(delta))];
          }
        }
      }
      batch := ActivityBatch(true, scan.taken, records, baselines);
    }

    method ClassifyActivity(scan: ScanInput, activity: ActivityBatch) returns (batch: ClassificationBatch)
      ensures batch.due == activity.due
      ensures batch.current == if batch.due then Entries(View(), scan, activity.records) else []
      ensures batch.due ==> batch.previous == PreviousOf(batch.current)
    {
      if !activity.due {
        return ClassificationBatch(false, [], map[]);
      }
      var current: seq<Entry> := [];
      var previous: map<Key, C.Previous> := map[];
      for i := 0 to |activity.records|
        invariant current == Entries(View(), scan, activity.records[..i])
        invariant previous == PreviousOf(current)
      {
        var record := activity.records[i];
        assert activity.records[..i + 1] == activity.records[..i] + [record];
        EntriesAppend(View(), scan, activity.records[..i], record);
        var proc := ByPid(scan.snap, record.key.pid);
        if proc.Some? && proc.value.Id() == record.key {
          var a := Read(scan.attributions, record.key, Attribution("", false, 0, false));
          var input := C.Input(record.key, proc.value.status,
                               a.originalParentObserved && proc.value.ppid != a.originalPpid,
                               record.session in scan.ended, record.activity,
                               Read(classificationPrevious, record.key, C.NO_PREVIOUS), cadence);
          var result := C.Classify(input);
          var entry := Entry(record, input, result);
          PreviousAppend(current, entry);
          current := current + [entry];
          previous := previous[record.key :=
            C.Previous(record.key, result.basis, result.detached, result.sessionEnded, proc.value.status,
                       result.stableSince, record.activity.taken)];
        }
      }
      assert activity.records[..|activity.records|] == activity.records;
      batch := ClassificationBatch(true, current, previous);
    }

    method CommitActivity(batch: ActivityBatch)
      modifies this`activityBaseline, this`lastActivityAt
      ensures activityBaseline == if batch.due then batch.baselines else old(activityBaseline)
      ensures lastActivityAt == if batch.due then batch.at else old(lastActivityAt)
    {
      if batch.due {
        activityBaseline, lastActivityAt := batch.baselines, batch.at;
      }
    }

    method CommitClassifications(batch: ClassificationBatch)
      modifies this`classificationPrevious
      ensures classificationPrevious == if batch.due then batch.previous else old(classificationPrevious)
    {
      if batch.due {
        classificationPrevious := batch.previous;
      }
    }

    method ResetClassificationEvidence()
      modifies this`classificationPrevious
      ensures classificationPrevious == map[]
    {
      classificationPrevious := map[];
    }

    /// One observation cycle: memory advances only after the write has landed, and a failed cycle
    /// forgets every remembered conclusion but keeps its baselines.
    method RunScan(scan: ScanInput, outcome: Outcome) returns (concluded: seq<Entry>)
      modifies this
      ensures View() == Step(old(View()), match outcome
                                          case Persisted => Scan(scan)
                                          case Failed => FailedScan
                                          case Cancelled => AbandonedScan)
      ensures concluded ==
          if outcome.Persisted? && Due(old(View()), scan.taken) then ScanEntries(old(View()), scan) else []
    {
      var activity := CollectActivity(scan);
      var classes := ClassifyActivity(scan, activity);
      concluded := [];
      match outcome {
        case Cancelled =>
        case Failed =>
          ResetClassificationEvidence();
        case Persisted =>
          CommitActivity(activity);
          CommitClassifications(classes);
          concluded := classes.current;
      }
    }
  }
}
