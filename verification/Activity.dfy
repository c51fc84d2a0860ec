/// Deltas of cumulative process counters (internal/process/activity.go).

module Activity {
  import opened Common
  import opened ProcessTree

  /// One targeted observation of an exact process. Counters are cumulative.
  datatype Sample = Sample(
    key: Key, taken: Time,
    cpuTime: int, cpuKnown: bool,
    diskRead: nat, diskWritten: nat, ioKnown: bool,
    writableRepositoryFiles: int, filesKnown: bool,
    sockets: int, connectedSockets: int, receiveQueue: nat, sendQueue: nat, socketsKnown: bool)

  /// What a map of baselines yields for a process it does not hold.
  const NO_SAMPLE := Sample(Key(0, 0), ZERO_TIME, 0, false, 0, 0, false, 0, false, 0, 0, 0, 0, false)

  datatype Delta = Delta(
    taken: Time, interval: int, baselineOk: bool,
    cpuPercent: real, cpuDelta: int, cpuKnown: bool,
    diskRead: nat, diskWritten: nat, ioKnown: bool,
    writableRepositoryFiles: int, filesKnown: bool,
    connectedSockets: int, networkChanged: bool, socketsKnown: bool)

  predicate SameSockets(a: Sample, b: Sample) {
    a.sockets == b.sockets && a.connectedSockets == b.connectedSockets
    && a.receiveQueue == b.receiveQueue && a.sendQueue == b.sendQueue
  }

  /// Every counter a delta is drawn from is equal in the two samples.
  predicate SameCounters(a: Sample, b: Sample) {
    && a.cpuTime == b.cpuTime && a.diskRead == b.diskRead && a.diskWritten == b.diskWritten
    && a.sockets == b.sockets && a.connectedSockets == b.connectedSockets
    && a.receiveQueue == b.receiveQueue && a.sendQueue == b.sendQueue
  }

  function DeriveActivity(previous: Sample, current: Sample): Delta {
    var d := Delta(current.taken, 0, false, 0.0, 0, false, 0, 0, false,
                   current.writableRepositoryFiles, current.filesKnown,
                   current.connectedSockets, false, current.socketsKnown);
    if previous.key != current.key || previous.taken == ZERO_TIME || current.taken <= previous.taken then d
    else
      var d := d.(interval := current.taken - previous.taken);
      var d :=
        if previous.cpuKnown && current.cpuKnown && current.cpuTime >= previous.cpuTime then
          d.(cpuDelta := current.cpuTime - previous.cpuTime,
             cpuPercent := 100.0 * (current.cpuTime - previous.cpuTime) as real / d.interval as real,
             cpuKnown := true, baselineOk := true)
        else d;
      var d :=
        if previous.ioKnown && current.ioKnown && current.diskRead >= previous.diskRead
           && current.diskWritten >= previous.diskWritten then
          d.(diskRead := current.diskRead - previous.diskRead,
             diskWritten := current.diskWritten - previous.diskWritten,
             ioKnown := true, baselineOk := true)
        else d;
      if previous.socketsKnown && current.socketsKnown then d.(networkChanged := !SameSockets(previous, current)) else d
  }

  const MAX_INT64 := 0x7fff_ffff_ffff_ffff

  /// Clamp a counter to what the store can hold.
  function BoundedInt64(v: nat): nat { if v > MAX_INT64 then MAX_INT64 else v }

  predicate Complete(d: Delta) {
    d.baselineOk && d.cpuKnown && d.ioKnown && d.filesKnown && d.socketsKnown
  }

  predicate Progress(d: Delta) {
    d.cpuPercent > 0.0 || d.diskRead > 0 || d.diskWritten > 0 || d.networkChanged
  }

  /// A complete delta exists only between two samples of one process, in order, with no counter
  /// going backwards.
  lemma CompleteDeltaIsWellFounded(previous: Sample, current: Sample)
    requires Complete(DeriveActivity(previous, current))
    ensures previous.key == current.key && previous.taken < current.taken
    ensures previous.cpuTime <= current.cpuTime && previous.diskRead <= current.diskRead
    ensures previous.diskWritten <= current.diskWritten
    ensures current.cpuKnown && current.ioKnown && current.filesKnown && current.socketsKnown
  {}

  /// Against a previous sample whose sockets were known, a complete delta shows no progress exactly
  /// when no counter moved.
  lemma NoProgressIffSameCounters(previous: Sample, current: Sample)
    requires Complete(DeriveActivity(previous, current)) && previous.socketsKnown
    ensures !Progress(DeriveActivity(previous, current)) <==> SameCounters(previous, current)
  {}

  /// All that a complete delta needs of its later sample.
  predicate Whole(s: Sample) { s.cpuKnown && s.ioKnown && s.filesKnown && s.socketsKnown }

  /// Two samples of one process, in order, all known, with no cumulative counter going backwards.
  predicate Comparable(a: Sample, b: Sample) {
    && a.key == b.key && a.taken != ZERO_TIME && a.taken < b.taken
    && a.cpuKnown && a.ioKnown && Whole(b)
    && a.cpuTime <= b.cpuTime && a.diskRead <= b.diskRead && a.diskWritten <= b.diskWritten
  }

  /// CPU time was used, bytes were read or written, or the sockets changed.
  predicate Moved(a: Sample, b: Sample) {
    a.cpuTime < b.cpuTime || a.diskRead < b.diskRead || a.diskWritten < b.diskWritten
    || (a.socketsKnown
        && (a.sockets != b.sockets || a.connectedSockets != b.connectedSockets
            || a.receiveQueue != b.receiveQueue || a.sendQueue != b.sendQueue))
  }

  /// A repository file is open for writing, or a socket is connected.
  predicate Holding(s: Sample) { s.writableRepositoryFiles > 0 || s.connectedSockets > 0 }

  /// Two samples of one process, the later one after the earlier.
  predicate InOrder(a: Sample, b: Sample) { a.key == b.key && a.taken != ZERO_TIME && a.taken < b.taken }

  /// Every field of a delta in terms of the two samples: each counter on its own, when both know it and it has
  /// not gone back.
  lemma DeltaExactly(a: Sample, b: Sample)
    ensures var d := DeriveActivity(a, b);
            && (d.cpuKnown <==> InOrder(a, b) && a.cpuKnown && b.cpuKnown && a.cpuTime <= b.cpuTime)
            && (d.ioKnown <==>
                 InOrder(a, b) && a.ioKnown && b.ioKnown && a.diskRead <= b.diskRead && a.diskWritten <= b.diskWritten)
            && (d.baselineOk <==> d.cpuKnown || d.ioKnown)
            && (d.networkChanged <==>
                 InOrder(a, b) && a.socketsKnown && b.socketsKnown
                 && (a.sockets != b.sockets || a.connectedSockets != b.connectedSockets
                     || a.receiveQueue != b.receiveQueue || a.sendQueue != b.sendQueue))
            && d.interval == (if InOrder(a, b) then b.taken - a.taken else 0)
            && d.cpuDelta == (if d.cpuKnown then b.cpuTime - a.cpuTime else 0)
            && d.cpuPercent * (b.taken - a.taken) as real ==
                 (if d.cpuKnown then 100.0 * (b.cpuTime - a.cpuTime) as real else 0.0)
            && d.diskRead == (if d.ioKnown then b.diskRead - a.diskRead else 0)
            && d.diskWritten == (if d.ioKnown then b.diskWritten - a.diskWritten else 0)
            && d.filesKnown == b.filesKnown && d.socketsKnown == b.socketsKnown
  {}

  /// A delta is complete exactly between comparable samples, and then shows progress exactly when something
  /// moved between them; what the later sample holds is passed on.
  lemma DeltaTellsSamples(previous: Sample, current: Sample)
    ensures var d := DeriveActivity(previous, current);
            && (Complete(d) <==> Comparable(previous, current))
            && (Comparable(previous, current) ==> (Progress(d) <==> Moved(previous, current)))
            && d.taken == current.taken && d.writableRepositoryFiles == current.writableRepositoryFiles
            && d.connectedSockets == current.connectedSockets
  {}
}
