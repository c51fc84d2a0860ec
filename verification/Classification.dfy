/// Turning one activity sample and the previous committed result into a state
/// (internal/classification/classification.go).

module Classification {
  import opened Common
  import opened ProcessTree
  import Activity

  datatype State = Active | Waiting | Idle | Suspicious | Hung | Crashed | Orphaned | Unknown

  const STRONG_CONCLUSION_WINDOW := 5 * MINUTE

  datatype Rule = KernelZombie | ActivityUnknown | ProgressObserved | LiveResourceWait | CompleteInactivity
                | PostSessionWork | StableOrphan | StableStopped | ObservedParentLoss

  /// The part of an activity record that the classifier reads.
  datatype Sampled = Sampled(
    taken: Time, baselineOk: bool, cpuPercent: real, cpuKnown: bool, diskRead: nat, diskWritten: nat, ioKnown: bool,
    writableRepositoryFiles: int, filesKnown: bool, connectedSockets: int, networkChanged: bool, socketsKnown: bool)

  datatype Previous = Previous(
    key: Key, basis: State, detached: bool, sessionEnded: bool, status: Status, stableSince: Time, sampledAt: Time)

  /// What the daemon's map yields for a process without a previous result; its basis is the empty string.
  const NO_PREVIOUS := Previous(Key(0, 0), Unknown, false, false, UnknownStatus, ZERO_TIME, ZERO_TIME)

  datatype Input = Input(
    key: Key, status: Status, detached: bool, sessionEnded: bool, activity: Sampled, previous: Previous, cadence: int)

  datatype Result =
      Result(state: State, basis: State, detached: bool, sessionEnded: bool, stableSince: Time, evidence: seq<Rule>)

  predicate Complete(a: Sampled) {
    a.taken != ZERO_TIME && a.baselineOk && a.cpuKnown && a.ioKnown && a.filesKnown && a.socketsKnown
  }

  function Basis(a: Sampled): (State, Rule) {
    if a.cpuPercent > 0.0 || a.diskRead > 0 || a.diskWritten > 0 || a.networkChanged then (Active, ProgressObserved)
    else if a.writableRepositoryFiles > 0 || a.connectedSockets > 0 then (Waiting, LiveResourceWait)
    else (Idle, CompleteInactivity)
  }

  predicate SameWindow(in_: Input) {
    var p := in_.previous;
    var gap := in_.activity.taken - p.sampledAt;
    && p.key == in_.key && p.stableSince != ZERO_TIME && p.basis != Unknown
    && p.basis == Basis(in_.activity).0 && p.detached == in_.detached
    && p.sessionEnded == in_.sessionEnded && p.status == in_.status
    && in_.cadence > 0 && 0 < gap <= 2 * in_.cadence
  }

  function ParentLoss(in_: Input, r: Result): Result {
    if r.detached then r.(evidence := r.evidence + [ObservedParentLoss]) else r
  }

  function Classify(in_: Input): Result {
    var taken := in_.activity.taken;
    var r := Result(Unknown, Unknown, in_.detached, in_.sessionEnded, taken, []);
    if in_.status == Zombie then ParentLoss(in_, r.(state := Crashed, basis := Crashed, evidence := [KernelZombie]))
    else if !Complete(in_.activity) then ParentLoss(in_, r.(evidence := [ActivityUnknown]))
    else
      var (basis, rule) := Basis(in_.activity);
      var since := if SameWindow(in_) then in_.previous.stableSince else taken;
      var stableFor := taken - since;
      var r := r.(state := basis, basis := basis, stableSince := since, evidence := [rule]);
      if in_.sessionEnded && in_.detached && (basis == Active || basis == Waiting) then
        ParentLoss(in_, r.(state := Suspicious, evidence := r.evidence + [PostSessionWork]))
      else if in_.sessionEnded && in_.detached && basis == Idle && stableFor >= STRONG_CONCLUSION_WINDOW then
        ParentLoss(in_, r.(state := Orphaned, evidence := r.evidence + [StableOrphan]))
      else if in_.status == Stopped && (basis == Idle || basis == Waiting) && stableFor >= STRONG_CONCLUSION_WINDOW then
        ParentLoss(in_, r.(state := Hung, evidence := r.evidence + [StableStopped]))
      else ParentLoss(in_, r)
  }

  /// The remembered result of this process is of the state `working` and `holding` stand for, in the same
  /// circumstances, and at most two cadences old.
  predicate Continued(in_: Input, working: bool, holding: bool) {
    && in_.previous.key == in_.key && in_.previous.stableSince != ZERO_TIME
    && in_.previous.basis == (if working then Active else if holding then Waiting else Idle)
    && in_.previous.detached == in_.detached && in_.previous.sessionEnded == in_.sessionEnded
    && in_.previous.status == in_.status
    && in_.cadence > 0 && in_.previous.sampledAt < in_.activity.taken <= in_.previous.sampledAt + 2 * in_.cadence
  }

  /// Every verdict of one sample, in terms of what was seen.
  lemma VerdictsExactly(in_: Input)
    ensures var a, state := in_.activity, Classify(in_).state;
            var known := a.taken != ZERO_TIME && a.baselineOk && a.cpuKnown && a.ioKnown && a.filesKnown
                         && a.socketsKnown && in_.status != Zombie;
            var working := a.cpuPercent > 0.0 || a.diskRead > 0 || a.diskWritten > 0 || a.networkChanged;
            var holding := a.writableRepositoryFiles > 0 || a.connectedSockets > 0;
            var abandoned := in_.detached && in_.sessionEnded;
            var lasting := !working && Continued(in_, false, holding)
                && a.taken - in_.previous.stableSince >= 5 * MINUTE;
            && (state == Crashed <==> in_.status == Zombie)
            && (state == Unknown <==> in_.status != Zombie && !known)
            && (state == Suspicious <==> known && abandoned && (working || holding))
            && (state == Active <==> known && !abandoned && working)
            && (state == Orphaned <==> known && abandoned && !working && !holding && lasting)
            && (state == Hung <==> known && !abandoned && in_.status == Stopped && lasting)
            && (state == Waiting <==> known && !abandoned && !working && holding && !(in_.status == Stopped && lasting))
            && (state == Idle <==>
                known && !working && !holding && !(lasting && (abandoned || in_.status == Stopped)))
  {}

  /// What is remembered of the sample: the state before circumstances and duration are weighed, and since when.
  lemma RememberedExactly(in_: Input)
    ensures var a, r := in_.activity, Classify(in_);
            var known := a.taken != ZERO_TIME && a.baselineOk && a.cpuKnown && a.ioKnown && a.filesKnown
                         && a.socketsKnown && in_.status != Zombie;
            var working := a.cpuPercent > 0.0 || a.diskRead > 0 || a.diskWritten > 0 || a.networkChanged;
            var holding := a.writableRepositoryFiles > 0 || a.connectedSockets > 0;
            && (r.basis == Crashed <==> in_.status == Zombie)
            && (r.basis == Unknown <==> in_.status != Zombie && !known)
            && (r.basis == Active <==> known && working)
            && (r.basis == Waiting <==> known && !working && holding)
            && (r.basis == Idle <==> known && !working && !holding)
            && r.detached == in_.detached && r.sessionEnded == in_.sessionEnded
            && r.stableSince == if known && Continued(in_, working, holding) then in_.previous.stableSince else a.taken
  {}

  /// The evidence names the rule of the basis state, the rule of a stronger conclusion, and parent loss.
  lemma EvidenceExactly(in_: Input)
    ensures var r := Classify(in_);
            r.evidence ==
              [match r.basis
               case Crashed => KernelZombie
               case Active => ProgressObserved
               case Waiting => LiveResourceWait
               case Idle => CompleteInactivity
               case _ => ActivityUnknown]
              + (match r.state
                 case Suspicious => [PostSessionWork]
                 case Orphaned => [StableOrphan]
                 case Hung => [StableStopped]
                 case _ => [])
              + (if in_.detached then [ObservedParentLoss] else [])
  {}

  /// An orphaned conclusion, in terms of one sample and the window it extends; no other input reaches it.
  lemma OrphanedExactly(in_: Input)
    ensures Classify(in_).state == Orphaned <==>
            && in_.status != Zombie && Complete(in_.activity) && Basis(in_.activity).0 == Idle
            && in_.detached && in_.sessionEnded
            && SameWindow(in_) && in_.activity.taken - in_.previous.stableSince >= STRONG_CONCLUSION_WINDOW
  {}

  /// Likewise for a hung conclusion; a process that is orphaned is never also reported hung.
  lemma HungExactly(in_: Input)
    ensures Classify(in_).state == Hung <==>
            && in_.status == Stopped && Complete(in_.activity) && Basis(in_.activity).0 in {Idle, Waiting}
            && !(in_.detached && in_.sessionEnded)
            && SameWindow(in_) && in_.activity.taken - in_.previous.stableSince >= STRONG_CONCLUSION_WINDOW
  {}
}
