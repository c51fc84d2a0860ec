/// The compaction of the whole database as the policy run sees it: on the decision rows a pass is exactly
/// the retention step between evaluations (internal/storage/retention.go; internal/storage/write.go;
/// internal/daemon/policy.go).

module RetainedDecisions {
  import opened Common
  import P = Policy
  import R = Retention

  /// A policy decision as retention sees its row.
  function RowOf(d: P.Decision): R.Row {
    R.Decision(d.id, d.evaluation, d.policy, d.key, d.at, d.result == P.Candidate, d.until)
  }

  function RowsOf(ds: seq<P.Decision>): (rows: seq<R.Row>)
    ensures |rows| == |ds| && forall i :: 0 <= i < |ds| ==> rows[i] == RowOf(ds[i])
  {
    seq(|ds|, i requires 0 <= i < |ds| => RowOf(ds[i]))
  }

  /// The rows of the decision table, in order.
  function DecisionRows(rows: seq<R.Row>): seq<R.Row> {
    if rows == [] then []
    else if rows[|rows| - 1].Decision? then DecisionRows(rows[..|rows| - 1]) + [rows[|rows| - 1]]
    else DecisionRows(rows[..|rows| - 1])
  }

  /// The database holds exactly these decisions, and this is its newest evaluation; there are no decisions
  /// before the first one.
  predicate Matches(db: R.Database, st: P.Store) {
    && DecisionRows(db) == RowsOf(st.decisions)
    && (R.NewestEvaluation(db) == Some(st.evaluation) || (R.NewestEvaluation(db) == None && st.decisions == []))
  }

  // ---------------------------------------------------------------------------------------------
  // A pass
  // ---------------------------------------------------------------------------------------------

  lemma RowAppended(rows: seq<R.Row>, r: R.Row)
    ensures DecisionRows(rows + [r]) == DecisionRows(rows) + if r.Decision? then [r] else []
  {
    assert (rows + [r])[..|rows|] == rows;
  }

  lemma {:induction false} OthersKeepDecisions(db: R.Database, s: R.Statement, rows: seq<R.Row>)
    requires !s.OldDecisions?
    ensures DecisionRows(R.Remaining(db, s, rows)) == DecisionRows(rows)
  {
    if rows != [] {
      var init, r := rows[..|rows| - 1], rows[|rows| - 1];
      OthersKeepDecisions(db, s, init);
      RowAppended(R.Remaining(db, s, init), r);
    }
  }

  /// The delete of old decisions leaves what the policy run keeps.
  lemma {:induction false} OldDecisionsAreCompacted(db: R.Database, rows: seq<R.Row>, ds: seq<P.Decision>, cutoff: Time,
                                                    now: Time, newest: nat)
    requires R.NewestEvaluation(db) == Some(newest) && DecisionRows(rows) == RowsOf(ds)
    ensures DecisionRows(R.Remaining(db, R.OldDecisions(cutoff, now), rows)) ==
        RowsOf(P.Compacted(ds, cutoff, now, newest))
  {
    if rows != [] {
      var s := R.OldDecisions(cutoff, now);
      var init, r := rows[..|rows| - 1], rows[|rows| - 1];
      var kept := R.Remaining(db, s, init);
      if r.Decision? {
        var n := |ds| - 1;
        assert RowsOf(ds)[..n] == RowsOf(ds[..n]) && RowsOf(ds)[n] == r;
        OldDecisionsAreCompacted(db, init, ds[..n], cutoff, now, newest);
        assert R.Doomed(db, s, r) <==> P.Expendable(ds[n], cutoff, now, newest);
        RowAppended(kept, r);
        assert RowsOf(P.Compacted(ds[..n], cutoff, now, newest) + [ds[n]]) ==
            RowsOf(P.Compacted(ds[..n], cutoff, now, newest)) + [r];
      } else {
        OldDecisionsAreCompacted(db, init, ds, cutoff, now, newest);
        RowAppended(kept, r);
      }
    }
  }

  lemma {:induction false} OthersKeepMatch(db: R.Database, steps: seq<R.Statement>, st: P.Store)
    requires Matches(db, st) && forall s :: s in steps ==> !s.OldDecisions?
    ensures Matches(R.Apply(db, steps), st)
    decreases |steps|
  {
    if steps != [] {
      var init, s := steps[..|steps| - 1], steps[|steps| - 1];
      assert s in steps && forall x :: x in init ==> x in steps;
      OthersKeepMatch(db, init, st);
      OthersKeepDecisions(R.Apply(db, init), s, R.Apply(db, init));
      R.NewestKept(R.Apply(db, init), s);
    }
  }

  lemma NothingToCompact(db: R.Database, cutoff: Time, now: Time)
    requires DecisionRows(db) == []
    ensures DecisionRows(R.Delete(db, R.OldDecisions(cutoff, now))) == []
  {
    NoDecisionRemains(db, R.OldDecisions(cutoff, now), db);
  }

  lemma {:induction false} NoDecisionRemains(db: R.Database, s: R.Statement, rows: seq<R.Row>)
    requires DecisionRows(rows) == []
    ensures DecisionRows(R.Remaining(db, s, rows)) == []
  {
    if rows != [] {
      var init, r := rows[..|rows| - 1], rows[|rows| - 1];
      NoDecisionRemains(db, s, init);
      RowAppended(R.Remaining(db, s, init), r);
    }
  }

  function Retained(st: P.Store, cutoff: Time, now: Time): P.Store {
    st.(decisions := P.Compacted(st.decisions, cutoff, now, st.evaluation))
  }

  lemma OneDeleteMatches(db: R.Database, st: P.Store, cutoff: Time, now: Time)
    requires Matches(db, st)
    ensures Matches(R.Delete(db, R.OldDecisions(cutoff, now)), Retained(st, cutoff, now))
  {
    R.NewestKept(db, R.OldDecisions(cutoff, now));
    if st.decisions == [] {
      NothingToCompact(db, cutoff, now);
    } else {
      OldDecisionsAreCompacted(db, db, st.decisions, cutoff, now, st.evaluation);
    }
  }

  predicate NoOldDecisions(steps: seq<R.Statement>) { forall s :: s in steps ==> !s.OldDecisions? }

  /// A pass has exactly one statement that touches decisions.
  lemma OneStatement(p: R.Limits, now: Time) returns (before: seq<R.Statement>, after: seq<R.Statement>)
    ensures R.Steps(p, now) == before + ([R.OldDecisions(R.Cutoff(now, p.decisions), now)] + after)
    ensures NoOldDecisions(before) && NoOldDecisions(after)
  {
    before, after := R.Opening(p, now)[..3], R.Steps(p, now)[4..];
  }

  lemma OneStepApplied(db: R.Database, s: R.Statement)
    ensures R.Apply(db, [s]) == R.Delete(db, s)
  {
    assert [s][..0] == [];
    assert R.Apply(db, []) == db;
  }

  lemma OneAmongOthers(db: R.Database, st: P.Store, before: seq<R.Statement>, after: seq<R.Statement>, cutoff: Time,
                       now: Time)
    requires Matches(db, st) && NoOldDecisions(before) && NoOldDecisions(after)
    ensures Matches(R.Apply(db, before + ([R.OldDecisions(cutoff, now)] + after)), Retained(st, cutoff, now))
  {
    var s := R.OldDecisions(cutoff, now);
    var middle := R.Apply(db, before);
    OthersKeepMatch(db, before, st);
    OneDeleteMatches(middle, st, cutoff, now);
    OneStepApplied(middle, s);
    OthersKeepMatch(R.Delete(middle, s), after, Retained(st, cutoff, now));
    R.ApplySplits(db, before, [s] + after);
    R.ApplySplits(middle, [s], after);
  }

  /// A whole pass over the database is one retention step of the policy run, whatever else it deletes.
  lemma PassIsRetentionStep(db: R.Database, w: P.World, p: R.Limits, now: Time)
    requires Matches(db, w.st)
    ensures Matches(R.CompactOnce(db, p, now), P.Step(w, P.Retained(R.Cutoff(now, p.decisions), now)).st)
  {
    var before, after := OneStatement(p, now);
    OneAmongOthers(db, w.st, before, after, R.Cutoff(now, p.decisions), now);
  }

  /// So is a compaction, with a second step at half the limits when the budget asks for it.
  lemma CompactionIsRetentionSteps(db: R.Database, w: P.World, p: R.Limits, now: Time, overBudget: bool)
    requires Matches(db, w.st)
    ensures var once := P.Step(w, P.Retained(R.Cutoff(now, p.decisions), now));
            var twice := P.Step(once, P.Retained(R.Cutoff(now, R.Halved(p).decisions), now));
            Matches(R.Compacted(db, p, now, overBudget), if overBudget then twice.st else once.st)
  {
    PassIsRetentionStep(db, w, p, now);
    if overBudget {
      PassIsRetentionStep(R.CompactOnce(db, p, now), P.Step(w, P.Retained(R.Cutoff(now, p.decisions), now)),
                          R.Halved(p), now);
    }
  }

  // ---------------------------------------------------------------------------------------------
  // What commits write
  // ---------------------------------------------------------------------------------------------

  lemma {:induction false} DecisionRowsAdd(rows: seq<R.Row>, more: seq<R.Row>)
    ensures DecisionRows(rows + more) == DecisionRows(rows) + DecisionRows(more)
  {
    if more == [] {
      assert rows + more == rows;
    } else {
      assert (rows + more)[..|rows + more| - 1] == rows + more[..|more| - 1];
      DecisionRowsAdd(rows, more[..|more| - 1]);
    }
  }

  lemma {:induction false} AllDecisions(rows: seq<R.Row>)
    requires forall i :: 0 <= i < |rows| ==> rows[i].Decision?
    ensures DecisionRows(rows) == rows
  {
    if rows != [] {
      var n := |rows| - 1;
      AllDecisions(rows[..n]);
      RowAppended(rows[..n], rows[n]);
      assert rows == rows[..n] + [rows[n]];
    }
  }

  lemma {:induction false} NewestStays(db: R.Database, more: seq<R.Row>)
    requires forall i :: 0 <= i < |more| ==> !more[i].Evaluation?
    ensures R.NewestEvaluation(db + more) == R.NewestEvaluation(db)
  {
    if more == [] {
      assert db + more == db;
    } else {
      assert (db + more)[..|db + more| - 1] == db + more[..|more| - 1];
      NewestStays(db, more[..|more| - 1]);
    }
  }

  lemma NewEvaluation(db: R.Database, id: nat, at: Time)
    requires R.NewestEvaluation(db).Some? ==> R.NewestEvaluation(db).value < id
    ensures R.NewestEvaluation(db + [R.Evaluation(id, at)]) == Some(id)
    ensures DecisionRows(db + [R.Evaluation(id, at)]) == DecisionRows(db)
  {
    assert (db + [R.Evaluation(id, at)])[..|db|] == db;
  }

  lemma RowsAreInserted(db: R.Database, batch: seq<P.Decision>)
    ensures DecisionRows(db + RowsOf(batch)) == DecisionRows(db) + RowsOf(batch)
    ensures R.NewestEvaluation(db + RowsOf(batch)) == R.NewestEvaluation(db)
  {
    DecisionRowsAdd(db, RowsOf(batch));
    AllDecisions(RowsOf(batch));
    NewestStays(db, RowsOf(batch));
  }

  lemma RowsOfAdd(ds: seq<P.Decision>, batch: seq<P.Decision>)
    ensures RowsOf(ds + batch) == RowsOf(ds) + RowsOf(batch)
  {}

  /// The transaction that commits an evaluation: its row under the next id, then the records of the batch.
  lemma EvaluationIsInserted(db: R.Database, w: P.World, e: P.Event, at: Time)
    requires Matches(db, w.st) && e.Evaluated?
    ensures Matches(db + [R.Evaluation(w.st.evaluation + 1, at)] + RowsOf(P.Batch(w.st, e.targets, e.policies)),
                    P.Step(w, e).st)
  {
    NewEvaluation(db, w.st.evaluation + 1, at);
    RowsAreInserted(db + [R.Evaluation(w.st.evaluation + 1, at)], P.Batch(w.st, e.targets, e.policies));
    RowsOfAdd(w.st.decisions, P.Batch(w.st, e.targets, e.policies));
  }

  /// The record of a failed evaluation.
  lemma FailureIsInserted(db: R.Database, w: P.World, at: Time)
    requires Matches(db, w.st)
    ensures Matches(db + [R.Evaluation(w.st.evaluation + 1, at)], P.Step(w, P.FailureRecorded).st)
  {
    NewEvaluation(db, w.st.evaluation + 1, at);
  }
}
