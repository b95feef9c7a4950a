/** Reconciling a run's counts, and declaring once per run what it covered. */
module RunCoverage {
  import opened Sequences

  datatype Plan = Plan(
    runId: string, orchestratorRunId: string, startDate: int, endDate: int, generatorVersion: string, seed: int,
    generatedAt: int)

  /** An object stored once; storing the same content again returns the first timestamp. */
  datatype Artifact = Artifact(uri: string, content: string, observedAt: int)

  datatype Status = Succeeded | SucceededWithQuarantine

  datatype ValidationCounts = ValidationCounts(accepted: nat, quarantined: nat, duplicates: nat)

  datatype LoadCounts = LoadCounts(inserted: int, reused: int, conflicts: int, tables: nat)

  datatype Summary = Summary(
    runId: string, orchestratorRunId: string, status: Status, raw: nat, validation: ValidationCounts,
    inserted: int, reused: int, tables: nat)

  datatype Imbalance = ValidationDoesNotBalance | LoaderConflicts | IcebergCountMismatch

  datatype Reconciliation = Reconciled(summary: Summary) | Unbalanced(why: Imbalance)

  function StatusOf(v: ValidationCounts): Status {
    if v.quarantined > 0 then SucceededWithQuarantine else Succeeded
  }

  /** The first check that fails decides. */
  function Reconcile(plan: Plan, raw: nat, v: ValidationCounts, l: LoadCounts): (r: Reconciliation)
    ensures r.Reconciled? <==>
      raw == v.accepted + v.quarantined + v.duplicates && l.conflicts == 0 && l.inserted + l.reused == v.accepted
    ensures r.Unbalanced? ==> (r.why.ValidationDoesNotBalance? <==> raw != v.accepted + v.quarantined + v.duplicates)
    ensures r.Reconciled? ==> r.summary.inserted == l.inserted && r.summary.reused == l.reused
  {
    if raw != v.accepted + v.quarantined + v.duplicates then Unbalanced(ValidationDoesNotBalance)
    else if l.conflicts != 0 then Unbalanced(LoaderConflicts)
    else if l.inserted + l.reused != v.accepted then Unbalanced(IcebergCountMismatch)
    else
      Reconciled(Summary(plan.runId, plan.orchestratorRunId, StatusOf(v), raw, v, l.inserted, l.reused, l.tables))
  }

  /** The canonical content of a coverage row; its SHA-256 is the content itself. */
  datatype Declaration = Declaration(
    runId: string, startDate: int, endDate: int, generatorVersion: string, seed: int, generatedAt: int,
    manifest: Artifact, status: Status, raw: nat, validation: ValidationCounts, reconciled: int, tables: nat)

  /** The rest of the row is lineage: who published it first, and on what evidence. */
  datatype Coverage = Coverage(payload: Declaration, firstOrchestratorRunId: string, reconciliation: Artifact)

  function CoverageFrom(plan: Plan, manifest: Artifact, s: Summary, reconciliation: Artifact): Option<Coverage> {
    if s.runId != plan.runId || plan.endDate < plan.startDate || s.inserted < 0 || s.reused < 0
       || s.raw != s.validation.accepted + s.validation.quarantined + s.validation.duplicates
       || s.inserted + s.reused != s.validation.accepted
    then None
    else
      Some(Coverage(Declaration(plan.runId, plan.startDate, plan.endDate, plan.generatorVersion, plan.seed,
                                plan.generatedAt, manifest, s.status, s.raw, s.validation, s.inserted + s.reused,
                                s.tables),
                    plan.orchestratorRunId, reconciliation))
  }

  /** The payload forgets which rows were inserted and which reused, and which attempt it was. */
  lemma ReplayDeclaresTheSame(
      first: Plan, again: Plan, manifest: Artifact, raw: nat, v: ValidationCounts, l: LoadCounts, m: LoadCounts,
      a: Artifact, b: Artifact)
    requires again == first.(orchestratorRunId := again.orchestratorRunId) && l.tables == m.tables
    requires Reconcile(first, raw, v, l).Reconciled? && Reconcile(again, raw, v, m).Reconciled?
    requires l.inserted >= 0 && l.reused >= 0 && m.inserted >= 0 && m.reused >= 0 && first.startDate <= first.endDate
    ensures var x := CoverageFrom(first, manifest, Reconcile(first, raw, v, l).summary, a);
      var y := CoverageFrom(again, manifest, Reconcile(again, raw, v, m).summary, b);
      x.Some? && y.Some? && x.value.payload == y.value.payload
  {
  }

  datatype Publication = Created | Reused | PayloadConflict | ContractError | Unanswered

  function Replayed(earlier: seq<Coverage>, record: Coverage): Publication
    requires earlier != []
  {
    if |earlier| > 1 then ContractError
    else if earlier[0].payload == record.payload then Reused
    else PayloadConflict
  }

  class BatchRunCoveragePublisher {
    /** The coverage table, by run; another publisher may add rows between statements. */
    var rows: map<string, seq<Coverage>>
    ghost var alone: bool
    /** Every statement so far was answered. */
    ghost var answered: bool

    constructor ()
      ensures rows == map[] && alone && answered
    {
      rows, alone, answered := map[], true, true;
    }

    function RowsFor(runId: string): seq<Coverage>
      reads this
    {
      if runId in rows then rows[runId] else []
    }

    method OtherPublishers()
      modifies this`rows, this`alone
      ensures forall id :: old(RowsFor(id)) <= RowsFor(id)
      ensures alone ==> old(alone) && rows == old(rows)
    {
      if * {
        var runId: string := *;
        var row: Coverage := *;
        rows := rows[runId := RowsFor(runId) + [row]];
        alone := false;
      }
    }

    /** The stored payload, if there is exactly one row; `ok` is false for duplicates or a lost answer. */
    method ExistingPayload(runId: string) returns (outcome: Option<Publication>, payload: Option<Declaration>)
      modifies this
      ensures forall id :: old(RowsFor(id)) <= RowsFor(id)
      ensures alone ==> old(alone) && rows == old(rows)
      ensures outcome in {None, Some(Unanswered), Some(ContractError)}
      ensures (answered ==> old(answered)) && (outcome == Some(Unanswered) ==> !answered)
      ensures outcome == Some(ContractError) ==> |RowsFor(runId)| > 1
      ensures outcome.None? ==> |RowsFor(runId)| <= 1
      ensures outcome.None? ==> payload == if RowsFor(runId) == [] then None else Some(RowsFor(runId)[0].payload)
    {
      OtherPublishers();
      if * {
        answered := false;
        return Some(Unanswered), None;
      }
      if |RowsFor(runId)| > 1 {
        return Some(ContractError), None;
      }
      return None, if RowsFor(runId) == [] then None else Some(RowsFor(runId)[0].payload);
    }

    /** MERGE ... WHEN NOT MATCHED THEN INSERT. */
    method Merge(record: Coverage) returns (ok: bool, updateCount: Option<int>)
      modifies this
      ensures (answered ==> old(answered)) && (ok || !answered)
      ensures forall id :: old(RowsFor(id)) <= RowsFor(id)
      ensures alone ==> old(alone)
      ensures alone ==>
        || rows == old(rows)
        || (old(RowsFor(record.payload.runId)) == [] && rows == old(rows)[record.payload.runId := [record]])
      ensures alone && ok && old(RowsFor(record.payload.runId)) == [] ==>
        rows == old(rows)[record.payload.runId := [record]] && updateCount in {None, Some(1)}
    {
      OtherPublishers();
      if * {
        answered := false;
        return false, None;
      }
      var runId := record.payload.runId;
      var absent := RowsFor(runId) == [];
      if absent {
        rows := rows[runId := [record]];
      }
      if * {
        answered := false;
        return false, None;
      }
      ok, updateCount := true, None;
      if * {
        updateCount := Some(if absent then 1 else 0);
      } else if * {
        var reported: int := *;
        updateCount := Some(reported);
        alone := false;
      }
    }

    /** Inserts once, accepts an exact replay, and rejects changed content; no row is ever changed. */
    method Publish(record: Coverage) returns (result: Publication)
      modifies this
      ensures forall id :: old(RowsFor(id)) <= RowsFor(id)
      ensures result.Created? || result.Reused? ==>
        |RowsFor(record.payload.runId)| == 1 && RowsFor(record.payload.runId)[0].payload == record.payload
      ensures (answered ==> old(answered)) && (result.Unanswered? ==> !answered)
      // By the only publisher: created once, then reused with its first lineage kept.
      ensures alone ==> old(alone)
      ensures alone && old(RowsFor(record.payload.runId)) == [] ==>
        result in {Created, Unanswered} && (result.Created? ==> rows == old(rows)[record.payload.runId := [record]])
      ensures alone && old(RowsFor(record.payload.runId)) != [] ==>
        rows == old(rows) && result in {Unanswered, Replayed(old(RowsFor(record.payload.runId)), record)}
    {
      var runId := record.payload.runId;
      var outcome, existing := ExistingPayload(runId);
      if outcome.Some? {
        return outcome.value;
      }
      if existing.Some? {
        return if existing.value == record.payload then Reused else PayloadConflict;
      }
      var ok, updateCount := Merge(record);
      if !ok {
        return Unanswered;
      }
      var committed;
      outcome, committed := ExistingPayload(runId);
      if outcome.Some? {
        return outcome.value;
      }
      if committed.None? {
        return ContractError;
      }
      if committed.value != record.payload {
        return PayloadConflict;
      }
      if updateCount !in {None, Some(0), Some(1)} {
        return ContractError;
      }
      return if updateCount == Some(0) then Reused else Created;
    }
  }
}
