/** The insert-only loader: checks, merges and confirms one chunk after the other. */
module IcebergLoaders {
  import opened Sequences
  import opened Loading
  import opened LoadResults
  import opened LoaderPasses
  import opened ConflictDetails
  import opened LoadRuns

  datatype Halt = Stopped | MalformedRecord | DuplicateRows | AbsentAfterMerge | BadUpdateCount

  datatype LoadResult = Completed(totals: Totals) | Halted(reason: Halt)

  /** Rows are only ever added. */
  ghost predicate Grows(a: Table, b: Table) {
    forall id :: RowsOf(a, id) <= RowsOf(b, id)
  }

  predicate Repeats(rows: seq<Stored>) {
    |PayloadsOf(rows)| != |rows|
  }

  predicate AllWellFormed(rs: seq<Record>) {
    forall r :: r in rs ==> r.wellFormed
  }

  ghost predicate HasRepeats(t: Table) {
    exists id :: Repeats(RowsOf(t, id))
  }

  function Accounted(totals: Totals): int {
    totals.inserted + totals.skipped + totals.log.records
  }

  /** The totals once every new identity has been inserted and confirmed. */
  function Inserted(totals: Totals, c: seq<Record>, newIds: seq<Identity>): Totals {
    totals.(planned := totals.planned + |newIds|, inserted := totals.inserted + |newIds|,
            skipped := totals.skipped + Total(c, newIds) - |newIds|)
  }

  /** The input and chunk counters stand still and the conflict log stays sound. */
  ghost predicate Steady(before: Totals, after: Totals, limit: nat) {
    after.input == before.input && after.chunks == before.chunks && Sound(after.log, limit)
  }

  ghost predicate AllConfirmed(confirmed: Known, c: seq<Record>, newIds: seq<Identity>) {
    forall id :: id in newIds ==> Hashes(confirmed, id) == Payloads(c, id)
  }

  lemma NoneAbsent(confirmed: Known, c: seq<Record>, newIds: seq<Identity>, grouped: map<Identity, seq<Record>>)
    requires Candidates(c, newIds, grouped) && AllConfirmed(confirmed, c, newIds)
    ensures forall id :: id in newIds ==> Hashes(confirmed, id) != {}
  {
    forall id | id in newIds ensures Hashes(confirmed, id) != {} {
      SomePayload(c, id);
    }
  }

  ghost predicate Unknown(t: Table, ids: seq<Identity>) {
    forall id :: id in ids ==> id !in t
  }

  lemma NewRowsAgree(t: Table, c: seq<Record>, newIds: seq<Identity>, grouped: map<Identity, seq<Record>>)
    requires Candidates(c, newIds, grouped) && Elements(newIds) <= Identities(c) && Unknown(t, newIds)
    ensures AllConfirmed(KnownOf(Merged(t, c, Elements(newIds))), c, newIds) && Distinct(newIds)
    ensures HasRepeats(Merged(t, c, Elements(newIds))) ==> HasRepeats(t)
    ensures Merged(t, c, Elements(newIds)).Keys == t.Keys + Elements(newIds)
  {
    MergedRows(t, c, newIds);
  }

  lemma {:induction false} PlanningIsSteady(before: Totals, after: Totals, c: seq<Record>, ids: seq<Identity>,
      limit: nat)
    requires after == before.(planned := before.planned + |ids|) && Sound(before.log, limit)
    ensures Steady(before, after, limit) && Accounted(after) == Accounted(before)
    ensures forall later :: Steady(after, later, limit) ==> Steady(before, later, limit)
    ensures Inserted(after, c, ids).(planned := after.planned) == Inserted(before, c, ids)
    ensures ids == [] ==> after == Inserted(before, c, ids) && Total(c, ids) == 0
  {
  }

  lemma NothingToMerge(t: Table, c: seq<Record>)
    ensures Merged(t, c, {}) == t && Grows(t, t)
  {
    SameTable(Merged(t, c, {}), t);
  }

  lemma MergeGrows(t: Table, c: seq<Record>, ids: set<Identity>)
    requires ids <= Identities(c)
    ensures Grows(t, Merged(t, c, ids))
  {
  }

  lemma GrowsTwice(a: Table, b: Table, c: Table)
    requires Grows(a, b) && Grows(b, c)
    ensures Grows(a, c)
  {
    forall id ensures RowsOf(a, id) <= RowsOf(c, id) {
      assert RowsOf(a, id) <= RowsOf(b, id) && RowsOf(b, id) <= RowsOf(c, id);
    }
  }

  lemma {:induction false} NewIdsAreCandidates(known: Known, c: seq<Record>, grouped: map<Identity, seq<Record>>)
    requires Groups(c, Order(c), grouped)
    ensures Candidates(c, Agreed(c, Order(c)), grouped) && Candidates(c, NewIds(known, c), grouped)
    ensures Elements(NewIds(known, c)) <= Identities(c)
  {
    OrderListsEachOnce(c);
    assert forall id :: id in Order(c) <==> id in Elements(Order(c));
    AgreedIsDistinct(c, Order(c));
    FreshIsDistinct(known, Agreed(c, Order(c)));
  }

  lemma MergedRow(t: Table, c: seq<Record>, ids: seq<Identity>, id: Identity)
    requires Elements(ids) <= Identities(c)
    requires forall other :: other in ids ==> other !in t && !Contradictory(c, other)
    ensures id in ids ==>
      Hashes(KnownOf(Merged(t, c, Elements(ids))), id) == Payloads(c, id) &&
        !Repeats(RowsOf(Merged(t, c, Elements(ids)), id))
    ensures id !in ids ==> RowsOf(Merged(t, c, Elements(ids)), id) == RowsOf(t, id)
  {
    assert id in ids <==> id in Elements(ids);
    if id in ids {
      SamePayloads(c, id);
      assert PayloadsOf([RowFor(c, id)]) == {RowFor(c, id).payload};
    }
  }

  lemma MergedRows(t: Table, c: seq<Record>, ids: seq<Identity>)
    requires Elements(ids) <= Identities(c)
    requires forall id :: id in ids ==> id !in t && !Contradictory(c, id)
    ensures forall id :: id in ids ==> Hashes(KnownOf(Merged(t, c, Elements(ids))), id) == Payloads(c, id)
    ensures HasRepeats(Merged(t, c, Elements(ids))) ==> HasRepeats(t)
  {
    forall id ensures id in ids ==> Hashes(KnownOf(Merged(t, c, Elements(ids))), id) == Payloads(c, id) {
      MergedRow(t, c, ids, id);
    }
    if id :| Repeats(RowsOf(Merged(t, c, Elements(ids)), id)) {
      MergedRow(t, c, ids, id);
    }
  }

  function Both(a: Table, b: Table): (all: Table)
    ensures Grows(a, all)
  {
    var all: map<Identity, seq<Stored>> := map id | id in a.Keys + b.Keys :: RowsOf(a, id) + RowsOf(b, id);
    assert forall id :: id in all ==> (id in a ==> a[id] != []) && (id in b ==> b[id] != []);
    all
  }

  class TrinoIcebergLoader {
    const chunkSize: nat
    const conflictDetailLimit: nat
    /** The target table, which other writers may add rows to between any two statements. */
    var table: Table
    /** No other writer has added a row, and every reported row count was right. */
    ghost var alone: bool
    /** Every statement so far was answered. */
    ghost var answered: bool

    constructor (chunkSize: nat, conflictDetailLimit: nat, table: Table)
      requires 1 <= chunkSize <= 5000
      ensures this.chunkSize == chunkSize && this.conflictDetailLimit == conflictDetailLimit
      ensures this.table == table && alone && answered
    {
      this.chunkSize, this.conflictDetailLimit, this.table := chunkSize, conflictDetailLimit, table;
      alone, answered := true, true;
    }

    method OtherWriters()
      modifies this`table, this`alone
      ensures Grows(old(table), table)
      ensures alone ==> old(alone) && table == old(table)
    {
      if * {
        var more: Table := *;
        table := Both(table, more);
        alone := false;
      }
    }

    /** SELECT of the identity and payload hashes stored for `ids`. */
    method ExistingPayloadHashes(ids: seq<Identity>) returns (halt: Option<Halt>, existing: Known)
      modifies this`table, this`alone, this`answered
      ensures (answered ==> old(answered)) && (halt == Some(Stopped) ==> !answered)
      ensures Grows(old(table), table)
      ensures alone ==> old(alone) && table == old(table)
      ensures halt in {None, Some(Stopped), Some(DuplicateRows)}
      ensures halt.None? ==> forall id :: id in ids ==> Hashes(existing, id) == Hashes(KnownOf(table), id)
      ensures halt == Some(DuplicateRows) ==> HasRepeats(table)
    {
      existing := map[];
      if ids == [] {
        return None, existing;
      }
      OtherWriters();
      if * {
        answered := false;
        return Some(Stopped), existing;
      }
      if exists id :: id in ids && Repeats(RowsOf(table, id)) {
        return Some(DuplicateRows), existing;
      }
      existing := map id | id in ids && id in table :: PayloadsOf(table[id]);
      return None, existing;
    }

    /** One MERGE. Its effect and its answer may be lost; the row count may be missing. */
    method Merge(c: seq<Record>, ids: seq<Identity>) returns (ok: bool, updateCount: Option<int>)
      requires Elements(ids) <= Identities(c)
      modifies this`table, this`alone, this`answered
      ensures (answered ==> old(answered)) && (ok || !answered)
      ensures Grows(old(table), table)
      ensures alone ==> old(alone) && table in {old(table), Merged(old(table), c, Elements(ids))}
      ensures alone && ok ==>
        && table == Merged(old(table), c, Elements(ids))
        && updateCount in {None, Some(|table.Keys| - |old(table).Keys|)}
    {
      hide *;
      OtherWriters();
      if * {
        answered := false;
        return false, None;
      }
      MergeGrows(table, c, Elements(ids));
      GrowsTwice(old(table), table, Merged(table, c, Elements(ids)));
      var before := |table.Keys|;
      table := Merged(table, c, Elements(ids));
      if * {
        answered := false;
        return false, None;
      }
      ok, updateCount := true, None;
      if * {
        updateCount := Some(|table.Keys| - before);
      } else if * {
        var reported: int := *;
        updateCount := Some(reported);
        alone := false;
      }
    }

    /** Merges the new identities and reads back what is stored for them. */
    method MergeThenRead(c: seq<Record>, newIds: seq<Identity>, ghost grouped: map<Identity, seq<Record>>)
        returns (halt: Option<Halt>, updateCount: Option<int>, confirmed: Known)
      requires newIds != [] && Candidates(c, newIds, grouped) && Elements(newIds) <= Identities(c) &&
        Unknown(table, newIds)
      modifies this`table, this`alone, this`answered
      ensures (answered ==> old(answered)) && (halt == Some(Stopped) ==> !answered)
      ensures Grows(old(table), table) && (alone ==> old(alone))
      ensures alone ==> table in {old(table), Merged(old(table), c, Elements(newIds))}
      ensures alone && halt.None? ==> table == Merged(old(table), c, Elements(newIds))
      ensures alone && halt.None? ==>
        && updateCount in {None, Some(|newIds|)}
        && AllConfirmed(confirmed, c, newIds)
      ensures alone && halt.Some? ==>
        halt.value == Stopped || (halt.value == DuplicateRows && HasRepeats(old(table)))
      ensures halt != Some(MalformedRecord)
    {
      hide Grows, Sound, RowsOf, Merged, Repeats, Contradictory;
      ghost var start := table;
      confirmed := map[];
      var ok;
      ok, updateCount := Merge(c, newIds);
      ghost var merged := table;
      if !ok {
        return Some(Stopped), updateCount, confirmed;
      }
      NewRowsAgree(start, c, newIds, grouped);
      NewKeys(start, newIds);
      halt, confirmed := ExistingPayloadHashes(newIds);
      GrowsTwice(start, merged, table);
    }

    /** Counts the confirmed rows of the new identities, and logs those another writer stored differently. */
    method CountConfirmed(
        c: seq<Record>, newIds: seq<Identity>, grouped: map<Identity, seq<Record>>,
        confirmed: Known, updateCount: Option<int>, acc: LoadAccumulator)
        returns (halt: Option<Halt>)
      requires Candidates(c, newIds, grouped) && Sound(acc.ConflictLog(), conflictDetailLimit)
      modifies acc
      ensures halt.None? ==> Accounted(acc.Totals()) == Accounted(old(acc.Totals())) + Total(c, newIds)
      ensures halt.None? ==> Steady(old(acc.Totals()), acc.Totals(), conflictDetailLimit)
      ensures AllConfirmed(confirmed, c, newIds) && updateCount in {None, Some(|newIds|)} ==>
        halt.None? && acc.Totals() == Inserted(old(acc.Totals()), c, newIds).(planned := old(acc.planned))
      ensures halt in {None, Some(AbsentAfterMerge), Some(BadUpdateCount)}
    {
      hide Candidates, Unknown, Named;
      if AllConfirmed(confirmed, c, newIds) {
        AllExact(confirmed, c, newIds);
        NoneAbsent(confirmed, c, newIds, grouped);
      }
      LoggingIsSound(acc.ConflictLog(), Clashes(confirmed, c, newIds), conflictDetailLimit);
      var complete, exact := ConfirmWritten(c, newIds, grouped, confirmed, acc, conflictDetailLimit);
      if !complete {
        return Some(AbsentAfterMerge);
      }
      if updateCount.Some? && (updateCount.value < 0 || updateCount.value > |exact|) {
        return Some(BadUpdateCount);
      }
      var inserted := if updateCount.None? then |exact| else updateCount.value;
      acc.inserted := acc.inserted + inserted;
      acc.skipped := acc.skipped + Total(c, exact) - inserted;
      return None;
    }

    method MergeAndCount(
        c: seq<Record>, newIds: seq<Identity>, grouped: map<Identity, seq<Record>>, acc: LoadAccumulator)
        returns (halt: Option<Halt>)
      requires Candidates(c, newIds, grouped) && Elements(newIds) <= Identities(c)
      requires Sound(acc.ConflictLog(), conflictDetailLimit) && Unknown(table, newIds)
      modifies this`table, this`alone, this`answered, acc
      ensures (answered ==> old(answered)) && (halt == Some(Stopped) ==> !answered)
      ensures Grows(old(table), table) && (alone ==> old(alone))
      ensures halt.None? ==> Accounted(acc.Totals()) == Accounted(old(acc.Totals())) + Total(c, newIds)
      ensures halt.None? ==> Steady(old(acc.Totals()), acc.Totals(), conflictDetailLimit)
      ensures alone ==> table in {old(table), Merged(old(table), c, Elements(newIds))}
      ensures alone && halt.None? ==> table == Merged(old(table), c, Elements(newIds))
      ensures alone && halt.None? ==> acc.Totals() == Inserted(old(acc.Totals()), c, newIds)
      ensures alone && halt.Some? ==> halt.value == Stopped || (halt.value == DuplicateRows && HasRepeats(old(table)))
      ensures halt != Some(MalformedRecord)
    {
      hide Candidates, AllConfirmed, Grows, HasRepeats, Sound, Unknown, Steady, Accounted, Inserted, Merged, Total;
      ghost var before := acc.Totals();
      acc.planned := acc.planned + |newIds|;
      PlanningIsSteady(before, acc.Totals(), c, newIds, conflictDetailLimit);
      if newIds == [] {
        NothingToMerge(table, c);
        return None;
      }
      var updateCount, confirmed;
      halt, updateCount, confirmed := MergeThenRead(c, newIds, grouped);
      if halt.Some? {
        return;
      }
      halt := CountConfirmed(c, newIds, grouped, confirmed, updateCount, acc);
    }

    /** Reads what is stored for the candidates and leaves the unknown ones to the MERGE. */
    method ReadAndCompare(
        c: seq<Record>, candidates: seq<Identity>, grouped: map<Identity, seq<Record>>, acc: LoadAccumulator)
        returns (halt: Option<Halt>, newIds: seq<Identity>)
      requires Groups(c, Order(c), grouped) && candidates == Agreed(c, Order(c))
      requires Sound(acc.ConflictLog(), conflictDetailLimit)
      modifies this`table, this`alone, this`answered, acc
      ensures (answered ==> old(answered)) && (halt == Some(Stopped) ==> !answered)
      ensures Grows(old(table), table) && (alone ==> old(alone) && table == old(table))
      ensures halt.None? ==> Candidates(c, newIds, grouped) && Elements(newIds) <= Identities(c)
      ensures halt.None? ==>
        Accounted(acc.Totals()) == Accounted(old(acc.Totals())) + Total(c, candidates) - Total(c, newIds)
      ensures halt.None? ==> Steady(old(acc.Totals()), acc.Totals(), conflictDetailLimit)
      ensures halt.None? ==> Unknown(table, newIds)
      ensures alone && halt.None? ==>
        && newIds == NewIds(KnownOf(table), c)
        && acc.Totals() == Compared(old(acc.Totals()), KnownOf(table), c, candidates, conflictDetailLimit)
      ensures halt.Some? ==> halt.value == Stopped || (halt.value == DuplicateRows && HasRepeats(table))
      ensures halt != Some(MalformedRecord)
    {
      ghost var before := acc.Totals();
      newIds := [];
      var existing;
      halt, existing := ExistingPayloadHashes(candidates);
      if halt.Some? {
        return;
      }
      NewIdsAreCandidates(existing, c, grouped);
      newIds := CompareWithExisting(c, candidates, grouped, existing, acc, conflictDetailLimit);
      ComparedIsAccounted(before, existing, c, candidates, conflictDetailLimit);
      ComparedFollowsContents(before, existing, KnownOf(table), c, candidates, conflictDetailLimit);
      FreshFollowsContents(existing, KnownOf(table), candidates);
    }

    method LoadLive(
        c: seq<Record>, candidates: seq<Identity>, grouped: map<Identity, seq<Record>>, acc: LoadAccumulator)
        returns (halt: Option<Halt>)
      requires Groups(c, Order(c), grouped) && candidates == Agreed(c, Order(c))
      requires Sound(acc.ConflictLog(), conflictDetailLimit)
      modifies this`table, this`alone, this`answered, acc
      ensures (answered ==> old(answered)) && (halt == Some(Stopped) ==> !answered)
      ensures Grows(old(table), table) && (alone ==> old(alone))
      ensures halt.None? ==> Accounted(acc.Totals()) == Accounted(old(acc.Totals())) + Total(c, candidates)
      ensures halt.None? ==> Steady(old(acc.Totals()), acc.Totals(), conflictDetailLimit)
      ensures alone ==> table in {old(table), AfterChunk(old(table), c)}
      ensures alone && halt.None? ==> table == AfterChunk(old(table), c)
      ensures alone && halt.None? ==>
        acc.Totals() == LiveTotals(old(acc.Totals()), KnownOf(old(table)), c, conflictDetailLimit)
      ensures alone && halt.Some? ==> halt.value == Stopped || (halt.value == DuplicateRows && HasRepeats(old(table)))
      ensures halt != Some(MalformedRecord)
    {
      ghost var start := table;
      var newIds;
      halt, newIds := ReadAndCompare(c, candidates, grouped, acc);
      if halt.Some? {
        return;
      }
      ghost var read := table;
      halt := MergeAndCount(c, newIds, grouped, acc);
      GrowsTwice(start, read, table);
    }

    method PlanChunk(
        c: seq<Record>, candidates: seq<Identity>, grouped: map<Identity, seq<Record>>,
        acc: LoadAccumulator, dryRunSeen: map<Identity, Payload>, ghost before: Totals)
        returns (seen: map<Identity, Payload>)
      requires Groups(c, Order(c), grouped) && candidates == Agreed(c, Order(c))
      requires acc.Totals() == Contradicted(before, c, conflictDetailLimit)
      modifies acc
      ensures SeenAs(seen) == Learned(SeenAs(dryRunSeen), c)
      ensures acc.Totals() ==
        ChunkStep(before, SeenAs(dryRunSeen), c, conflictDetailLimit).(inserted := before.inserted)
    {
      NewIdsAreCandidates(map[], c, grouped);
      seen := PlanDryRun(c, candidates, grouped, acc, conflictDetailLimit, dryRunSeen, SeenAs(dryRunSeen));
      DryChunkIsStep(before, SeenAs(dryRunSeen), c, conflictDetailLimit);
    }

    /** One chunk, live or dry; a dry run compares it with what the run has seen so far. */
    method LoadChunk(
        c: seq<Record>, acc: LoadAccumulator, dryRun: bool, dryRunSeen: map<Identity, Payload>)
        returns (halt: Option<Halt>, seen: map<Identity, Payload>)
      requires Sound(acc.ConflictLog(), conflictDetailLimit)
      modifies this`table, this`alone, this`answered, acc
      ensures (answered ==> old(answered)) && (halt == Some(Stopped) ==> !answered)
      ensures Grows(old(table), table) && (alone ==> old(alone))
      ensures halt.None? ==> Steady(old(acc.Totals()), acc.Totals(), conflictDetailLimit)
      ensures dryRun ==> halt.None? && table == old(table) && alone == old(alone) && answered == old(answered)
      ensures dryRun ==> SeenAs(seen) == Learned(SeenAs(dryRunSeen), c)
      ensures dryRun ==> acc.Totals() == PlannedStep(old(acc.Totals()), SeenAs(dryRunSeen), c, conflictDetailLimit)
      ensures !dryRun && halt.None? ==> Accounted(acc.Totals()) == Accounted(old(acc.Totals())) + |c|
      ensures !dryRun && alone ==> table in {old(table), AfterChunk(old(table), c)}
      ensures !dryRun && alone && halt.None? ==> table == AfterChunk(old(table), c)
      ensures !dryRun && alone && halt.None? ==>
        acc.Totals() == ChunkStep(old(acc.Totals()), KnownOf(old(table)), c, conflictDetailLimit)
      ensures alone && halt.Some? ==> halt.value == Stopped || (halt.value == DuplicateRows && HasRepeats(old(table)))
      ensures halt != Some(MalformedRecord)
    {
      ghost var before, start := acc.Totals(), table;
      var order, grouped := GroupByIdentity(c);
      OrderKeys(c, grouped);
      var candidates := SplitCandidates(c, order, grouped, acc, conflictDetailLimit);
      LoggingIsSound(before.log, Contradictions(c, order), conflictDetailLimit);
      halt, seen := None, dryRunSeen;
      if dryRun {
        seen := PlanChunk(c, candidates, grouped, acc, dryRunSeen, before);
        StepStaysSound(before, SeenAs(dryRunSeen), c, conflictDetailLimit);
        return;
      }
      halt := LoadLive(c, candidates, grouped, acc);
      LiveTotalsAreStep(before, KnownOf(start), c, conflictDetailLimit);
      ContradictedIsAccounted(before, c, conflictDetailLimit);
    }

    /**
      Loads records in chunks without ever updating a row. Wherever it stops, the only writer's
      table holds a number of whole chunks; other writers can change counts but not their sum.
     */
    method LoadRecords(records: seq<Record>, dryRun: bool) returns (result: LoadResult)
      requires chunkSize > 0
      modifies this`table, this`alone, this`answered
      ensures (answered ==> old(answered)) && (result == Halted(Stopped) ==> !answered)
      ensures Grows(old(table), table) && (alone ==> old(alone))
      // Every completed load accounts for every record, whoever else was writing.
      ensures result.Completed? ==>
        && Sound(result.totals.log, conflictDetailLimit)
        && result.totals.input == |records| && result.totals.chunks == |Chunks(records, chunkSize)|
        && |records| == result.totals.skipped + result.totals.log.records
          + if dryRun then result.totals.planned else result.totals.inserted
      // A dry run is a live run into an empty table that writes nothing.
      ensures dryRun ==> table == old(table) && alone == old(alone) && answered == old(answered)
      ensures dryRun && result.Completed? ==>
        result.totals == LoadAll(NOTHING_YET, map[], Chunks(records, chunkSize), conflictDetailLimit).(inserted := 0)
      // A live run by the only writer.
      ensures !dryRun && alone && result.Completed? ==>
        && result.totals == LoadAll(NOTHING_YET, KnownOf(old(table)), Chunks(records, chunkSize), conflictDetailLimit)
        && table == TableAfter(old(table), Chunks(records, chunkSize))
      ensures !dryRun && alone ==> Reached(old(table), table, Chunks(records, chunkSize))
      // What each detail of its conflict log says.
      ensures result.Completed? && (dryRun || alone) ==> forall e :: e in result.totals.log.details ==>
        TellsOfSome(e, if dryRun then map[] else old(table), Chunks(records, chunkSize))
      ensures result == Halted(MalformedRecord) ==> exists r :: r in records && !r.wellFormed
      ensures result.Completed? ==> AllWellFormed(records)
      ensures dryRun && result.Halted? ==> result.reason == MalformedRecord
      ensures !dryRun && alone && result.Halted? ==>
        result.reason in {Stopped, MalformedRecord} || (result.reason == DuplicateRows && HasRepeats(old(table)))
      // A load whose statements are answered completes exactly when every record is well formed.
      ensures dryRun || (alone && answered && !HasRepeats(old(table))) ==>
        (result.Completed? <==> AllWellFormed(records))
    {
      var chunks := SplitIntoChunks(records, chunkSize);
      ChunksPartition(records, chunkSize);
      var halt, totals, _ := LoadChunks(chunks, dryRun);
      if halt.Some? {
        return Halted(halt.value);
      }
      if dryRun {
        LoadAccountsForEveryRecord(NOTHING_YET, map[], chunks, conflictDetailLimit);
      }
      assert chunks == chunks[..|chunks|];
      forall e | e in totals.log.details && (dryRun || alone)
        ensures TellsOfSome(e, if dryRun then map[] else old(table), chunks)
      {
        DetailsTell(if dryRun then map[] else old(table), chunks, conflictDetailLimit, e);
      }
      return Completed(totals);
    }

    method LoadChunks(chunks: seq<seq<Record>>, dryRun: bool)
        returns (halt: Option<Halt>, totals: Totals, seen: map<Identity, Payload>)
      modifies this`table, this`alone, this`answered
      ensures (answered ==> old(answered)) && (halt == Some(Stopped) ==> !answered)
      ensures Grows(old(table), table) && (alone ==> old(alone))
      ensures halt.None? ==> Counted(totals, chunks, dryRun, conflictDetailLimit)
      ensures dryRun ==> table == old(table) && alone == old(alone) && answered == old(answered)
      ensures dryRun && halt.None? ==> Simulated(totals, SeenAs(seen), chunks, conflictDetailLimit)
      ensures !dryRun && alone && halt.None? ==> Loaded(totals, old(table), table, chunks, conflictDetailLimit)
      ensures halt.Some? ==> Halts(halt.value, old(table), table, chunks, !dryRun && alone)
      ensures dryRun ==> halt in {None, Some(MalformedRecord)}
    {
      hide *;
      var acc := new LoadAccumulator();
      halt, seen, totals := None, map[], acc.Totals();
      ghost var start := table;
      assert chunks[..0] == [];
      NothingLoadedYet(start, dryRun, conflictDetailLimit);
      for i := 0 to |chunks|
        invariant fresh(acc) && halt.None? && Counted(acc.Totals(), chunks[..i], dryRun, conflictDetailLimit)
        invariant Grows(start, table) && (alone ==> old(alone)) && (answered ==> old(answered))
        invariant dryRun ==> table == start && alone == old(alone) && answered == old(answered)
        invariant dryRun ==> Simulated(acc.Totals(), SeenAs(seen), chunks[..i], conflictDetailLimit)
        invariant !dryRun && alone ==> Loaded(acc.Totals(), start, table, chunks[..i], conflictDetailLimit)
      {
        ghost var before := table;
        halt, seen := LoadNext(chunks, i, acc, dryRun, seen, start);
        GrowsTwice(start, before, table);
        if halt.Some? {
          return;
        }
      }
      assert chunks[..|chunks|] == chunks;
      totals := acc.Totals();
    }

    /** One turn of the loading loop: every record of the chunk is checked before any is written. */
    method LoadNext(
        chunks: seq<seq<Record>>, i: nat, acc: LoadAccumulator, dryRun: bool,
        dryRunSeen: map<Identity, Payload>, ghost start: Table)
        returns (halt: Option<Halt>, seen: map<Identity, Payload>)
      requires i < |chunks| && Counted(acc.Totals(), chunks[..i], dryRun, conflictDetailLimit)
      requires dryRun ==> Simulated(acc.Totals(), SeenAs(dryRunSeen), chunks[..i], conflictDetailLimit)
      requires !dryRun && alone ==> Loaded(acc.Totals(), start, table, chunks[..i], conflictDetailLimit)
      modifies this`table, this`alone, this`answered, acc
      ensures (answered ==> old(answered)) && (halt == Some(Stopped) ==> !answered)
      ensures Grows(old(table), table) && (alone ==> old(alone))
      ensures dryRun ==>
        halt in {None, Some(MalformedRecord)} && table == old(table) && alone == old(alone) && answered == old(answered)
      ensures halt.None? ==> Counted(acc.Totals(), chunks[..i + 1], dryRun, conflictDetailLimit)
      ensures dryRun && halt.None? ==> Simulated(acc.Totals(), SeenAs(seen), chunks[..i + 1], conflictDetailLimit)
      ensures !dryRun && alone && halt.None? ==>
        Loaded(acc.Totals(), start, table, chunks[..i + 1], conflictDetailLimit)
      ensures halt.Some? ==> Halts(halt.value, start, table, chunks, !dryRun && alone)
    {
      ghost var before, reached, c := acc.Totals(), table, chunks[i];
      seen := dryRunSeen;
      acc.chunks := acc.chunks + 1;
      if exists r: Record :: r in chunks[i] && !r.wellFormed {
        MalformedIn(chunks, i);
        ReachedBefore(start, reached, chunks, i);
        return Some(MalformedRecord), seen;
      }
      acc.input := acc.input + |chunks[i]|;
      halt, seen := LoadChunk(chunks[i], acc, dryRun, dryRunSeen);
      if dryRun {
        CountedNext(before, acc.Totals(), chunks, i, dryRun, conflictDetailLimit);
        SimulatedNext(before, SeenAs(dryRunSeen), acc.Totals(), chunks, i, conflictDetailLimit);
      } else if halt.None? {
        CountedNext(before, acc.Totals(), chunks, i, dryRun, conflictDetailLimit);
        if alone {
          LoadedNext(before, start, reached, acc.Totals(), chunks, i, conflictDetailLimit);
        }
      } else if alone {
        StoppedBetween(start, reached, table, chunks, i);
        RepeatsWereThere(start, chunks[..i]);
      }
    }
  }

  /** The only writer's table holds a number of whole chunks. */
  ghost predicate Reached(start: Table, table: Table, chunks: seq<seq<Record>>) {
    exists k :: 0 <= k <= |chunks| && table == TableAfter(start, chunks[..k])
  }

  /** Why a load may stop early, and what the only writer of a live run then leaves behind. */
  ghost predicate Halts(reason: Halt, start: Table, table: Table, chunks: seq<seq<Record>>, onlyWriter: bool) {
    && (reason.MalformedRecord? ==> exists r :: r in Flat(chunks) && !r.wellFormed)
    && (onlyWriter ==> Reached(start, table, chunks))
    && (onlyWriter ==> reason in {Stopped, MalformedRecord} || (reason.DuplicateRows? && HasRepeats(start)))
  }

  lemma {:induction false} ReachedBefore(start: Table, table: Table, chunks: seq<seq<Record>>, i: nat)
    requires i < |chunks|
    ensures table == TableAfter(start, chunks[..i]) ==> Reached(start, table, chunks)
  {
  }

  /** The counts so far add up, and so does the conflict log. */
  ghost predicate Counted(totals: Totals, chunks: seq<seq<Record>>, dryRun: bool, limit: nat) {
    && Sound(totals.log, limit) && totals.input == |Flat(chunks)| && totals.chunks == |chunks|
    && AllWellFormed(Flat(chunks))
    && (!dryRun ==> Accounted(totals) == |Flat(chunks)|)
  }

  ghost predicate Simulated(totals: Totals, seen: Known, chunks: seq<seq<Record>>, limit: nat) {
    totals == LoadAll(NOTHING_YET, map[], chunks, limit).(inserted := 0) && seen == KnownAfter(map[], chunks)
  }

  ghost predicate Loaded(totals: Totals, start: Table, table: Table, chunks: seq<seq<Record>>, limit: nat) {
    totals == LoadAll(NOTHING_YET, KnownOf(start), chunks, limit) && table == TableAfter(start, chunks)
  }

  lemma NothingLoadedYet(start: Table, dryRun: bool, limit: nat)
    ensures Counted(NOTHING_YET, [], dryRun, limit)
    ensures Simulated(NOTHING_YET, SeenAs(map[]), [], limit)
    ensures Loaded(NOTHING_YET, start, start, [], limit) && Grows(start, start)
  {
    hide *;
    NothingCounted(dryRun, limit);
    NothingSimulated(limit);
    NothingLoaded(start, limit);
  }

  lemma NothingCounted(dryRun: bool, limit: nat)
    ensures Counted(NOTHING_YET, [], dryRun, limit)
  {
  }

  lemma NothingSimulated(limit: nat)
    ensures Simulated(NOTHING_YET, SeenAs(map[]), [], limit)
  {
  }

  lemma NothingLoaded(start: Table, limit: nat)
    ensures Loaded(NOTHING_YET, start, start, [], limit) && Grows(start, start)
  {
  }

  function Begun(totals: Totals, c: seq<Record>): Totals {
    totals.(input := totals.input + |c|, chunks := totals.chunks + 1)
  }

  lemma BegunStep(totals: Totals, known: Known, c: seq<Record>, limit: nat)
    ensures ChunkStep(Begun(totals, c), known, c, limit) == Step(totals, known, c, limit)
    ensures PlannedStep(Begun(totals.(inserted := 0), c), known, c, limit) ==
      Step(totals, known, c, limit).(inserted := 0)
  {
  }

  lemma CountedNext(before: Totals, after: Totals, chunks: seq<seq<Record>>, i: nat, dryRun: bool, limit: nat)
    requires i < |chunks| && Counted(before, chunks[..i], dryRun, limit) && AllWellFormed(chunks[i])
    requires Steady(Begun(before, chunks[i]), after, limit)
    requires !dryRun ==> Accounted(after) == Accounted(before) + |chunks[i]|
    ensures Counted(after, chunks[..i + 1], dryRun, limit)
  {
    NextFlat(chunks, i);
  }

  lemma SimulatedNext(before: Totals, seen: Known, after: Totals, chunks: seq<seq<Record>>, i: nat, limit: nat)
    requires i < |chunks| && Simulated(before, seen, chunks[..i], limit)
    requires after == PlannedStep(Begun(before, chunks[i]), seen, chunks[i], limit)
    ensures Simulated(after, Learned(seen, chunks[i]), chunks[..i + 1], limit)
  {
    NextTotals(map[], chunks, i, limit);
    BegunStep(LoadAll(NOTHING_YET, map[], chunks[..i], limit), seen, chunks[i], limit);
  }

  lemma LoadedNext(
      before: Totals, start: Table, table: Table, after: Totals, chunks: seq<seq<Record>>, i: nat, limit: nat)
    requires i < |chunks| && Loaded(before, start, table, chunks[..i], limit)
    requires after == ChunkStep(Begun(before, chunks[i]), KnownOf(table), chunks[i], limit)
    ensures Loaded(after, start, AfterChunk(table, chunks[i]), chunks[..i + 1], limit)
  {
    NextTotals(KnownOf(start), chunks, i, limit);
    NextTable(start, chunks, i);
    BegunStep(before, KnownOf(table), chunks[i], limit);
    TableHoldsWhatIsKnown(start, chunks[..i]);
    StepFollowsContents(before, KnownOf(table), KnownAfter(KnownOf(start), chunks[..i]), chunks[i], limit);
  }

  lemma OneRowDoesNotRepeat(row: Stored)
    ensures !Repeats([row]) && !Repeats([])
  {
    assert PayloadsOf([row]) == {row.payload};
    assert PayloadsOf([]) == {};
  }

  lemma {:induction false} RepeatsWereThere(t: Table, chunks: seq<seq<Record>>)
    ensures HasRepeats(TableAfter(t, chunks)) ==> HasRepeats(t)
  {
    if id :| Repeats(RowsOf(TableAfter(t, chunks), id)) {
      FirstAgreedContentIsStored(t, chunks, id);
      if id !in t {
        match FirstAgreed(chunks, id)
        case None => OneRowDoesNotRepeat(Stored(Payload("", []), ""));
        case Some(row) => OneRowDoesNotRepeat(row);
      } else {
        assert Repeats(RowsOf(t, id));
      }
    }
  }

  lemma {:induction false} MalformedIn(chunks: seq<seq<Record>>, i: nat)
    requires i < |chunks| && exists r: Record :: r in chunks[i] && !r.wellFormed
    ensures exists r: Record :: r in Flat(chunks) && !r.wellFormed
  {
    var r: Record :| r in chunks[i] && !r.wellFormed;
    InFlat(chunks, i, r);
  }

  lemma {:induction false} InFlat(chunks: seq<seq<Record>>, i: nat, r: Record)
    requires i < |chunks| && r in chunks[i]
    ensures r in Flat(chunks)
  {
    if i < |chunks| - 1 {
      InFlat(Front(chunks), i, r);
    }
  }

  lemma {:induction false} StoppedBetween(start: Table, before: Table, after: Table, chunks: seq<seq<Record>>, i: nat)
    requires i < |chunks| && before == TableAfter(start, chunks[..i]) &&
      after in {before, AfterChunk(before, chunks[i])}
    ensures Reached(start, after, chunks)
  {
    NextTable(start, chunks, i);
    if after == before {
      assert after == TableAfter(start, chunks[..i]);
    } else {
      assert after == TableAfter(start, chunks[..i + 1]);
    }
  }

  /** What one chunk adds to the totals of a dry run. */
  function PlannedStep(totals: Totals, known: Known, c: seq<Record>, limit: nat): Totals {
    ChunkStep(totals, known, c, limit).(inserted := totals.inserted)
  }

  lemma {:induction false} OrderKeys(c: seq<Record>, grouped: map<Identity, seq<Record>>)
    requires Groups(c, Order(c), grouped)
    ensures forall id :: id in Order(c) ==> id in grouped && grouped[id] == Select(c, id)
  {
    OrderListsEachOnce(c);
    assert forall id :: id in Order(c) <==> id in Elements(Order(c));
  }

  lemma LiveTotalsAreStep(totals: Totals, known: Known, c: seq<Record>, limit: nat)
    ensures LiveTotals(Contradicted(totals, c, limit), known, c, limit) == ChunkStep(totals, known, c, limit)
  {
    hide Compared, Contradicted, ChunkStep, Total, NewIds;
    LiveChunkIsStep(totals, known, c, limit);
  }

  lemma {:induction false} ContradictedIsAccounted(totals: Totals, c: seq<Record>, limit: nat)
    ensures Accounted(Contradicted(totals, c, limit)) + Total(c, Agreed(c, Order(c))) == Accounted(totals) + |c|
  {
    LoggedRecords(totals.log, Contradictions(c, Order(c)), limit);
    AgreedTotal(c, Order(c));
    GroupsCoverChunk(c);
  }

  lemma NextFlat(chunks: seq<seq<Record>>, i: nat)
    requires i < |chunks|
    ensures Flat(chunks[..i + 1]) == Flat(chunks[..i]) + chunks[i]
  {
    assert Front(chunks[..i + 1]) == chunks[..i] && Last(chunks[..i + 1]) == chunks[i];
  }

  lemma {:induction false} NextTable(t: Table, chunks: seq<seq<Record>>, i: nat)
    requires i < |chunks|
    ensures TableAfter(t, chunks[..i + 1]) == AfterChunk(TableAfter(t, chunks[..i]), chunks[i])
  {
    assert Front(chunks[..i + 1]) == chunks[..i] && Last(chunks[..i + 1]) == chunks[i];
  }

  lemma {:induction false} NextTotals(known: Known, chunks: seq<seq<Record>>, i: nat, limit: nat)
    requires i < |chunks|
    ensures KnownAfter(known, chunks[..i + 1]) == Learned(KnownAfter(known, chunks[..i]), chunks[i])
    ensures LoadAll(NOTHING_YET, known, chunks[..i + 1], limit) ==
      Step(LoadAll(NOTHING_YET, known, chunks[..i], limit), KnownAfter(known, chunks[..i]), chunks[i], limit)
  {
    assert Front(chunks[..i + 1]) == chunks[..i] && Last(chunks[..i + 1]) == chunks[i];
  }

  lemma {:induction false} ComparedIsAccounted(totals: Totals, known: Known, c: seq<Record>, ids: seq<Identity>,
      limit: nat)
    requires Sound(totals.log, limit)
    ensures var compared := Compared(totals, known, c, ids, limit);
      && Steady(totals, compared, limit)
      && Accounted(compared) == Accounted(totals) + Total(c, ids) - Total(c, Fresh(known, ids))
  {
    ComparedCounts(totals, known, c, ids, limit);
    LoggingIsSound(totals.log, Clashes(known, c, ids), limit);
  }

  lemma {:induction false} ComparedFollowsContents(
      totals: Totals, a: Known, b: Known, c: seq<Record>, ids: seq<Identity>, limit: nat)
    requires forall id :: id in ids ==> Hashes(a, id) == Hashes(b, id)
    ensures Compared(totals, a, c, ids, limit) == Compared(totals, b, c, ids, limit)
  {
    if ids != [] {
      ComparedFollowsContents(totals, a, b, c, Front(ids), limit);
    }
  }

  function LiveTotals(totals: Totals, known: Known, c: seq<Record>, limit: nat): Totals {
    Inserted(Compared(totals, known, c, Agreed(c, Order(c)), limit), c, NewIds(known, c))
  }

  lemma NewKeys(t: Table, ids: seq<Identity>)
    requires Distinct(ids) && forall id :: id in ids ==> id !in t
    ensures |t.Keys + Elements(ids)| == |t.Keys| + |ids|
  {
    DistinctCardinality(ids);
    DisjointCardinality(t.Keys, Elements(ids));
  }

  lemma StepStaysSound(totals: Totals, known: Known, c: seq<Record>, limit: nat)
    requires Sound(totals.log, limit)
    ensures Sound(Step(totals, known, c, limit).log, limit)
  {
    LoggingIsSound(totals.log, Conflicts(known, c), limit);
  }
}
