/** One run of the batch: validate the bundle, load what was accepted, reconcile, declare the coverage. */
module BatchRuns {
  import opened Sequences
  import opened Loading
  import opened LoadResults
  import opened LoadRuns
  import opened LoaderPasses
  import opened IcebergLoaders
  import opened RunCoverage
  import V = ValidationRules
  import R = ValidationResults
  import B = BundleLines
  import opened AcceptedFiles
  import opened BundleValidators

  const DATASETS := [
    V.Customers, V.Sites, V.Assignments, V.Meters, V.Contracts, V.Commitments, V.ExcessOrders, V.Readings, V.Capacities]

  /** How an accepted record is handed to the loader; `wellFormed` of the outcome is the loader's own check. */
  type Encoding = V.Record -> Record

  /** Within a dataset, two records share a table identity only if they share their revision identity. */
  ghost predicate Faithful(encode: Encoding) {
    forall r: V.Record, s: V.Record ::
      r.Dataset() == s.Dataset() && encode(r).identity == encode(s).identity ==> r.Identity() == s.Identity()
  }

  ghost predicate Usable(lines: seq<B.Line>, accepted: seq<nat>) {
    forall i :: i in accepted ==> i < |lines| && lines[i].Usable?
  }

  /** The accepted records of one dataset, in line order. */
  function AcceptedOf(lines: seq<B.Line>, accepted: seq<nat>, ds: V.Dataset): seq<V.Record>
    requires Usable(lines, accepted)
  {
    if accepted == [] then []
    else
      assert Last(accepted) in accepted && forall i :: i in Front(accepted) ==> i in accepted;
      var earlier, r := AcceptedOf(lines, Front(accepted), ds), lines[Last(accepted)].record;
      if r.Dataset() == ds then earlier + [r] else earlier
  }

  function Encoded(rs: seq<V.Record>, encode: Encoding): (batch: seq<Record>)
    ensures |batch| == |rs| && forall i :: 0 <= i < |rs| ==> batch[i] == encode(rs[i])
  {
    seq(|rs|, i requires 0 <= i < |rs| => encode(rs[i]))
  }

  lemma {:induction false} AcceptedOfComesFrom(lines: seq<B.Line>, accepted: seq<nat>, ds: V.Dataset, r: V.Record)
    requires Usable(lines, accepted)
    ensures r in AcceptedOf(lines, accepted, ds) <==>
      r.Dataset() == ds && exists i: nat :: i in accepted && lines[i].record == r
  {
    if accepted != [] {
      assert forall i :: i in accepted <==> i in Front(accepted) || i == Last(accepted);
      AcceptedOfComesFrom(lines, Front(accepted), ds, r);
    }
  }

  /** The loader's batch of a dataset holds what validation accepted of it. */
  lemma {:induction false} BatchIsAccepted(
      lines: seq<B.Line>, conforms: V.Record -> bool, report: B.Report, ds: V.Dataset, r: V.Record)
    requires B.Reports(lines, conforms, report) && Usable(lines, report.accepted)
    ensures r in AcceptedOf(lines, report.accepted, ds) <==>
      r.Dataset() == ds && r in V.Accepted(B.AllOf(lines), conforms)
  {
    hide V.Accepted, AcceptedOf, B.Reports;
    AcceptedOfComesFrom(lines, report.accepted, ds, r);
    B.ReportsExactlyTheAccepted(lines, conforms, report);
  }

  /** What validation accepts never contradicts itself in the loader. */
  lemma {:induction false} AcceptedIsConsistent(
      lines: seq<B.Line>, conforms: V.Record -> bool, report: B.Report, ds: V.Dataset, encode: Encoding)
    requires B.Reports(lines, conforms, report) && Faithful(encode) && Usable(lines, report.accepted)
    ensures Consistent(Encoded(AcceptedOf(lines, report.accepted, ds), encode))
  {
    var rs := AcceptedOf(lines, report.accepted, ds);
    hide V.Accepted, B.Reports, AcceptedOf;
    var batch := Encoded(rs, encode);
    forall x, y | x in batch && y in batch && x.identity == y.identity ensures x.payload == y.payload {
      var i :| 0 <= i < |batch| && batch[i] == x;
      var j :| 0 <= j < |batch| && batch[j] == y;
      BatchIsAccepted(lines, conforms, report, ds, rs[i]);
      BatchIsAccepted(lines, conforms, report, ds, rs[j]);
      R.AcceptedIdentitiesAreUnique(B.AllOf(lines), conforms, rs[i], rs[j]);
    }
  }

  function SizesTo(lines: seq<B.Line>, accepted: seq<nat>, n: nat): nat
    requires Usable(lines, accepted) && n <= |DATASETS|
  {
    if n == 0 then 0 else SizesTo(lines, accepted, n - 1) + |AcceptedOf(lines, accepted, DATASETS[n - 1])|
  }

  lemma {:induction false} SizesOfNone(lines: seq<B.Line>, n: nat)
    requires n <= |DATASETS|
    ensures SizesTo(lines, [], n) == 0
  {
    if n > 0 {
      SizesOfNone(lines, n - 1);
    }
  }

  lemma {:induction false} OneMoreSize(lines: seq<B.Line>, accepted: seq<nat>, n: nat)
    requires accepted != [] && Last(accepted) in accepted && n <= |DATASETS|
    requires Usable(lines, accepted) && Usable(lines, Front(accepted))
    ensures SizesTo(lines, accepted, n) ==
      SizesTo(lines, Front(accepted), n) + if lines[Last(accepted)].record.Dataset() in DATASETS[..n] then 1 else 0
  {
    assert Last(accepted) in accepted;
    if n > 0 {
      OneMoreSize(lines, accepted, n - 1);
      DatasetsDiffer(n - 1);
      assert DATASETS[..n] == DATASETS[..n - 1] + [DATASETS[n - 1]];
    }
  }

  lemma DatasetsDiffer(n: nat)
    requires n < |DATASETS|
    ensures DATASETS[n] !in DATASETS[..n]
  {
  }

  lemma EveryDatasetIsListed(ds: V.Dataset)
    ensures ds in DATASETS
  {
    match ds
    case Customers => assert DATASETS[0] == ds;
    case Sites => assert DATASETS[1] == ds;
    case Assignments => assert DATASETS[2] == ds;
    case Meters => assert DATASETS[3] == ds;
    case Contracts => assert DATASETS[4] == ds;
    case Commitments => assert DATASETS[5] == ds;
    case ExcessOrders => assert DATASETS[6] == ds;
    case Readings => assert DATASETS[7] == ds;
    case Capacities => assert DATASETS[8] == ds;
  }

  /** Split by dataset, no accepted record is lost or counted twice. */
  lemma {:induction false} DatasetsHoldAllAccepted(lines: seq<B.Line>, accepted: seq<nat>)
    requires Usable(lines, accepted)
    ensures SizesTo(lines, accepted, |DATASETS|) == |accepted|
  {
    if accepted == [] {
      SizesOfNone(lines, |DATASETS|);
    } else {
      assert forall i :: i in Front(accepted) ==> i in accepted;
      assert Last(accepted) in accepted;
      DatasetsHoldAllAccepted(lines, Front(accepted));
      OneMoreSize(lines, accepted, |DATASETS|);
      EveryDatasetIsListed(lines[Last(accepted)].record.Dataset());
      assert DATASETS[..|DATASETS|] == DATASETS;
    }
  }

  // Counts of one load

  lemma {:induction false} PlanningNeverUnskips(
      totals: Totals, known: Known, c: seq<Record>, ids: seq<Identity>, limit: nat)
    requires forall id :: id in ids ==> id in Identities(c) && !Contradictory(c, id)
    ensures Planned(totals, known, c, ids, limit).skipped >= totals.skipped
  {
    if ids != [] {
      assert Last(ids) in ids && forall id :: id in Front(ids) ==> id in ids;
      PlanningNeverUnskips(totals, known, c, Front(ids), limit);
      OnePayload(c, Last(ids));
    }
  }

  lemma {:induction false} SkippedIsACount(known: Known, chunks: seq<seq<Record>>, limit: nat)
    ensures LoadAll(NOTHING_YET, known, chunks, limit).skipped >= 0
  {
    if chunks != [] {
      var totals, before, c := LoadAll(NOTHING_YET, known, Front(chunks), limit), KnownAfter(known, Front(chunks)),
          Last(chunks);
      SkippedIsACount(known, Front(chunks), limit);
      DryChunkIsStep(totals, before, c, limit);
      OrderListsEachOnce(c);
      assert forall id :: id in Order(c) <==> id in Elements(Order(c));
      PlanningNeverUnskips(Contradicted(totals, c, limit), before, c, Agreed(c, Order(c)), limit);
    }
  }

  /** What the only writer's load of accepted records into a table that does not contradict them reports. */
  ghost predicate LoadsCleanly(t: Table, rs: seq<Record>, totals: Totals) {
    totals.inserted >= 0 && totals.skipped >= 0 && totals.log.records == 0 && totals.inserted + totals.skipped == |rs|
  }

  lemma {:induction false} AgreeingLoadIsClean(t: Table, rs: seq<Record>, size: nat, limit: nat)
    requires size > 0 && Consistent(rs) && Agrees(KnownOf(t), rs)
    ensures LoadsCleanly(t, rs, LoadAll(NOTHING_YET, KnownOf(t), Chunks(rs, size), limit))
    ensures Agrees(KnownOf(TableAfter(t, Chunks(rs, size))), rs)
  {
    hide LoadAll, Agrees, Consistent;
    ChunksPartition(rs, size);
    AgreeingLoad(t, Chunks(rs, size), rs, limit);
    LoadAccountsForEveryRecord(NOTHING_YET, t, Chunks(rs, size), limit);
    InputIsCounted(NOTHING_YET, KnownOf(t), Chunks(rs, size), limit);
    SkippedIsACount(KnownOf(t), Chunks(rs, size), limit);
  }

  function SumOf(batches: seq<seq<Record>>): nat {
    if batches == [] then 0 else SumOf(Front(batches)) + |Last(batches)|
  }

  /** The accepted file of a dataset, as the validation step wrote it. */
  ghost predicate IsFile(file: string, evidence: seq<V.Record>, json: Json) {
    AllWritable(evidence, json) && file == FileOf(Texts(evidence, json))
  }

  // Loading one dataset

  /** A record the loading step can take: one line of its file, and accepted by the loader. */
  ghost predicate Loadable(json: Json, encode: Encoding, r: V.Record) {
    Writable(r, json) && Whole(Text(r, json)) && encode(r).wellFormed
  }

  ghost predicate AllLoadable(json: Json, encode: Encoding, rs: seq<V.Record>) {
    forall r :: r in rs ==> Loadable(json, encode, r)
  }

  lemma AllLoadableIs(json: Json, encode: Encoding, rs: seq<V.Record>)
    ensures AllLoadable(json, encode, rs) <==> AllWhole(rs, json) && AllWellFormed(Encoded(rs, encode))
  {
    hide Whole;
    var batch := Encoded(rs, encode);
    assert (forall r :: r in rs ==> encode(r).wellFormed) <==> AllWellFormed(batch) by {
      assert (forall r :: r in rs ==> encode(r).wellFormed) <==> forall i :: 0 <= i < |rs| ==> encode(rs[i]).wellFormed;
      assert AllWellFormed(batch) <==> forall i :: 0 <= i < |rs| ==> batch[i].wellFormed;
    }
  }

  datatype LoadFailure = NotRead(why: ReadFailure) | LoaderHalted(reason: Halt)

  /**
    Why a dataset may fail to load: a record that cannot be taken, a statement without an answer, or,
    where no other writer is at work, a table that already repeated rows.
   */
  ghost predicate Explains(
      failure: LoadFailure, json: Json, encode: Encoding, rs: seq<V.Record>, t: Table, alone: bool, answered: bool)
  {
    match failure
    case NotRead(why) => why == UnreadableLine && !AllWhole(rs, json)
    case LoaderHalted(reason) =>
      && (reason.MalformedRecord? ==> !AllWellFormed(Encoded(rs, encode)))
      && (reason.Stopped? ==> !answered)
      && (alone ==> reason in {Stopped, MalformedRecord} || (reason.DuplicateRows? && HasRepeats(t)))
  }

  /** One dataset's load, as the run sees it. */
  method LoadDataset(loader: TrinoIcebergLoader, file: string, evidence: seq<V.Record>, json: Json, encode: Encoding)
      returns (failure: Option<LoadFailure>, totals: Totals)
    requires loader.chunkSize > 0 && RoundTrips(json) && IsFile(file, evidence, json)
    modifies loader
    ensures (loader.alone ==> old(loader.alone)) && (loader.answered ==> old(loader.answered))
    ensures failure.None? ==> totals.inserted + totals.skipped + totals.log.records == |evidence|
    ensures failure.None? && loader.alone ==>
      loader.table == TableAfter(old(loader.table), Chunks(Encoded(evidence, encode), loader.chunkSize))
    ensures failure.None? && loader.alone && TableAgrees(old(loader.table), Encoded(evidence, encode)) ==>
      LoadsCleanly(old(loader.table), Encoded(evidence, encode), totals)
    // Every record is loaded, or there is a reason.
    ensures failure.None? ==> AllLoadable(json, encode, evidence)
    ensures failure.Some? ==>
      Explains(failure.value, json, encode, evidence, old(loader.table), loader.alone, loader.answered)
  {
    hide LoadAll, Agrees, Consistent, LoadsCleanly, Sound, Reached, Grows, HasRepeats, AllWellFormed, AllWhole,
        RoundTrips;
    hide AllLoadable;
    ghost var t := loader.table;
    totals := NOTHING_YET;
    AllLoadableIs(json, encode, evidence);
    var unread, payloads := ReadAccepted(file, evidence, json);
    if unread.Some? {
      return Some(NotRead(unread.value)), totals;
    }
    var batch := Encoded(payloads, encode);
    var loaded := loader.LoadRecords(batch, false);
    if loaded.Halted? {
      if loaded.reason.MalformedRecord? {
        SomeMalformed(batch);
      }
      return Some(LoaderHalted(loaded.reason)), totals;
    }
    if TableAgrees(t, batch) {
      AgreeingLoadIsClean(t, batch, loader.chunkSize, loader.conflictDetailLimit);
    }
    return None, loaded.totals;
  }

  lemma SomeMalformed(rs: seq<Record>)
    requires exists r :: r in rs && !r.wellFormed
    ensures !AllWellFormed(rs)
  {
  }

  // Loading all of them

  ghost predicate TableAgrees(t: Table, rs: seq<Record>) {
    Consistent(rs) && Agrees(KnownOf(t), rs)
  }

  /** None of the tables contradicts its batch. */
  ghost predicate TablesAgree(tables: seq<Table>, batches: seq<seq<Record>>) {
    |tables| == |batches| && forall k :: 0 <= k < |batches| ==> TableAgrees(tables[k], batches[k])
  }

  ghost function TablesOf(loaders: seq<TrinoIcebergLoader>): seq<Table>
    reads loaders
  {
    seq(|loaders|, k requires 0 <= k < |loaders| reads loaders => loaders[k].table)
  }

  /** Every table holds what its loader's batch makes of it. */
  ghost predicate HoldBatches(loaders: seq<TrinoIcebergLoader>, tables: seq<Table>, batches: seq<seq<Record>>)
    reads loaders
  {
    && |loaders| == |tables| == |batches|
    && forall k :: 0 <= k < |loaders| ==>
      loaders[k].chunkSize > 0 && loaders[k].table == TableAfter(tables[k], Chunks(batches[k], loaders[k].chunkSize))
  }

  /** No loader has seen another writer. */
  ghost predicate AllAlone(loaders: seq<TrinoIcebergLoader>)
    reads loaders
  {
    forall k :: 0 <= k < |loaders| ==> loaders[k].alone
  }

  ghost predicate AllAnswered(loaders: seq<TrinoIcebergLoader>)
    reads loaders
  {
    forall k :: 0 <= k < |loaders| ==> loaders[k].answered
  }

  ghost predicate NoneRepeats(tables: seq<Table>) {
    forall k :: 0 <= k < |tables| ==> !HasRepeats(tables[k])
  }

  function AllEncoded(evidence: seq<seq<V.Record>>, encode: Encoding): (batches: seq<seq<Record>>)
    ensures |batches| == |evidence| && forall k :: 0 <= k < |evidence| ==> batches[k] == Encoded(evidence[k], encode)
  {
    seq(|evidence|, k requires 0 <= k < |evidence| => Encoded(evidence[k], encode))
  }

  ghost predicate AreFiles(files: seq<string>, evidence: seq<seq<V.Record>>, json: Json) {
    |files| == |evidence| && forall k :: 0 <= k < |files| ==> IsFile(files[k], evidence[k], json)
  }

  ghost predicate Ready(loaders: seq<TrinoIcebergLoader>, n: nat) {
    |loaders| == n && Distinct(loaders) && forall k :: 0 <= k < |loaders| ==> loaders[k].chunkSize > 0
  }

  datatype LoadOutcome = AllLoaded(counts: LoadCounts) | LoadFailed(dataset: nat, failure: LoadFailure)

  /** Loads every dataset and adds up what the loads report. */
  method LoadValidatedBundle(
      loaders: seq<TrinoIcebergLoader>, files: seq<string>, evidence: seq<seq<V.Record>>, json: Json, encode: Encoding)
      returns (outcome: LoadOutcome)
    requires Ready(loaders, |evidence|) && RoundTrips(json) && AreFiles(files, evidence, json)
    modifies loaders
    ensures outcome.AllLoaded? ==>
      && outcome.counts.inserted + outcome.counts.reused + outcome.counts.conflicts ==
        SumOf(AllEncoded(evidence, encode))
      && outcome.counts.tables == |evidence|
    ensures
      (&& outcome.AllLoaded? && AllAlone(loaders)
       && TablesAgree(old(TablesOf(loaders)), AllEncoded(evidence, encode))) ==>
      outcome.counts.conflicts == 0 && outcome.counts.inserted >= 0 && outcome.counts.reused >= 0
    ensures outcome.AllLoaded? && AllAlone(loaders) ==>
      HoldBatches(loaders, old(TablesOf(loaders)), AllEncoded(evidence, encode))
    // Every record is loaded, or there is a reason.
    ensures outcome.AllLoaded? ==> forall k :: 0 <= k < |evidence| ==> AllLoadable(json, encode, evidence[k])
    ensures outcome.LoadFailed? ==>
      && outcome.dataset < |loaders|
      && Explains(outcome.failure, json, encode, evidence[outcome.dataset], old(TablesOf(loaders))[outcome.dataset],
                  AllAlone(loaders), AllAnswered(loaders))
  {
    hide TableAfter, TableAgrees, Chunks, Explains, AllLoadable, RoundTrips, LoadsCleanly;
    hide AllEncoded, SumOf, IsFile, Encoded, TablesAgree;
    var counts := LoadCounts(0, 0, 0, 0);
    ghost var tables, batches := TablesOf(loaders), AllEncoded(evidence, encode);
    NoBatches(batches);
    for n := 0 to |loaders|
      invariant counts.inserted + counts.reused + counts.conflicts == SumOf(batches[..n]) && counts.tables == n
      invariant forall k :: n <= k < |loaders| ==> loaders[k].table == tables[k]
      invariant forall k :: 0 <= k < n ==> (loaders[k].alone ==>
        loaders[k].table == TableAfter(tables[k], Chunks(batches[k], loaders[k].chunkSize)))
      invariant (forall k :: 0 <= k < n ==> loaders[k].alone) && TablesAgree(tables, batches) ==>
        counts.conflicts == 0 && counts.inserted >= 0 && counts.reused >= 0
      invariant forall k :: 0 <= k < n ==> AllLoadable(json, encode, evidence[k])
    {
      NextBatch(batches, n);
      assert batches[n] == Encoded(evidence[n], encode) by { BatchAt(evidence, encode, n); }
      var failure, totals := LoadDataset(loaders[n], files[n], evidence[n], json, encode);
      if failure.Some? {
        ExplainsLess(failure.value, json, encode, evidence[n], tables[n], loaders[n].alone, loaders[n].answered,
                     AllAlone(loaders), AllAnswered(loaders));
        return LoadFailed(n, failure.value);
      }
      CleanCounts(tables, batches, n, totals);
      counts := LoadCounts(counts.inserted + totals.inserted, counts.reused + totals.skipped,
                           counts.conflicts + totals.log.records, counts.tables + 1);
    }
    assert batches[..|batches|] == batches;
    return AllLoaded(counts);
  }

  lemma NoBatches(batches: seq<seq<Record>>)
    ensures SumOf(batches[..0]) == 0
  {
  }

  lemma BatchAt(evidence: seq<seq<V.Record>>, encode: Encoding, n: nat)
    requires n < |evidence|
    ensures AllEncoded(evidence, encode)[n] == Encoded(evidence[n], encode)
  {
  }

  lemma CleanCounts(tables: seq<Table>, batches: seq<seq<Record>>, n: nat, totals: Totals)
    requires n < |batches| == |tables|
    ensures TablesAgree(tables, batches) ==> TableAgrees(tables[n], batches[n])
    ensures LoadsCleanly(tables[n], batches[n], totals) ==>
      totals.inserted >= 0 && totals.skipped >= 0 && totals.log.records == 0
  {
  }

  lemma ExplainsLess(
      failure: LoadFailure, json: Json, encode: Encoding, rs: seq<V.Record>, t: Table, alone: bool, answered: bool,
      allAlone: bool, allAnswered: bool)
    requires Explains(failure, json, encode, rs, t, alone, answered)
    requires (allAlone ==> alone) && (allAnswered ==> answered)
    ensures Explains(failure, json, encode, rs, t, allAlone, allAnswered)
  {
  }

  lemma NextBatch(batches: seq<seq<Record>>, n: nat)
    requires n < |batches|
    ensures SumOf(batches[..n + 1]) == SumOf(batches[..n]) + |batches[n]|
  {
    assert Front(batches[..n + 1]) == batches[..n] && Last(batches[..n + 1]) == batches[n];
  }

  // The whole run

  datatype RunResult =
    | Declared(publication: Publication, load: LoadCounts)
    | ValidationRaised
    | OutputsNotWritten
    | NotLoaded(dataset: nat, failure: LoadFailure)
    | NotReconciled(why: Imbalance)
    | CoverageRejected

  function CountsOf(report: B.Report): ValidationCounts {
    ValidationCounts(|report.accepted|, |report.quarantined|, |report.replays|)
  }

  /** What a reconciled run declares; nothing in it depends on the attempt or on what was loaded before. */
  function PayloadOf(plan: Plan, manifest: Artifact, raw: nat, v: ValidationCounts): Declaration {
    Declaration(plan.runId, plan.startDate, plan.endDate, plan.generatorVersion, plan.seed, plan.generatedAt, manifest,
                StatusOf(v), raw, v, v.accepted, |DATASETS|)
  }

  /**
    What a declaration says about the run: its plan and manifest, how many lines it had, how many of
    them were accepted, quarantined and repeated, and that nothing was quarantined if that is so.
   */
  ghost predicate TellsTheRun(
      d: Declaration, plan: Plan, manifest: Artifact, lines: seq<B.Line>, checked: V.Record -> bool, report: B.Report)
  {
    && d.runId == plan.runId && d.startDate == plan.startDate && d.endDate == plan.endDate
    && d.generatorVersion == plan.generatorVersion && d.seed == plan.seed && d.generatedAt == plan.generatedAt
    && d.manifest == manifest && d.raw == |lines| && d.tables == 9
    && d.reconciled == d.validation.accepted == |V.Accepted(B.AllOf(lines), checked)|
    && d.validation.quarantined == |report.quarantined| && d.validation.duplicates == |report.replays|
    && d.raw == d.validation.accepted + d.validation.quarantined + d.validation.duplicates
    && d.status ==
      if forall i: nat :: i < |lines| ==> i in report.accepted || B.IsReplay(lines, checked, i) then Succeeded
      else SucceededWithQuarantine
  }

  lemma PayloadTellsTheRun(
      plan: Plan, manifest: Artifact, lines: seq<B.Line>, checked: V.Record -> bool, report: B.Report)
    requires B.Reports(lines, checked, report)
    ensures TellsTheRun(PayloadOf(plan, manifest, |lines|, CountsOf(report)), plan, manifest, lines, checked, report)
  {
    hide V.Accepted, B.CountIn, B.Clean;
    if report.quarantined != [] {
      var i := report.quarantined[0];
      assert i in report.quarantined;
      assert i !in report.accepted && !B.IsReplay(lines, checked, i);
    } else {
      forall i: nat | i < |lines| ensures i in report.accepted || B.IsReplay(lines, checked, i) {
        assert i !in report.quarantined;
      }
    }
  }

  /** The same plan over the same lines in any order declares the same payload, whichever attempt it is. */
  lemma PayloadIsDetermined(
      plan: Plan, again: Plan, manifest: Artifact, a: seq<B.Line>, b: seq<B.Line>, conforms: V.Record -> bool,
      x: B.Report, y: B.Report)
    requires again == plan.(orchestratorRunId := again.orchestratorRunId) && multiset(a) == multiset(b)
    requires B.Reports(a, conforms, x) && B.Reports(b, conforms, y)
    ensures PayloadOf(plan, manifest, |a|, CountsOf(x)) == PayloadOf(again, manifest, |b|, CountsOf(y))
  {
    hide B.Reports;
    B.OrderOfLinesDoesNotMatter(a, b, conforms, x, y);
    assert |multiset(a)| == |a| && |multiset(b)| == |b|;
  }

  /** What validation accepted, dataset by dataset. */
  function EvidenceOf(lines: seq<B.Line>, accepted: seq<nat>): (evidence: seq<seq<V.Record>>)
    requires Usable(lines, accepted)
    ensures |evidence| == |DATASETS|
    ensures forall k :: 0 <= k < |DATASETS| ==> evidence[k] == AcceptedOf(lines, accepted, DATASETS[k])
  {
    seq(|DATASETS|, k requires 0 <= k < |DATASETS| => AcceptedOf(lines, accepted, DATASETS[k]))
  }

  // Writing what validation found

  /**
    The schema holds and the payload can be hashed. Hashing an object that cannot be written fails,
    which is caught and quarantines its line.
   */
  function Checked(schema: V.Record -> bool, json: Json): V.Record -> bool {
    r => schema(r) && Writable(r, json)
  }

  /** The line can be written to an accepted or quarantine file. */
  predicate CanBeWritten(line: B.Line, json: Json) {
    match line
    case Unusable(_, writable) => writable
    case Usable(r) => Writable(r, json)
  }

  ghost predicate AllCanBeWritten(lines: seq<B.Line>, json: Json) {
    forall i: nat :: i < |lines| ==> CanBeWritten(lines[i], json)
  }

  /** Whether the quarantine file of a dataset can be written; what its lines say is not read again. */
  method WriteQuarantine(lines: seq<B.Line>, quarantined: seq<nat>, ds: V.Dataset, json: Json) returns (ok: bool)
    requires forall i :: i in quarantined ==> i < |lines|
    ensures ok <==> forall i :: i in quarantined && lines[i].Of() == ds ==> CanBeWritten(lines[i], json)
  {
    assert forall j :: 0 <= j < |quarantined| ==> quarantined[j] in quarantined;
    for k := 0 to |quarantined|
      invariant forall j :: 0 <= j < k && lines[quarantined[j]].Of() == ds ==> CanBeWritten(lines[quarantined[j]], json)
    {
      if lines[quarantined[k]].Of() == ds && !CanBeWritten(lines[quarantined[k]], json) {
        return false;
      }
    }
    return true;
  }

  /** Every accepted and every quarantined line can be written. */
  ghost predicate OutputsCanBeWritten(lines: seq<B.Line>, report: B.Report, json: Json) {
    forall i: nat :: i < |lines| && (i in report.accepted || i in report.quarantined) ==> CanBeWritten(lines[i], json)
  }

  lemma {:induction false} EvidenceIsWritable(lines: seq<B.Line>, accepted: seq<nat>, ds: V.Dataset, json: Json)
    requires Usable(lines, accepted)
    ensures AllWritable(AcceptedOf(lines, accepted, ds), json) <==>
      forall i :: i in accepted && lines[i].Of() == ds ==> CanBeWritten(lines[i], json)
  {
    hide AcceptedOf;
    var rs := AcceptedOf(lines, accepted, ds);
    forall r ensures r in rs <==> r.Dataset() == ds && exists i: nat :: i in accepted && lines[i].record == r {
      AcceptedOfComesFrom(lines, accepted, ds, r);
    }
    if AllWritable(rs, json) {
      forall i | i in accepted && lines[i].Of() == ds ensures CanBeWritten(lines[i], json) {
        assert lines[i].record in rs;
      }
    } else {
      var k :| 0 <= k < |rs| && !Writable(rs[k], json);
      assert rs[k] in rs;
      var i: nat :| i in accepted && lines[i].record == rs[k];
      assert !CanBeWritten(lines[i], json);
    }
  }

  /**
    Writes the accepted and the quarantine file of every dataset. Nothing is caught here: one line that
    cannot be written ends the run, and the accepted files it leaves behind are not used.
   */
  method WriteResult(lines: seq<B.Line>, report: B.Report, json: Json) returns (files: Option<seq<string>>)
    requires Usable(lines, report.accepted) && forall i :: i in report.quarantined ==> i < |lines|
    ensures files.Some? <==> OutputsCanBeWritten(lines, report, json)
    ensures files.Some? ==> AreFiles(files.value, EvidenceOf(lines, report.accepted), json)
  {
    hide AcceptedOf, AllWritable;
    var written: seq<string> := [];
    for n := 0 to |DATASETS|
      invariant |written| == n
      invariant forall k :: 0 <= k < n ==> IsFile(written[k], EvidenceOf(lines, report.accepted)[k], json)
      invariant forall k, i :: 0 <= k < n && i in report.accepted && lines[i].Of() == DATASETS[k] ==>
        CanBeWritten(lines[i], json)
      invariant forall k, i :: 0 <= k < n && i in report.quarantined && lines[i].Of() == DATASETS[k] ==>
        CanBeWritten(lines[i], json)
    {
      EvidenceIsWritable(lines, report.accepted, DATASETS[n], json);
      var content := JsonlContent(AcceptedOf(lines, report.accepted, DATASETS[n]), json);
      if content.None? {
        return None;
      }
      var ok := WriteQuarantine(lines, report.quarantined, DATASETS[n], json);
      if !ok {
        return None;
      }
      written := written + [content.value];
    }
    forall i: nat | i < |lines| && (i in report.accepted || i in report.quarantined)
      ensures CanBeWritten(lines[i], json)
    {
      EveryDatasetIsListed(lines[i].Of());
      var k :| 0 <= k < |DATASETS| && DATASETS[k] == lines[i].Of();
    }
    return Some(written);
  }

  /** Only quarantined lines can be impossible to write, so the report does not matter. */
  lemma OutputsAreAllLines(lines: seq<B.Line>, schema: V.Record -> bool, report: B.Report, json: Json)
    requires B.Reports(lines, Checked(schema, json), report)
    ensures OutputsCanBeWritten(lines, report, json) <==> AllCanBeWritten(lines, json)
  {
    hide V.Accepted, B.CountIn;
    var all, checked := B.AllOf(lines), Checked(schema, json);
    R.PassesOnlyReject(all, checked);
    forall i: nat | i < |lines| && i !in report.quarantined ensures CanBeWritten(lines[i], json) {
      assert lines[i].record in V.Conforming(all, checked);
    }
  }

  lemma {:induction false} BatchSizes(lines: seq<B.Line>, accepted: seq<nat>, encode: Encoding, n: nat)
    requires Usable(lines, accepted) && n <= |DATASETS|
    ensures SumOf(AllEncoded(EvidenceOf(lines, accepted), encode)[..n]) == SizesTo(lines, accepted, n)
  {
    hide AcceptedOf;
    if n > 0 {
      BatchSizes(lines, accepted, encode, n - 1);
      NextBatch(AllEncoded(EvidenceOf(lines, accepted), encode), n - 1);
    }
  }

  lemma BatchesHoldAllAccepted(lines: seq<B.Line>, accepted: seq<nat>, encode: Encoding)
    requires Usable(lines, accepted)
    ensures SumOf(AllEncoded(EvidenceOf(lines, accepted), encode)) == |accepted|
  {
    var batches := AllEncoded(EvidenceOf(lines, accepted), encode);
    assert batches[..|DATASETS|] == batches;
    BatchSizes(lines, accepted, encode, |DATASETS|);
    DatasetsHoldAllAccepted(lines, accepted);
  }

  /** Each accepted record is new to its dataset's table, or is what the table holds. */
  ghost predicate BundleAgrees(tables: seq<Table>, accepted: set<V.Record>, encode: Encoding) {
    && |tables| == |DATASETS|
    && forall k, r :: 0 <= k < |DATASETS| && r in accepted && r.Dataset() == DATASETS[k] ==>
      Hashes(KnownOf(tables[k]), encode(r).identity) in {{}, {encode(r).payload}}
  }

  lemma AgreeingTables(
      tables: seq<Table>, lines: seq<B.Line>, conforms: V.Record -> bool, report: B.Report, encode: Encoding)
    requires B.Reports(lines, conforms, report) && Faithful(encode) && Usable(lines, report.accepted)
    requires BundleAgrees(tables, V.Accepted(B.AllOf(lines), conforms), encode)
    ensures TablesAgree(tables, AllEncoded(EvidenceOf(lines, report.accepted), encode))
  {
    hide B.Reports, Consistent, AcceptedOf, Faithful, V.Accepted, KnownOf;
    var evidence := EvidenceOf(lines, report.accepted);
    forall k | 0 <= k < |DATASETS| ensures TableAgrees(tables[k], Encoded(evidence[k], encode)) {
      AcceptedIsConsistent(lines, conforms, report, DATASETS[k], encode);
      forall x | x in Encoded(evidence[k], encode) ensures Hashes(KnownOf(tables[k]), x.identity) in {{}, {x.payload}} {
        var i :| 0 <= i < |evidence[k]| && encode(evidence[k][i]) == x;
        BatchIsAccepted(lines, conforms, report, DATASETS[k], evidence[k][i]);
      }
    }
  }

  ghost predicate AcceptedAreLoadable(accepted: set<V.Record>, json: Json, encode: Encoding) {
    forall r :: r in accepted ==> Loadable(json, encode, r)
  }

  /** Loading every dataset is loading every accepted record. */
  lemma EvidenceIsLoadable(
      lines: seq<B.Line>, conforms: V.Record -> bool, report: B.Report, json: Json, encode: Encoding)
    requires B.Reports(lines, conforms, report) && Usable(lines, report.accepted)
    ensures AcceptedAreLoadable(V.Accepted(B.AllOf(lines), conforms), json, encode) <==>
      forall k :: 0 <= k < |DATASETS| ==>
        AllLoadable(json, encode, EvidenceOf(lines, report.accepted)[k])
  {
    hide B.Reports, AcceptedOf, V.Accepted, Loadable;
    var evidence, accepted := EvidenceOf(lines, report.accepted), V.Accepted(B.AllOf(lines), conforms);
    forall k, r: V.Record | 0 <= k < |DATASETS| ensures r in evidence[k] <==>
      r.Dataset() == DATASETS[k] && r in accepted {
      BatchIsAccepted(lines, conforms, report, DATASETS[k], r);
    }
    forall r | r in accepted ensures exists k :: 0 <= k < |DATASETS| && r in evidence[k] {
      EveryDatasetIsListed(r.Dataset());
      var k :| 0 <= k < |DATASETS| && DATASETS[k] == r.Dataset();
    }
  }

  lemma FailureIsRealWhen(
      failure: LoadFailure, json: Json, encode: Encoding, rs: seq<V.Record>, t: Table)
    requires Explains(failure, json, encode, rs, t, true, true) && !HasRepeats(t)
    ensures !AllLoadable(json, encode, rs)
  {
    AllLoadableIs(json, encode, rs);
  }

  lemma ReportedIsUsable(lines: seq<B.Line>, conforms: V.Record -> bool, report: B.Report)
    requires B.Reports(lines, conforms, report)
    ensures Usable(lines, report.accepted) && forall i :: i in report.quarantined ==> i < |lines|
    ensures |lines| == |report.accepted| + |report.quarantined| + |report.replays|
  {
    hide V.Accepted, B.IsReplay, B.CountIn, B.Clean;
    assert forall i: nat :: i in report.accepted ==> i < |lines| && lines[i].Usable?;
  }

  lemma DeclaresThePayload(
      plan: Plan, manifest: Artifact, raw: nat, v: ValidationCounts, l: LoadCounts, reconciliation: Artifact)
    requires raw == v.accepted + v.quarantined + v.duplicates && l.tables == |DATASETS|
    requires l.conflicts == 0 && l.inserted >= 0 && l.reused >= 0 && l.inserted + l.reused == v.accepted
    requires plan.startDate <= plan.endDate
    ensures var r := Reconcile(plan, raw, v, l);
      r.Reconciled? && CoverageFrom(plan, manifest, r.summary, reconciliation) ==
        Some(Coverage(PayloadOf(plan, manifest, raw, v), plan.orchestratorRunId, reconciliation))
      && PayloadOf(plan, manifest, raw, v).status ==
        if v.accepted + v.duplicates == raw then Succeeded else SucceededWithQuarantine
  {
  }

  predicate HasDeclared(rows: seq<Coverage>, payload: Declaration) {
    |rows| == 1 && rows[0].payload == payload
  }

  /** Once a batch is loaded its table agrees with it, and loading it again reuses every record. */
  lemma {:induction false} ReplayReusesEverything(t: Table, rs: seq<Record>, size: nat, limit: nat)
    requires size > 0 && Consistent(rs) && Agrees(KnownOf(t), rs)
    ensures var after := TableAfter(t, Chunks(rs, size));
      var replay := LoadAll(NOTHING_YET, KnownOf(after), Chunks(rs, size), limit);
      && Agrees(KnownOf(after), rs) && TableAfter(after, Chunks(rs, size)) == after
      && replay.inserted == 0 && replay.skipped == |rs| && replay.log.records == 0
  {
    hide LoadAll, Agrees, Consistent;
    AgreeingLoadIsClean(t, rs, size, limit);
    AgreeingLoadIsClean(TableAfter(t, Chunks(rs, size)), rs, size, limit);
    ReplayInsertsNothing(t, Chunks(rs, size), limit);
  }

  /**
    Validates, writes, loads, reconciles and declares. Over tables that agree with the accepted content
    and repeat no row, with every statement answered and no other writer, a run declares its coverage
    exactly when the validator does not raise, every line of the bundle can be written, the manifest
    counts the lines as they are, and the loading step can take every accepted record; and what it
    declares depends on the plan and the bundle alone: created the first time, reused ever after.
   */
  method RunBatch(
      plan: Plan, manifest: Artifact, raw: nat, lines: seq<B.Line>, schema: V.Record -> bool, json: Json,
      encode: Encoding, loaders: seq<TrinoIcebergLoader>, publisher: BatchRunCoveragePublisher,
      reconciliation: Artifact)
      returns (result: RunResult, report: Option<B.Report>)
    requires Faithful(encode) && RoundTrips(json) && plan.startDate <= plan.endDate && Ready(loaders, |DATASETS|)
    modifies loaders, publisher
    ensures report.None? <==> V.Raises(B.AllOf(lines), Checked(schema, json))
    ensures result.ValidationRaised? <==> report.None?
    ensures report.Some? ==>
      B.Reports(lines, Checked(schema, json), report.value) && Usable(lines, report.value.accepted)
    // Outputs are not written exactly when a line cannot be, and then nothing is loaded.
    ensures report.Some? ==> (result.OutputsNotWritten? <==> !AllCanBeWritten(lines, json))
    ensures result.ValidationRaised? || result.OutputsNotWritten? ==> TablesOf(loaders) == old(TablesOf(loaders))
    ensures !result.Declared? ==> publisher.rows == old(publisher.rows)
    // A bundle that is not loaded has a record or a table to blame, or a statement without an answer.
    ensures result.NotLoaded? ==>
      && report.Some? && result.dataset < |DATASETS|
      && Explains(result.failure, json, encode, EvidenceOf(lines, report.value.accepted)[result.dataset],
                  old(TablesOf(loaders))[result.dataset], AllAlone(loaders), AllAnswered(loaders))
    // A bundle that is loaded balances.
    ensures
      (&& AllAlone(loaders) && raw == |lines|
       && BundleAgrees(old(TablesOf(loaders)), V.Accepted(B.AllOf(lines), Checked(schema, json)), encode)) ==>
      result.ValidationRaised? || result.OutputsNotWritten? || result.NotLoaded? || result.Declared?
    ensures result.NotReconciled? ==> (result.why.ValidationDoesNotBalance? <==> raw != |lines|)
    // Exactly when a run declares its coverage.
    ensures
      (&& AllAlone(loaders) && AllAnswered(loaders) && NoneRepeats(old(TablesOf(loaders)))
       && BundleAgrees(old(TablesOf(loaders)), V.Accepted(B.AllOf(lines), Checked(schema, json)), encode)) ==>
      (result.Declared? <==>
        && !V.Raises(B.AllOf(lines), Checked(schema, json))
        && AllCanBeWritten(lines, json)
        && raw == |lines|
        && AcceptedAreLoadable(V.Accepted(B.AllOf(lines), Checked(schema, json)), json, encode))
    // What it loads and declares.
    ensures result.Declared? || result.NotReconciled? || result.CoverageRejected? ==>
      report.Some? && (AllAlone(loaders) ==>
        HoldBatches(loaders, old(TablesOf(loaders)), AllEncoded(EvidenceOf(lines, report.value.accepted), encode)))
    ensures result.Declared? && (result.publication.Created? || result.publication.Reused?) ==>
      && HasDeclared(publisher.RowsFor(plan.runId), PayloadOf(plan, manifest, |lines|, CountsOf(report.value)))
      && TellsTheRun(publisher.RowsFor(plan.runId)[0].payload, plan, manifest, lines, Checked(schema, json),
                     report.value)
    ensures result.Declared? && result.publication.Unanswered? ==> !publisher.answered
    ensures result.Declared? && publisher.alone && old(publisher.RowsFor(plan.runId)) == [] ==>
      result.publication in {Created, Unanswered}
    ensures result.Declared? && publisher.alone ==>
      (HasDeclared(old(publisher.RowsFor(plan.runId)), PayloadOf(plan, manifest, |lines|, CountsOf(report.value))) ==>
        result.publication in {Reused, Unanswered} && publisher.rows == old(publisher.rows))
  {
    hide B.Reports, Faithful, TableAfter, Chunks, AcceptedOf, V.Raises, V.Accepted, BundleAgrees, TablesAgree, Explains;
    hide AllLoadable, AcceptedAreLoadable, EvidenceOf, AllEncoded, SumOf, RoundTrips, Loadable, Checked, AreFiles;
    hide AllCanBeWritten, OutputsCanBeWritten, TellsTheRun, Reconcile, PayloadOf, HoldBatches;
    var checked := Checked(schema, json);
    report := ValidateCandidates(lines, checked);
    if report.None? {
      return ValidationRaised, None;
    }
    var accepted := report.value.accepted;
    ReportedIsUsable(lines, checked, report.value);
    OutputsAreAllLines(lines, schema, report.value, json);
    PayloadTellsTheRun(plan, manifest, lines, checked, report.value);
    var files := WriteResult(lines, report.value, json);
    if files.None? {
      return OutputsNotWritten, report;
    }
    var evidence := EvidenceOf(lines, accepted);
    BatchesHoldAllAccepted(lines, accepted, encode);
    EvidenceIsLoadable(lines, checked, report.value, json, encode);
    ghost var tables := TablesOf(loaders);
    if BundleAgrees(tables, V.Accepted(B.AllOf(lines), checked), encode) {
      AgreeingTables(tables, lines, checked, report.value, encode);
    }
    var outcome := LoadValidatedBundle(loaders, files.value, evidence, json, encode);
    if outcome.LoadFailed? {
      if AllAlone(loaders) && AllAnswered(loaders) && NoneRepeats(tables) {
        FailureIsRealWhen(outcome.failure, json, encode, evidence[outcome.dataset], tables[outcome.dataset]);
      }
      return NotLoaded(outcome.dataset, outcome.failure), report;
    }
    var load, v := outcome.counts, CountsOf(report.value);
    if raw == |lines| && load.conflicts == 0 && load.inserted >= 0 && load.reused >= 0 {
      DeclaresThePayload(plan, manifest, raw, v, load, reconciliation);
    }
    var reconciled := Reconcile(plan, raw, v, load);
    if reconciled.Unbalanced? {
      return NotReconciled(reconciled.why), report;
    }
    var coverage := CoverageFrom(plan, manifest, reconciled.summary, reconciliation);
    if coverage.None? {
      return CoverageRejected, report;
    }
    var publication := publisher.Publish(coverage.value);
    return Declared(publication, load), report;
  }
}
