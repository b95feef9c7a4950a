/** Loads, validates and finally marks one serving version. */
module ServingPublishers {
  import opened Sequences
  import opened ServingTables
  import opened ServingReader
  import opened ChangePlans
  import opened ServingStores

  datatype Disposition = Created | Reused

  datatype Reason = SourceRejected | MarkerConflict | StoreUnavailable | CandidateRejected | SummariesRejected

  datatype Outcome = Published(marker: Marker, disposition: Disposition) | Failed(reason: Reason)

  // Change summaries

  predicate ValidCounts(s: Summary) {
    && s.sourceRows >= 0 && s.insertedRows >= 0 && s.updatedRows >= 0 && s.deletedRows >= 0 && s.unchangedRows >= 0
    && s.sourceRows == s.insertedRows + s.updatedRows + s.unchangedRows
  }

  predicate ValidBase(s: Summary) {
    && (s.base.Some? ==> s.base.value != s.attempt)
    && match s.mode
       case Full => s.base.None? && s.updatedRows == 0 && s.deletedRows == 0 && s.unchangedRows == 0
       case Incremental => s.base.Some?
  }

  /** The audit of one publication: one summary per dataset, agreeing on attempt, mode and base. */
  predicate ValidSummaries(ss: seq<Summary>, expected: Option<AttemptId>) {
    && |ss| == 2
    && (set s | s in ss :: s.dataset) == {Current, History}
    && ss[0].attempt == ss[1].attempt && ss[0].mode == ss[1].mode && ss[0].base == ss[1].base
    && forall s :: s in ss ==> (expected.Some? ==> s.attempt == expected.value) && ValidBase(s) && ValidCounts(s)
  }

  predicate SummariesAgree(m: Marker, ss: seq<Summary>) {
    && ValidSummaries(ss, Some(m.id))
    && forall s :: s in ss ==> s.sourceRows == m.Count(s.dataset) && s.recordedAt == m.publishedAt
  }

  /** What a summary must say to pass the audit of the marker, given the number of rows the marker declares. */
  ghost predicate Balances(s: Summary, m: Marker, count: nat) {
    && s.attempt == m.id && s.recordedAt == m.publishedAt && s.sourceRows == count
    && s.insertedRows >= 0 && s.updatedRows >= 0 && s.deletedRows >= 0 && s.unchangedRows >= 0
    && s.insertedRows + s.updatedRows + s.unchangedRows == count
    && match s.base
       case None => s.mode.Full? && s.insertedRows == count && s.deletedRows == 0
       case Some(base) => s.mode.Incremental? && base != m.id
  }

  /** An audit agrees exactly when it is one balanced summary for each dataset, both built on the same version. */
  lemma SummariesAgreeIff(m: Marker, ss: seq<Summary>)
    ensures SummariesAgree(m, ss) <==>
      && |ss| == 2 && ss[0].base == ss[1].base
      && Balances(ss[0], m, if ss[0].dataset.Current? then m.currentCount else m.historyCount)
      && Balances(ss[1], m, if ss[1].dataset.Current? then m.currentCount else m.historyCount)
      && ss[0].dataset != ss[1].dataset
  {
    if |ss| == 2 {
      TwoDatasets(ss);
      hide Balances, ValidBase, ValidCounts;
      assert ss[0] in ss && ss[1] in ss && forall s :: s in ss ==> s == ss[0] || s == ss[1];
      BalancesIff(ss[0], m);
      BalancesIff(ss[1], m);
    }
  }

  lemma TwoDatasets(ss: seq<Summary>)
    requires |ss| == 2
    ensures (set s | s in ss :: s.dataset) == {Current, History} <==> ss[0].dataset != ss[1].dataset
  {
    var datasets := set s | s in ss :: s.dataset;
    assert ss[0] in ss && ss[1] in ss && forall s :: s in ss ==> s == ss[0] || s == ss[1];
    assert datasets == {ss[0].dataset, ss[1].dataset};
    if datasets == {Current, History} {
      assert Current in datasets && History in datasets;
    }
  }

  lemma BalancesIff(s: Summary, m: Marker)
    ensures Balances(s, m, m.Count(s.dataset)) <==>
      && s.attempt == m.id && ValidBase(s) && ValidCounts(s)
      && s.sourceRows == m.Count(s.dataset) && s.recordedAt == m.publishedAt
    ensures Balances(s, m, m.Count(s.dataset)) ==> (s.mode.Full? <==> s.base.None?)
  {
  }

  /** Every ready version has a stored audit that its own publication result accepts. */
  ghost predicate Audited(t: Tables) {
    forall m :: m in t.markers ==> SummariesAgree(m, t.Summaries(m.id))
  }

  lemma WritesKeepAudit(a: Tables, b: Tables, attempt: AttemptId)
    requires Audited(a) && OnlyAttempt(a, b, attempt) && attempt !in a.ReadyIds()
    ensures Audited(b)
  {
    forall m | m in b.markers ensures SummariesAgree(m, b.Summaries(m.id)) {
      assert m.id in a.ReadyIds();
      assert SameAttempt(a, b, m.id);
    }
  }

  lemma MarkingKeepsAudit(a: Tables, b: Tables, m: Marker)
    requires Audited(a) && SummariesAgree(m, a.Summaries(m.id)) && b == a.(markers := a.markers + [m])
    ensures Audited(b)
  {
    forall n | n in b.markers ensures SummariesAgree(n, b.Summaries(n.id)) {
      assert n == m || n in a.markers;
      assert b.Summaries(n.id) == a.Summaries(n.id);
    }
  }

  /** The plan's summary passes the audit and counts `sourceRows` source rows. */
  ghost predicate PlanAudits(
    plan: ChangePlan, id: AttemptId, base: Option<AttemptId>, ds: Dataset, at: Instant, sourceRows: nat)
  {
    var s := plan.Summarize(id, base, ds, if base.Some? then Incremental else Full, at);
    ValidBase(s) && ValidCounts(s) && s.sourceRows == sourceRows
  }

  /** How the rows of a dataset changed since the base version, if it was built on one. */
  ghost predicate CountsChanges(s: Summary, source: seq<Row>, base: Option<seq<Row>>) {
    match base
    case None =>
      s.mode.Full? && s.insertedRows == |source| && s.updatedRows == 0 && s.deletedRows == 0 && s.unchangedRows == 0
    case Some(rows) =>
      && s.mode.Incremental?
      && s.insertedRows == |Keys(source) - Keys(rows)|
      && s.deletedRows == |Keys(rows) - Keys(source)|
      && s.updatedRows == |set r | r in source && r !in rows && r.key in Keys(rows) :: r.key|
      && s.unchangedRows == |set r | r in source && r in rows :: r.key|
  }

  /** The stored audit of a version: how both its datasets changed since the base version. */
  ghost predicate AuditsChanges(
    ss: seq<Summary>, id: AttemptId, base: Option<AttemptId>, current: seq<Row>, history: seq<Row>,
    baseCurrent: Option<seq<Row>>, baseHistory: Option<seq<Row>>, now: Instant)
  {
    && |ss| == 2 && ss[0].dataset.Current? && ss[1].dataset.History?
    && (forall s :: s in ss ==> s.attempt == id && s.base == base && s.recordedAt == now)
    && ss[0].sourceRows == |current| && CountsChanges(ss[0], current, baseCurrent)
    && ss[1].sourceRows == |history| && CountsChanges(ss[1], history, baseHistory)
  }

  lemma PlanCountsChanges(
      id: AttemptId, source: seq<Row>, base: Option<AttemptId>, baseRows: Option<seq<Row>>, ds: Dataset, at: Instant)
    requires UniqueKeys(source) && (baseRows.Some? <==> base.Some?)
    requires base.Some? ==> UniqueKeys(baseRows.value)
    ensures CountsChanges(
      PlanFor(source, baseRows).Summarize(id, base, ds, if base.Some? then Incremental else Full, at), source, baseRows)
  {
    if base.Some? {
      var rows := baseRows.value;
      var changed := UpdatedKeys(source, rows);
      SortedSet(Keys(source) - Keys(rows));
      SortedSet(changed);
      SortedSet(Keys(rows) - Keys(source));
      UpdatedKeysAre(source, rows);
    } else {
      SortedSet(Keys(source));
      KeysCount(source);
    }
  }

  lemma TwoSummariesAudit(
      s: Summary, r: Summary, base: Option<AttemptId>, current: seq<Row>, history: seq<Row>,
      baseCurrent: Option<seq<Row>>, baseHistory: Option<seq<Row>>)
    requires s.dataset.Current? && r.dataset.History? && s.attempt == r.attempt && s.recordedAt == r.recordedAt
    requires s.base == r.base == base && s.sourceRows == |current| && r.sourceRows == |history|
    requires CountsChanges(s, current, baseCurrent) && CountsChanges(r, history, baseHistory)
    ensures AuditsChanges([s, r], s.attempt, base, current, history, baseCurrent, baseHistory, s.recordedAt)
  {
    hide CountsChanges;
    assert forall x :: x in [s, r] ==> x == s || x == r;
  }

  lemma UpdatedKeysAre(source: seq<Row>, base: seq<Row>)
    requires UniqueKeys(source) && UniqueKeys(base)
    ensures UpdatedKeys(source, base) == set r | r in source && r !in base && r.key in Keys(base) :: r.key
    ensures Keys(source) * Keys(base) - UpdatedKeys(source, base) == set r | r in source && r in base :: r.key
  {
    forall r | r in source ensures RowAt(source, r.key) == r {
      UniqueKeysPickOne(source, r);
    }
    forall r | r in base ensures RowAt(base, r.key) == r {
      UniqueKeysPickOne(base, r);
    }
  }

  /** What the plan of one dataset says about the source, with or without a base version. */
  ghost function PlanFor(source: seq<Row>, base: Option<seq<Row>>): ChangePlan {
    if base.None? then FullPlan(source) else Plan(source, base.value)
  }

  lemma TwoSummariesAgree(m: Marker, s: Summary, r: Summary)
    requires s.dataset.Current? && r.dataset.History?
    requires s.attempt == r.attempt == m.id && s.mode == r.mode && s.base == r.base
    requires ValidBase(s) && ValidCounts(s) && s.sourceRows == m.currentCount && s.recordedAt == m.publishedAt
    requires ValidBase(r) && ValidCounts(r) && r.sourceRows == m.historyCount && r.recordedAt == m.publishedAt
    ensures ValidSummaries([s, r], None) && SummariesAgree(m, [s, r])
  {
    assert (set x | x in [s, r] :: x.dataset) == {s.dataset, r.dataset};
    assert forall x :: x in [s, r] ==> x == s || x == r;
  }

  lemma SummaryAccepted(
      id: AttemptId, source: seq<Row>, base: Option<AttemptId>, baseRows: Option<seq<Row>>, ds: Dataset, at: Instant)
    requires UniqueKeys(source) && (baseRows.Some? <==> base.Some?)
    requires base.Some? ==> base.value != id && UniqueKeys(baseRows.value)
    ensures PlanAudits(PlanFor(source, baseRows), id, base, ds, at, |source|)
  {
    if base.Some? {
      PlanConservesRows(source, baseRows.value);
    } else {
      SortedSet(Keys(source));
      KeysCount(source);
    }
  }

  // Reading back

  function WithFingerprint(markers: seq<Marker>, f: Fingerprint): (found: seq<Marker>)
    ensures forall m :: m in found <==> m in markers && m.fingerprint == f
  {
    if markers == [] then []
    else (if markers[0].fingerprint == f then [markers[0]] else []) + WithFingerprint(markers[1..], f)
  }

  /** The stored rows of a version still have the count and content its marker declares. */
  function Usable(t: Tables, m: Marker, ds: Dataset): bool {
    var p := ProfileOf(t.Rows(ds, m.id));
    p.Some? && p.value.rowCount == m.Count(ds) && p.value.content == m.Content(ds)
  }

  predicate HasUsableNewest(t: Tables) {
    t.markers != [] && Usable(t, Newest(t.markers), Current) && Usable(t, Newest(t.markers), History)
  }

  /** A version is usable when its stored rows have unique keys, pass the checks and are what its marker declares. */
  lemma UsableIff(t: Tables, m: Marker, ds: Dataset)
    ensures Usable(t, m, ds) <==>
      && |t.Rows(ds, m.id)| == (if ds.Current? then m.currentCount else m.historyCount)
      && multiset(t.Rows(ds, m.id)) == (if ds.Current? then m.currentContent.rows else m.historyContent.rows)
      && UniqueKeys(t.Rows(ds, m.id)) && forall r :: r in t.Rows(ds, m.id) ==> r.conforms
  {
  }

  /** The version a publication is built on: the newest one, if both its datasets are usable. */
  function BaseId(t: Tables): Option<AttemptId> {
    if HasUsableNewest(t) then Some(Newest(t.markers).id) else None
  }

  function BaseRows(t: Tables, ds: Dataset): Option<seq<Row>> {
    if HasUsableNewest(t) then Some(t.Rows(ds, Newest(t.markers).id)) else None
  }

  predicate ExistingAgrees(m: Marker, runId: string, f: Fingerprint) {
    && m.runId == runId && m.coverage == f.coverage && m.dbt == f.dbt
    && m.currentCount == f.current.rowCount && m.historyCount == f.history.rowCount
    && m.currentContent == f.current.content && m.historyContent == f.history.content
  }

  function StoredMatches(t: Tables, m: Marker, f: Fingerprint): bool {
    && Usable(t, m, Current) && Usable(t, m, History)
    && ProfileOf(t.Rows(Current, m.id)) == Some(f.current) && ProfileOf(t.Rows(History, m.id)) == Some(f.history)
  }

  function FingerprintOf(coverage: Hash, dbt: Hash, current: seq<Row>, history: seq<Row>): (f: Option<Fingerprint>)
    ensures f.Some? <==> Profiled(current) && Profiled(history)
    ensures f.Some? ==> f.value.coverage == coverage && f.value.dbt == dbt
    ensures f.Some? ==> Some(f.value.current) == ProfileOf(current) && Some(f.value.history) == ProfileOf(history)
  {
    var c, h := ProfileOf(current), ProfileOf(history);
    if c.None? || h.None? then None else Some(Fingerprint(coverage, dbt, c.value, h.value))
  }

  /** What the store's reads decide when none of them fails. */
  function Reuse(t: Tables, runId: string, f: Fingerprint): Option<Outcome> {
    var matching := WithFingerprint(t.markers, f);
    if matching == [] then None
    else
      var m := Newest(matching);
      if !ExistingAgrees(m, runId, f) then Some(Failed(MarkerConflict))
      else if !StoredMatches(t, m, f) then None
      else if !SummariesAgree(m, t.Summaries(m.id)) then Some(Failed(SummariesRejected))
      else Some(Published(m, Reused))
  }

  /** The marker names the same run and inputs, and the same rows, as a call does. */
  ghost predicate SamePublication(
    m: Marker, runId: string, coverage: Hash, dbt: Hash, current: seq<Row>, history: seq<Row>) {
    && m.runId == runId && m.coverage == coverage && m.dbt == dbt
    && m.currentCount == |current| && m.currentContent.rows == multiset(current)
    && m.historyCount == |history| && m.historyContent.rows == multiset(history)
  }

  lemma AgreesWhenSame(
      m: Marker, runId: string, coverage: Hash, dbt: Hash, f: Fingerprint, current: seq<Row>, history: seq<Row>)
    requires Some(f.current) == ProfileOf(current) && Some(f.history) == ProfileOf(history)
    requires f.coverage == coverage && f.dbt == dbt
    ensures ExistingAgrees(m, runId, f) <==> SamePublication(m, runId, coverage, dbt, current, history)
  {
  }

  lemma StoredMatchesIff(t: Tables, m: Marker, f: Fingerprint, runId: string, current: seq<Row>, history: seq<Row>)
    requires Some(f.current) == ProfileOf(current) && Some(f.history) == ProfileOf(history)
    requires ExistingAgrees(m, runId, f)
    ensures StoredMatches(t, m, f) <==>
      multiset(t.Rows(Current, m.id)) == multiset(current) && multiset(t.Rows(History, m.id)) == multiset(history)
  {
    SameProfileIffPermutation(current, t.Rows(Current, m.id));
    SameProfileIffPermutation(history, t.Rows(History, m.id));
  }

  /**
    How stored versions decide a call: by the newest marker with its fingerprint. One that names
    something else is a conflict; one whose rows are no longer stored as they were is published anew;
    and otherwise its audit decides.
   */
  lemma ReuseDecides(t: Tables, runId: string, coverage: Hash, dbt: Hash, current: seq<Row>, history: seq<Row>)
    requires Profiled(current) && Profiled(history)
    ensures var f := FingerprintOf(coverage, dbt, current, history).value;
      var reuse := Reuse(t, runId, f);
      if forall m :: m in t.markers ==> m.fingerprint != f then reuse.None?
      else
        var m := Newest(WithFingerprint(t.markers, f));
        if !SamePublication(m, runId, coverage, dbt, current, history) then reuse == Some(Failed(MarkerConflict))
        else if multiset(t.Rows(Current, m.id)) != multiset(current)
                || multiset(t.Rows(History, m.id)) != multiset(history) then reuse.None?
        else if !SummariesAgree(m, t.Summaries(m.id)) then reuse == Some(Failed(SummariesRejected))
        else reuse == Some(Published(m, Reused))
  {
    var f := FingerprintOf(coverage, dbt, current, history).value;
    hide SummariesAgree, SamePublication, ExistingAgrees, StoredMatches, FingerprintOf, ProfileOf;
    if WithFingerprint(t.markers, f) != [] {
      var m := Newest(WithFingerprint(t.markers, f));
      assert m in t.markers && m.fingerprint == f;
      AgreesWhenSame(m, runId, coverage, dbt, f, current, history);
      if ExistingAgrees(m, runId, f) {
        StoredMatchesIff(t, m, f, runId, current, history);
      }
    }
  }

  lemma StoredRowsMatch(t: Tables, m: Marker, ds: Dataset, source: seq<Row>)
    requires Declares(t, m)
    requires ProfileOf(source) == Some(if ds.Current? then m.fingerprint.current else m.fingerprint.history)
    ensures Usable(t, m, ds) && ProfileOf(t.Rows(ds, m.id)) == ProfileOf(source)
  {
    assert multiset(t.Rows(ds, m.id)) == m.Content(ds).rows;
    SameProfileIffPermutation(source, t.Rows(ds, m.id));
  }

  /**
    Publishing is idempotent: while the tables are faithful and audited, a source published before
    is answered from the newest version that holds it, never by a second copy of it.
   */
  lemma {:induction false} PublishedBeforeIsReused(t: Tables, runId: string, f: Fingerprint, current: seq<Row>,
      history: seq<Row>)
    requires Faithful(t) && Audited(t)
    requires ProfileOf(current) == Some(f.current) && ProfileOf(history) == Some(f.history)
    requires exists m :: m in t.markers && m.fingerprint == f
    ensures var m := Newest(WithFingerprint(t.markers, f));
      Reuse(t, runId, f) == Some(if m.runId == runId then Published(m, Reused) else Failed(MarkerConflict))
  {
    var m := Newest(WithFingerprint(t.markers, f));
    assert Declares(t, m);
    StoredRowsMatch(t, m, Current, current);
    StoredRowsMatch(t, m, History, history);
  }

  /** An unpinned reader moves to the new version exactly when the clock put it after every older one. */
  lemma NewVersionIsServedIff(t: Tables, m: Marker)
    requires m.id !in t.ReadyIds()
    ensures Resolve(t.(markers := t.markers + [m]), None) == Some(m.id)
       <==> forall n :: n in t.markers ==>
         n.publishedAt < m.publishedAt || (n.publishedAt == m.publishedAt && n.id < m.id)
  {
    var all := t.markers + [m];
    assert forall n :: n in all <==> n in t.markers || n == m;
    var newest := Newest(all);
    if newest != m {
      assert newest in t.markers;
    }
    assert m in all;
  }

  /** The version `id` is ready and holds a permutation of the given source rows. */
  ghost predicate Serves(t: Tables, m: Marker, current: seq<Row>, history: seq<Row>) {
    && m in t.markers
    && multiset(t.Rows(Current, m.id)) == multiset(current)
    && multiset(t.Rows(History, m.id)) == multiset(history)
  }

  /** A publication changes its own attempt only, and ends by adding at most that attempt's marker. */
  ghost predicate PublishedOnly(past: seq<Tables>, trail: seq<Tables>, attempt: AttemptId) {
    || WroteOnly(past, trail, attempt)
    || (|trail| > 1 && WroteOnly(past, Past(trail), attempt)
        && exists m: Marker :: m.id == attempt && AddsMarker(Past(trail), Latest(Past(trail)), Latest(trail), m))
  }

  /** A version answered without writing serves the source of the call, with an audit that agrees. */
  lemma ReuseServes(t: Tables, runId: string, coverage: Hash, dbt: Hash, current: seq<Row>, history: seq<Row>)
    requires Profiled(current) && Profiled(history)
    ensures FingerprintOf(coverage, dbt, current, history).Some?
    ensures var reuse := Reuse(t, runId, FingerprintOf(coverage, dbt, current, history).value);
      reuse.Some? ==> match reuse.value
        case Published(m, disposition) =>
          m.runId == runId && m.coverage == coverage && m.dbt == dbt && disposition == Reused &&
            Serves(t, m, current, history) && SummariesAgree(m, t.Summaries(m.id))
        case Failed(reason) => reason == MarkerConflict || (reason == SummariesRejected && !Audited(t))
  {
    hide SummariesAgree;
    var f := FingerprintOf(coverage, dbt, current, history).value;
    var reuse := Reuse(t, runId, f);
    if reuse.Some? {
      var m := Newest(WithFingerprint(t.markers, f));
      if reuse.value.Published? {
        SameProfileIffPermutation(current, t.Rows(Current, m.id));
        SameProfileIffPermutation(history, t.Rows(History, m.id));
      }
    }
  }

  lemma {:induction false} RunIsNotEmpty(trail: seq<Tables>)
    requires Run(trail)
    ensures trail != []
  {
  }

  lemma {:induction false} NothingPublished(trail: seq<Tables>, attempt: AttemptId)
    requires Run(trail)
    ensures PublishedOnly(trail, trail, attempt)
  {
  }

  /** No row or summary is stored under the attempt. */
  predicate Untouched(t: Tables, attempt: AttemptId) {
    t.Rows(Current, attempt) == [] && t.Rows(History, attempt) == [] && t.Summaries(attempt) == []
  }

  lemma MarkedLast(past: seq<Tables>, loaded: seq<Tables>, next: Tables, m: Marker)
    requires WroteOnly(past, loaded, m.id) && Declares(Latest(loaded), m)
    requires next == Latest(loaded).(markers := Latest(loaded).markers + [m])
    requires forall t :: t in loaded ==> m.id !in t.ReadyIds()
    ensures PublishedOnly(past, loaded + [next], m.id)
  {
    assert Past(loaded + [next]) == loaded;
    assert AddsMarker(loaded, Latest(loaded), next, m);
  }

  lemma NotMarkedYet(past: seq<Tables>, loaded: seq<Tables>, id: AttemptId)
    requires WroteOnly(past, loaded, id) && forall t :: t in past ==> id !in t.ReadyIds()
    ensures loaded != [] && PublishedOnly(past, loaded, id)
    ensures forall t :: t in loaded ==> id !in t.ReadyIds()
  {
    forall k | 0 <= k < |loaded| ensures id !in loaded[k].ReadyIds() {
      if k < |past| {
        assert loaded[k] == past[k];
      } else {
        assert OnlyAttempt(Latest(past), loaded[k], id) && Latest(past) in past;
      }
    }
  }

  class ServingPublisher {
    const store: ServingStore

    constructor (store: ServingStore)
      ensures this.store == store
    {
      this.store := store;
    }

    /** Builds one dataset of the candidate and returns the plan that describes it. */
    method BuildCandidate(
        ds: Dataset, source: seq<Row>, baseId: AttemptId, base: Option<seq<Row>>, attempt: AttemptId)
        returns (ok: bool, plan: ChangePlan)
      requires store.Valid() && attempt !in store.tables.ReadyIds() && Profiled(source)
      requires base.Some? ==> UniqueKeys(base.value) && base.value == store.tables.Rows(ds, baseId) && baseId != attempt
      modifies store
      ensures store.Valid() && WroteOnly(old(store.trail), store.trail, attempt) && (store.exact ==> old(store.exact))
      ensures (store.answered ==> old(store.answered)) && (ok || !store.answered)
      ensures forall other: Dataset ::
        other != ds ==> store.tables.Rows(other, attempt) == old(store.tables).Rows(other, attempt)
      ensures store.tables.Summaries(attempt) == old(store.tables).Summaries(attempt)
      ensures plan == PlanFor(source, base)
      ensures ok && store.exact && old(store.tables).Rows(ds, attempt) == [] ==>
        multiset(store.tables.Rows(ds, attempt)) == multiset(source)
    {
      hide WroteOnly, Plan, FullPlan, UniqueKeys, RemoveKeys, ChangePlan.KeysToRemove, ChangePlan.Replacement;
      ghost var start, cloned, removed := store.trail, store.trail, store.trail;
      ok := true;
      if base.None? {
        plan := FullPlan(source);
        FullCandidateEqualsSource(source);
      } else {
        var planned := PlanDatasetChanges(source, base.value);
        plan := planned.value;
        CandidateEqualsSource(source, base.value);
        ok := store.CloneCandidateRows(ds, baseId, attempt);
        if !ok { return; }
        cloned := store.trail;
        WroteOnlyReaches(start, cloned, attempt);
        ok := store.DeleteCandidateKeys(ds, attempt, plan.KeysToRemove());
        WroteOnlyTwice(start, cloned, store.trail, attempt);
        if !ok { return; }
        removed := store.trail;
        WroteOnlyReaches(start, removed, attempt);
      }
      ok := store.InsertCandidateRows(ds, attempt, plan.Replacement());
      WroteOnlyTwice(start, removed, store.trail, attempt);
      assert base.Some? ==> [] + base.value == base.value;
      assert [] + plan.Replacement() == plan.Replacement();
    }

    /**
      Publishes the given source rows under `attempt`, or reuses a ready version that already holds
      them. Nothing is assumed about the rows stored before: they may be damaged.
     */
    method Publish(
        runId: string, coverage: Hash, dbt: Hash, current: seq<Row>, history: seq<Row>, attempt: AttemptId,
        now: Instant)
        returns (outcome: Outcome)
      requires store.Valid() && forall t :: t in store.trail ==> attempt !in t.ReadyIds()
      modifies store
      ensures store.Valid() && PublishedOnly(old(store.trail), store.trail, attempt)
      ensures (store.exact ==> old(store.exact)) && (store.answered ==> old(store.answered))
      // What is returned is served, and it is exactly the source of this call.
      ensures outcome.Published? ==> Serves(store.tables, outcome.marker, current, history)
      ensures outcome.Published? ==>
        outcome.marker.runId == runId && outcome.marker.coverage == coverage && outcome.marker.dbt == dbt
      ensures outcome.Published? ==>
        (outcome.disposition.Created? ==> store.exact && old(store.tables).Summaries(attempt) == []) ==>
        SummariesAgree(outcome.marker, store.tables.Summaries(outcome.marker.id))
      ensures outcome.Published? && outcome.disposition.Reused? ==> store.tables == old(store.tables)
      ensures outcome.Published? && outcome.disposition.Created? ==>
        && outcome.marker.id == attempt && outcome.marker.publishedAt == now
        && SpansDates(outcome.marker, current + history)
        && store.tables.markers == old(store.tables).markers + [outcome.marker]
      ensures outcome.Failed? && !outcome.reason.StoreUnavailable? ==>
        store.tables.markers == old(store.tables).markers
      // What its audit says, and who is served.
      ensures
        (&& outcome.Published? && outcome.disposition.Created? && store.exact
         && old(store.tables).Summaries(attempt) == []) ==>
        AuditsChanges(store.tables.Summaries(attempt), attempt, BaseId(old(store.tables)), current, history,
                      BaseRows(old(store.tables), Current), BaseRows(old(store.tables), History), now)
      ensures
        (&& outcome.Published? && outcome.disposition.Created?
         && forall m :: m in old(store.tables).markers ==> m.publishedAt < now) ==>
        Resolve(store.tables, None) == Some(attempt)
      // When it fails.
      ensures outcome == Failed(StoreUnavailable) ==> !store.answered
      ensures outcome == Failed(SourceRejected) <==> !Profiled(current) || !Profiled(history)
      ensures outcome == Failed(CandidateRejected) ==>
        !store.exact || old(store.tables).Rows(Current, attempt) != [] || old(store.tables).Rows(History, attempt) != []
      ensures outcome == Failed(SummariesRejected) ==>
        store.tables == old(store.tables) && !Audited(store.tables)
      // When the store already decides the answer.
      ensures var f := FingerprintOf(coverage, dbt, current, history);
        f.Some? && Reuse(old(store.tables), runId, f.value).Some? ==>
          && store.tables == old(store.tables)
          && (outcome == Failed(StoreUnavailable) || Some(outcome) == Reuse(old(store.tables), runId, f.value))
      ensures store.exact && Audited(old(store.tables)) && old(store.tables).Summaries(attempt) == [] ==>
        Audited(store.tables)
      // Nothing stored before can stop a publication the store answers and carries out.
      ensures
        (&& store.answered && store.exact && Untouched(old(store.tables), attempt)
         && Profiled(current) && Profiled(history)) ==>
        var reuse := Reuse(old(store.tables), runId, FingerprintOf(coverage, dbt, current, history).value);
        if reuse.Some? then outcome == reuse.value else outcome.Published? && outcome.disposition.Created?
    {
      ghost var before := store.tables;
      assert before in store.trail;
      hide Reuse, Serves, SummariesAgree, Audited, PublishedOnly, Profiled, Run, Tables.Rows, Tables.Summaries;
      hide AuditsChanges, BaseRows, BaseId, SpansDates, FingerprintOf, ProfileOf, Declares, Resolve;
      NothingPublished(store.trail, attempt);
      var f := FingerprintOf(coverage, dbt, current, history);
      if f.None? {
        return Failed(SourceRejected);
      }
      ReuseServes(store.tables, runId, coverage, dbt, current, history);
      var fingerprint := f.value;
      var reuse := FindReusable(runId, fingerprint);
      if reuse.Some? {
        return reuse.value;
      }
      outcome := PublishFresh(runId, fingerprint, current, history, attempt, now);
      if outcome.Published? {
        NewVersionIsServedIff(before, outcome.marker);
      }
    }

    /** The answer given without writing anything, if there is one. */
    method FindReusable(runId: string, f: Fingerprint) returns (answer: Option<Outcome>)
      modifies store`answered
      ensures store.answered ==> old(store.answered) && answer == Reuse(store.tables, runId, f)
      ensures answer in {Reuse(store.tables, runId, f), Some(Failed(StoreUnavailable))}
    {
      var ok := store.Read();
      if !ok { return Some(Failed(StoreUnavailable)); }
      var matching := WithFingerprint(store.tables.markers, f);
      if matching == [] { return None; }
      var existing := Newest(matching);
      if !ExistingAgrees(existing, runId, f) { return Some(Failed(MarkerConflict)); }
      ok := store.Read();
      if !ok { return Some(Failed(StoreUnavailable)); }
      if !StoredMatches(store.tables, existing, f) { return None; }
      ok := store.Read();
      if !ok { return Some(Failed(StoreUnavailable)); }
      if !SummariesAgree(existing, store.tables.Summaries(existing.id)) {
        return Some(Failed(SummariesRejected));
      }
      return Some(Published(existing, Reused));
    }

    /** Loads and validates a new candidate, incremental whenever the newest version is intact, and marks it last. */
    method PublishFresh(
        runId: string, fingerprint: Fingerprint, current: seq<Row>, history: seq<Row>, attempt: AttemptId, now: Instant)
        returns (outcome: Outcome)
      requires store.Valid() && forall t :: t in store.trail ==> attempt !in t.ReadyIds()
      requires Some(fingerprint.current) == ProfileOf(current) && Some(fingerprint.history) == ProfileOf(history)
      modifies store
      ensures store.Valid() && PublishedOnly(old(store.trail), store.trail, attempt)
      ensures (store.exact ==> old(store.exact)) && (store.answered ==> old(store.answered))
      ensures outcome.Published? ==>
        && outcome.disposition.Created? && outcome.marker.id == attempt && outcome.marker.publishedAt == now
        && Serves(store.tables, outcome.marker, current, history)
        && outcome.marker.runId == runId && outcome.marker.coverage == fingerprint.coverage
        && outcome.marker.dbt == fingerprint.dbt
        && SpansDates(outcome.marker, current + history)
        && store.tables.markers == old(store.tables).markers + [outcome.marker]
      ensures outcome.Published? && store.exact && old(store.tables).Summaries(attempt) == [] ==>
        SummariesAgree(outcome.marker, store.tables.Summaries(attempt))
      ensures outcome.Published? && store.exact && old(store.tables).Summaries(attempt) == [] ==>
        AuditsChanges(store.tables.Summaries(attempt), attempt, BaseId(old(store.tables)), current, history,
                      BaseRows(old(store.tables), Current), BaseRows(old(store.tables), History), now)
      ensures outcome.Failed? ==> outcome.reason.StoreUnavailable? || outcome.reason.CandidateRejected?
      ensures outcome == Failed(StoreUnavailable) ==> !store.answered
      ensures outcome == Failed(CandidateRejected) ==> store.tables.markers == old(store.tables).markers
      ensures outcome == Failed(CandidateRejected) ==>
        !store.exact || old(store.tables).Rows(Current, attempt) != [] || old(store.tables).Rows(History, attempt) != []
      ensures store.exact && old(store.tables).Summaries(attempt) == [] && Audited(old(store.tables)) ==>
        Audited(store.tables)
    {
      assert store.tables in store.trail;
      hide Audited, SummariesAgree, ValidSummaries, Run, Profiled, UniqueKeys, Bound, CountsChanges, AuditsChanges;
      hide BaseId, BaseRows;
      ghost var start, tables := store.trail, store.tables;
      var ok, base, currentPlan, historyPlan := LoadCandidate(current, history, attempt, now);
      WroteOnlyReaches(start, store.trail, attempt);
      if Audited(Latest(start)) {
        WritesKeepAudit(Latest(start), store.tables, attempt);
      }
      if !ok { return Failed(StoreUnavailable); }
      var rejected := ValidateCandidate(fingerprint, current, history, attempt);
      if rejected.Some? { return Failed(rejected.value); }
      var marker := MarkerFor(attempt, fingerprint, runId, now);
      var mode := if base.Some? then Incremental else Full;
      var s := currentPlan.Summarize(attempt, base, Current, mode, now);
      var r := historyPlan.Summarize(attempt, base, History, mode, now);
      CandidateIsReady(store.tables, fingerprint, current, history, runId, s, r, base,
                       BaseRows(tables, Current), BaseRows(tables, History));
      hide MarkerFor, SpansDates, Declares, ProfileOf, ChangePlan.Summarize;
      outcome := MarkVersion(marker, [s, r], start);
    }

    /** Reads the candidate back: it must be a permutation of the source in both datasets. */
    method ValidateCandidate(f: Fingerprint, current: seq<Row>, history: seq<Row>, attempt: AttemptId)
        returns (rejected: Option<Reason>)
      requires Some(f.current) == ProfileOf(current) && Some(f.history) == ProfileOf(history)
      modifies store`answered
      ensures store.answered ==> old(store.answered)
      ensures rejected in {None, Some(StoreUnavailable), Some(CandidateRejected)}
      ensures rejected == Some(StoreUnavailable) ==> !store.answered
      ensures rejected != Some(StoreUnavailable) ==>
        (rejected.None? <==>
          && multiset(store.tables.Rows(Current, attempt)) == multiset(current)
          && multiset(store.tables.Rows(History, attempt)) == multiset(history))
    {
      var ok := store.Read();
      if !ok { return Some(StoreUnavailable); }
      SameProfileIffPermutation(current, store.tables.Rows(Current, attempt));
      SameProfileIffPermutation(history, store.tables.Rows(History, attempt));
      if ProfileOf(store.tables.Rows(Current, attempt)) != Some(f.current)
         || ProfileOf(store.tables.Rows(History, attempt)) != Some(f.history) {
        return Some(CandidateRejected);
      }
      return None;
    }

    /** Reads the newest version, and builds both datasets on top of it if its rows are intact. */
    method LoadCandidate(current: seq<Row>, history: seq<Row>, attempt: AttemptId, now: Instant)
        returns (ok: bool, base: Option<AttemptId>, currentPlan: ChangePlan, historyPlan: ChangePlan)
      requires store.Valid() && attempt !in store.tables.ReadyIds()
      requires Profiled(current) && Profiled(history)
      modifies store
      ensures store.Valid() && WroteOnly(old(store.trail), store.trail, attempt) && (store.exact ==> old(store.exact))
      ensures (store.answered ==> old(store.answered)) && (ok || !store.answered)
      ensures store.tables.Summaries(attempt) == old(store.tables).Summaries(attempt)
      ensures ok ==> PlanAudits(currentPlan, attempt, base, Current, now, |current|)
      ensures ok ==> PlanAudits(historyPlan, attempt, base, History, now, |history|)
      ensures ok ==>
        var mode := if base.Some? then Incremental else Full;
        && base == BaseId(old(store.tables))
        && CountsChanges(currentPlan.Summarize(attempt, base, Current, mode, now), current,
                         BaseRows(old(store.tables), Current))
        && CountsChanges(historyPlan.Summarize(attempt, base, History, mode, now), history,
                         BaseRows(old(store.tables), History))
      ensures ok && store.exact && old(store.tables).Rows(Current, attempt) == [] ==>
        multiset(store.tables.Rows(Current, attempt)) == multiset(current)
      ensures ok && store.exact && old(store.tables).Rows(History, attempt) == [] ==>
        multiset(store.tables.Rows(History, attempt)) == multiset(history)
    {
      ok, base, currentPlan, historyPlan := false, None, FullPlan(current), FullPlan(history);
      var baseId, baseCurrent, baseHistory;
      ok, baseId, baseCurrent, baseHistory := ReadUsableBase(attempt);
      if !ok { return; }
      base := if baseCurrent.Some? then Some(baseId) else None;
      SummaryAccepted(attempt, current, base, baseCurrent, Current, now);
      SummaryAccepted(attempt, history, base, baseHistory, History, now);
      PlanCountsChanges(attempt, current, base, baseCurrent, Current, now);
      PlanCountsChanges(attempt, history, base, baseHistory, History, now);
      hide CountsChanges, PlanAudits, ChangePlan.Summarize;
      ghost var start := store.trail;
      ok, currentPlan := BuildCandidate(Current, current, baseId, baseCurrent, attempt);
      if !ok { return; }
      ghost var half := store.trail;
      WroteOnlyReaches(start, half, attempt);
      assert baseId != attempt ==> SameAttempt(Latest(start), store.tables, baseId);
      ok, historyPlan := BuildCandidate(History, history, baseId, baseHistory, attempt);
      WroteOnlyTwice(start, half, store.trail, attempt);
    }

    /** The newest ready version's rows, if they still are what its marker declares. */
    method ReadUsableBase(attempt: AttemptId)
        returns (ok: bool, baseId: AttemptId, current: Option<seq<Row>>, history: Option<seq<Row>>)
      requires store.Valid() && attempt !in store.tables.ReadyIds()
      modifies store`answered
      ensures (store.answered ==> old(store.answered)) && (ok || !store.answered)
      ensures current.Some? <==> history.Some?
      ensures ok ==> (current.Some? <==> HasUsableNewest(store.tables))
      ensures current.Some? ==>
        && store.tables.markers != [] && baseId == Newest(store.tables.markers).id
        && baseId in store.tables.ReadyIds() && baseId != attempt
        && UniqueKeys(current.value) && current.value == store.tables.Rows(Current, baseId)
        && UniqueKeys(history.value) && history.value == store.tables.Rows(History, baseId)
    {
      ok, baseId, current, history := false, attempt, None, None;
      ok := store.Read();
      if !ok { return; }
      if store.tables.markers == [] { return true, attempt, None, None; }
      var latest := Newest(store.tables.markers);
      ok := store.Read();
      if !ok { return; }
      if !Usable(store.tables, latest, Current) || !Usable(store.tables, latest, History) {
        return true, attempt, None, None;
      }
      return true, latest.id, Some(store.tables.Rows(Current, latest.id)), Some(store.tables.Rows(History, latest.id));
    }

    /** Stores the audit, then, as the very last write, the marker that makes the candidate visible. */
    method MarkVersion(marker: Marker, summaries: seq<Summary>, ghost start: seq<Tables>) returns (outcome: Outcome)
      requires store.Valid() && WroteOnly(start, store.trail, marker.id)
      requires forall t :: t in start ==> marker.id !in t.ReadyIds()
      requires Declares(store.tables, marker) && marker.id !in store.tables.ReadyIds()
      requires ValidSummaries(summaries, None) && SummariesAgree(marker, summaries)
      modifies store
      ensures store.Valid() && PublishedOnly(start, store.trail, marker.id) && (store.exact ==> old(store.exact))
      ensures store.answered ==> old(store.answered)
      ensures outcome == Published(marker, Created) || (outcome == Failed(StoreUnavailable) && !store.answered)
      ensures outcome.Published? && store.exact && old(store.tables).Summaries(marker.id) == [] ==>
        store.tables.Summaries(marker.id) == summaries
      ensures outcome.Published? ==> store.tables.markers == old(store.tables).markers + [marker]
      ensures forall ds: Dataset :: store.tables.Rows(ds, marker.id) == old(store.tables).Rows(ds, marker.id)
      ensures store.exact && old(store.tables).Summaries(marker.id) == [] && Audited(old(store.tables)) ==>
        Audited(store.tables)
    {
      hide ValidSummaries, SummariesAgree, Audited, Run, Coherent, Declares, PublishedOnly, WroteOnly;
      RunIsNotEmpty(store.trail);
      if !ValidSummaries(summaries, None) { return Failed(SummariesRejected); }
      ghost var loaded := store.trail;
      var ok := store.WriteSummaries(marker.id, summaries);
      WroteOnlyTwice(start, loaded, store.trail, marker.id);
      WroteOnlyReaches(start, store.trail, marker.id);
      WroteOnlyReaches(loaded, store.trail, marker.id);
      NotMarkedYet(start, store.trail, marker.id);
      DeclaresFollowsRows(Latest(loaded), store.tables, marker);
      if Audited(Latest(loaded)) {
        WritesKeepAudit(Latest(loaded), store.tables, marker.id);
      }
      if !ok { return Failed(StoreUnavailable); }
      ghost var audited, before := store.trail, store.tables;
      assert store.exact && old(store.tables).Summaries(marker.id) == [] ==>
        before.Summaries(marker.id) == [] + summaries;
      ok := store.InsertMarker(marker);
      if store.tables != before {
        MarkedLast(start, audited, store.tables, marker);
        if Audited(before) && before.Summaries(marker.id) == summaries {
          MarkingKeepsAudit(before, store.tables, marker);
        }
      }
      if !ok { return Failed(StoreUnavailable); }
      if !SummariesAgree(marker, summaries) { return Failed(SummariesRejected); }
      return Published(marker, Created);
    }
  }

  /** The marker's dates are the least and the greatest reporting date of the rows, and absent without rows. */
  ghost predicate SpansDates(m: Marker, rows: seq<Row>) {
    if rows == [] then m.minDate.None? && m.maxDate.None?
    else
      && m.minDate.Some? && (exists r :: r in rows && r.reportingDate == m.minDate.value)
      && m.maxDate.Some? && (exists r :: r in rows && r.reportingDate == m.maxDate.value)
      && forall r :: r in rows ==> m.minDate.value <= r.reportingDate <= m.maxDate.value
  }

  lemma {:induction false} BoundOfBoth(a: seq<Row>, b: seq<Row>, least: bool)
    ensures var bound := Bound(DateBound(a, least), DateBound(b, least), least);
      && (bound.None? <==> a + b == [])
      && (bound.Some? ==>
        && (exists r :: r in a + b && r.reportingDate == bound.value)
        && forall r :: r in a + b ==> if least then bound.value <= r.reportingDate else r.reportingDate <= bound.value)
  {
    DateBoundIsAttained(a, least);
    DateBoundIsAttained(b, least);
    hide DateBound;
    var bound := Bound(DateBound(a, least), DateBound(b, least), least);
    if bound.Some? {
      var r: Row :| (r in a || r in b) && r.reportingDate == bound.value;
      assert r in a + b;
    }
  }

  lemma MarkerSpansDates(
      f: Fingerprint, current: seq<Row>, history: seq<Row>, attempt: AttemptId, runId: string, now: Instant)
    requires Some(f.current) == ProfileOf(current) && Some(f.history) == ProfileOf(history)
    ensures SpansDates(MarkerFor(attempt, f, runId, now), current + history)
  {
    BoundOfBoth(current, history, true);
    BoundOfBoth(current, history, false);
  }

  function MarkerFor(id: AttemptId, f: Fingerprint, runId: string, now: Instant): Marker {
    Marker(id, f, runId, f.coverage, f.dbt, f.current.rowCount, f.history.rowCount, f.current.content,
        f.history.content,
           Bound(f.current.minDate, f.history.minDate, true), Bound(f.current.maxDate, f.history.maxDate, false), now)
  }

  /** Marker and audit of a validated candidate say what it holds and how it came about. */
  lemma CandidateIsReady(
      t: Tables, f: Fingerprint, current: seq<Row>, history: seq<Row>, runId: string, s: Summary, r: Summary,
      base: Option<AttemptId>, baseCurrent: Option<seq<Row>>, baseHistory: Option<seq<Row>>)
    requires Some(f.current) == ProfileOf(current) && Some(f.history) == ProfileOf(history)
    requires multiset(t.Rows(Current, s.attempt)) == multiset(current)
    requires multiset(t.Rows(History, s.attempt)) == multiset(history)
    requires s.dataset.Current? && r.dataset.History? && s.attempt == r.attempt && s.recordedAt == r.recordedAt
    requires s.base == r.base == base && s.mode == r.mode && s.sourceRows == |current| && r.sourceRows == |history|
    requires ValidBase(s) && ValidCounts(s) && ValidBase(r) && ValidCounts(r)
    requires CountsChanges(s, current, baseCurrent) && CountsChanges(r, history, baseHistory)
    ensures var m := MarkerFor(s.attempt, f, runId, s.recordedAt);
      && m.id == s.attempt && m.runId == runId && m.coverage == f.coverage && m.dbt == f.dbt
      && m.publishedAt == s.recordedAt && Declares(t, m) && SpansDates(m, current + history)
      && ValidSummaries([s, r], None) && SummariesAgree(m, [s, r])
      && AuditsChanges([s, r], m.id, base, current, history, baseCurrent, baseHistory, m.publishedAt)
  {
    hide CountsChanges, AuditsChanges, SpansDates;
    CandidateIsDeclared(t, f, current, history, s.attempt, runId, s.recordedAt);
    MarkerSpansDates(f, current, history, s.attempt, runId, s.recordedAt);
    TwoSummariesAgree(MarkerFor(s.attempt, f, runId, s.recordedAt), s, r);
    TwoSummariesAudit(s, r, base, current, history, baseCurrent, baseHistory);
  }

  /** The marker of a validated candidate declares exactly the rows stored under the attempt. */
  lemma CandidateIsDeclared(
      t: Tables, f: Fingerprint, current: seq<Row>, history: seq<Row>, attempt: AttemptId, runId: string, now: Instant)
    requires Some(f.current) == ProfileOf(current) && Some(f.history) == ProfileOf(history)
    requires multiset(t.Rows(Current, attempt)) == multiset(current)
    requires multiset(t.Rows(History, attempt)) == multiset(history)
    ensures Declares(t, MarkerFor(attempt, f, runId, now))
  {
    assert |multiset(current)| == |current| && |multiset(history)| == |history|;
    assert |multiset(t.Rows(Current, attempt))| == |t.Rows(Current, attempt)|;
    assert |multiset(t.Rows(History, attempt))| == |t.Rows(History, attempt)|;
  }
}
