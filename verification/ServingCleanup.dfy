/** The cleanup task: retired markers first, then rows, checking the store after each phase. */
module ServingCleanups {
  import opened Sequences
  import opened ServingTables
  import opened ServingRetention
  import opened ServingStores
  import P = ServingPublishers

  datatype Refusal =
    | KeepTooFew | LockNotConfirmed | ProtectedAtRisk
    | StoreUnavailable | MarkersRemain | RetainedDisappeared | CandidatesRemain

  datatype Result = Planned(plan: RetentionPlan) | NothingToRemove(plan: RetentionPlan) | Removed(plan: RetentionPlan)
                  | Refused(reason: Refusal)

  /** Since `past`, the run went through states of one cleanup of `before` only. */
  ghost predicate OnlyCleaning(
      before: Tables, retired: set<AttemptId>, doomed: set<AttemptId>, past: seq<Tables>, trail: seq<Tables>) {
    past <= trail && forall k :: |past| <= k < |trail| ==> CleaningWithin(before, trail[k], retired, doomed)
  }

  lemma CleaningStarts(t: Tables, retired: set<AttemptId>, doomed: set<AttemptId>)
    ensures CleaningWithin(t, t, retired, doomed)
  {
    assert t.ReadyIds() - t.ReadyIds() == {};
    DroppingNone(t.markers);
  }

  /** Every version a cleanup has not retired keeps the audit its publication stored. */
  lemma CleanupKeepsAudit(before: Tables, t: Tables, keep: nat)
    requires Cleaning(before, t, keep) && P.Audited(before)
    ensures P.Audited(t)
  {
    hide P.SummariesAgree;
    forall m | m in t.markers ensures P.SummariesAgree(m, t.Summaries(m.id)) {
      assert m in before.markers && m.id in t.ReadyIds();
      assert SameAttempt(before, t, m.id);
    }
  }

  lemma {:induction false} DroppingMore(all: seq<Marker>, earlier: set<AttemptId>, gone: set<AttemptId>)
    requires gone <= set m | m in all :: m.id
    ensures var left := DropMarkers(DropMarkers(all, earlier), gone);
      var lost := (set m | m in all :: m.id) - (set m | m in left :: m.id);
      left == DropMarkers(all, lost) && lost <= earlier + gone
  {
    DroppingTwice(all, earlier, gone);
    IdsAfterDropping(all, earlier + gone);
    var left := DropMarkers(all, earlier + gone);
    var lost := (set m | m in all :: m.id) - (set m | m in left :: m.id);
    DroppingSame(all, lost, earlier + gone);
  }

  lemma SparesRemoval(before: Tables, t: Tables, next: Tables, ready: set<AttemptId>, doomed: set<AttemptId>)
    requires Spares(before, t, ready, doomed) && next == t.(markers := next.markers)
    ensures Spares(before, next, ready, doomed)
  {
    forall id | id in ready || id !in doomed ensures SameAttempt(before, next, id) {
      assert SameAttempt(before, t, id);
    }
  }

  lemma MarkerRemovalCleans(
      before: Tables, t: Tables, next: Tables, retired: set<AttemptId>, doomed: set<AttemptId>, gone: set<AttemptId>)
    requires CleaningWithin(before, t, retired, doomed) && RemovesMarkers(t, next, gone)
    requires gone <= retired <= before.ReadyIds()
    ensures CleaningWithin(before, next, retired, doomed)
    ensures next.ReadyIds() == t.ReadyIds() - gone
  {
    DroppingMore(before.markers, before.ReadyIds() - t.ReadyIds(), gone);
    IdsAfterDropping(t.markers, gone);
    SparesRemoval(before, t, next, t.ReadyIds(), doomed);
  }

  lemma RowRemovalSpares(t: Tables, table: CandidateTable, gone: set<AttemptId>, id: AttemptId)
    requires id !in gone
    ensures SameAttempt(t, DropRows(t, table, gone), id)
  {
  }

  lemma RowRemovalCleans(
      before: Tables, t: Tables, next: Tables, retired: set<AttemptId>, doomed: set<AttemptId>,
      table: CandidateTable, gone: set<AttemptId>)
    requires CleaningWithin(before, t, retired, doomed) && next == DropRows(t, table, gone)
    requires gone <= doomed && gone !! t.ReadyIds()
    ensures CleaningWithin(before, next, retired, doomed) && next.ReadyIds() == t.ReadyIds()
  {
    assert next.markers == t.markers;
    forall id | id in t.ReadyIds() || id !in doomed ensures SameAttempt(before, next, id) {
      RowRemovalSpares(t, table, gone, id);
      assert SameAttempt(before, t, id);
    }
  }

  lemma DroppedFromEachTable(t: Tables, gone: set<AttemptId>)
    ensures DropRows(DropRows(DropRows(t, RowsOf(Current), gone), RowsOf(History), gone), ChangeSummaries,
        gone).CandidateIds()
         == t.CandidateIds() - gone
  {
  }

  lemma NextBatchElements(ids: seq<AttemptId>, offset: nat, end: nat)
    requires offset <= end <= |ids|
    ensures Elements(ids[..end]) == Elements(ids[..offset]) + Elements(ids[offset..end])
    ensures Elements(ids[offset..end]) <= Elements(ids) && |Elements(ids[offset..end])| <= end - offset
  {
    ElementsAtMost(ids[offset..end]);
    assert ids[..end] == ids[..offset] + ids[offset..end];
  }

  class ServingRetentionManager {
    const store: ServingStore

    constructor (store: ServingStore)
      ensures this.store == store
    {
      this.store := store;
    }

    method DropBatch(
        batch: set<AttemptId>, ghost before: Tables, ghost retired: set<AttemptId>, ghost doomed: set<AttemptId>)
        returns (ok: bool)
      requires store.Valid() && CleaningWithin(before, store.tables, retired, doomed)
      requires batch <= retired <= before.ReadyIds() && |batch| <= 100
      modifies store
      ensures store.Valid() && OnlyCleaning(before, retired, doomed, old(store.trail), store.trail)
      ensures CleaningWithin(before, store.tables, retired, doomed) && (store.exact ==> old(store.exact))
      ensures (store.answered ==> old(store.answered)) && (ok || !store.answered)
      ensures store.tables.ReadyIds() <= old(store.tables).ReadyIds()
      ensures ok && store.exact ==> batch !! store.tables.ReadyIds()
    {
      ghost var start := store.tables;
      ok := store.DropMarkerBatch(batch);
      if store.tables != start {
        ghost var gone :| gone <= batch && RemovesMarkers(start, store.tables, gone);
        MarkerRemovalCleans(before, start, store.tables, retired, doomed, gone);
      }
      if ok && store.exact {
        MarkerRemovalCleans(before, start, store.tables, retired, doomed, batch);
      }
    }

    method DeleteReadyMarkers(
        ids: set<AttemptId>, ghost before: Tables, ghost retired: set<AttemptId>, ghost doomed: set<AttemptId>)
        returns (ok: bool)
      requires store.Valid() && CleaningWithin(before, store.tables, retired, doomed)
      requires ids <= retired <= before.ReadyIds()
      modifies store
      ensures store.Valid() && OnlyCleaning(before, retired, doomed, old(store.trail), store.trail)
      ensures CleaningWithin(before, store.tables, retired, doomed) && (store.exact ==> old(store.exact))
      ensures (store.answered ==> old(store.answered)) && (ok || !store.answered)
      ensures ok && store.exact ==> ids !! store.tables.ReadyIds()
    {
      var unique := Sorted(ids);
      SortedSet(ids);
      var offset := 0;
      while offset < |unique|
        invariant 0 <= offset <= |unique|
        invariant store.Valid() && OnlyCleaning(before, retired, doomed, old(store.trail), store.trail)
        invariant CleaningWithin(before, store.tables, retired, doomed) && (store.exact ==> old(store.exact))
        invariant store.answered ==> old(store.answered)
        invariant store.exact ==> Elements(unique[..offset]) !! store.tables.ReadyIds()
      {
        var end := Min(offset + DELETE_BATCH_SIZE, |unique|);
        var batch := Elements(unique[offset..end]);
        NextBatchElements(unique, offset, end);
        ok := DropBatch(batch, before, retired, doomed);
        if !ok {
          return;
        }
        offset := end;
      }
      assert unique[..|unique|] == unique;
      return true;
    }

    method DropRowsOfBatch(
        table: CandidateTable, batch: set<AttemptId>,
        ghost before: Tables, ghost retired: set<AttemptId>, ghost doomed: set<AttemptId>)
        returns (ok: bool)
      requires store.Valid() && CleaningWithin(before, store.tables, retired, doomed)
      requires batch <= doomed && batch !! store.tables.ReadyIds() && |batch| <= 100
      modifies store
      ensures store.Valid() && OnlyCleaning(before, retired, doomed, old(store.trail), store.trail)
      ensures CleaningWithin(before, store.tables, retired, doomed) && (store.exact ==> old(store.exact))
      ensures (store.answered ==> old(store.answered)) && (ok || !store.answered)
      ensures store.tables.ReadyIds() == old(store.tables).ReadyIds()
      ensures ok && store.exact ==> store.tables == DropRows(old(store.tables), table, batch)
    {
      ghost var start := store.tables;
      ok := store.DropRowBatch(table, batch);
      if store.tables != start {
        ghost var gone :| gone <= batch && store.tables == DropRows(start, table, gone);
        RowRemovalCleans(before, start, store.tables, retired, doomed, table, gone);
      }
    }

    method DeleteBatchFromEachTable(
        batch: set<AttemptId>, ghost before: Tables, ghost retired: set<AttemptId>, ghost doomed: set<AttemptId>)
        returns (ok: bool)
      requires store.Valid() && CleaningWithin(before, store.tables, retired, doomed)
      requires batch <= doomed && batch !! store.tables.ReadyIds() && |batch| <= 100
      modifies store
      ensures store.Valid() && OnlyCleaning(before, retired, doomed, old(store.trail), store.trail)
      ensures CleaningWithin(before, store.tables, retired, doomed) && (store.exact ==> old(store.exact))
      ensures (store.answered ==> old(store.answered)) && (ok || !store.answered)
      ensures store.tables.ReadyIds() == old(store.tables).ReadyIds()
      ensures ok && store.exact ==> store.tables.CandidateIds() <= old(store.tables).CandidateIds() - batch
    {
      ghost var start := store.tables;
      ok := DropRowsOfBatch(RowsOf(Current), batch, before, retired, doomed);
      if !ok { return; }
      ok := DropRowsOfBatch(RowsOf(History), batch, before, retired, doomed);
      if !ok { return; }
      ok := DropRowsOfBatch(ChangeSummaries, batch, before, retired, doomed);
      if ok && store.exact {
        DroppedFromEachTable(start, batch);
      }
    }

    method DeleteCandidateRows(
        ids: set<AttemptId>, ghost before: Tables, ghost retired: set<AttemptId>, ghost doomed: set<AttemptId>)
        returns (ok: bool)
      requires store.Valid() && CleaningWithin(before, store.tables, retired, doomed)
      requires ids <= doomed && ids !! store.tables.ReadyIds()
      modifies store
      ensures store.Valid() && OnlyCleaning(before, retired, doomed, old(store.trail), store.trail)
      ensures CleaningWithin(before, store.tables, retired, doomed) && (store.exact ==> old(store.exact))
      ensures (store.answered ==> old(store.answered)) && (ok || !store.answered)
      ensures store.tables.ReadyIds() == old(store.tables).ReadyIds()
      ensures ok && store.exact ==> ids !! store.tables.CandidateIds()
    {
      var unique := Sorted(ids);
      SortedSet(ids);
      var offset := 0;
      while offset < |unique|
        invariant 0 <= offset <= |unique|
        invariant store.Valid() && OnlyCleaning(before, retired, doomed, old(store.trail), store.trail)
        invariant CleaningWithin(before, store.tables, retired, doomed) && (store.exact ==> old(store.exact))
        invariant store.answered ==> old(store.answered)
        invariant store.tables.ReadyIds() == old(store.tables).ReadyIds()
        invariant store.exact ==> Elements(unique[..offset]) !! store.tables.CandidateIds()
      {
        var end := Min(offset + DELETE_BATCH_SIZE, |unique|);
        var batch := Elements(unique[offset..end]);
        NextBatchElements(unique, offset, end);
        ok := DeleteBatchFromEachTable(batch, before, retired, doomed);
        if !ok {
          return;
        }
        offset := end;
      }
      assert unique[..|unique|] == unique;
      return true;
    }

    /** Deletes what the plan retires: markers first, and rows only once the markers are seen to be gone. */
    method Apply(plan: RetentionPlan, keep: nat, ghost before: Tables) returns (refused: Option<Refusal>)
      requires store.Valid() && store.tables == before && plan == PlanRetention(before, keep)
      modifies store
      ensures store.Valid() && (store.exact ==> old(store.exact)) && (store.answered ==> old(store.answered))
      ensures OnlyCleaning(before, Elements(plan.retired), plan.ToDelete(), old(store.trail), store.trail)
      ensures Cleaning(before, store.tables, keep)
      ensures refused.None? ==> store.tables == Clean(before, keep)
      ensures refused in {None, Some(StoreUnavailable), Some(MarkersRemain), Some(CandidatesRemain)}
      ensures refused == Some(StoreUnavailable) ==> !store.answered
      ensures refused in {Some(MarkersRemain), Some(CandidatesRemain)} ==> !store.exact
    {
      hide PlanRetention, Clean, CleaningWithin, Run, RestrictTo, Elements, Kept, RetentionPlan.ToDelete;
      hide Tables.CandidateIds, Tables.ReadyIds;
      ghost var retired, doomed := Elements(plan.retired), plan.ToDelete();
      CleaningStarts(before, retired, doomed);
      PlanSplitsReadyIds(before, keep);
      var ok := DeleteReadyMarkers(Elements(plan.retired), before, retired, doomed);
      if !ok {
        return Some(StoreUnavailable);
      }
      ok := store.Read();
      if !ok {
        return Some(StoreUnavailable);
      }
      if !(Elements(plan.retired) !! store.tables.ReadyIds()) {
        return Some(MarkersRemain);
      }
      CleaningKeepsTheNewest(before, store.tables, keep);
      RetainedIsKept(before, keep);
      if !(Elements(plan.retained) <= store.tables.ReadyIds()) {
        return Some(RetainedDisappeared);
      }
      InvisibleStayUnmarked(before, store.tables, keep);
      ok := DeleteCandidateRows(plan.ToDelete(), before, retired, doomed);
      if !ok {
        return Some(StoreUnavailable);
      }
      ok := store.Read();
      if !ok {
        return Some(StoreUnavailable);
      }
      if !(plan.ToDelete() !! store.tables.CandidateIds()) {
        return Some(CandidatesRemain);
      }
      CleanedCompletely(before, store.tables, keep);
      return None;
    }

    /**
      Plans, or applies, a cleanup. Every state it goes through is one an interrupted cleanup may
      leave, and `Removed` is reported only when nothing that was to be deleted is left.
     */
    method Cleanup(keep: int, apply: bool, lockConfirmed: bool, protected: set<AttemptId>) returns (result: Result)
      requires store.Valid()
      modifies store
      ensures store.Valid() && (store.exact ==> old(store.exact))
      ensures store.answered ==> old(store.answered)
      ensures result == Refused(StoreUnavailable) ==> !store.answered
      ensures keep >= MINIMUM_READY_VERSIONS ==>
        var plan := PlanRetention(old(store.tables), keep);
        && OnlyCleaning(old(store.tables), Elements(plan.retired), plan.ToDelete(), old(store.trail), store.trail)
        && Cleaning(old(store.tables), store.tables, keep)
      ensures keep < 2 <==> result == Refused(KeepTooFew)
      ensures
        (|| !apply || result.NothingToRemove?
         || (result.Refused? && result.reason in {KeepTooFew, LockNotConfirmed, ProtectedAtRisk})) ==>
        store.tables == old(store.tables) && store.trail == old(store.trail)
      ensures result.Removed? || result.NothingToRemove? ==>
        && store.tables == Clean(old(store.tables), keep)
        && result.plan == PlanRetention(old(store.tables), keep)
        && protected <= Elements(result.plan.retained)
      ensures result != Refused(RetainedDisappeared)
      // A cleanup the store answers and carries out completes.
      ensures store.answered && store.exact && keep >= MINIMUM_READY_VERSIONS && (apply ==> lockConfirmed) ==>
        var plan := PlanRetention(old(store.tables), keep);
        if !(protected <= Elements(plan.retained)) then result == Refused(ProtectedAtRisk)
        else if !apply then result == Planned(plan)
        else if plan.ToDelete() == {} then result == NothingToRemove(plan)
        else result == Removed(plan)
      ensures result.Refused? && result.reason in {MarkersRemain, CandidatesRemain} ==> !store.exact
    {
      hide PlanRetention, Clean, CleaningWithin, Run, RestrictTo, Tables.CandidateIds, Tables.ReadyIds;
      if keep < MINIMUM_READY_VERSIONS {
        return Refused(KeepTooFew);
      }
      ghost var retired := Elements(PlanRetention(store.tables, keep).retired);
      ghost var doomed := PlanRetention(store.tables, keep).ToDelete();
      CleaningStarts(store.tables, retired, doomed);
      if apply && !lockConfirmed {
        return Refused(LockNotConfirmed);
      }
      var ok := store.Read();
      if !ok {
        return Refused(StoreUnavailable);
      }
      ghost var before := store.tables;
      var plan := PlanRetention(store.tables, keep);
      PlanSplitsReadyIds(before, keep);
      if !(protected <= Elements(plan.retained)) {
        return Refused(ProtectedAtRisk);
      }
      if !apply {
        return Planned(plan);
      }
      if plan.ToDelete() == {} {
        CleanedCompletely(before, store.tables, keep);
        return NothingToRemove(plan);
      }
      var refused := Apply(plan, keep, before);
      return if refused.Some? then Refused(refused.value) else Removed(plan);
    }
  }

  lemma RetainedIsKept(t: Tables, keep: nat)
    ensures PlanRetention(t, keep).retained == Kept(t.markers, keep)
  {
  }

  /** With the retired markers gone, nothing the plan deletes is marked. */
  lemma InvisibleStayUnmarked(before: Tables, t: Tables, keep: nat)
    requires Cleaning(before, t, keep) && Elements(PlanRetention(before, keep).retired) !! t.ReadyIds()
    ensures PlanRetention(before, keep).ToDelete() !! t.ReadyIds()
  {
    PlanSplitsReadyIds(before, keep);
    CleaningKeepsTheNewest(before, t, keep);
  }
}
