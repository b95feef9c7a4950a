/**
  The ClickHouse serving store as its clients see it. A request may be lost before it takes effect,
  its answer may be lost afterwards, and the server may act on it wrongly; a client that stops
  between two requests is one whose next request never arrives. So a contract that holds on every
  return of a method below holds at every crash point of the task that called it.
 */
module ServingStores {
  import opened Sequences
  import opened ServingTables
  import opened ChangePlans

  datatype CandidateTable = RowsOf(ds: Dataset) | ChangeSummaries

  /** `after` differs from `before` in the rows and summaries of one attempt at most. */
  ghost predicate OnlyAttempt(before: Tables, after: Tables, attempt: AttemptId) {
    && after.markers == before.markers
    && forall id :: id != attempt ==> SameAttempt(before, after, id)
  }

  /** Since `past`, the run went on with writes for one attempt only. */
  ghost predicate WroteOnly(past: seq<Tables>, trail: seq<Tables>, attempt: AttemptId) {
    past != [] && past <= trail && forall k :: |past| <= k < |trail| ==> OnlyAttempt(Latest(past), trail[k], attempt)
  }

  lemma WroteOnlyReaches(past: seq<Tables>, trail: seq<Tables>, attempt: AttemptId)
    requires WroteOnly(past, trail, attempt)
    ensures OnlyAttempt(Latest(past), Latest(trail), attempt)
  {
  }

  lemma WroteOnlyTwice(past: seq<Tables>, middle: seq<Tables>, trail: seq<Tables>, attempt: AttemptId)
    requires WroteOnly(past, middle, attempt) && WroteOnly(middle, trail, attempt)
    ensures WroteOnly(past, trail, attempt)
  {
    WroteOnlyReaches(past, middle, attempt);
    forall k | |past| <= k < |trail| ensures OnlyAttempt(Latest(past), trail[k], attempt) {
      if k < |middle| {
        assert trail[k] == middle[k];
      } else {
        forall id | id != attempt ensures SameAttempt(Latest(past), trail[k], id) {
          assert SameAttempt(Latest(past), Latest(middle), id) && SameAttempt(Latest(middle), trail[k], id);
        }
      }
    }
  }

  function DropRows(t: Tables, table: CandidateTable, ids: set<AttemptId>): Tables {
    match table
    case RowsOf(Current) => t.(current := Without(t.current, ids))
    case RowsOf(History) => t.(history := Without(t.history, ids))
    case ChangeSummaries => t.(summaries := Without(t.summaries, ids))
  }

  lemma {:induction false} RemovingInBatches(rows: seq<Row>, first: set<Key>, second: set<Key>)
    ensures RemoveKeys(RemoveKeys(rows, first), second) == RemoveKeys(rows, first + second)
  {
    if rows != [] {
      var rest := RemoveKeys(rows[1..], first);
      RemovingInBatches(rows[1..], first, second);
      assert RemoveKeys(rows, first) == if rows[0].key in first then rest else [rows[0]] + rest;
      assert ([rows[0]] + rest)[1..] == rest;
    }
  }

  lemma {:induction false} NextBatchRemoved(rows: seq<Row>, keys: seq<Key>, offset: nat, end: nat)
    requires offset <= end <= |keys|
    ensures RemoveKeys(RemoveKeys(rows, Elements(keys[..offset])), Elements(keys[offset..end]))
         == RemoveKeys(rows, Elements(keys[..end]))
  {
    RemovingInBatches(rows, Elements(keys[..offset]), Elements(keys[offset..end]));
    assert keys[..end] == keys[..offset] + keys[offset..end];
    assert Elements(keys[..end]) == Elements(keys[..offset]) + Elements(keys[offset..end]);
  }

  lemma NextBatchAppended(stored: seq<Row>, rows: seq<Row>, offset: nat, end: nat)
    requires offset <= end <= |rows|
    ensures stored + rows[..offset] + rows[offset..end] == stored + rows[..end]
  {
  }

  lemma {:induction false} RemovingNothing(rows: seq<Row>)
    ensures RemoveKeys(rows, {}) == rows
  {
    if rows != [] {
      RemovingNothing(rows[1..]);
    }
  }

  class ServingStore {
    const batchSize: nat
    var tables: Tables
    /** Every state the tables have been in, and whether each request did exactly what it asked for or nothing. */
    ghost var trail: seq<Tables>
    ghost var exact: bool
    /** Whether every request so far took effect and was answered. */
    ghost var answered: bool

    ghost predicate Valid()
      reads this
    {
      1 <= batchSize && Run(trail) && Latest(trail) == tables
    }

    constructor (initial: Tables, batchSize: nat)
      requires 1 <= batchSize <= 10000
      ensures Valid() && tables == initial && trail == [initial] && exact && answered && this.batchSize == batchSize
    {
      this.batchSize := batchSize;
      tables, trail, exact, answered := initial, [initial], true, true;
    }

    method Commit(next: Tables)
      requires Valid() && Legal(trail, tables, next)
      modifies this`tables, this`trail
      ensures Valid() && tables == next && trail == old(trail) + [next]
    {
      RunExtends(trail, next);
      tables, trail := next, trail + [next];
    }

    /** A SELECT. It changes nothing, but may stay without an answer. */
    method Read() returns (ok: bool)
      modifies this`answered
      ensures (answered ==> old(answered)) && (ok || !answered)
    {
      if * {
        answered := false;
        return false;
      }
      return true;
    }

    /** One INSERT, INSERT ... SELECT or ALTER ... DELETE on the rows of one unmarked attempt. */
    method WriteCandidate(ds: Dataset, attempt: AttemptId, intended: seq<Row>) returns (ok: bool)
      requires Valid() && attempt !in tables.ReadyIds()
      modifies this
      ensures Valid() && WroteOnly(old(trail), trail, attempt) && (exact ==> old(exact)) && (answered ==> old(answered))
      ensures ok || !answered
      ensures forall other: Dataset :: other != ds ==> tables.Rows(other, attempt) == old(tables).Rows(other, attempt)
      ensures tables.Summaries(attempt) == old(tables).Summaries(attempt)
      ensures ok && exact ==> tables.Rows(ds, attempt) == intended
    {
      if * {
        answered := false;
        return false;
      }
      var stored := intended;
      if * {
        stored := *;
        exact := false;
      }
      Commit(tables.Store(ds, attempt, stored));
      if * {
        answered := false;
        return false;
      }
      return true;
    }

    method WriteSummaries(attempt: AttemptId, intended: seq<Summary>) returns (ok: bool)
      requires Valid() && attempt !in tables.ReadyIds()
      modifies this
      ensures Valid() && WroteOnly(old(trail), trail, attempt) && (exact ==> old(exact)) && (answered ==> old(answered))
      ensures ok || !answered
      ensures forall ds: Dataset :: tables.Rows(ds, attempt) == old(tables).Rows(ds, attempt)
      ensures ok && exact ==> tables.Summaries(attempt) == old(tables).Summaries(attempt) + intended
    {
      if * {
        answered := false;
        return false;
      }
      var stored := tables.Summaries(attempt) + intended;
      if * {
        stored := *;
        exact := false;
      }
      Commit(tables.(summaries := Put(tables.summaries, attempt, stored)));
      if * {
        answered := false;
        return false;
      }
      return true;
    }

    method InsertMarker(m: Marker) returns (ok: bool)
      requires Valid() && Declares(tables, m) && forall t :: t in trail ==> m.id !in t.ReadyIds()
      modifies this`tables, this`trail, this`answered
      ensures Valid() && (answered ==> old(answered))
      ensures ok || !answered
      ensures if tables == old(tables) then !ok && trail == old(trail)
        else tables == old(tables).(markers := old(tables).markers + [m]) && trail == old(trail) + [tables]
    {
      if * {
        answered := false;
        return false;
      }
      var next := tables.(markers := tables.markers + [m]);
      assert AddsMarker(trail, tables, next, m);
      assert |next.markers| == |tables.markers| + 1;
      Commit(next);
      if * {
        answered := false;
        return false;
      }
      return true;
    }

    method CloneCandidateRows(ds: Dataset, base: AttemptId, attempt: AttemptId) returns (ok: bool)
      requires Valid() && attempt !in tables.ReadyIds()
      modifies this
      ensures Valid() && WroteOnly(old(trail), trail, attempt) && (exact ==> old(exact)) && (answered ==> old(answered))
      ensures ok || !answered
      ensures forall other: Dataset :: other != ds ==> tables.Rows(other, attempt) == old(tables).Rows(other, attempt)
      ensures tables.Summaries(attempt) == old(tables).Summaries(attempt)
      ensures ok && exact ==>
        tables.Rows(ds, attempt) == old(tables).Rows(ds, attempt) + old(tables).Rows(ds, base)
    {
      ok := WriteCandidate(ds, attempt, tables.Rows(ds, attempt) + tables.Rows(ds, base));
    }

    /** Deletes in batches; together they delete exactly `keys`, whatever the batch size. */
    method DeleteCandidateKeys(ds: Dataset, attempt: AttemptId, keys: set<Key>) returns (ok: bool)
      requires Valid() && attempt !in tables.ReadyIds()
      modifies this
      ensures Valid() && WroteOnly(old(trail), trail, attempt) && (exact ==> old(exact)) && (answered ==> old(answered))
      ensures ok || !answered
      ensures forall other: Dataset :: other != ds ==> tables.Rows(other, attempt) == old(tables).Rows(other, attempt)
      ensures tables.Summaries(attempt) == old(tables).Summaries(attempt)
      ensures ok && exact ==> tables.Rows(ds, attempt) == RemoveKeys(old(tables).Rows(ds, attempt), keys)
    {
      var unique := Sorted(keys);
      SortedSet(keys);
      var offset := 0;
      RemovingNothing(tables.Rows(ds, attempt));
      assert Elements(unique[..0]) == {};
      while offset < |unique|
        invariant 0 <= offset <= |unique|
        invariant Valid() && WroteOnly(old(trail), trail, attempt) && (exact ==> old(exact)) &&
          (answered ==> old(answered))
        invariant forall other: Dataset :: other != ds ==>
          tables.Rows(other, attempt) == old(tables).Rows(other, attempt)
        invariant tables.Summaries(attempt) == old(tables).Summaries(attempt)
        invariant exact ==>
          tables.Rows(ds, attempt) == RemoveKeys(old(tables).Rows(ds, attempt), Elements(unique[..offset]))
      {
        var end := Min(offset + batchSize, |unique|);
        var batch := Elements(unique[offset..end]);
        NextBatchRemoved(old(tables).Rows(ds, attempt), unique, offset, end);
        ghost var sofar := trail;
        WroteOnlyReaches(old(trail), trail, attempt);
        ok := WriteCandidate(ds, attempt, RemoveKeys(tables.Rows(ds, attempt), batch));
        WroteOnlyTwice(old(trail), sofar, trail, attempt);
        if !ok {
          return;
        }
        offset := end;
      }
      assert unique[..|unique|] == unique;
      return true;
    }

    method InsertCandidateRows(ds: Dataset, attempt: AttemptId, rows: seq<Row>) returns (ok: bool)
      requires Valid() && attempt !in tables.ReadyIds()
      modifies this
      ensures Valid() && WroteOnly(old(trail), trail, attempt) && (exact ==> old(exact)) && (answered ==> old(answered))
      ensures ok || !answered
      ensures forall other: Dataset :: other != ds ==> tables.Rows(other, attempt) == old(tables).Rows(other, attempt)
      ensures tables.Summaries(attempt) == old(tables).Summaries(attempt)
      ensures ok && exact ==> tables.Rows(ds, attempt) == old(tables).Rows(ds, attempt) + rows
    {
      var offset := 0;
      while offset < |rows|
        invariant 0 <= offset <= |rows|
        invariant Valid() && WroteOnly(old(trail), trail, attempt) && (exact ==> old(exact)) &&
          (answered ==> old(answered))
        invariant forall other: Dataset :: other != ds ==>
          tables.Rows(other, attempt) == old(tables).Rows(other, attempt)
        invariant tables.Summaries(attempt) == old(tables).Summaries(attempt)
        invariant exact ==> tables.Rows(ds, attempt) == old(tables).Rows(ds, attempt) + rows[..offset]
      {
        var end := Min(offset + batchSize, |rows|);
        NextBatchAppended(old(tables).Rows(ds, attempt), rows, offset, end);
        ghost var sofar := trail;
        WroteOnlyReaches(old(trail), trail, attempt);
        ok := WriteCandidate(ds, attempt, tables.Rows(ds, attempt) + rows[offset..end]);
        WroteOnlyTwice(old(trail), sofar, trail, attempt);
        if !ok {
          return;
        }
        offset := end;
      }
      assert rows[..|rows|] == rows;
      return true;
    }

    /** One ALTER ... DELETE on the marker table, of a hundred ids at most; the server may delete only some of them. */
    method DropMarkerBatch(batch: set<AttemptId>) returns (ok: bool)
      requires Valid() && |batch| <= 100
      modifies this
      ensures Valid() && (exact ==> old(exact)) && (answered ==> old(answered))
      ensures ok || !answered
      ensures (tables == old(tables) && trail == old(trail)) ||
        (trail == old(trail) + [tables] && exists gone :: gone <= batch && RemovesMarkers(old(tables), tables, gone))
      ensures ok && exact ==> RemovesMarkers(old(tables), tables, batch)
    {
      if * {
        answered := false;
        return false;
      }
      var gone := batch;
      if * {
        var hit: set<AttemptId> := *;
        gone := batch * hit;
        exact := false;
      }
      var next := tables.(markers := DropMarkers(tables.markers, gone));
      assert RemovesMarkers(tables, next, gone);
      Commit(next);
      if * {
        answered := false;
        return false;
      }
      return true;
    }

    /** One ALTER ... DELETE on a candidate table, for attempts that have no ready marker. */
    method DropRowBatch(table: CandidateTable, batch: set<AttemptId>) returns (ok: bool)
      requires Valid() && batch !! tables.ReadyIds() && |batch| <= 100
      modifies this
      ensures Valid() && (exact ==> old(exact)) && (answered ==> old(answered))
      ensures ok || !answered
      ensures (tables == old(tables) && trail == old(trail)) ||
        (trail == old(trail) + [tables] && exists gone :: gone <= batch && tables == DropRows(old(tables), table, gone))
      ensures ok && exact ==> tables == DropRows(old(tables), table, batch)
    {
      if * {
        answered := false;
        return false;
      }
      var gone := batch;
      if * {
        var hit: set<AttemptId> := *;
        gone := batch * hit;
        exact := false;
      }
      var next := DropRows(tables, table, gone);
      assert WritesUnmarked(tables, next);
      Commit(next);
      if * {
        answered := false;
        return false;
      }
      return true;
    }
  }
}
