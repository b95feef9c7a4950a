/** Dataset profiles, and the changes that turn a cloned base version into the tested source. */
module ChangePlans {
  import opened Sequences
  import opened ServingTables

  ghost predicate UniqueKeys(rows: seq<Row>) {
    forall i, j :: 0 <= i < j < |rows| ==> rows[i].key != rows[j].key
  }

  function Keys(rows: seq<Row>): set<Key> {
    set r | r in rows :: r.key
  }

  function RowAt(rows: seq<Row>, k: Key): (r: Row)
    requires k in Keys(rows)
    ensures r in rows && r.key == k
  {
    if rows[0].key == k then rows[0]
    else
      assert forall n :: n in rows ==> n == rows[0] || n in rows[1..];
      RowAt(rows[1..], k)
  }

  function RowsAt(rows: seq<Row>, keys: seq<Key>): (found: seq<Row>)
    requires forall k :: k in keys ==> k in Keys(rows)
    ensures |found| == |keys|
    ensures forall i :: 0 <= i < |keys| ==> found[i] == RowAt(rows, keys[i])
  {
    seq(|keys|, i requires 0 <= i < |keys| => RowAt(rows, keys[i]))
  }

  lemma {:induction false} UniqueKeysPickOne(rows: seq<Row>, r: Row)
    requires UniqueKeys(rows) && r in rows
    ensures RowAt(rows, r.key) == r
  {
    var i :| 0 <= i < |rows| && rows[i] == r;
    var found := RowAt(rows, r.key);
    var j :| 0 <= j < |rows| && rows[j] == found;
    assert i == j;
  }

  lemma OneMoreKey(rows: seq<Row>, r: Row)
    ensures Keys(rows + [r]) == Keys(rows) + {r.key}
    ensures UniqueKeys(rows + [r]) <==> UniqueKeys(rows) && r.key !in Keys(rows)
  {
    var all := rows + [r];
    if UniqueKeys(all) {
      assert forall i :: 0 <= i < |rows| ==> all[i] == rows[i];
      assert all[|rows|] == r;
    } else if UniqueKeys(rows) {
      var i, j :| 0 <= i < j < |all| && all[i].key == all[j].key;
      assert rows[i].key == r.key;
    }
  }

  lemma {:induction false} KeysCount(rows: seq<Row>)
    ensures |Keys(rows)| <= |rows|
    ensures |Keys(rows)| == |rows| <==> UniqueKeys(rows)
  {
    if rows != [] {
      hide Keys, UniqueKeys;
      var front, last := Front(rows), Last(rows);
      assert rows == front + [last];
      KeysCount(front);
      OneMoreKey(front, last);
    }
  }

  // Profiles

  /** The least or greatest reporting date, if there is any row. */
  function DateBound(rows: seq<Row>, least: bool): Option<int> {
    if rows == [] then None
    else Bound(DateBound(rows[1..], least), Some(rows[0].reportingDate), least)
  }

  function Bound(a: Option<int>, b: Option<int>, least: bool): Option<int> {
    if a.None? then b
    else if b.None? then a
    else if (a.value <= b.value) == least then a else b
  }

  lemma {:induction false} DateBoundIsAttained(rows: seq<Row>, least: bool)
    ensures DateBound(rows, least).None? <==> rows == []
    ensures rows != [] ==>
      && (exists r :: r in rows && r.reportingDate == DateBound(rows, least).value)
      && forall r :: r in rows ==>
        if least then DateBound(rows, least).value <= r.reportingDate
        else r.reportingDate <= DateBound(rows, least).value
  {
    if rows != [] {
      DateBoundIsAttained(rows[1..], least);
      assert rows[0] in rows;
      assert forall r :: r in rows ==> r == rows[0] || r in rows[1..];
    }
  }

  ghost predicate Profiled(rows: seq<Row>) {
    UniqueKeys(rows) && forall r :: r in rows ==> r.conforms
  }

  /** The audit profile of one dataset, or nothing when a row or key check fails. */
  function ProfileOf(rows: seq<Row>): (p: Option<Profile>)
    ensures p.Some? <==> Profiled(rows)
    ensures p.Some? ==> p.value.rowCount == |rows| && p.value.content == Digest(multiset(rows))
  {
    KeysCount(rows);
    if |Keys(rows)| == |rows| && forall r :: r in rows ==> r.conforms then
      Some(Profile(|rows|, DateBound(rows, true), DateBound(rows, false), Digest(multiset(rows))))
    else None
  }

  lemma RepeatCounts<T>(s: seq<T>, i: nat, j: nat)
    requires i < j < |s| && s[i] == s[j]
    ensures multiset(s)[s[i]] >= 2
  {
    assert s == s[..j] + [s[j]] + s[j + 1..];
    assert s[..j][i] == s[i];
  }

  lemma PermutationKeepsUniqueKeys(a: seq<Row>, b: seq<Row>)
    requires UniqueKeys(a) && multiset(a) == multiset(b)
    ensures UniqueKeys(b)
  {
    forall i, j | 0 <= i < j < |b| ensures b[i].key != b[j].key {
      assert b[i] in multiset(b) && b[j] in multiset(b);
      assert b[i] in a && b[j] in a;
      if b[i].key == b[j].key {
        UniqueKeysPickOne(a, b[i]);
        UniqueKeysPickOne(a, b[j]);
        RepeatCounts(b, i, j);
        DistinctMultiplicity(a, b[i]);
      }
    }
  }

  lemma {:induction false} SameRowsSameBound(a: seq<Row>, b: seq<Row>, least: bool)
    requires forall r :: r in a <==> r in b
    ensures DateBound(a, least) == DateBound(b, least)
  {
    DateBoundIsAttained(a, least);
    DateBoundIsAttained(b, least);
    if a == [] {
      assert forall r :: r !in b;
    } else {
      assert a[0] in b;
      var r :| r in a && r.reportingDate == DateBound(a, least).value;
      var s :| s in b && s.reportingDate == DateBound(b, least).value;
      assert r in b && s in a;
    }
  }

  /** Two datasets have the same profile exactly when they are permutations of each other. */
  lemma SameProfileIffPermutation(a: seq<Row>, b: seq<Row>)
    requires Profiled(a)
    ensures ProfileOf(a) == ProfileOf(b) <==> multiset(a) == multiset(b)
  {
    if multiset(a) == multiset(b) {
      PermutationKeepsUniqueKeys(a, b);
      forall r ensures r in a <==> r in b {
        assert r in a <==> r in multiset(a);
        assert r in b <==> r in multiset(b);
      }
      assert |multiset(a)| == |a| && |multiset(b)| == |b|;
      SameRowsSameBound(a, b, true);
      SameRowsSameBound(a, b, false);
    }
  }

  // Planning

  datatype ChangePlan = ChangePlan(
    sourceCount: nat, inserted: seq<Row>, updated: seq<Row>, deleted: seq<Key>, unchangedCount: nat)
  {
    function Replacement(): seq<Row> {
      inserted + updated
    }

    function KeysToRemove(): set<Key> {
      Elements(deleted) + Keys(updated)
    }

    function Summarize(id: AttemptId, base: Option<AttemptId>, ds: Dataset, mode: Mode, at: Instant): Summary {
      Summary(id, base, ds, mode, sourceCount, |inserted|, |updated|, |deleted|, unchangedCount, at)
    }
  }

  function RemoveKeys(rows: seq<Row>, keys: set<Key>): (kept: seq<Row>)
    ensures forall r :: r in kept <==> r in rows && r.key !in keys
  {
    if rows == [] then []
    else (if rows[0].key in keys then [] else [rows[0]]) + RemoveKeys(rows[1..], keys)
  }

  function UpdatedKeys(source: seq<Row>, base: seq<Row>): set<Key> {
    set k | k in Keys(source) * Keys(base) && RowAt(source, k) != RowAt(base, k)
  }

  function Plan(source: seq<Row>, base: seq<Row>): ChangePlan {
    var added, changed := Keys(source) - Keys(base), UpdatedKeys(source, base);
    SortedSet(added);
    SortedSet(changed);
    ChangePlan(|source|, RowsAt(source, Sorted(added)), RowsAt(source, Sorted(changed)),
               Sorted(Keys(base) - Keys(source)), |Keys(source) * Keys(base) - changed|)
  }

  function FullPlan(source: seq<Row>): ChangePlan {
    SortedSet(Keys(source));
    ChangePlan(|source|, RowsAt(source, Sorted(Keys(source))), [], [], 0)
  }

  /** What the candidate holds once its clone of `base` lost the removed keys and got the replacement rows. */
  function Assemble(base: seq<Row>, plan: ChangePlan): seq<Row> {
    RemoveKeys(base, plan.KeysToRemove()) + plan.Replacement()
  }

  lemma {:induction false} RemovingKeepsUniqueKeys(rows: seq<Row>, keys: set<Key>)
    requires UniqueKeys(rows)
    ensures UniqueKeys(RemoveKeys(rows, keys))
  {
    if rows != [] {
      var kept := RemoveKeys(rows[1..], keys);
      RemovingKeepsUniqueKeys(rows[1..], keys);
      forall j | 0 <= j < |kept| ensures kept[j].key != rows[0].key {
        assert kept[j] in rows[1..];
      }
    }
  }

  lemma {:induction false} RowsAtSorted(rows: seq<Row>, keys: set<Key>)
    requires keys <= Keys(rows)
    ensures forall k :: k in Sorted(keys) ==> k in Keys(rows)
    ensures var found := RowsAt(rows, Sorted(keys));
      UniqueKeys(found) && Keys(found) == keys && |found| == |keys|
      && forall r :: r in found <==> r.key in keys && r == RowAt(rows, r.key)
  {
    SortedSet(keys);
    var found := RowsAt(rows, Sorted(keys));
    forall k | k in keys ensures RowAt(rows, k) in found {
      var i :| 0 <= i < |Sorted(keys)| && Sorted(keys)[i] == k;
      assert found[i] == RowAt(rows, k);
    }
  }

  lemma UniqueKeysConcat(a: seq<Row>, b: seq<Row>)
    requires UniqueKeys(a) && UniqueKeys(b) && Keys(a) !! Keys(b)
    ensures UniqueKeys(a + b)
  {
    forall i, j | 0 <= i < j < |a + b| ensures (a + b)[i].key != (a + b)[j].key {
      if i < |a| <= j {
        assert a[i].key in Keys(a) && b[j - |a|].key in Keys(b);
      }
    }
  }

  lemma {:induction false} RebuildsSource(source: seq<Row>, base: seq<Row>, removed: set<Key>, inserted: seq<Row>,
      updated: seq<Row>)
    requires UniqueKeys(source) && UniqueKeys(base) && UniqueKeys(inserted) && UniqueKeys(updated)
    requires removed == Keys(base) - Keys(source) + UpdatedKeys(source, base)
    requires Keys(inserted) == Keys(source) - Keys(base) && Keys(updated) == UpdatedKeys(source, base)
    requires forall r :: r in inserted + updated ==> r in source
    ensures multiset(RemoveKeys(base, removed) + (inserted + updated)) == multiset(source)
  {
    var kept, added := RemoveKeys(base, removed), inserted + updated;
    RemovingKeepsUniqueKeys(base, removed);
    UniqueKeysConcat(inserted, updated);
    assert Keys(added) == Keys(inserted) + Keys(updated);
    UniqueKeysConcat(kept, added);
    forall r | r in kept ensures r in source {
      UniqueKeysPickOne(base, r);
      assert r.key in Keys(base) && r.key in Keys(source);
      assert RowAt(source, r.key) == r;
    }
    forall r | r in source ensures r in kept + added {
      UniqueKeysPickOne(source, r);
      assert r.key in Keys(source);
      if r.key in Keys(added) {
        var f :| f in added && f.key == r.key;
        UniqueKeysPickOne(source, f);
      } else {
        assert RowAt(base, r.key) == r;
      }
    }
    SameElementsPermute(kept + added, source);
  }

  /** Clone, key deletion and insertion rebuild the source, whatever the base version held. */
  lemma CandidateEqualsSource(source: seq<Row>, base: seq<Row>)
    requires UniqueKeys(source) && UniqueKeys(base)
    ensures multiset(Assemble(base, Plan(source, base))) == multiset(source)
  {
    var plan := Plan(source, base);
    RowsAtSorted(source, Keys(source) - Keys(base));
    RowsAtSorted(source, UpdatedKeys(source, base));
    SortedSet(Keys(base) - Keys(source));
    RebuildsSource(source, base, plan.KeysToRemove(), plan.inserted, plan.updated);
  }

  lemma FullCandidateEqualsSource(source: seq<Row>)
    requires UniqueKeys(source)
    ensures multiset(FullPlan(source).Replacement()) == multiset(source)
  {
    RowsAtSorted(source, Keys(source));
    var built := FullPlan(source).Replacement();
    forall r ensures r in built <==> r in source {
      if r in source {
        UniqueKeysPickOne(source, r);
      }
    }
    SameElementsPermute(built, source);
  }

  lemma CountParts(source: set<Key>, base: set<Key>, changed: set<Key>)
    requires changed <= source * base
    ensures |source| == |source - base| + |changed| + |source * base - changed|
    ensures |base| == |changed| + |source * base - changed| + |base - source|
  {
    var shared := source * base;
    assert source == (source - base) + shared && base == (base - source) + shared;
    assert shared == changed + (shared - changed);
  }

  /** Every source row is inserted, updated or unchanged; every base row is updated, unchanged or deleted. */
  lemma PlanConservesRows(source: seq<Row>, base: seq<Row>)
    requires UniqueKeys(source) && UniqueKeys(base)
    ensures var p := Plan(source, base);
      && |source| == |p.inserted| + |p.updated| + p.unchangedCount
      && |base| == |p.updated| + p.unchangedCount + |p.deleted|
  {
    SortedSet(Keys(source) - Keys(base));
    SortedSet(UpdatedKeys(source, base));
    SortedSet(Keys(base) - Keys(source));
    KeysCount(source);
    KeysCount(base);
    CountParts(Keys(source), Keys(base), UpdatedKeys(source, base));
  }

  // The planning loops

  method IndexByKey(rows: seq<Row>) returns (byKey: map<Key, Row>)
    ensures byKey.Keys == Keys(rows)
    ensures UniqueKeys(rows) ==> forall k :: k in byKey ==> byKey[k] == RowAt(rows, k)
  {
    byKey := map[];
    for i := 0 to |rows|
      invariant byKey.Keys == Keys(rows[..i])
      invariant forall k :: k in byKey ==> byKey[k] in rows && byKey[k].key == k
    {
      assert rows[..i + 1] == rows[..i] + [rows[i]];
      byKey := byKey[rows[i].key := rows[i]];
    }
    assert rows[..|rows|] == rows;
    if UniqueKeys(rows) {
      forall k | k in byKey ensures byKey[k] == RowAt(rows, k) {
        UniqueKeysPickOne(rows, byKey[k]);
      }
    }
  }

  /** Splits the shared keys into those whose row changed and the number of the others. */
  method CompareShared(sourceByKey: map<Key, Row>, baseByKey: map<Key, Row>, shared: seq<Key>)
      returns (updatedKeys: seq<Key>, unchangedCount: nat)
    requires Increasing(shared)
    requires forall k :: k in shared ==> k in sourceByKey && k in baseByKey
    ensures Increasing(updatedKeys) && |shared| == |updatedKeys| + unchangedCount
    ensures forall k :: k in updatedKeys <==> k in shared && sourceByKey[k] != baseByKey[k]
  {
    updatedKeys, unchangedCount := [], 0;
    for i := 0 to |shared|
      invariant Increasing(updatedKeys) && i == |updatedKeys| + unchangedCount
      invariant forall k :: k in updatedKeys <==> k in shared[..i] && sourceByKey[k] != baseByKey[k]
    {
      var key := shared[i];
      assert shared[..i + 1] == shared[..i] + [key];
      if sourceByKey[key] == baseByKey[key] {
        unchangedCount := unchangedCount + 1;
      } else {
        forall j | 0 <= j < |updatedKeys| ensures updatedKeys[j] < key {
          assert updatedKeys[j] in shared[..i];
          var n :| 0 <= n < i && shared[n] == updatedKeys[j];
        }
        updatedKeys := updatedKeys + [key];
      }
    }
    assert shared[..|shared|] == shared;
  }

  /** Refuses datasets with repeated keys; otherwise the plan above. */
  method PlanDatasetChanges(source: seq<Row>, base: seq<Row>) returns (plan: Option<ChangePlan>)
    ensures plan == if UniqueKeys(source) && UniqueKeys(base) then Some(Plan(source, base)) else None
  {
    var sourceByKey := IndexByKey(source);
    var baseByKey := IndexByKey(base);
    KeysCount(source);
    KeysCount(base);
    if |sourceByKey.Keys| != |source| || |baseByKey.Keys| != |base| {
      return None;
    }
    var planned := PlanFromIndexes(source, base, sourceByKey, baseByKey);
    return Some(planned);
  }

  method PlanFromIndexes(source: seq<Row>, base: seq<Row>, sourceByKey: map<Key, Row>, baseByKey: map<Key, Row>)
      returns (plan: ChangePlan)
    requires sourceByKey.Keys == Keys(source) && forall k :: k in sourceByKey ==> sourceByKey[k] == RowAt(source, k)
    requires baseByKey.Keys == Keys(base) && forall k :: k in baseByKey ==> baseByKey[k] == RowAt(base, k)
    ensures plan == Plan(source, base)
  {
    var added := Sorted(sourceByKey.Keys - baseByKey.Keys);
    var deleted := Sorted(baseByKey.Keys - sourceByKey.Keys);
    var shared := Sorted(sourceByKey.Keys * baseByKey.Keys);
    SortedSet(Keys(source) * Keys(base));
    SortedSet(Keys(source) - Keys(base));
    var updatedKeys, unchangedCount := CompareShared(sourceByKey, baseByKey, shared);
    PlanFromComparison(source, base, updatedKeys, unchangedCount);
    var inserted := Pick(sourceByKey, added);
    var updated := Pick(sourceByKey, updatedKeys);
    PickReadsRows(source, sourceByKey, added);
    PickReadsRows(source, sourceByKey, updatedKeys);
    return ChangePlan(|source|, inserted, updated, deleted, unchangedCount);
  }

  lemma PlanFromComparison(source: seq<Row>, base: seq<Row>, updatedKeys: seq<Key>, unchangedCount: nat)
    requires Increasing(updatedKeys)
    requires forall k :: k in updatedKeys <==> k in UpdatedKeys(source, base)
    requires |Keys(source) * Keys(base)| == |updatedKeys| + unchangedCount
    ensures updatedKeys == Sorted(UpdatedKeys(source, base))
    ensures unchangedCount == |Keys(source) * Keys(base) - UpdatedKeys(source, base)|
  {
    var changed := UpdatedKeys(source, base);
    SortedSet(changed);
    assert Elements(updatedKeys) == changed;
    IncreasingUnique(updatedKeys, Sorted(changed));
    CountParts(Keys(source), Keys(base), changed);
    assert Keys(source) * Keys(base) == changed + (Keys(source) * Keys(base) - changed);
  }

  function Pick(byKey: map<Key, Row>, keys: seq<Key>): (rows: seq<Row>)
    requires forall k :: k in keys ==> k in byKey
    ensures |rows| == |keys| && forall i :: 0 <= i < |keys| ==> rows[i] == byKey[keys[i]]
  {
    seq(|keys|, i requires 0 <= i < |keys| => byKey[keys[i]])
  }

  lemma {:induction false} PickReadsRows(rows: seq<Row>, byKey: map<Key, Row>, keys: seq<Key>)
    requires forall k :: k in keys ==> k in byKey && k in Keys(rows) && byKey[k] == RowAt(rows, k)
    ensures Pick(byKey, keys) == RowsAt(rows, keys)
  {
  }

  /** An ascending sequence is determined by its elements. */
  lemma {:induction false} IncreasingUnique(a: seq<nat>, b: seq<nat>)
    requires Increasing(a) && Increasing(b) && Elements(a) == Elements(b)
    ensures a == b
  {
    assert a != [] ==> a[0] in Elements(a);
    assert b != [] ==> b[0] in Elements(b);
    if a != [] {
      assert a[0] in Elements(b);
      assert b[0] in Elements(a);
      var x, y := a[0], b[0];
      assert x == y;
      assert Elements(a[1..]) == Elements(a) - {x} by {
        assert a == [x] + a[1..];
      }
      assert Elements(b[1..]) == Elements(b) - {y} by {
        assert b == [y] + b[1..];
      }
      IncreasingUnique(a[1..], b[1..]);
    }
  }
}
