/** Which versions retention keeps, and what a cleanup leaves behind wherever it stops. */
module ServingRetention {
  import opened Sequences
  import opened ServingTables
  import opened ServingReader

  const MINIMUM_READY_VERSIONS := 2
  const DELETE_BATCH_SIZE := 100

  /** GROUP BY publication_id ORDER BY max(published_at_utc) DESC, publication_id DESC. */
  function ReadyOrder(markers: seq<Marker>): seq<AttemptId>
    decreases |markers|
  {
    if markers == [] then []
    else [Newest(markers).id] + ReadyOrder(DropMarkers(markers, {Newest(markers).id}))
  }

  function Take<T>(s: seq<T>, n: nat): seq<T> {
    s[..Min(n, |s|)]
  }

  function Kept(markers: seq<Marker>, keep: nat): seq<AttemptId> {
    Take(ReadyOrder(markers), keep)
  }

  datatype RetentionPlan = RetentionPlan(retained: seq<AttemptId>, retired: seq<AttemptId>, invisible: seq<AttemptId>) {
    function ToDelete(): set<AttemptId> {
      Elements(retired) + Elements(invisible)
    }
  }

  function PlanRetention(t: Tables, keep: nat): RetentionPlan {
    var order := ReadyOrder(t.markers);
    RetentionPlan(Kept(t.markers, keep), order[Min(keep, |order|)..], Sorted(t.CandidateIds() - Elements(order)))
  }

  function Restrict<T>(p: Partition<T>, kept: set<AttemptId>): (q: Partition<T>)
    ensures forall id :: Lookup(q, id) == if id in kept then Lookup(p, id) else []
  {
    map id | id in p && id in kept :: p[id]
  }

  function RestrictTo(t: Tables, kept: set<AttemptId>): Tables {
    Tables(Restrict(t.current, kept), Restrict(t.history, kept), Restrict(t.summaries, kept),
           DropMarkers(t.markers, t.ReadyIds() - kept))
  }

  /** What is left when everything but the newest `keep` versions is gone. */
  function Clean(t: Tables, keep: nat): Tables {
    RestrictTo(t, Elements(Kept(t.markers, keep)))
  }

  /**
    A state a cleanup of `before` may be in: only retired markers are gone, and rows are gone only
    for doomed attempts that are not, or no longer, marked ready.
   */
  ghost predicate CleaningWithin(before: Tables, t: Tables, retired: set<AttemptId>, doomed: set<AttemptId>) {
    && before.ReadyIds() - t.ReadyIds() <= retired
    && t.markers == DropMarkers(before.markers, before.ReadyIds() - t.ReadyIds())
    && Spares(before, t, t.ReadyIds(), doomed)
  }

  ghost predicate Spares(before: Tables, t: Tables, ready: set<AttemptId>, doomed: set<AttemptId>) {
    forall id :: id in ready || id !in doomed ==> SameAttempt(before, t, id)
  }

  ghost predicate Cleaning(before: Tables, t: Tables, keep: nat) {
    CleaningWithin(before, t, Elements(PlanRetention(before, keep).retired), PlanRetention(before, keep).ToDelete())
  }

  // Markers

  lemma {:induction false} DroppingTwice(markers: seq<Marker>, first: set<AttemptId>, second: set<AttemptId>)
    ensures DropMarkers(DropMarkers(markers, first), second) == DropMarkers(markers, first + second)
  {
    if markers != [] {
      var head, rest := markers[0], DropMarkers(markers[1..], first);
      DroppingTwice(markers[1..], first, second);
      if head.id in first {
        assert DropMarkers(markers, first) == rest;
      } else {
        assert DropMarkers(markers, first) == [head] + rest;
        assert ([head] + rest)[1..] == rest;
      }
    }
  }

  lemma {:induction false} DroppingSame(markers: seq<Marker>, a: set<AttemptId>, b: set<AttemptId>)
    requires forall m :: m in markers ==> (m.id in a <==> m.id in b)
    ensures DropMarkers(markers, a) == DropMarkers(markers, b)
  {
    if markers != [] {
      DroppingSame(markers[1..], a, b);
    }
  }

  lemma {:induction false} DroppingNone(markers: seq<Marker>)
    ensures DropMarkers(markers, {}) == markers
  {
    if markers != [] {
      DroppingNone(markers[1..]);
    }
  }

  lemma {:induction false} IdsAfterDropping(markers: seq<Marker>, gone: set<AttemptId>)
    ensures (set m | m in DropMarkers(markers, gone) :: m.id) == (set m | m in markers :: m.id) - gone
  {
    forall m | m in markers && m.id !in gone ensures m in DropMarkers(markers, gone) {
    }
  }

  lemma {:induction false} ReadyOrderListsEachOnce(markers: seq<Marker>)
    ensures Distinct(ReadyOrder(markers))
    ensures Elements(ReadyOrder(markers)) == set m | m in markers :: m.id
    decreases |markers|
  {
    if markers != [] {
      var id := Newest(markers).id;
      var rest := DropMarkers(markers, {id});
      ReadyOrderListsEachOnce(rest);
      IdsAfterDropping(markers, {id});
      assert id !in Elements(ReadyOrder(rest));
      assert Elements(ReadyOrder(markers)) == {id} + Elements(ReadyOrder(rest));
    }
  }

  lemma {:induction false} SameNewest(a: seq<Marker>, b: seq<Marker>)
    requires a != [] && b != [] && Newest(a) in b && Newest(b) in a
    ensures Newest(a).id == Newest(b).id
  {
  }

  lemma TakeFirst<T>(x: T, s: seq<T>, n: nat)
    requires n > 0
    ensures Take([x] + s, n) == [x] + Take(s, n - 1)
  {
  }

  lemma {:induction false} KeptUnfolds(markers: seq<Marker>, keep: nat)
    requires markers != [] && keep > 0
    ensures Kept(markers, keep) == [Newest(markers).id] + Kept(DropMarkers(markers, {Newest(markers).id}), keep - 1)
  {
    TakeFirst(Newest(markers).id, ReadyOrder(DropMarkers(markers, {Newest(markers).id})), keep);
  }

  lemma {:induction false} DroppingCommutes(markers: seq<Marker>, gone: set<AttemptId>, id: AttemptId)
    ensures DropMarkers(DropMarkers(markers, gone), {id}) == DropMarkers(DropMarkers(markers, {id}), gone)
  {
    DroppingTwice(markers, gone, {id});
    DroppingTwice(markers, {id}, gone);
    assert gone + {id} == {id} + gone;
  }

  lemma {:induction false} NewestSurvives(markers: seq<Marker>, gone: set<AttemptId>)
    requires markers != [] && Newest(markers).id !in gone
    ensures DropMarkers(markers, gone) != [] && Newest(DropMarkers(markers, gone)).id == Newest(markers).id
  {
    SameNewest(markers, DropMarkers(markers, gone));
  }

  lemma HeadAndTailElements(x: AttemptId, s: seq<AttemptId>)
    ensures Elements([x] + s) == {x} + Elements(s)
  {
  }

  /** Removing versions behind the kept ones changes neither the kept versions nor their order. */
  lemma {:induction false} KeptIsStable(markers: seq<Marker>, gone: set<AttemptId>, keep: nat)
    requires gone !! Elements(Kept(markers, keep))
    ensures Kept(DropMarkers(markers, gone), keep) == Kept(markers, keep)
    decreases |markers|
  {
    if markers != [] && keep > 0 {
      var id := Newest(markers).id;
      var rest := DropMarkers(markers, {id});
      KeptUnfolds(markers, keep);
      HeadAndTailElements(id, Kept(rest, keep - 1));
      NewestSurvives(markers, gone);
      DroppingCommutes(markers, gone, id);
      KeptIsStable(rest, gone, keep - 1);
      KeptUnfolds(DropMarkers(markers, gone), keep);
    }
  }

  lemma SplitElements<T>(s: seq<T>, n: nat)
    requires Distinct(s) && n <= |s|
    ensures Elements(s[..n]) + Elements(s[n..]) == Elements(s)
    ensures Elements(s[..n]) !! Elements(s[n..])
  {
    assert s == s[..n] + s[n..];
    forall x | x in s[..n] ensures x !in s[n..] {
      var i :| 0 <= i < n && s[i] == x;
    }
  }

  lemma PlanSplitsReadyIds(t: Tables, keep: nat)
    ensures var plan := PlanRetention(t, keep);
      && Elements(plan.retained) + Elements(plan.retired) == t.ReadyIds()
      && Elements(plan.retained) !! Elements(plan.retired)
      && Elements(plan.invisible) == t.CandidateIds() - t.ReadyIds()
      && |plan.retained| == Min(keep, |t.ReadyIds()|)
  {
    var order := ReadyOrder(t.markers);
    ReadyOrderListsEachOnce(t.markers);
    DistinctCardinality(order);
    SortedSet(t.CandidateIds() - Elements(order));
    SplitElements(order, Min(keep, |order|));
  }

  lemma {:induction false} OrderUnfolds(markers: seq<Marker>)
    requires markers != []
    ensures ReadyOrder(markers) == [Newest(markers).id] + ReadyOrder(DropMarkers(markers, {Newest(markers).id}))
  {
  }

  lemma {:induction false} LaterIsOther(markers: seq<Marker>, j: nat)
    requires markers != [] && 0 < j < |ReadyOrder(markers)|
    ensures ReadyOrder(markers)[j] != Newest(markers).id
  {
    ReadyOrderListsEachOnce(markers);
    assert ReadyOrder(markers)[0] == Newest(markers).id;
  }

  /** The first marker orders after the second: it was published later, or at once with a greater id. */
  ghost predicate Newer(newer: Marker, older: Marker) {
    older.publishedAt < newer.publishedAt || (older.publishedAt == newer.publishedAt && older.id < newer.id)
  }

  lemma FirstIsNewer(markers: seq<Marker>, older: Marker)
    requires older in markers && older.id != Newest(markers).id
    ensures Newer(Newest(markers), older)
  {
  }

  /** Wherever one id is listed before another, it has a marker that orders after every marker of the other. */
  lemma {:induction false} OrderDescends(markers: seq<Marker>, i: nat, j: nat, older: Marker)
    requires i < j < |ReadyOrder(markers)| && older in markers && older.id == ReadyOrder(markers)[j]
    ensures exists newer :: newer in markers && newer.id == ReadyOrder(markers)[i] && Newer(newer, older)
    decreases |markers|
  {
    hide ReadyOrder, Newest, Newer;
    assert markers != [];
    var first := Newest(markers);
    var rest := DropMarkers(markers, {first.id});
    OrderUnfolds(markers);
    LaterIsOther(markers, j);
    if i == 0 {
      FirstIsNewer(markers, older);
    } else {
      OrderDescends(rest, i - 1, j - 1, older);
      var newer :| newer in rest && newer.id == ReadyOrder(rest)[i - 1] && Newer(newer, older);
    }
  }

  /** No version is retired for an older one: each retained version has a marker that orders after every retired one. */
  lemma RetiredAreOlder(t: Tables, keep: nat, retained: AttemptId, older: Marker)
    requires retained in PlanRetention(t, keep).retained
    requires older in t.markers && older.id in PlanRetention(t, keep).retired
    ensures exists newer :: newer in t.markers && newer.id == retained && Newer(newer, older)
  {
    hide Newer;
    var order := ReadyOrder(t.markers);
    var n := Min(keep, |order|);
    var i :| 0 <= i < n && order[i] == retained;
    var j :| 0 <= j < |order[n..]| && order[n..][j] == older.id;
    OrderDescends(t.markers, i, n + j, older);
  }

  // Wherever it stops

  lemma SamePartition<T>(p: Partition<T>, q: Partition<T>)
    requires forall id :: Lookup(p, id) == Lookup(q, id)
    ensures p == q
  {
    forall id ensures id in p <==> id in q {
      assert id in p ==> Lookup(p, id) != [];
      assert id in q ==> Lookup(q, id) != [];
    }
    forall id | id in p ensures p[id] == q[id] {
      assert Lookup(p, id) == Lookup(q, id);
    }
  }

  lemma {:induction false} SameRestriction(a: Tables, b: Tables, kept: set<AttemptId>)
    requires forall id :: id in kept ==> SameAttempt(a, b, id)
    requires DropMarkers(a.markers, a.ReadyIds() - kept) == DropMarkers(b.markers, b.ReadyIds() - kept)
    ensures RestrictTo(a, kept) == RestrictTo(b, kept)
  {
    forall id ensures Lookup(Restrict(a.current, kept), id) == Lookup(Restrict(b.current, kept), id) {
      assert id in kept ==> a.Rows(Current, id) == b.Rows(Current, id);
    }
    forall id ensures Lookup(Restrict(a.history, kept), id) == Lookup(Restrict(b.history, kept), id) {
      assert id in kept ==> a.Rows(History, id) == b.Rows(History, id);
    }
    forall id ensures Lookup(Restrict(a.summaries, kept), id) == Lookup(Restrict(b.summaries, kept), id) {
      assert id in kept ==> a.Summaries(id) == b.Summaries(id);
    }
    SamePartition(Restrict(a.current, kept), Restrict(b.current, kept));
    SamePartition(Restrict(a.history, kept), Restrict(b.history, kept));
    SamePartition(Restrict(a.summaries, kept), Restrict(b.summaries, kept));
  }

  lemma {:induction false} RetiringKeepsRest(before: Tables, t: Tables, kept: set<AttemptId>)
    requires t.markers == DropMarkers(before.markers, before.ReadyIds() - t.ReadyIds())
    requires kept <= t.ReadyIds() <= before.ReadyIds()
    ensures DropMarkers(before.markers, before.ReadyIds() - kept) == DropMarkers(t.markers, t.ReadyIds() - kept)
  {
    DroppingTwice(before.markers, before.ReadyIds() - t.ReadyIds(), t.ReadyIds() - kept);
    assert before.ReadyIds() - t.ReadyIds() + (t.ReadyIds() - kept) == before.ReadyIds() - kept;
  }

  lemma CleaningKeepsTheNewest(before: Tables, t: Tables, keep: nat)
    requires Cleaning(before, t, keep)
    ensures Kept(t.markers, keep) == Kept(before.markers, keep)
    ensures Elements(Kept(before.markers, keep)) <= t.ReadyIds() <= before.ReadyIds()
  {
    var gone := before.ReadyIds() - t.ReadyIds();
    PlanSplitsReadyIds(before, keep);
    KeptIsStable(before.markers, gone, keep);
    IdsAfterDropping(before.markers, gone);
  }

  /** A cleanup that stopped anywhere, run again, ends where one that never stopped would have. */
  lemma InterruptedCleanupReachesSameEnd(before: Tables, t: Tables, keep: nat)
    requires Cleaning(before, t, keep)
    ensures Clean(t, keep) == Clean(before, keep)
  {
    var kept := Elements(Kept(before.markers, keep));
    CleaningKeepsTheNewest(before, t, keep);
    RetiringKeepsRest(before, t, kept);
    SameRestriction(before, t, kept);
  }

  lemma {:induction false} KeptStartsWithNewest(markers: seq<Marker>, keep: nat)
    requires markers != [] && keep > 0
    ensures Kept(markers, keep) != [] && Kept(markers, keep)[0] == Newest(markers).id
  {
    KeptUnfolds(markers, keep);
  }

  /** Neither a finished nor an interrupted cleanup moves an unpinned reader or touches a version still marked. */
  lemma CleanupKeepsServing(before: Tables, t: Tables, keep: nat)
    requires Cleaning(before, t, keep) && MINIMUM_READY_VERSIONS <= keep
    ensures Resolve(t, None) == Resolve(before, None)
    ensures forall id :: id in Kept(before.markers, keep) ==> id in t.ReadyIds()
    ensures forall id :: id in t.ReadyIds() ==> SameAttempt(before, t, id)
  {
    CleaningKeepsTheNewest(before, t, keep);
    assert forall id :: id in Kept(before.markers, keep) ==> id in Elements(Kept(before.markers, keep));
    if before.markers != [] {
      KeptStartsWithNewest(before.markers, keep);
      assert Newest(before.markers).id in t.ReadyIds();
      KeptStartsWithNewest(t.markers, keep);
    }
  }

  /** A version published after every other one is served, and stays served through any cleanup. */
  lemma LatestSurvivesCleanup(before: Tables, t: Tables, keep: nat, m: Marker)
    requires Cleaning(before, t, keep) && MINIMUM_READY_VERSIONS <= keep
    requires m in before.markers && forall n :: n in before.markers && n.id != m.id ==> n.publishedAt < m.publishedAt
    ensures Resolve(t, None) == Some(m.id) && m.id in t.ReadyIds()
    ensures m.id in PlanRetention(before, keep).retained
  {
    CleanupKeepsServing(before, t, keep);
    KeptStartsWithNewest(before.markers, keep);
    assert Newest(before.markers).id == m.id;
  }

  lemma RestrictingNothing(t: Tables, kept: set<AttemptId>)
    requires t.ReadyIds() + t.CandidateIds() <= kept
    ensures RestrictTo(t, kept) == t
  {
    assert t.ReadyIds() - kept == {};
    DroppingNone(t.markers);
    SamePartition(Restrict(t.current, kept), t.current);
    SamePartition(Restrict(t.history, kept), t.history);
    SamePartition(Restrict(t.summaries, kept), t.summaries);
  }

  lemma CandidatesAreMarkedOrStored(a: Tables, b: Tables, id: AttemptId)
    requires SameAttempt(a, b, id)
    ensures id in a.CandidateIds() <==> id in b.CandidateIds()
  {
    assert id in a.current <==> a.Rows(Current, id) != [];
    assert id in b.current <==> b.Rows(Current, id) != [];
    assert id in a.history <==> a.Rows(History, id) != [];
    assert id in b.history <==> b.Rows(History, id) != [];
    assert id in a.summaries <==> a.Summaries(id) != [];
    assert id in b.summaries <==> b.Summaries(id) != [];
  }

  /** A cleanup has ended once no marker and no candidate row it was to delete is left. */
  lemma CleanedCompletely(before: Tables, t: Tables, keep: nat)
    requires Cleaning(before, t, keep)
    requires PlanRetention(before, keep).ToDelete() !! t.ReadyIds() + t.CandidateIds()
    ensures t == Clean(before, keep)
  {
    var kept := Elements(Kept(before.markers, keep));
    PlanSplitsReadyIds(before, keep);
    CleaningKeepsTheNewest(before, t, keep);
    InterruptedCleanupReachesSameEnd(before, t, keep);
    forall id | id in t.CandidateIds() ensures id in kept {
      CandidatesAreMarkedOrStored(before, t, id);
    }
    RestrictingNothing(t, kept);
  }

  lemma RestrictionSpares(t: Tables, kept: set<AttemptId>, id: AttemptId)
    requires id in kept
    ensures SameAttempt(t, RestrictTo(t, kept), id)
  {
  }

  lemma RestrictionLeaves(t: Tables, kept: set<AttemptId>)
    ensures RestrictTo(t, kept).CandidateIds() <= kept
  {
    forall id | id in RestrictTo(t, kept).CandidateIds() ensures id in kept {
      NothingElseStored(t.current, kept, id);
      NothingElseStored(t.history, kept, id);
      NothingElseStored(t.summaries, kept, id);
    }
  }

  lemma NothingElseStored<T>(p: Partition<T>, kept: set<AttemptId>, id: AttemptId)
    ensures id in Restrict(p, kept) ==> id in kept
  {
    assert id in Restrict(p, kept) ==> Lookup(Restrict(p, kept), id) != [];
  }

  lemma RestrictionIsExact(t: Tables, kept: set<AttemptId>)
    requires kept <= t.ReadyIds()
    ensures RestrictTo(t, kept).ReadyIds() == kept && RestrictTo(t, kept).CandidateIds() <= kept
    ensures forall id :: id in kept ==> SameAttempt(t, RestrictTo(t, kept), id)
  {
    hide SameAttempt, Restrict;
    IdsAfterDropping(t.markers, t.ReadyIds() - kept);
    assert t.ReadyIds() - (t.ReadyIds() - kept) == kept;
    RestrictionLeaves(t, kept);
    forall id | id in kept ensures SameAttempt(t, RestrictTo(t, kept), id) {
      RestrictionSpares(t, kept, id);
    }
  }

  /** Nothing outside the kept versions survives a complete cleanup, and they survive whole. */
  lemma CleanKeepsExactlyTheNewest(t: Tables, keep: nat)
    ensures var kept := Elements(Kept(t.markers, keep));
      && Clean(t, keep).ReadyIds() == kept && Clean(t, keep).CandidateIds() <= kept
      && forall id :: id in kept ==> SameAttempt(t, Clean(t, keep), id)
  {
    PlanSplitsReadyIds(t, keep);
    RestrictionIsExact(t, Elements(Kept(t.markers, keep)));
  }
}
