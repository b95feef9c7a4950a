/** How the product API picks a data version and what its queries then see. */
module ServingReader {
  import opened Sequences
  import opened ServingTables

  /** ORDER BY published_at_utc DESC, publication_id DESC. */
  predicate Before(a: Marker, b: Marker) {
    a.publishedAt > b.publishedAt || (a.publishedAt == b.publishedAt && a.id > b.id)
  }

  function Newest(markers: seq<Marker>): (m: Marker)
    requires markers != []
    ensures m in markers && forall n :: n in markers ==> !Before(n, m)
    ensures forall n :: n in markers ==>
      n.publishedAt < m.publishedAt || (n.publishedAt == m.publishedAt && n.id <= m.id)
  {
    if |markers| == 1 then markers[0]
    else
      var rest := Newest(markers[1..]);
      assert forall n :: n in markers ==> n == markers[0] || n in markers[1..];
      if Before(rest, markers[0]) then rest else markers[0]
  }

  /** The version a request is answered from: the one it names, or the newest ready one. */
  function Resolve(t: Tables, requested: Option<AttemptId>): (version: Option<AttemptId>)
    ensures version.Some? ==> version.value in t.ReadyIds()
    ensures requested.None? ==> (version.None? <==> t.markers == [])
    ensures requested.Some? ==> version == if requested.value in t.ReadyIds() then requested else None
  {
    match requested
    case Some(id) => if id in t.ReadyIds() then Some(id) else None
    case None => if t.markers == [] then None else Some(Newest(t.markers).id)
  }

  /** An unpinned request is answered from a version published last, and of those from the one with the greatest id. */
  lemma ResolvedIsLatest(t: Tables)
    requires t.markers != []
    ensures exists m :: m in t.markers && Resolve(t, None) == Some(m.id) && forall n :: n in t.markers ==>
      n.publishedAt <= m.publishedAt && (n.publishedAt == m.publishedAt ==> n.id <= m.id)
  {
    var m := Newest(t.markers);
    assert Resolve(t, None) == Some(m.id);
  }

  function Filter(rows: seq<Row>, wanted: Row -> bool): seq<Row> {
    if rows == [] then []
    else (if wanted(rows[0]) then [rows[0]] else []) + Filter(rows[1..], wanted)
  }

  /** Filtering keeps every copy of a wanted row and no other row. */
  lemma {:induction false} FilterCounts(rows: seq<Row>, wanted: Row -> bool, r: Row)
    ensures multiset(Filter(rows, wanted))[r] == if wanted(r) then multiset(rows)[r] else 0
  {
    if rows != [] {
      FilterCounts(rows[1..], wanted, r);
      assert rows == [rows[0]] + rows[1..];
    }
  }

  /** Fact rows joined with the distinct ready markers, restricted to one version and to the request's scope. */
  function Facts(t: Tables, ds: Dataset, version: AttemptId, wanted: Row -> bool): seq<Row> {
    if version in t.ReadyIds() then Filter(t.Rows(ds, version), wanted) else []
  }

  /**
    A request resolves its version in one state and queries facts in a later one. Whatever the
    writers did in between, the query sees the complete version it resolved, as its marker declared
    it, or no row at all because the version has been retired.
   */
  lemma {:induction false} QuerySeesWholeVersionOrNothing(
      trail: seq<Tables>, i: nat, j: nat, requested: Option<AttemptId>, ds: Dataset, wanted: Row -> bool)
    requires Run(trail) && Faithful(trail[0]) && i <= j < |trail|
    requires Resolve(trail[i], requested).Some?
    ensures var version := Resolve(trail[i], requested).value;
      && Digest(multiset(trail[i].Rows(ds, version))) == MarkerOf(trail[i], version).Content(ds)
      && |trail[i].Rows(ds, version)| == MarkerOf(trail[i], version).Count(ds)
      && Facts(trail[j], ds, version, wanted) ==
        if version in trail[j].ReadyIds() then Filter(trail[i].Rows(ds, version), wanted) else []
  {
    var version := Resolve(trail[i], requested).value;
    EveryStateIsFaithful(trail, i);
    assert Declares(trail[i], MarkerOf(trail[i], version));
    if version in trail[j].ReadyIds() {
      VersionNeverChanges(trail, i, j, version);
    }
  }

  datatype Readiness = Ready | RowCountMismatch | IntegrityCheckFailed | RepositoryUnavailable

  function MarkersNamed(markers: seq<Marker>, id: AttemptId): (found: seq<Marker>)
    ensures forall m :: m in found <==> m in markers && m.id == id
    ensures found != [] <==> exists m :: m in markers && m.id == id
  {
    if markers == [] then []
    else (if markers[0].id == id then [markers[0]] else []) + MarkersNamed(markers[1..], id)
  }

  /** The version is resolved in one state; the counts are compared, in one query, in a later one. */
  function Probe(resolving: Tables, counting: Tables): Readiness {
    match Resolve(resolving, None)
    case None => RepositoryUnavailable
    case Some(version) =>
      var found := MarkersNamed(counting.markers, version);
      if |found| != 1 then IntegrityCheckFailed
      else if |counting.Rows(Current, version)| == found[0].currentCount
              && |counting.Rows(History, version)| == found[0].historyCount then Ready
      else RowCountMismatch
  }

  /** The probe is ready when one marker names the version and both its counts are those of the stored rows. */
  lemma ProbeSays(resolving: Tables, counting: Tables, version: AttemptId)
    requires Resolve(resolving, None) == Some(version)
    ensures var found, probed := MarkersNamed(counting.markers, version), Probe(resolving, counting);
      && (probed.Ready? <==>
            && |found| == 1 && found[0].currentCount == |Lookup(counting.current, version)|
            && found[0].historyCount == |Lookup(counting.history, version)|)
      && (probed.IntegrityCheckFailed? <==> |found| != 1) && !probed.RepositoryUnavailable?
  {
  }

  lemma {:induction false} OnlyOneMarkerNamed(markers: seq<Marker>, m: Marker)
    requires OneMarkerEach(markers) && m in markers
    ensures MarkersNamed(markers, m.id) == [m]
  {
    if markers[0] == m {
      assert forall n :: n in markers[1..] ==> n.id != m.id;
    } else {
      OnlyOneMarkerNamed(markers[1..], m);
    }
  }

  /**
    In every run the probe is ready exactly when the version it resolved is still there; it never
    reports a row-count mismatch.
   */
  lemma {:induction false} ProbeIsReadyUnlessRetired(trail: seq<Tables>, i: nat, j: nat)
    requires Run(trail) && Faithful(trail[0]) && i <= j < |trail|
    ensures var version := Resolve(trail[i], None);
      Probe(trail[i], trail[j]) ==
        if version.None? then RepositoryUnavailable
        else if version.value in trail[j].ReadyIds() then Ready
        else IntegrityCheckFailed
  {
    var version := Resolve(trail[i], None);
    EveryStateIsFaithful(trail, j);
    if version.Some? {
      var found := MarkersNamed(trail[j].markers, version.value);
      if version.value in trail[j].ReadyIds() {
        var m := MarkerOf(trail[j], version.value);
        OnlyOneMarkerNamed(trail[j].markers, m);
        assert Declares(trail[j], m);
        assert m.Count(Current) == m.currentCount && m.Count(History) == m.historyCount;
      }
    }
  }
}
