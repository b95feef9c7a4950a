/**
  The four serving tables, what a ready marker declares about them, and which changes of them
  the publisher and the retention task are entitled to make.

  Attempt identifiers and row keys are fixed-width hexadecimal text in the repository; they are
  natural numbers here, whose order is the order of that text. A SHA-256 content hash is the
  content it was taken of.
*/
module ServingTables {
  import opened Sequences

  type AttemptId = nat
  type Key = nat
  type Instant = int
  type Hash = string

  datatype Dataset = Current | History

  /** `conforms`: the row passes the column, value, key-format and tenant-scope checks. */
  datatype Row = Row(key: Key, reportingDate: int, body: string, conforms: bool)

  datatype Digest = Digest(rows: multiset<Row>)

  datatype Profile = Profile(rowCount: nat, minDate: Option<int>, maxDate: Option<int>, content: Digest)

  datatype Fingerprint = Fingerprint(coverage: Hash, dbt: Hash, current: Profile, history: Profile)

  datatype Marker = Marker(
    id: AttemptId, fingerprint: Fingerprint, runId: string, coverage: Hash, dbt: Hash,
    currentCount: nat, historyCount: nat, currentContent: Digest, historyContent: Digest,
    minDate: Option<int>, maxDate: Option<int>, publishedAt: Instant)
  {
    function Count(ds: Dataset): nat {
      if ds.Current? then currentCount else historyCount
    }

    function Content(ds: Dataset): Digest {
      if ds.Current? then currentContent else historyContent
    }
  }

  datatype Mode = Full | Incremental

  datatype Summary = Summary(
    attempt: AttemptId, base: Option<AttemptId>, dataset: Dataset, mode: Mode,
    sourceRows: int, insertedRows: int, updatedRows: int, deletedRows: int, unchangedRows: int, recordedAt: Instant)

  /** One table, split by load attempt; an attempt without rows is absent. */
  type Partition<T> = m: map<AttemptId, seq<T>> | forall id :: id in m ==> m[id] != []
    witness map[]

  function Lookup<T>(p: Partition<T>, id: AttemptId): seq<T> {
    if id in p then p[id] else []
  }

  function Put<T>(p: Partition<T>, id: AttemptId, rows: seq<T>): (q: Partition<T>)
    ensures forall other :: Lookup(q, other) == if other == id then rows else Lookup(p, other)
  {
    if rows == [] then map other | other in p && other != id :: p[other] else p[id := rows]
  }

  /** ALTER TABLE ... DELETE WHERE load_attempt_id IN (ids). */
  function Without<T>(p: Partition<T>, ids: set<AttemptId>): (q: Partition<T>)
    ensures forall id :: Lookup(q, id) == if id in ids then [] else Lookup(p, id)
  {
    map id | id in p && id !in ids :: p[id]
  }

  datatype Tables = Tables(
    current: Partition<Row>, history: Partition<Row>, summaries: Partition<Summary>, markers: seq<Marker>)
  {
    function Rows(ds: Dataset, id: AttemptId): seq<Row> {
      if ds.Current? then Lookup(current, id) else Lookup(history, id)
    }

    function Store(ds: Dataset, id: AttemptId, rows: seq<Row>): Tables {
      if ds.Current? then this.(current := Put(current, id, rows)) else this.(history := Put(history, id, rows))
    }

    function Summaries(id: AttemptId): seq<Summary> {
      Lookup(summaries, id)
    }

    function ReadyIds(): set<AttemptId> {
      set m | m in markers :: m.id
    }

    /** SELECT DISTINCT load_attempt_id over the three candidate tables. */
    function CandidateIds(): set<AttemptId> {
      current.Keys + history.Keys + summaries.Keys
    }
  }

  function DropMarkers(markers: seq<Marker>, gone: set<AttemptId>): (kept: seq<Marker>)
    ensures forall m :: m in kept <==> m in markers && m.id !in gone
    ensures |kept| <= |markers| && ((exists m :: m in markers && m.id in gone) ==> |kept| < |markers|)
  {
    if markers == [] then []
    else
      (if markers[0].id in gone then [] else [markers[0]]) + DropMarkers(markers[1..], gone)
  }

  // What the tables promise

  ghost predicate SameAttempt(a: Tables, b: Tables, id: AttemptId) {
    && a.Rows(Current, id) == b.Rows(Current, id)
    && a.Rows(History, id) == b.Rows(History, id)
    && a.Summaries(id) == b.Summaries(id)
  }

  /** A marker repeats the inputs and profiles its source fingerprint was computed from. */
  ghost predicate Coherent(m: Marker) {
    var f := m.fingerprint;
    && m.coverage == f.coverage && m.dbt == f.dbt
    && m.currentCount == f.current.rowCount && m.currentContent == f.current.content
    && m.historyCount == f.history.rowCount && m.historyContent == f.history.content
  }

  /** The rows stored under the marker's id are exactly those its counts and hashes declare. */
  ghost predicate Declares(t: Tables, m: Marker) {
    && Coherent(m)
    && forall ds: Dataset ::
      |t.Rows(ds, m.id)| == m.Count(ds) && Digest(multiset(t.Rows(ds, m.id))) == m.Content(ds)
  }

  ghost predicate OneMarkerEach(markers: seq<Marker>) {
    forall i, j :: 0 <= i < j < |markers| ==> markers[i].id != markers[j].id
  }

  ghost predicate Faithful(t: Tables) {
    OneMarkerEach(t.markers) && forall m :: m in t.markers ==> Declares(t, m)
  }

  // What a writer may do next

  /** Rows and summaries change for attempts without a ready marker only. */
  ghost predicate WritesUnmarked(a: Tables, b: Tables) {
    b.markers == a.markers && forall id :: id in a.ReadyIds() ==> SameAttempt(a, b, id)
  }

  /** One marker is added, for an attempt no earlier marker used, whose rows it declares. */
  ghost predicate AddsMarker(past: seq<Tables>, a: Tables, b: Tables, m: Marker) {
    && b == a.(markers := a.markers + [m])
    && Declares(a, m)
    && forall t :: t in past ==> m.id !in t.ReadyIds()
  }

  ghost predicate RemovesMarkers(a: Tables, b: Tables, gone: set<AttemptId>) {
    b == a.(markers := DropMarkers(a.markers, gone))
  }

  ghost predicate Legal(past: seq<Tables>, a: Tables, b: Tables) {
    || WritesUnmarked(a, b)
    || (exists m :: AddsMarker(past, a, b, m))
    || (exists gone :: RemovesMarkers(a, b, gone))
  }

  /** Every state the tables went through, each reached from the one before by a legal change. */
  ghost predicate Run(trail: seq<Tables>) {
    && trail != []
    && (|trail| > 1 ==> Run(Past(trail)) && Legal(Past(trail), Latest(Past(trail)), Latest(trail)))
  }

  ghost function Past(trail: seq<Tables>): seq<Tables>
    requires trail != []
  {
    trail[..|trail| - 1]
  }

  ghost function Latest(trail: seq<Tables>): Tables
    requires trail != []
  {
    trail[|trail| - 1]
  }

  lemma {:induction false} RunExtends(trail: seq<Tables>, next: Tables)
    requires Run(trail) && Legal(trail, Latest(trail), next)
    ensures Run(trail + [next])
  {
    assert Past(trail + [next]) == trail;
  }

  lemma {:induction false} DroppingKeepsOneEach(markers: seq<Marker>, gone: set<AttemptId>)
    requires OneMarkerEach(markers)
    ensures OneMarkerEach(DropMarkers(markers, gone))
  {
    if markers != [] {
      var rest := markers[1..];
      DroppingKeepsOneEach(rest, gone);
      var kept := DropMarkers(rest, gone);
      forall j | 0 <= j < |kept| ensures kept[j].id != markers[0].id {
        assert kept[j] in rest;
      }
    }
  }

  lemma DeclaresFollowsRows(a: Tables, b: Tables, m: Marker)
    requires Declares(a, m)
    requires a.Rows(Current, m.id) == b.Rows(Current, m.id) && a.Rows(History, m.id) == b.Rows(History, m.id)
    ensures Declares(b, m)
  {
    forall ds: Dataset ensures a.Rows(ds, m.id) == b.Rows(ds, m.id) {
      match ds
      case Current =>
      case History =>
    }
  }

  lemma WritingKeepsFaithful(a: Tables, b: Tables)
    requires Faithful(a) && WritesUnmarked(a, b)
    ensures Faithful(b)
  {
    forall m | m in b.markers ensures Declares(b, m) {
      assert m.id in a.ReadyIds();
      DeclaresFollowsRows(a, b, m);
    }
  }

  lemma MarkingKeepsFaithful(past: seq<Tables>, a: Tables, b: Tables, m: Marker)
    requires Faithful(a) && AddsMarker(past, a, b, m) && a in past
    ensures Faithful(b)
  {
    assert m.id !in a.ReadyIds();
    forall n | n in b.markers ensures Declares(b, n) {
      assert n == m || n in a.markers;
      DeclaresFollowsRows(a, b, n);
    }
  }

  lemma RemovingKeepsFaithful(a: Tables, b: Tables, gone: set<AttemptId>)
    requires Faithful(a) && RemovesMarkers(a, b, gone)
    ensures Faithful(b)
  {
    DroppingKeepsOneEach(a.markers, gone);
    forall m | m in b.markers ensures Declares(b, m) {
      DeclaresFollowsRows(a, b, m);
    }
  }

  lemma LegalKeepsFaithful(past: seq<Tables>, a: Tables, b: Tables)
    requires Faithful(a) && Legal(past, a, b) && a in past
    ensures Faithful(b)
  {
    if WritesUnmarked(a, b) {
      WritingKeepsFaithful(a, b);
    } else if m :| AddsMarker(past, a, b, m) {
      MarkingKeepsFaithful(past, a, b, m);
    } else {
      var gone :| RemovesMarkers(a, b, gone);
      RemovingKeepsFaithful(a, b, gone);
    }
  }

  /** In every state of every run, each ready marker has exactly the rows it declares. */
  lemma {:induction false} EveryStateIsFaithful(trail: seq<Tables>, k: nat)
    requires Run(trail) && Faithful(trail[0]) && k < |trail|
    ensures Faithful(trail[k])
  {
    if k > 0 {
      if k == |trail| - 1 {
        EveryStateIsFaithful(Past(trail), k - 1);
        LegalKeepsFaithful(Past(trail), Latest(Past(trail)), Latest(trail));
      } else {
        EveryStateIsFaithful(Past(trail), k);
      }
    }
  }

  function MarkerOf(t: Tables, id: AttemptId): (m: Marker)
    requires id in t.ReadyIds()
    ensures m in t.markers && m.id == id
  {
    FirstOf(t.markers, id)
  }

  function FirstOf(markers: seq<Marker>, id: AttemptId): (m: Marker)
    requires exists n :: n in markers && n.id == id
    ensures m in markers && m.id == id
  {
    if markers[0].id == id then markers[0]
    else
      assert forall n :: n in markers ==> n == markers[0] || n in markers[1..];
      FirstOf(markers[1..], id)
  }

  lemma OneMarkerPerVersion(t: Tables, m: Marker, n: Marker)
    requires OneMarkerEach(t.markers) && m in t.markers && n in t.markers && m.id == n.id
    ensures m == n
  {
  }

  /** A legal change never brings back a version that was marked before and is not marked now. */
  lemma NoVersionReturns(past: seq<Tables>, a: Tables, b: Tables, earlier: Tables, id: AttemptId)
    requires Legal(past, a, b) && earlier in past
    requires id in earlier.ReadyIds() && id in b.ReadyIds()
    ensures id in a.ReadyIds()
  {
    var m :| m in b.markers && m.id == id;
    if n :| AddsMarker(past, a, b, n) {
      assert m != n;
      assert m in a.markers;
    } else if WritesUnmarked(a, b) {
    } else {
      var gone :| RemovesMarkers(a, b, gone);
      assert m in a.markers;
    }
  }

  lemma CommonMarkerIsTheVersion(a: Tables, b: Tables, id: AttemptId, m: Marker)
    requires Faithful(a) && Faithful(b) && m in a.markers && m in b.markers && m.id == id
    ensures MarkerOf(a, id) == m == MarkerOf(b, id)
  {
    OneMarkerPerVersion(a, MarkerOf(a, id), m);
    OneMarkerPerVersion(b, MarkerOf(b, id), m);
  }

  lemma MarkersAloneKeepAttempts(a: Tables, b: Tables, id: AttemptId)
    requires b == a.(markers := b.markers)
    ensures SameAttempt(a, b, id)
  {
  }

  lemma LegalKeepsVersion(past: seq<Tables>, a: Tables, b: Tables, id: AttemptId)
    requires Legal(past, a, b) && Faithful(a) && Faithful(b)
    requires id in a.ReadyIds() && id in b.ReadyIds()
    ensures SameAttempt(a, b, id) && MarkerOf(a, id) == MarkerOf(b, id)
  {
    hide Declares, SameAttempt;
    var before, after := MarkerOf(a, id), MarkerOf(b, id);
    if WritesUnmarked(a, b) {
      CommonMarkerIsTheVersion(a, b, id, before);
    } else if m :| AddsMarker(past, a, b, m) {
      CommonMarkerIsTheVersion(a, b, id, before);
      MarkersAloneKeepAttempts(a, b, id);
    } else {
      CommonMarkerIsTheVersion(a, b, id, after);
      MarkersAloneKeepAttempts(a, b, id);
    }
  }

  /** A version still marked was marked all along, by the same marker, over the same rows. */
  lemma {:induction false} VersionNeverChanges(trail: seq<Tables>, i: nat, j: nat, id: AttemptId)
    requires Run(trail) && Faithful(trail[0]) && i <= j < |trail|
    requires id in trail[i].ReadyIds() && id in trail[j].ReadyIds()
    ensures SameAttempt(trail[i], trail[j], id) && MarkerOf(trail[i], id) == MarkerOf(trail[j], id)
  {
    if i < j {
      var past := Past(trail);
      if j < |trail| - 1 {
        VersionNeverChanges(past, i, j, id);
      } else {
        var a, b := Latest(past), Latest(trail);
        assert past[i] in past;
        NoVersionReturns(past, a, b, past[i], id);
        VersionNeverChanges(past, i, j - 1, id);
        EveryStateIsFaithful(trail, j - 1);
        EveryStateIsFaithful(trail, j);
        LegalKeepsVersion(past, a, b, id);
      }
    }
  }
}
