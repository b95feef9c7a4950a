/**
  What loading immutable records in chunks amounts to: which rows a load adds, what it counts and
  which conflicts it reports. A SHA-256 identity or payload hash is the identity or payload itself.
 */
module Loading {
  import opened Sequences

  /** What a record is about: a business key, a half-hour or date, and the source revision. */
  datatype Identity = Identity(key: string, at: int, revision: nat)

  /** A record's content: its codes, and its times and quantities. */
  datatype Payload = Payload(text: string, numbers: seq<int>)

  /** `wellFormed`: the record passes the column, schema and lineage checks made before any write. */
  datatype Record = Record(identity: Identity, payload: Payload, lineage: string, wellFormed: bool)

  datatype Stored = Stored(payload: Payload, lineage: string)

  /** The rows of one source table, by identity; an identity without rows is absent. */
  type Table = t: map<Identity, seq<Stored>> | forall id :: id in t ==> t[id] != []
    witness map[]

  /** The payloads known for each identity. */
  type Known = map<Identity, set<Payload>>

  function Hashes(known: Known, id: Identity): set<Payload> {
    if id in known then known[id] else {}
  }

  function RowsOf(t: Table, id: Identity): seq<Stored> {
    if id in t then t[id] else []
  }

  function PayloadsOf(rows: seq<Stored>): set<Payload> {
    set s | s in rows :: s.payload
  }

  function KnownOf(t: Table): (known: Known)
    ensures forall id :: Hashes(known, id) == PayloadsOf(RowsOf(t, id))
    ensures forall id :: id in t ==> Hashes(known, id) != {}
  {
    var known: Known := map id | id in t :: PayloadsOf(t[id]);
    assert forall id :: id in t ==> t[id][0].payload in known[id];
    known
  }

  ghost predicate SameContents(a: Known, b: Known) {
    forall id :: Hashes(a, id) == Hashes(b, id)
  }

  // The records of one identity

  function Select(c: seq<Record>, id: Identity): (group: seq<Record>)
    ensures forall r :: r in group <==> r in c && r.identity == id
    ensures |group| <= |c|
  {
    if c == [] then []
    else
      assert forall r :: r in c <==> r in Front(c) || r == Last(c);
      Select(Front(c), id) + (if Last(c).identity == id then [Last(c)] else [])
  }

  function Payloads(c: seq<Record>, id: Identity): set<Payload> {
    set r | r in c && r.identity == id :: r.payload
  }

  /** One chunk gives the identity two different contents. */
  predicate Contradictory(c: seq<Record>, id: Identity) {
    |Payloads(c, id)| > 1
  }

  function Identities(c: seq<Record>): set<Identity> {
    set r | r in c :: r.identity
  }

  /** The identities of a chunk in order of first appearance, as the keys of a Python dict. */
  function Order(c: seq<Record>): seq<Identity> {
    if c == [] then []
    else
      var earlier := Order(Front(c));
      if Last(c).identity in earlier then earlier else earlier + [Last(c).identity]
  }

  lemma {:induction false} OrderListsEachOnce(c: seq<Record>)
    ensures Distinct(Order(c)) && Elements(Order(c)) == Identities(c)
  {
    if c != [] {
      OrderListsEachOnce(Front(c));
      assert c == Front(c) + [Last(c)];
      assert Identities(c) == Identities(Front(c)) + {Last(c).identity};
      assert forall x :: x in Order(Front(c)) <==> x in Elements(Order(Front(c)));
    }
  }

  lemma {:induction false} SelectNothing(c: seq<Record>, id: Identity)
    requires id !in Identities(c)
    ensures Select(c, id) == []
  {
    if c != [] {
      assert Last(c) in c && forall r :: r in Front(c) ==> r in c;
      SelectNothing(Front(c), id);
    }
  }

  /** How many records of the chunk belong to the given identities. */
  function Total(c: seq<Record>, ids: seq<Identity>): nat {
    if ids == [] then 0 else Total(c, Front(ids)) + |Select(c, Last(ids))|
  }

  function Within(c: seq<Record>, ids: set<Identity>): nat {
    if c == [] then 0 else Within(Front(c), ids) + if Last(c).identity in ids then 1 else 0
  }

  lemma {:induction false} TotalExtends(c: seq<Record>, r: Record, ids: seq<Identity>)
    requires Distinct(ids)
    ensures Total(c + [r], ids) == Total(c, ids) + if r.identity in ids then 1 else 0
  {
    if ids != [] {
      assert Front(c + [r]) == c && Last(c + [r]) == r;
      TotalExtends(c, r, Front(ids));
      assert ids == Front(ids) + [Last(ids)];
    }
  }

  lemma {:induction false} TotalOfNothing(ids: seq<Identity>)
    ensures Total([], ids) == 0
  {
    if ids != [] {
      TotalOfNothing(Front(ids));
    }
  }

  /** Counting group by group is counting record by record. */
  lemma {:induction false} TotalCountsRecords(c: seq<Record>, ids: seq<Identity>)
    requires Distinct(ids)
    ensures Total(c, ids) == Within(c, Elements(ids))
  {
    if c == [] {
      TotalOfNothing(ids);
    } else {
      TotalCountsRecords(Front(c), ids);
      TotalExtends(Front(c), Last(c), ids);
      assert c == Front(c) + [Last(c)];
    }
  }

  lemma {:induction false} WithinAll(c: seq<Record>, ids: set<Identity>)
    requires Identities(c) <= ids
    ensures Within(c, ids) == |c|
  {
    if c != [] {
      assert c == Front(c) + [Last(c)];
      assert forall r :: r in Front(c) ==> r in c;
      assert Last(c) in c;
      WithinAll(Front(c), ids);
    }
  }

  lemma {:induction false} WithinFollowsIdentities(c: seq<Record>, a: set<Identity>, b: set<Identity>)
    requires forall r :: r in c ==> (r.identity in a <==> r.identity in b)
    ensures Within(c, a) == Within(c, b)
  {
    if c != [] {
      assert forall r :: r in Front(c) ==> r in c;
      assert Last(c) in c;
      WithinFollowsIdentities(Front(c), a, b);
    }
  }

  lemma {:induction false} WithinConcat(a: seq<Record>, b: seq<Record>, ids: set<Identity>)
    ensures Within(a + b, ids) == Within(a, ids) + Within(b, ids)
  {
    if b == [] {
      assert a + b == a;
    } else {
      assert Front(a + b) == a + Front(b) && Last(a + b) == Last(b);
      WithinConcat(a, Front(b), ids);
    }
  }

  // What happens to each group of a chunk

  function Agreed(c: seq<Record>, ids: seq<Identity>): (agreed: seq<Identity>)
    ensures forall id :: id in agreed <==> id in ids && !Contradictory(c, id)
  {
    if ids == [] then []
    else
      assert forall id :: id in ids <==> id in Front(ids) || id == Last(ids);
      if Contradictory(c, Last(ids)) then Agreed(c, Front(ids)) else Agreed(c, Front(ids)) + [Last(ids)]
  }

  function Fresh(known: Known, ids: seq<Identity>): (found: seq<Identity>)
    ensures forall id :: id in found <==> id in ids && Hashes(known, id) == {}
    ensures |found| <= |ids|
  {
    if ids == [] then []
    else
      assert forall id :: id in ids <==> id in Front(ids) || id == Last(ids);
      if Hashes(known, Last(ids)) == {} then Fresh(known, Front(ids)) + [Last(ids)] else Fresh(known, Front(ids))
  }

  /** One entry of the conflict log; `weight` is the number of records it stands for. */
  datatype Conflict = Conflict(identity: Identity, incoming: set<Payload>, existing: set<Payload>, weight: nat)

  function Contradictions(c: seq<Record>, ids: seq<Identity>): seq<Conflict> {
    if ids == [] then []
    else
      var id, earlier := Last(ids), Contradictions(c, Front(ids));
      if Contradictory(c, id) then earlier + [Conflict(id, Payloads(c, id), {}, |Select(c, id)|)] else earlier
  }

  predicate Clashing(known: Known, c: seq<Record>, id: Identity) {
    Hashes(known, id) != {} && Hashes(known, id) != Payloads(c, id)
  }

  function Clashes(known: Known, c: seq<Record>, ids: seq<Identity>): seq<Conflict> {
    if ids == [] then []
    else
      var id, earlier := Last(ids), Clashes(known, c, Front(ids));
      if Clashing(known, c, id) then earlier + [Conflict(id, Payloads(c, id), Hashes(known, id), |Select(c, id)|)]
      else earlier
  }

  /** The conflicts of a chunk: contradictions inside it first, then clashes with what is known. */
  function Conflicts(known: Known, c: seq<Record>): seq<Conflict> {
    Contradictions(c, Order(c)) + Clashes(known, c, Agreed(c, Order(c)))
  }

  function NewIds(known: Known, c: seq<Record>): seq<Identity> {
    Fresh(known, Agreed(c, Order(c)))
  }

  function Weight(conflicts: seq<Conflict>): nat {
    if conflicts == [] then 0 else Weight(Front(conflicts)) + Last(conflicts).weight
  }

  function Named(conflicts: seq<Conflict>): set<Identity> {
    set e | e in conflicts :: e.identity
  }

  // The bounded conflict log

  datatype Log = Log(records: nat, identities: set<Identity>, count: nat, details: seq<Conflict>, truncated: bool)

  const EMPTY_LOG := Log(0, {}, 0, [], false)

  function Logged(log: Log, e: Conflict, limit: nat): Log {
    if e.identity in log.identities then log.(records := log.records + e.weight)
    else Log(log.records + e.weight, log.identities + {e.identity}, log.count + 1,
             if |log.details| < limit then log.details + [e] else log.details,
             log.truncated || |log.details| >= limit)
  }

  function LoggedAll(log: Log, conflicts: seq<Conflict>, limit: nat): Log {
    if conflicts == [] then log else Logged(LoggedAll(log, Front(conflicts), limit), Last(conflicts), limit)
  }

  /** The log counts each identity once and keeps as many details as the limit allows. */
  ghost predicate Sound(log: Log, limit: nat) {
    && log.count == |log.identities|
    && |log.details| == Min(limit, log.count)
    && (log.truncated <==> log.count > limit)
    && Named(log.details) <= log.identities
  }

  lemma LoggingOneIsSound(log: Log, e: Conflict, limit: nat)
    requires Sound(log, limit)
    ensures Sound(Logged(log, e, limit), limit)
    ensures Logged(log, e, limit).identities == log.identities + {e.identity}
  {
    var next := Logged(log, e, limit);
    assert log.identities + {e.identity} == next.identities;
    forall d | d in next.details ensures d.identity in next.identities {
      assert d in log.details ==> d.identity in Named(log.details);
    }
  }

  lemma OneMoreNamed(conflicts: seq<Conflict>, e: Conflict)
    ensures Named(conflicts + [e]) == Named(conflicts) + {e.identity}
  {
  }

  lemma {:induction false} LoggingIsSound(log: Log, conflicts: seq<Conflict>, limit: nat)
    requires Sound(log, limit)
    ensures Sound(LoggedAll(log, conflicts, limit), limit)
    ensures LoggedAll(log, conflicts, limit).records == log.records + Weight(conflicts)
    ensures LoggedAll(log, conflicts, limit).identities == log.identities + Named(conflicts)
  {
    if conflicts != [] {
      var earlier, e := Front(conflicts), Last(conflicts);
      assert conflicts == earlier + [e];
      LoggingIsSound(log, earlier, limit);
      LoggingOneIsSound(LoggedAll(log, earlier, limit), e, limit);
      OneMoreNamed(earlier, e);
    }
  }

  lemma {:induction false} LoggingInTwoParts(log: Log, a: seq<Conflict>, b: seq<Conflict>, limit: nat)
    ensures LoggedAll(log, a + b, limit) == LoggedAll(LoggedAll(log, a, limit), b, limit)
  {
    if b == [] {
      assert a + b == a;
    } else {
      assert Front(a + b) == a + Front(b) && Last(a + b) == Last(b);
      LoggingInTwoParts(log, a, Front(b), limit);
    }
  }

  // A whole load by the only writer

  datatype Totals = Totals(input: nat, planned: nat, inserted: nat, skipped: int, log: Log, chunks: nat)

  const NOTHING_YET := Totals(0, 0, 0, 0, EMPTY_LOG, 0)

  /** Every record of a chunk is inserted, in conflict, or an exact replay. */
  function Step(totals: Totals, known: Known, c: seq<Record>, limit: nat): Totals {
    var added := |NewIds(known, c)|;
    Totals(totals.input + |c|, totals.planned + added, totals.inserted + added,
           totals.skipped + |c| - Weight(Conflicts(known, c)) - added,
           LoggedAll(totals.log, Conflicts(known, c), limit), totals.chunks + 1)
  }

  function Taught(known: Known, c: seq<Record>, ids: seq<Identity>): Known {
    if ids == [] then known else Taught(known, c, Front(ids))[Last(ids) := Payloads(c, Last(ids))]
  }

  lemma {:induction false} TaughtContents(known: Known, c: seq<Record>, ids: seq<Identity>, id: Identity)
    ensures Hashes(Taught(known, c, ids), id) == if id in ids then Payloads(c, id) else Hashes(known, id)
  {
    if ids != [] {
      assert id in ids <==> id in Front(ids) || id == Last(ids);
      TaughtContents(known, c, Front(ids), id);
    }
  }

  function Learned(known: Known, c: seq<Record>): Known {
    Taught(known, c, NewIds(known, c))
  }

  function KnownAfter(known: Known, chunks: seq<seq<Record>>): Known {
    if chunks == [] then known else Learned(KnownAfter(known, Front(chunks)), Last(chunks))
  }

  function LoadAll(totals: Totals, known: Known, chunks: seq<seq<Record>>, limit: nat): Totals {
    if chunks == [] then totals
    else Step(LoadAll(totals, known, Front(chunks), limit), KnownAfter(known, Front(chunks)), Last(chunks), limit)
  }

  function RowFor(c: seq<Record>, id: Identity): Stored
    requires id in Identities(c)
  {
    var r :| r in c && r.identity == id;
    assert r in Select(c, id);
    Stored(Select(c, id)[0].payload, Select(c, id)[0].lineage)
  }

  /** MERGE ... WHEN NOT MATCHED THEN INSERT of one row per identity. */
  function Merged(t: Table, c: seq<Record>, ids: set<Identity>): (after: Table)
    requires ids <= Identities(c)
    ensures after.Keys == t.Keys + ids
    ensures forall id :: RowsOf(after, id) == if id !in t && id in ids then [RowFor(c, id)] else RowsOf(t, id)
  {
    map id | id in t.Keys + ids :: if id in t then t[id] else [RowFor(c, id)]
  }

  function AfterChunk(t: Table, c: seq<Record>): Table {
    OrderListsEachOnce(c);
    Merged(t, c, Elements(NewIds(KnownOf(t), c)))
  }

  function TableAfter(t: Table, chunks: seq<seq<Record>>): Table {
    if chunks == [] then t else AfterChunk(TableAfter(t, Front(chunks)), Last(chunks))
  }

  function Chunks(records: seq<Record>, size: nat): seq<seq<Record>>
    requires size > 0
  {
    if records == [] then []
    else if |records| <= size then [records]
    else [records[..size]] + Chunks(records[size..], size)
  }
}
