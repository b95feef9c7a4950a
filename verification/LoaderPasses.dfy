/** The passes the insert-only loader makes over one chunk. */
module LoaderPasses {
  import opened Sequences
  import opened Loading
  import opened LoadResults

  class LoadAccumulator {
    var input: nat
    var planned: nat
    var inserted: nat
    var skipped: int
    var conflictRecords: nat
    var conflictIdentities: nat
    var conflictIdentityHashes: set<Identity>
    var conflicts: seq<Conflict>
    var detailsTruncated: bool
    var chunks: nat

    constructor ()
      ensures Totals() == NOTHING_YET
    {
      input, planned, inserted, skipped, chunks := 0, 0, 0, 0, 0;
      conflictRecords, conflictIdentities, conflictIdentityHashes, conflicts, detailsTruncated := 0, 0, {}, [], false;
    }

    function ConflictLog(): Log
      reads this
    {
      Log(conflictRecords, conflictIdentityHashes, conflictIdentities, conflicts, detailsTruncated)
    }

    function Totals(): Totals
      reads this
    {
      Loading.Totals(input, planned, inserted, skipped, ConflictLog(), chunks)
    }

    method RecordConflict(e: Conflict, limit: nat)
      modifies this
      ensures Totals() == old(Totals()).(log := Logged(old(ConflictLog()), e, limit))
    {
      conflictRecords := conflictRecords + e.weight;
      if e.identity in conflictIdentityHashes {
        return;
      }
      conflictIdentityHashes := conflictIdentityHashes + {e.identity};
      conflictIdentities := conflictIdentities + 1;
      if |conflicts| < limit {
        conflicts := conflicts + [e];
      } else {
        detailsTruncated := true;
      }
    }
  }

  lemma {:induction false} OneMoreRecord(c: seq<Record>, r: Record)
    ensures Identities(c + [r]) == Identities(c) + {r.identity}
    ensures Order(c + [r]) == if r.identity in Identities(c) then Order(c) else Order(c) + [r.identity]
  {
    assert Front(c + [r]) == c && Last(c + [r]) == r;
    OrderListsEachOnce(c);
    assert r.identity in Order(c) <==> r.identity in Elements(Order(c));
  }

  lemma {:induction false} OneMoreSelected(c: seq<Record>, r: Record, id: Identity)
    ensures Select(c + [r], id) ==
      (if id in Identities(c) then Select(c, id) else []) + if id == r.identity then [r] else []
  {
    assert Front(c + [r]) == c && Last(c + [r]) == r;
    if id !in Identities(c) {
      SelectNothing(c, id);
    }
  }

  ghost predicate Groups(c: seq<Record>, order: seq<Identity>, grouped: map<Identity, seq<Record>>) {
    && order == Order(c) && grouped.Keys == Identities(c)
    && forall id :: id in grouped ==> grouped[id] == Select(c, id)
  }

  function WithRecord(grouped: map<Identity, seq<Record>>, r: Record): map<Identity, seq<Record>> {
    grouped[r.identity := (if r.identity in grouped then grouped[r.identity] else []) + [r]]
  }

  lemma GroupsExtend(c: seq<Record>, r: Record, order: seq<Identity>, grouped: map<Identity, seq<Record>>)
    requires Groups(c, order, grouped)
    ensures Groups(c + [r], if r.identity in grouped then order else order + [r.identity], WithRecord(grouped, r))
  {
    OneMoreRecord(c, r);
    var next := WithRecord(grouped, r);
    assert next.Keys == grouped.Keys + {r.identity};
    forall id | id in next ensures next[id] == Select(c + [r], id) {
      OneMoreSelected(c, r, id);
    }
  }

  /** Groups a chunk by identity, keeping the order in which identities first appear. */
  method GroupByIdentity(c: seq<Record>) returns (order: seq<Identity>, grouped: map<Identity, seq<Record>>)
    ensures Groups(c, order, grouped)
  {
    order, grouped := [], map[];
    for i := 0 to |c|
      invariant Groups(c[..i], order, grouped)
    {
      var r := c[i];
      assert c[..i + 1] == c[..i] + [r];
      GroupsExtend(c[..i], r, order, grouped);
      if r.identity !in grouped {
        order := order + [r.identity];
      }
      grouped := WithRecord(grouped, r);
    }
    assert c[..|c|] == c;
  }

  /** Yields the records in lists of `size`, the last one possibly shorter. */
  method SplitIntoChunks(records: seq<Record>, size: nat) returns (chunks: seq<seq<Record>>)
    requires size > 0
    ensures chunks == Chunks(records, size)
  {
    chunks := [];
    var chunk := [];
    assert chunk + records[0..] == records;
    for i := 0 to |records|
      invariant |chunk| < size && |chunk| <= i
      invariant Chunks(records, size) == chunks + Chunks(chunk + records[i..], size)
    {
      assert records[i..] == [records[i]] + records[i + 1..];
      assert chunk + records[i..] == chunk + [records[i]] + records[i + 1..];
      chunk := chunk + [records[i]];
      if |chunk| == size {
        FullChunk(chunk, records[i + 1..], size);
        chunks := chunks + [chunk];
        chunk := [];
        assert chunk + records[i + 1..] == records[i + 1..];
      }
    }
    assert chunk + records[|records|..] == chunk;
    if chunk != [] {
      chunks := chunks + [chunk];
    }
  }

  lemma {:induction false} FullChunk(chunk: seq<Record>, rest: seq<Record>, size: nat)
    requires |chunk| == size > 0
    ensures Chunks(chunk + rest, size) == [chunk] + Chunks(rest, size)
  {
    if rest == [] {
      assert chunk + rest == chunk;
    } else {
      assert (chunk + rest)[..size] == chunk && (chunk + rest)[size..] == rest;
    }
  }

  lemma {:induction false} GroupPayloads(c: seq<Record>, id: Identity)
    ensures Payloads(c, id) == set r | r in Select(c, id) :: r.payload
  {
  }

  lemma NextId(ids: seq<Identity>, i: nat)
    requires i < |ids|
    ensures Front(ids[..i + 1]) == ids[..i] && Last(ids[..i + 1]) == ids[i]
  {
  }

  /** Logs the groups that contradict themselves and returns the others. */
  method SplitCandidates(
      c: seq<Record>, order: seq<Identity>, grouped: map<Identity, seq<Record>>, acc: LoadAccumulator, limit: nat)
      returns (candidates: seq<Identity>)
    requires forall id :: id in order ==> id in grouped && grouped[id] == Select(c, id)
    modifies acc
    ensures candidates == Agreed(c, order)
    ensures acc.Totals() ==
      old(acc.Totals()).(log := LoggedAll(old(acc.ConflictLog()), Contradictions(c, order), limit))
  {
    candidates := [];
    assert order[..0] == [];
    for i := 0 to |order|
      invariant candidates == Agreed(c, order[..i])
      invariant acc.Totals() ==
        old(acc.Totals()).(log := LoggedAll(old(acc.ConflictLog()), Contradictions(c, order[..i]), limit))
    {
      var id := order[i];
      NextId(order, i);
      GroupPayloads(c, id);
      var payloads := set r | r in grouped[id] :: r.payload;
      if |payloads| > 1 {
        acc.RecordConflict(Conflict(id, payloads, {}, |grouped[id]|), limit);
      } else {
        candidates := candidates + [id];
      }
    }
    assert order[..|order|] == order;
  }

  // The dry run

  function SeenAs(seen: map<Identity, Payload>): Known {
    map id | id in seen :: {seen[id]}
  }

  function ConflictOf(known: Known, c: seq<Record>, id: Identity): Conflict {
    Conflict(id, Payloads(c, id), Hashes(known, id), |Select(c, id)|)
  }

  /** A dry run plans an unknown identity and skips the repeats of a known one. */
  function PlannedOne(totals: Totals, known: Known, c: seq<Record>, id: Identity, limit: nat): Totals {
    if Hashes(known, id) == {} then
      totals.(planned := totals.planned + 1, skipped := totals.skipped + |Select(c, id)| - 1)
    else if Hashes(known, id) == Payloads(c, id) then totals.(skipped := totals.skipped + |Select(c, id)|)
    else totals.(log := Logged(totals.log, ConflictOf(known, c, id), limit))
  }

  function Planned(totals: Totals, known: Known, c: seq<Record>, ids: seq<Identity>, limit: nat): Totals {
    if ids == [] then totals
    else PlannedOne(Planned(totals, known, c, Front(ids), limit), known, c, Last(ids), limit)
  }

  lemma {:induction false} PlannedCounts(totals: Totals, known: Known, c: seq<Record>, ids: seq<Identity>, limit: nat)
    ensures var added := |Fresh(known, ids)|;
      Planned(totals, known, c, ids, limit) ==
        totals.(planned := totals.planned + added,
                skipped := totals.skipped + Total(c, ids) - Weight(Clashes(known, c, ids)) - added,
                log := LoggedAll(totals.log, Clashes(known, c, ids), limit))
  {
    if ids != [] {
      PlannedCounts(totals, known, c, Front(ids), limit);
      if Clashing(known, c, Last(ids)) {
        LoggedOneMore(totals.log, Clashes(known, c, Front(ids)), ConflictOf(known, c, Last(ids)), limit);
      }
    }
  }

  lemma {:induction false} LoggedOneMore(log: Log, conflicts: seq<Conflict>, e: Conflict, limit: nat)
    ensures LoggedAll(log, conflicts + [e], limit) == Logged(LoggedAll(log, conflicts, limit), e, limit)
    ensures Weight(conflicts + [e]) == Weight(conflicts) + e.weight
  {
    assert Front(conflicts + [e]) == conflicts && Last(conflicts + [e]) == e;
  }

  lemma {:induction false} OnePayload(c: seq<Record>, id: Identity)
    requires id in Identities(c) && !Contradictory(c, id)
    ensures Select(c, id) != [] && Payloads(c, id) == {Select(c, id)[0].payload}
  {
    var r :| r in c && r.identity == id;
    assert r in Select(c, id);
    SamePayloads(c, id);
  }

  ghost predicate Candidates(c: seq<Record>, ids: seq<Identity>, grouped: map<Identity, seq<Record>>) {
    && Distinct(ids)
    && forall id :: id in ids ==>
      id in grouped && grouped[id] == Select(c, id) && id in Identities(c) && !Contradictory(c, id)
  }

  lemma {:induction false} NotYetTaught(known: Known, c: seq<Record>, ids: seq<Identity>, i: nat)
    requires i < |ids| && Distinct(ids)
    ensures Hashes(Taught(known, c, Fresh(known, ids[..i])), ids[i]) == Hashes(known, ids[i])
  {
    assert ids[i] !in ids[..i];
    TaughtContents(known, c, Fresh(known, ids[..i]), ids[i]);
  }

  lemma SeenHashes(seen: map<Identity, Payload>, id: Identity)
    ensures Hashes(SeenAs(seen), id) == if id in seen then {seen[id]} else {}
  {
  }

  lemma SeenOneMore(seen: map<Identity, Payload>, id: Identity, p: Payload)
    ensures SeenAs(seen[id := p]) == SeenAs(seen)[id := {p}]
  {
  }

  lemma {:induction false} TaughtOneMore(known: Known, c: seq<Record>, ids: seq<Identity>, i: nat)
    requires i < |ids|
    ensures Taught(known, c, Fresh(known, ids[..i + 1])) ==
      if Hashes(known, ids[i]) == {} then Taught(known, c, Fresh(known, ids[..i]))[ids[i] := Payloads(c, ids[i])]
      else Taught(known, c, Fresh(known, ids[..i]))
  {
    NextId(ids, i);
    var earlier := Fresh(known, ids[..i]);
    assert Front(earlier + [ids[i]]) == earlier && Last(earlier + [ids[i]]) == ids[i];
  }

  method PlanCandidate(
      c: seq<Record>, id: Identity, group: seq<Record>, acc: LoadAccumulator, limit: nat,
      dryRunSeen: map<Identity, Payload>, ghost known: Known)
      returns (seen: map<Identity, Payload>)
    requires group == Select(c, id) && id in Identities(c) && !Contradictory(c, id)
    requires Hashes(known, id) == Hashes(SeenAs(dryRunSeen), id)
    modifies acc
    ensures acc.Totals() == PlannedOne(old(acc.Totals()), known, c, id, limit)
    ensures SeenAs(seen) ==
      if Hashes(known, id) == {} then SeenAs(dryRunSeen)[id := Payloads(c, id)] else SeenAs(dryRunSeen)
  {
    OnePayload(c, id);
    SeenHashes(dryRunSeen, id);
    var payload := group[0].payload;
    seen := dryRunSeen;
    if id !in seen {
      SeenOneMore(seen, id, payload);
      seen := seen[id := payload];
      acc.planned := acc.planned + 1;
      acc.skipped := acc.skipped + |group| - 1;
    } else if seen[id] == payload {
      acc.skipped := acc.skipped + |group|;
    } else {
      acc.RecordConflict(Conflict(id, {payload}, {seen[id]}, |group|), limit);
    }
  }

  method PlanDryRun(
      c: seq<Record>, candidates: seq<Identity>, grouped: map<Identity, seq<Record>>,
      acc: LoadAccumulator, limit: nat, dryRunSeen: map<Identity, Payload>, ghost known: Known)
      returns (seen: map<Identity, Payload>)
    requires Candidates(c, candidates, grouped) && known == SeenAs(dryRunSeen)
    modifies acc
    ensures acc.Totals() == Planned(old(acc.Totals()), known, c, candidates, limit)
    ensures SeenAs(seen) == Taught(known, c, Fresh(known, candidates))
  {
    seen := dryRunSeen;
    assert candidates[..0] == [];
    for i := 0 to |candidates|
      invariant acc.Totals() == Planned(old(acc.Totals()), known, c, candidates[..i], limit)
      invariant SeenAs(seen) == Taught(known, c, Fresh(known, candidates[..i]))
    {
      NextId(candidates, i);
      NotYetTaught(known, c, candidates, i);
      TaughtOneMore(known, c, candidates, i);
      seen := PlanCandidate(c, candidates[i], grouped[candidates[i]], acc, limit, seen, known);
    }
    assert candidates[..|candidates|] == candidates;
  }

  // The live run

  /** A live run leaves an unknown identity to the MERGE and skips the repeats of a known one. */
  function ComparedOne(totals: Totals, known: Known, c: seq<Record>, id: Identity, limit: nat): Totals {
    if Hashes(known, id) == {} then totals
    else if Hashes(known, id) == Payloads(c, id) then totals.(skipped := totals.skipped + |Select(c, id)|)
    else totals.(log := Logged(totals.log, ConflictOf(known, c, id), limit))
  }

  function Compared(totals: Totals, known: Known, c: seq<Record>, ids: seq<Identity>, limit: nat): Totals {
    if ids == [] then totals
    else ComparedOne(Compared(totals, known, c, Front(ids), limit), known, c, Last(ids), limit)
  }

  lemma {:induction false} ComparedCounts(totals: Totals, known: Known, c: seq<Record>, ids: seq<Identity>, limit: nat)
    ensures Compared(totals, known, c, ids, limit) ==
      totals.(skipped := totals.skipped + Total(c, ids) - Weight(Clashes(known, c, ids)) - Total(c, Fresh(known, ids)),
              log := LoggedAll(totals.log, Clashes(known, c, ids), limit))
  {
    if ids != [] {
      ComparedCounts(totals, known, c, Front(ids), limit);
      if Clashing(known, c, Last(ids)) {
        LoggedOneMore(totals.log, Clashes(known, c, Front(ids)), ConflictOf(known, c, Last(ids)), limit);
      } else if Hashes(known, Last(ids)) == {} {
        TotalOneMore(c, Fresh(known, Front(ids)), Last(ids));
      }
    }
  }

  lemma {:induction false} TotalOneMore(c: seq<Record>, ids: seq<Identity>, id: Identity)
    ensures Total(c, ids + [id]) == Total(c, ids) + |Select(c, id)|
  {
    assert Front(ids + [id]) == ids && Last(ids + [id]) == id;
  }

  method CompareWithExisting(
      c: seq<Record>, candidates: seq<Identity>, grouped: map<Identity, seq<Record>>,
      existing: Known, acc: LoadAccumulator, limit: nat)
      returns (newIds: seq<Identity>)
    requires Candidates(c, candidates, grouped)
    modifies acc
    ensures newIds == Fresh(existing, candidates)
    ensures acc.Totals() == Compared(old(acc.Totals()), existing, c, candidates, limit)
  {
    newIds := [];
    assert candidates[..0] == [];
    for i := 0 to |candidates|
      invariant newIds == Fresh(existing, candidates[..i])
      invariant acc.Totals() == Compared(old(acc.Totals()), existing, c, candidates[..i], limit)
    {
      var id := candidates[i];
      NextId(candidates, i);
      OnePayload(c, id);
      var payload, occurrences := grouped[id][0].payload, |grouped[id]|;
      var hashes := if id in existing then existing[id] else {};
      if hashes == {} {
        newIds := newIds + [id];
      } else if hashes == {payload} {
        acc.skipped := acc.skipped + occurrences;
      } else {
        acc.RecordConflict(Conflict(id, {payload}, hashes, occurrences), limit);
      }
    }
    assert candidates[..|candidates|] == candidates;
  }

  /** The new identities whose only stored payload is the one this load brings. */
  function Exact(confirmed: Known, c: seq<Record>, ids: seq<Identity>): seq<Identity> {
    if ids == [] then []
    else if Hashes(confirmed, Last(ids)) == Payloads(c, Last(ids)) then Exact(confirmed, c, Front(ids)) + [Last(ids)]
    else Exact(confirmed, c, Front(ids))
  }

  /** Compares what is stored after the MERGE with what it should have stored. */
  method ConfirmWritten(
      c: seq<Record>, newIds: seq<Identity>, grouped: map<Identity, seq<Record>>,
      confirmed: Known, acc: LoadAccumulator, limit: nat)
      returns (complete: bool, exact: seq<Identity>)
    requires Candidates(c, newIds, grouped)
    modifies acc
    ensures !complete ==> exists id :: id in newIds && Hashes(confirmed, id) == {}
    ensures complete ==> exact == Exact(confirmed, c, newIds)
    ensures complete ==> Total(c, exact) + Weight(Clashes(confirmed, c, newIds)) == Total(c, newIds)
    ensures complete ==>
      acc.Totals() == old(acc.Totals()).(log := LoggedAll(old(acc.ConflictLog()), Clashes(confirmed, c, newIds), limit))
  {
    exact := [];
    assert newIds[..0] == [];
    for i := 0 to |newIds|
      invariant exact == Exact(confirmed, c, newIds[..i])
      invariant Total(c, exact) + Weight(Clashes(confirmed, c, newIds[..i])) == Total(c, newIds[..i])
      invariant acc.Totals() ==
        old(acc.Totals()).(log := LoggedAll(old(acc.ConflictLog()), Clashes(confirmed, c, newIds[..i]), limit))
    {
      var id := newIds[i];
      NextId(newIds, i);
      OnePayload(c, id);
      var payload := grouped[id][0].payload;
      var hashes := if id in confirmed then confirmed[id] else {};
      if hashes == {payload} {
        TotalOneMore(c, exact, id);
        exact := exact + [id];
      } else if hashes != {} {
        acc.RecordConflict(Conflict(id, {payload}, hashes, |grouped[id]|), limit);
      } else {
        assert id in newIds && Hashes(confirmed, id) == {};
        return false, [];
      }
    }
    assert newIds[..|newIds|] == newIds;
    return true, exact;
  }

  // One chunk

  /** What one chunk adds to the totals, apart from the input and chunk counters. */
  function ChunkStep(totals: Totals, known: Known, c: seq<Record>, limit: nat): Totals {
    Step(totals, known, c, limit).(input := totals.input, chunks := totals.chunks)
  }

  function Contradicted(totals: Totals, c: seq<Record>, limit: nat): Totals {
    totals.(log := LoggedAll(totals.log, Contradictions(c, Order(c)), limit))
  }

  lemma {:induction false} AgreedTotal(c: seq<Record>, ids: seq<Identity>)
    ensures Total(c, Agreed(c, ids)) + Weight(Contradictions(c, ids)) == Total(c, ids)
  {
    if ids != [] {
      AgreedTotal(c, Front(ids));
      if Contradictory(c, Last(ids)) {
        LoggedOneMore(EMPTY_LOG, Contradictions(c, Front(ids)), Last(Contradictions(c, ids)), 0);
      } else {
        TotalOneMore(c, Agreed(c, Front(ids)), Last(ids));
      }
    }
  }

  lemma {:induction false} GroupsCoverChunk(c: seq<Record>)
    ensures Total(c, Order(c)) == |c|
  {
    OrderListsEachOnce(c);
    TotalCountsRecords(c, Order(c));
    WithinAll(c, Elements(Order(c)));
  }

  lemma {:induction false} WeightOfTwo(a: seq<Conflict>, b: seq<Conflict>)
    ensures Weight(a + b) == Weight(a) + Weight(b)
  {
    if b == [] {
      assert a + b == a;
    } else {
      assert Front(a + b) == a + Front(b) && Last(a + b) == Last(b);
      WeightOfTwo(a, Front(b));
    }
  }

  lemma {:induction false} LoggedRecords(log: Log, conflicts: seq<Conflict>, limit: nat)
    ensures LoggedAll(log, conflicts, limit).records == log.records + Weight(conflicts)
  {
    if conflicts != [] {
      LoggedRecords(log, Front(conflicts), limit);
    }
  }

  /** The dry run's passes over a chunk amount to one step of the specification, without insertions. */
  lemma {:induction false} DryChunkIsStep(totals: Totals, known: Known, c: seq<Record>, limit: nat)
    ensures Planned(Contradicted(totals, c, limit), known, c, Agreed(c, Order(c)), limit) ==
      ChunkStep(totals, known, c, limit).(inserted := totals.inserted)
  {
    var agreed := Agreed(c, Order(c));
    PlannedCounts(Contradicted(totals, c, limit), known, c, agreed, limit);
    AgreedTotal(c, Order(c));
    GroupsCoverChunk(c);
    WeightOfTwo(Contradictions(c, Order(c)), Clashes(known, c, agreed));
    LoggingInTwoParts(totals.log, Contradictions(c, Order(c)), Clashes(known, c, agreed), limit);
  }

  lemma {:induction false} LiveChunkIsStep(totals: Totals, known: Known, c: seq<Record>, limit: nat)
    ensures var added := NewIds(known, c);
      var compared := Compared(Contradicted(totals, c, limit), known, c, Agreed(c, Order(c)), limit);
      && compared.(planned := compared.planned + |added|, inserted := compared.inserted + |added|,
                   skipped := compared.skipped + Total(c, added) - |added|) == ChunkStep(totals, known, c, limit)
      && compared.inserted + compared.skipped + compared.log.records ==
         totals.inserted + totals.skipped + totals.log.records + |c| - Total(c, added)
  {
    var agreed := Agreed(c, Order(c));
    ComparedCounts(Contradicted(totals, c, limit), known, c, agreed, limit);
    AgreedTotal(c, Order(c));
    GroupsCoverChunk(c);
    WeightOfTwo(Contradictions(c, Order(c)), Clashes(known, c, agreed));
    LoggingInTwoParts(totals.log, Contradictions(c, Order(c)), Clashes(known, c, agreed), limit);
    LoggedRecords(totals.log, Conflicts(known, c), limit);
  }

  lemma {:induction false} StepFollowsContents(totals: Totals, a: Known, b: Known, c: seq<Record>, limit: nat)
    requires forall id :: id in Agreed(c, Order(c)) ==> Hashes(a, id) == Hashes(b, id)
    ensures Step(totals, a, c, limit) == Step(totals, b, c, limit) && NewIds(a, c) == NewIds(b, c)
  {
    FreshFollowsContents(a, b, Agreed(c, Order(c)));
    ClashesFollowContents(a, b, c, Agreed(c, Order(c)));
  }

  lemma {:induction false} AllExact(confirmed: Known, c: seq<Record>, ids: seq<Identity>)
    requires forall id :: id in ids ==> Hashes(confirmed, id) == Payloads(c, id)
    ensures Exact(confirmed, c, ids) == ids && Clashes(confirmed, c, ids) == []
  {
    hide Payloads, Hashes, Select;
    if ids != [] {
      assert forall id :: id in Front(ids) ==> id in ids;
      AllExact(confirmed, c, Front(ids));
      assert ids == Front(ids) + [Last(ids)];
    }
  }
}
