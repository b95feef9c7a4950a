/** What every load guarantees: retries, replays, chunk sizes and the order of runs. */
module LoadResults {
  import opened Sequences
  import opened Loading

  ghost predicate Extends(a: Known, b: Known) {
    forall id :: Hashes(a, id) != {} ==> Hashes(b, id) == Hashes(a, id)
  }

  function LearnedHashes(known: Known, c: seq<Record>, id: Identity): set<Payload> {
    if Hashes(known, id) == {} && id in Identities(c) && !Contradictory(c, id) then Payloads(c, id)
    else Hashes(known, id)
  }

  lemma LearnedContents(known: Known, c: seq<Record>)
    ensures forall id :: Hashes(Learned(known, c), id) == LearnedHashes(known, c, id)
    ensures Extends(known, Learned(known, c))
  {
    OrderListsEachOnce(c);
    assert forall id :: id in Order(c) <==> id in Elements(Order(c));
    forall id ensures Hashes(Learned(known, c), id) == LearnedHashes(known, c, id) {
      TaughtContents(known, c, NewIds(known, c), id);
    }
  }

  lemma {:induction false} KnowledgeGrows(known: Known, chunks: seq<seq<Record>>)
    ensures Extends(known, KnownAfter(known, chunks))
  {
    if chunks != [] {
      KnowledgeGrows(known, Front(chunks));
      LearnedContents(KnownAfter(known, Front(chunks)), Last(chunks));
    }
  }

  lemma SamePayloads(c: seq<Record>, id: Identity)
    requires id in Identities(c) && !Contradictory(c, id)
    ensures PayloadsOf([RowFor(c, id)]) == Payloads(c, id)
  {
    var p := RowFor(c, id).payload;
    assert Select(c, id)[0] in Select(c, id);
    assert p in Payloads(c, id);
    SubsetCardinality({p}, Payloads(c, id));
  }

  lemma ChunkTeaches(t: Table, c: seq<Record>, id: Identity)
    ensures Hashes(KnownOf(AfterChunk(t, c)), id) == LearnedHashes(KnownOf(t), c, id)
  {
    OrderListsEachOnce(c);
    assert id in Order(c) <==> id in Elements(Order(c));
    assert id in t <==> Hashes(KnownOf(t), id) != {};
    if id in Identities(c) && !Contradictory(c, id) {
      SamePayloads(c, id);
    }
  }

  lemma ChunkAddsWhatItTeaches(t: Table, c: seq<Record>)
    ensures SameContents(KnownOf(AfterChunk(t, c)), Learned(KnownOf(t), c))
  {
    LearnedContents(KnownOf(t), c);
    forall id ensures Hashes(KnownOf(AfterChunk(t, c)), id) == Hashes(Learned(KnownOf(t), c), id) {
      ChunkTeaches(t, c, id);
    }
  }

  lemma SameContentsTeachTheSame(a: Known, b: Known, c: seq<Record>)
    requires SameContents(a, b)
    ensures SameContents(Learned(a, c), Learned(b, c))
  {
    LearnedContents(a, c);
    LearnedContents(b, c);
  }

  /** What the dry run keeps in memory is what the table would hold. */
  lemma {:induction false} TableHoldsWhatIsKnown(t: Table, chunks: seq<seq<Record>>)
    ensures SameContents(KnownOf(TableAfter(t, chunks)), KnownAfter(KnownOf(t), chunks))
  {
    if chunks != [] {
      TableHoldsWhatIsKnown(t, Front(chunks));
      ChunkAddsWhatItTeaches(TableAfter(t, Front(chunks)), Last(chunks));
      SameContentsTeachTheSame(KnownOf(TableAfter(t, Front(chunks))), KnownAfter(KnownOf(t), Front(chunks)),
          Last(chunks));
    }
  }

  // The final table

  /** The first group of the load that gives the identity one content. */
  function FirstAgreed(chunks: seq<seq<Record>>, id: Identity): Option<Stored> {
    if chunks == [] then None
    else
      var earlier := FirstAgreed(Front(chunks), id);
      if earlier.Some? then earlier
      else if id in Identities(Last(chunks)) && !Contradictory(Last(chunks), id) then Some(RowFor(Last(chunks), id))
      else None
  }

  /** A load never touches a stored identity, and stores each other one as its first agreed group gives it. */
  lemma {:induction false} FirstAgreedContentIsStored(t: Table, chunks: seq<seq<Record>>, id: Identity)
    ensures RowsOf(TableAfter(t, chunks), id) ==
      if id in t then t[id]
      else match FirstAgreed(chunks, id)
           case None => []
           case Some(row) => [row]
  {
    if chunks != [] {
      var before, c := TableAfter(t, Front(chunks)), Last(chunks);
      FirstAgreedContentIsStored(t, Front(chunks), id);
      OrderListsEachOnce(c);
      assert id in Order(c) <==> id in Elements(Order(c));
      assert id in before <==> Hashes(KnownOf(before), id) != {};
    }
  }

  lemma SameTable(a: Table, b: Table)
    requires forall id :: RowsOf(a, id) == RowsOf(b, id)
    ensures a == b
  {
    forall id ensures id in a <==> id in b {
      assert id in a ==> RowsOf(a, id) != [];
      assert id in b ==> RowsOf(b, id) != [];
    }
    forall id | id in a ensures a[id] == b[id] {
      assert RowsOf(a, id) == RowsOf(b, id);
    }
  }

  lemma {:induction false} FirstAgreedInPrefix(chunks: seq<seq<Record>>, k: nat, id: Identity)
    requires k <= |chunks| && FirstAgreed(chunks[..k], id).Some?
    ensures FirstAgreed(chunks, id) == FirstAgreed(chunks[..k], id)
  {
    if k < |chunks| {
      assert Front(chunks)[..k] == chunks[..k];
      FirstAgreedInPrefix(Front(chunks), k, id);
    } else {
      assert chunks[..k] == chunks;
    }
  }

  /** A load that stopped after any chunk, run again from the start, ends in the table of one that did not stop. */
  lemma {:induction false} RerunReachesSameTable(t: Table, chunks: seq<seq<Record>>, k: nat)
    requires k <= |chunks|
    ensures TableAfter(TableAfter(t, chunks[..k]), chunks) == TableAfter(t, chunks)
  {
    var stopped := TableAfter(t, chunks[..k]);
    forall id ensures RowsOf(TableAfter(stopped, chunks), id) == RowsOf(TableAfter(t, chunks), id) {
      FirstAgreedContentIsStored(t, chunks[..k], id);
      FirstAgreedContentIsStored(t, chunks, id);
      FirstAgreedContentIsStored(stopped, chunks, id);
      if FirstAgreed(chunks[..k], id).Some? {
        FirstAgreedInPrefix(chunks, k, id);
      }
    }
    SameTable(TableAfter(stopped, chunks), TableAfter(t, chunks));
  }

  // Conflicts are decided by the final table

  /** The identities of a chunk that the final table does not hold with the chunk's one content. */
  function Disputed(final: Known, c: seq<Record>): set<Identity> {
    set id | id in Identities(c) && (Contradictory(c, id) || Hashes(final, id) != Payloads(c, id))
  }

  lemma {:induction false} ContradictionsAre(c: seq<Record>, ids: seq<Identity>)
    ensures Named(Contradictions(c, ids)) == set id | id in ids && Contradictory(c, id)
    ensures forall e :: e in Contradictions(c, ids) ==> e.weight == |Select(c, e.identity)|
    ensures Distinct(ids) ==> OnePerName(Contradictions(c, ids))
  {
    if ids != [] {
      ContradictionsAre(c, Front(ids));
      assert ids == Front(ids) + [Last(ids)];
      if Contradictory(c, Last(ids)) {
        OneMoreName(Contradictions(c, Front(ids)), Last(Contradictions(c, ids)));
      }
    }
  }

  lemma {:induction false} ClashesAre(known: Known, c: seq<Record>, ids: seq<Identity>)
    ensures Named(Clashes(known, c, ids)) == set id | id in ids && Clashing(known, c, id)
    ensures forall e :: e in Clashes(known, c, ids) ==> e.weight == |Select(c, e.identity)|
    ensures Distinct(ids) ==> OnePerName(Clashes(known, c, ids))
  {
    if ids != [] {
      ClashesAre(known, c, Front(ids));
      assert ids == Front(ids) + [Last(ids)];
      if Clashing(known, c, Last(ids)) {
        OneMoreName(Clashes(known, c, Front(ids)), Last(Clashes(known, c, ids)));
      }
    }
  }

  ghost predicate OnePerName(conflicts: seq<Conflict>) {
    forall i, j :: 0 <= i < j < |conflicts| ==> conflicts[i].identity != conflicts[j].identity
  }

  lemma OneMoreName(earlier: seq<Conflict>, e: Conflict)
    ensures Named(earlier + [e]) == Named(earlier) + {e.identity}
    ensures OnePerName(earlier) && e.identity !in Named(earlier) ==> OnePerName(earlier + [e])
  {
    assert forall i :: 0 <= i < |earlier| ==> earlier[i].identity in Named(earlier);
  }

  lemma TwoListsOfNames(a: seq<Conflict>, b: seq<Conflict>)
    requires OnePerName(a) && OnePerName(b) && Named(a) !! Named(b)
    ensures OnePerName(a + b) && Named(a + b) == Named(a) + Named(b)
  {
    forall i, j | 0 <= i < j < |a + b| ensures (a + b)[i].identity != (a + b)[j].identity {
      if i < |a| <= j {
        assert a[i].identity in Named(a) && b[j - |a|].identity in Named(b);
      }
    }
  }

  lemma {:induction false} AgreedIsDistinct(c: seq<Record>, ids: seq<Identity>)
    requires Distinct(ids)
    ensures Distinct(Agreed(c, ids))
  {
    if ids != [] {
      AgreedIsDistinct(c, Front(ids));
      assert Last(ids) !in Front(ids);
    }
  }

  /** Contradictory or clashing is what the final table will say too. */
  lemma DisputedIsDecided(known: Known, c: seq<Record>, final: Known, id: Identity)
    requires Extends(Learned(known, c), final) && id in Identities(c)
    ensures id in Disputed(final, c) <==> Contradictory(c, id) || Clashing(known, c, id)
  {
    LearnedContents(known, c);
    SomePayload(c, id);
    if !Contradictory(c, id) {
      assert Hashes(Learned(known, c), id) == LearnedHashes(known, c, id) != {};
    }
  }

  lemma {:induction false} ConflictsOfChunk(known: Known, c: seq<Record>)
    ensures Named(Conflicts(known, c)) == set id | id in Identities(c) &&
      (Contradictory(c, id) || Clashing(known, c, id))
    ensures OnePerName(Conflicts(known, c))
    ensures forall e :: e in Conflicts(known, c) ==> e.weight == |Select(c, e.identity)|
  {
    var agreed := Agreed(c, Order(c));
    OrderListsEachOnce(c);
    assert forall id :: id in Order(c) <==> id in Elements(Order(c));
    AgreedIsDistinct(c, Order(c));
    ContradictionsAre(c, Order(c));
    ClashesAre(known, c, agreed);
    TwoListsOfNames(Contradictions(c, Order(c)), Clashes(known, c, agreed));
  }

  lemma {:induction false} ConflictsAreDisputed(known: Known, c: seq<Record>, final: Known)
    requires Extends(Learned(known, c), final)
    ensures Named(Conflicts(known, c)) == Disputed(final, c)
    ensures Weight(Conflicts(known, c)) == Within(c, Disputed(final, c))
  {
    ConflictsOfChunk(known, c);
    WeightCountsRecords(c, Conflicts(known, c));
    forall id | id in Identities(c) ensures id in Disputed(final, c) <==> id in Named(Conflicts(known, c)) {
      DisputedIsDecided(known, c, final, id);
    }
  }

  lemma SomePayload(c: seq<Record>, id: Identity)
    requires id in Identities(c)
    ensures Payloads(c, id) != {}
  {
    var r :| r in c && r.identity == id;
    assert r.payload in Payloads(c, id);
  }

  lemma {:induction false} WithinOneMore(c: seq<Record>, ids: set<Identity>, id: Identity)
    requires id !in ids
    ensures Within(c, ids + {id}) == Within(c, ids) + |Select(c, id)|
  {
    if c != [] {
      WithinOneMore(Front(c), ids, id);
    }
  }

  lemma {:induction false} WithinNothing(c: seq<Record>)
    ensures Within(c, {}) == 0
  {
    if c != [] {
      WithinNothing(Front(c));
    }
  }

  lemma {:induction false} WeightCountsRecords(c: seq<Record>, conflicts: seq<Conflict>)
    requires OnePerName(conflicts) && forall e :: e in conflicts ==> e.weight == |Select(c, e.identity)|
    ensures Weight(conflicts) == Within(c, Named(conflicts))
  {
    if conflicts == [] {
      WithinNothing(c);
      assert Named(conflicts) == {};
    } else {
      var earlier, e := Front(conflicts), Last(conflicts);
      assert conflicts == earlier + [e];
      WeightCountsRecords(c, earlier);
      OneMoreName(earlier, e);
      forall d | d in earlier ensures d in conflicts && d.identity != e.identity {
        var i :| 0 <= i < |earlier| && earlier[i] == d;
      }
      WithinOneMore(c, Named(earlier), e.identity);
    }
  }

  function DisputedRecords(final: Known, chunks: seq<seq<Record>>): nat {
    if chunks == [] then 0
    else DisputedRecords(final, Front(chunks)) + Within(Last(chunks), Disputed(final, Last(chunks)))
  }

  function DisputedIds(final: Known, chunks: seq<seq<Record>>): set<Identity> {
    if chunks == [] then {} else DisputedIds(final, Front(chunks)) + Disputed(final, Last(chunks))
  }

  /** The log took in this many records and these identities, and still counts and details them soundly. */
  ghost predicate GrewBy(before: Log, after: Log, limit: nat, records: nat, ids: set<Identity>) {
    Sound(after, limit) && after.records == before.records + records && after.identities == before.identities + ids
  }

  lemma GrewTwice(a: Log, b: Log, c: Log, limit: nat, r: nat, s: nat, first: set<Identity>, second: set<Identity>)
    requires GrewBy(a, b, limit, r, first) && GrewBy(b, c, limit, s, second)
    ensures GrewBy(a, c, limit, r + s, first + second)
  {
  }

  lemma {:induction false} StepIsDecided(totals: Totals, known: Known, c: seq<Record>, limit: nat, final: Known)
    requires Sound(totals.log, limit) && Extends(Learned(known, c), final)
    ensures GrewBy(totals.log, Step(totals, known, c, limit).log, limit, Within(c, Disputed(final, c)),
        Disputed(final, c))
  {
    ConflictsAreDisputed(known, c, final);
    LoggingIsSound(totals.log, Conflicts(known, c), limit);
  }

  lemma ExtendsEarlier(known: Known, c: seq<Record>, final: Known)
    requires Extends(Learned(known, c), final)
    ensures Extends(known, final)
  {
    LearnedContents(known, c);
  }

  /** A load's conflict record count and identities follow from its input and the table it leaves behind. */
  lemma {:induction false} FinalTableDecidesConflicts(
      totals: Totals, known: Known, chunks: seq<seq<Record>>, limit: nat, final: Known)
    requires Sound(totals.log, limit) && Extends(KnownAfter(known, chunks), final)
    ensures GrewBy(totals.log, LoadAll(totals, known, chunks, limit).log, limit,
                   DisputedRecords(final, chunks), DisputedIds(final, chunks))
  {
    if chunks != [] {
      var earlier, before := LoadAll(totals, known, Front(chunks), limit), KnownAfter(known, Front(chunks));
      ExtendsEarlier(before, Last(chunks), final);
      FinalTableDecidesConflicts(totals, known, Front(chunks), limit, final);
      StepIsDecided(earlier, before, Last(chunks), limit, final);
      GrewTwice(totals.log, earlier.log, LoadAll(totals, known, chunks, limit).log, limit,
                DisputedRecords(final, Front(chunks)), Within(Last(chunks), Disputed(final, Last(chunks))),
                DisputedIds(final, Front(chunks)), Disputed(final, Last(chunks)));
    }
  }

  // Counts

  lemma {:induction false} FreshIsDistinct(known: Known, ids: seq<Identity>)
    requires Distinct(ids)
    ensures Distinct(Fresh(known, ids))
  {
    if ids != [] {
      FreshIsDistinct(known, Front(ids));
      assert Last(ids) !in Front(ids);
    }
  }

  lemma {:induction false} FreshFollowsContents(a: Known, b: Known, ids: seq<Identity>)
    requires forall id :: id in ids ==> Hashes(a, id) == Hashes(b, id)
    ensures Fresh(a, ids) == Fresh(b, ids)
  {
    if ids != [] {
      FreshFollowsContents(a, b, Front(ids));
    }
  }

  lemma {:induction false} ClashesFollowContents(a: Known, b: Known, c: seq<Record>, ids: seq<Identity>)
    requires forall id :: id in ids ==> Hashes(a, id) == Hashes(b, id)
    ensures Clashes(a, c, ids) == Clashes(b, c, ids)
  {
    if ids != [] {
      ClashesFollowContents(a, b, c, Front(ids));
    }
  }

  lemma ChunkAddsItsNewIds(t: Table, c: seq<Record>)
    ensures |AfterChunk(t, c).Keys| == |t.Keys| + |NewIds(KnownOf(t), c)|
  {
    var added := NewIds(KnownOf(t), c);
    OrderListsEachOnce(c);
    AgreedIsDistinct(c, Order(c));
    FreshIsDistinct(KnownOf(t), Agreed(c, Order(c)));
    DistinctCardinality(added);
    assert t.Keys !! Elements(added) by {
      assert forall id :: id in added ==> Hashes(KnownOf(t), id) == {};
    }
    DisjointCardinality(t.Keys, Elements(added));
  }

  /**
    The only writer plans and inserts exactly the identities it adds, and accounts for every input
    record: inserted, an exact replay, or in conflict.
   */
  lemma {:induction false} LoadAccountsForEveryRecord(totals: Totals, t: Table, chunks: seq<seq<Record>>, limit: nat)
    requires Sound(totals.log, limit)
    ensures var r := LoadAll(totals, KnownOf(t), chunks, limit);
      && Sound(r.log, limit)
      && r.planned - totals.planned == r.inserted - totals.inserted == |TableAfter(t, chunks).Keys| - |t.Keys|
      && r.input - totals.input ==
        (r.inserted - totals.inserted) + (r.skipped - totals.skipped) + (r.log.records - totals.log.records)
  {
    if chunks != [] {
      var before, known, c := TableAfter(t, Front(chunks)), KnownAfter(KnownOf(t), Front(chunks)), Last(chunks);
      LoadAccountsForEveryRecord(totals, t, Front(chunks), limit);
      TableHoldsWhatIsKnown(t, Front(chunks));
      FreshFollowsContents(KnownOf(before), known, Agreed(c, Order(c)));
      ChunkAddsItsNewIds(before, c);
      LoggingIsSound(LoadAll(totals, KnownOf(t), Front(chunks), limit).log, Conflicts(known, c), limit);
    }
  }

  lemma {:induction false} ConflictsOfLoad(t: Table, chunks: seq<seq<Record>>, limit: nat)
    ensures var final := KnownOf(TableAfter(t, chunks));
      GrewBy(EMPTY_LOG, LoadAll(NOTHING_YET, KnownOf(t), chunks, limit).log, limit,
             DisputedRecords(final, chunks), DisputedIds(final, chunks))
  {
    TableHoldsWhatIsKnown(t, chunks);
    FinalTableDecidesConflicts(NOTHING_YET, KnownOf(t), chunks, limit, KnownOf(TableAfter(t, chunks)));
  }

  /** A rerun after any number of loaded chunks reports the conflicts the uninterrupted load reports. */
  lemma {:induction false} RerunReportsSameConflicts(t: Table, chunks: seq<seq<Record>>, k: nat, limit: nat)
    requires k <= |chunks|
    ensures var rerun := LoadAll(NOTHING_YET, KnownOf(TableAfter(t, chunks[..k])), chunks, limit);
      var whole := LoadAll(NOTHING_YET, KnownOf(t), chunks, limit);
      && rerun.log.records == whole.log.records
      && rerun.log.identities == whole.log.identities && rerun.log.count == whole.log.count
  {
    RerunReachesSameTable(t, chunks, k);
    ConflictsOfLoad(t, chunks, limit);
    ConflictsOfLoad(TableAfter(t, chunks[..k]), chunks, limit);
  }

  /** A full replay inserts nothing, leaves the table alone and reports the same conflict counts. */
  lemma {:induction false} ReplayInsertsNothing(t: Table, chunks: seq<seq<Record>>, limit: nat)
    ensures var after := TableAfter(t, chunks);
      var replay := LoadAll(NOTHING_YET, KnownOf(after), chunks, limit);
      var first := LoadAll(NOTHING_YET, KnownOf(t), chunks, limit);
      && TableAfter(after, chunks) == after
      && replay.planned == replay.inserted == 0
      && replay.log.records == first.log.records && replay.log.count == first.log.count
      && replay.skipped == first.skipped + first.inserted
  {
    var after := TableAfter(t, chunks);
    assert chunks[..|chunks|] == chunks;
    RerunReachesSameTable(t, chunks, |chunks|);
    RerunReportsSameConflicts(t, chunks, |chunks|, limit);
    LoadAccountsForEveryRecord(NOTHING_YET, t, chunks, limit);
    LoadAccountsForEveryRecord(NOTHING_YET, after, chunks, limit);
    InputIsCounted(NOTHING_YET, KnownOf(t), chunks, limit);
    InputIsCounted(NOTHING_YET, KnownOf(after), chunks, limit);
  }

  function Flat(chunks: seq<seq<Record>>): seq<Record> {
    if chunks == [] then [] else Flat(Front(chunks)) + Last(chunks)
  }

  lemma {:induction false} InputIsCounted(totals: Totals, known: Known, chunks: seq<seq<Record>>, limit: nat)
    ensures LoadAll(totals, known, chunks, limit).input == totals.input + |Flat(chunks)|
    ensures LoadAll(totals, known, chunks, limit).chunks == totals.chunks + |chunks|
  {
    if chunks != [] {
      InputIsCounted(totals, known, Front(chunks), limit);
    }
  }
}
