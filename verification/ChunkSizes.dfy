/** Exactly when the chunk size of a load decides nothing. */
module ChunkSizes {
  import opened Sequences
  import opened Loading
  import opened LoadResults
  import opened LoadRuns

  ghost predicate TableIgnoresChunkSize(t: Table, rs: seq<Record>) {
    forall m: nat, n: nat :: m > 0 && n > 0 ==> TableAfter(t, Chunks(rs, m)) == TableAfter(t, Chunks(rs, n))
  }

  function TotalsOf(t: Table, rs: seq<Record>, size: nat, limit: nat): Totals
    requires size > 0
  {
    LoadAll(NOTHING_YET, KnownOf(t), Chunks(rs, size), limit)
  }

  ghost predicate TotalsIgnoreChunkSize(t: Table, rs: seq<Record>, limit: nat) {
    forall m: nat, n: nat :: m > 0 && n > 0 ==> SameTotals(TotalsOf(t, rs, m, limit), TotalsOf(t, rs, n, limit))
  }

  // The two extreme sizes

  /** Every record in a chunk of its own. */
  function Singles(rs: seq<Record>): seq<seq<Record>> {
    seq(|rs|, i requires 0 <= i < |rs| => [rs[i]])
  }

  lemma {:induction false} SmallestChunks(rs: seq<Record>)
    ensures Chunks(rs, 1) == Singles(rs)
    decreases |rs|
  {
    if |rs| > 1 {
      SmallestChunks(rs[1..]);
      assert rs[..1] == [rs[0]];
    } else if |rs| == 1 {
      assert rs == [rs[0]];
    }
  }

  lemma {:induction false} LargestChunk(rs: seq<Record>)
    requires rs != []
    ensures Chunks(rs, |rs|) == [rs]
  {
  }

  lemma SinglesUnfold(rs: seq<Record>)
    requires rs != []
    ensures Singles(rs) != [] && Front(Singles(rs)) == Singles(Front(rs)) && Last(Singles(rs)) == [Last(rs)]
  {
  }

  lemma OneRecord(r: Record)
    ensures Identities([r]) == {r.identity} && Payloads([r], r.identity) == {r.payload}
    ensures !Contradictory([r], r.identity)
  {
    assert r in [r];
  }

  lemma OneRecordIsDisputed(final: Known, r: Record)
    ensures Disputed(final, [r]) == if Hashes(final, r.identity) == {r.payload} then {} else {r.identity}
  {
    OneRecord(r);
  }

  lemma {:induction false} WithinOne(r: Record, ids: set<Identity>)
    ensures Within([r], ids) == if r.identity in ids then 1 else 0
  {
    assert Front([r]) == [];
  }

  /** Loaded one by one, an identity gets its first content, whatever follows. */
  lemma {:induction false} SinglesAgree(rs: seq<Record>, id: Identity)
    ensures FirstAgreed(Singles(rs), id) == if id in Identities(rs) then Some(RowFor(rs, id)) else None
  {
    if rs != [] {
      var front, r := Front(rs), Last(rs);
      SinglesUnfold(rs);
      SinglesAgree(front, id);
      OneRecord(r);
      assert rs == front + [r];
      IdentitiesOfConcat(front, [r]);
      if id in Identities(rs) {
        FirstRowOfConcat(front, [r], id);
      }
    }
  }

  // The table

  lemma {:induction false} NewContradictionTellsSizesApart(t: Table, rs: seq<Record>, id: Identity)
    requires id !in t && Contradictory(rs, id)
    ensures rs != []
    ensures TableAfter(t, Chunks(rs, 1)) != TableAfter(t, Chunks(rs, |rs|))
  {
    hide FirstAgreed, TableAfter, RowFor, Chunks, Contradictory;
    ContradictoryOccurs(rs, id);
    SmallestChunks(rs);
    SinglesAgree(rs, id);
    FirstAgreedContentIsStored(t, Singles(rs), id);
    LargestChunk(rs);
    SingleChunk(rs, id);
    FirstAgreedContentIsStored(t, [rs], id);
  }

  /** The table is the same for every chunk size exactly when no identity new to it is given two contents. */
  lemma TableIgnoresChunkSizeIff(t: Table, rs: seq<Record>)
    ensures TableIgnoresChunkSize(t, rs) <==> NewOnesAgree(t, rs)
  {
    hide TableAfter, Chunks, Contradictory, Merged, Identities;
    if NewOnesAgree(t, rs) {
      forall m: nat, n: nat | m > 0 && n > 0 ensures TableAfter(t, Chunks(rs, m)) == TableAfter(t, Chunks(rs, n)) {
        ChunksPartition(rs, m);
        ChunksPartition(rs, n);
        ChunkedLoadIsOneMerge(t, Chunks(rs, m));
        ChunkedLoadIsOneMerge(t, Chunks(rs, n));
      }
    } else {
      var id :| id !in t && Contradictory(rs, id);
      NewContradictionTellsSizesApart(t, rs, id);
    }
  }

  // The totals

  /** Loading one by one disputes no more records, and fewer if it stores a record the whole chunk disputes. */
  lemma {:induction false} SinglesDisputeLess(final: Known, rs: seq<Record>, ids: set<Identity>)
    requires forall r :: r in rs && Hashes(final, r.identity) != {r.payload} ==> r.identity in ids
    ensures DisputedRecords(final, Singles(rs)) <= Within(rs, ids)
    ensures (exists r :: r in rs && r.identity in ids && Hashes(final, r.identity) == {r.payload}) ==>
      DisputedRecords(final, Singles(rs)) < Within(rs, ids)
  {
    if rs != [] {
      var front, r := Front(rs), Last(rs);
      SinglesUnfold(rs);
      assert rs == front + [r];
      SinglesDisputeLess(final, front, ids);
      OneRecordIsDisputed(final, r);
      WithinOne(r, Disputed(final, [r]));
      assert forall s :: s in rs <==> s in front || s == r;
    }
  }

  lemma {:induction false} RecordsOfChunks(t: Table, rs: seq<Record>, chunks: seq<seq<Record>>, limit: nat)
    ensures LoadAll(NOTHING_YET, KnownOf(t), chunks, limit).log.records ==
      DisputedRecords(KnownOf(TableAfter(t, chunks)), chunks)
  {
    ConflictsOfLoad(t, chunks, limit);
  }

  lemma {:induction false} OneChunkDisputes(final: Known, rs: seq<Record>)
    ensures DisputedRecords(final, [rs]) == Within(rs, Disputed(final, rs))
  {
    assert Front([rs]) == [] && Last([rs]) == rs;
    assert DisputedRecords(final, []) == 0;
  }

  /** Where the records give an identity one content, both extremes store the same of it. */
  lemma {:induction false} ExtremesShareAgreed(t: Table, rs: seq<Record>, id: Identity)
    requires id in t || !Contradictory(rs, id)
    ensures RowsOf(TableAfter(t, Singles(rs)), id) == RowsOf(TableAfter(t, [rs]), id)
    ensures id in t ==> RowsOf(TableAfter(t, Singles(rs)), id) == RowsOf(t, id)
  {
    hide TableAfter, Contradictory, RowFor, Chunks, Flat;
    SmallestChunks(rs);
    ChunksPartition(rs, 1);
    FlatOfOne(rs);
    RowsOfAgreed(t, Singles(rs), id);
    RowsOfAgreed(t, [rs], id);
  }

  /** One by one, a record disputed there is disputed in one chunk too. */
  lemma {:induction false} DisputedAloneIsDisputed(t: Table, rs: seq<Record>, r: Record)
    requires r in rs && Hashes(KnownOf(TableAfter(t, Singles(rs))), r.identity) != {r.payload}
    ensures r.identity in Disputed(KnownOf(TableAfter(t, [rs])), rs)
  {
    hide TableAfter, Singles;
    assert r.identity in Identities(rs);
    if !Contradictory(rs, r.identity) {
      ExtremesShareAgreed(t, rs, r.identity);
      AgreedGroup([r], rs, r.identity);
      OneRecord(r);
    }
  }

  /** An unsettled identity has a record that is stored, or found stored, one by one only. */
  lemma UnsettledIsStoredAlone(t: Table, rs: seq<Record>, r: Record) returns (s: Record)
    requires r in rs && Contradictory(rs, r.identity) && Hashes(KnownOf(t), r.identity) in {{}, {r.payload}}
    ensures s in rs && s.identity in Disputed(KnownOf(TableAfter(t, [rs])), rs)
    ensures Hashes(KnownOf(TableAfter(t, Singles(rs))), s.identity) == {s.payload}
  {
    hide TableAfter, Singles, Contradictory, FirstAgreed;
    assert r.identity in Identities(rs);
    if r.identity in t {
      assert RowsOf(t, r.identity) != [];
      ExtremesShareAgreed(t, rs, r.identity);
      s := r;
    } else {
      SinglesAgree(rs, r.identity);
      FirstAgreedContentIsStored(t, Singles(rs), r.identity);
      RowIsFirstSelected(rs, r.identity);
      s := Select(rs, r.identity)[0];
      assert s in Select(rs, r.identity);
    }
  }

  lemma UnsettledTellsSizesApart(t: Table, rs: seq<Record>, limit: nat)
    requires !Settled(KnownOf(t), rs)
    ensures rs != []
    ensures TotalsOf(t, rs, 1, limit).log.records < TotalsOf(t, rs, |rs|, limit).log.records
  {
    hide TableAfter, Singles, Contradictory, Disputed, Chunks, LoadAll, Within, DisputedRecords;
    var r :| r in rs && Contradictory(rs, r.identity) && Hashes(KnownOf(t), r.identity) in {{}, {r.payload}};
    var alone, whole := KnownOf(TableAfter(t, Singles(rs))), KnownOf(TableAfter(t, [rs]));
    SmallestChunks(rs);
    LargestChunk(rs);
    RecordsOfChunks(t, rs, Singles(rs), limit);
    RecordsOfChunks(t, rs, [rs], limit);
    OneChunkDisputes(whole, rs);
    forall x | x in rs && Hashes(alone, x.identity) != {x.payload} ensures x.identity in Disputed(whole, rs) {
      DisputedAloneIsDisputed(t, rs, x);
    }
    var s := UnsettledIsStoredAlone(t, rs, r);
    SinglesDisputeLess(alone, rs, Disputed(whole, rs));
  }

  /**
    The totals are the same for every chunk size exactly when no identity given two contents is new
    to the table or stored as one of them.
   */
  lemma TotalsIgnoreChunkSizeIff(t: Table, rs: seq<Record>, limit: nat)
    ensures TotalsIgnoreChunkSize(t, rs, limit) <==> Settled(KnownOf(t), rs)
  {
    if Settled(KnownOf(t), rs) {
      hide Settled, Chunks, LoadAll, SameTotals;
      forall m: nat, n: nat | m > 0 && n > 0
        ensures SameTotals(TotalsOf(t, rs, m, limit), TotalsOf(t, rs, n, limit))
      {
        ChunkSizeDoesNotMatter(t, rs, m, n, limit);
      }
    } else {
      hide Settled, Chunks, LoadAll, TotalsOf;
      UnsettledTellsSizesApart(t, rs, limit);
      assert !SameTotals(TotalsOf(t, rs, 1, limit), TotalsOf(t, rs, |rs|, limit));
    }
  }
}
