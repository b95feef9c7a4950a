/** What chunk sizes and the order of runs do not decide. */
module LoadRuns {
  import opened Sequences
  import opened Loading
  import opened LoadResults

  /** No identity occurs with two contents. */
  ghost predicate Consistent(rs: seq<Record>) {
    forall r, s :: r in rs && s in rs && r.identity == s.identity ==> r.payload == s.payload
  }

  lemma ConsistentGroup(c: seq<Record>, rs: seq<Record>, id: Identity)
    requires Consistent(rs) && (forall r :: r in c ==> r in rs) && id in Identities(c)
    ensures Payloads(c, id) == Payloads(rs, id) && !Contradictory(c, id)
  {
    var r :| r in c && r.identity == id;
    assert Payloads(c, id) == {r.payload};
    assert Payloads(rs, id) == {r.payload};
  }

  /** No identity the table does not hold yet is given two contents. */
  ghost predicate NewOnesAgree(t: Table, rs: seq<Record>) {
    forall id :: id !in t ==> !Contradictory(rs, id)
  }

  /** A record whose identity is given two contents is neither new to the table nor exactly what it holds. */
  ghost predicate Settled(known: Known, rs: seq<Record>) {
    forall r :: r in rs && Contradictory(rs, r.identity) ==> Hashes(known, r.identity) !in {{}, {r.payload}}
  }

  lemma ConsistentIsSettled(known: Known, rs: seq<Record>)
    requires Consistent(rs)
    ensures Settled(known, rs)
  {
    forall r | r in rs ensures !Contradictory(rs, r.identity) {
      ConsistentGroup(rs, rs, r.identity);
    }
  }

  lemma ConsistentNewOnesAgree(t: Table, rs: seq<Record>)
    requires Consistent(rs)
    ensures NewOnesAgree(t, rs)
  {
    hide Consistent, Settled;
    ConsistentIsSettled(KnownOf(t), rs);
    SettledNewOnesAgree(t, rs);
  }

  lemma ContradictoryOccurs(rs: seq<Record>, id: Identity)
    requires Contradictory(rs, id)
    ensures exists r :: r in rs && r.identity == id
  {
    assert Payloads(rs, id) != {};
    var p :| p in Payloads(rs, id);
  }

  lemma SettledNewOnesAgree(t: Table, rs: seq<Record>)
    requires Settled(KnownOf(t), rs)
    ensures NewOnesAgree(t, rs)
  {
    hide Contradictory;
    forall id | id !in t && Contradictory(rs, id) ensures false {
      assert Hashes(KnownOf(t), id) == {};
      ContradictoryOccurs(rs, id);
    }
  }

  lemma AgreedGroup(c: seq<Record>, rs: seq<Record>, id: Identity)
    requires (forall r :: r in c ==> r in rs) && !Contradictory(rs, id)
    ensures !Contradictory(c, id)
    ensures id in Identities(c) ==> Payloads(c, id) == Payloads(rs, id)
  {
    assert Payloads(c, id) <= Payloads(rs, id);
    SubsetCardinality(Payloads(c, id), Payloads(rs, id));
    if id in Identities(c) {
      var r :| r in c && r.identity == id;
      SubsetCardinality({r.payload}, Payloads(c, id));
    }
  }

  lemma {:induction false} SelectConcat(a: seq<Record>, b: seq<Record>, id: Identity)
    ensures Select(a + b, id) == Select(a, id) + Select(b, id)
  {
    if b == [] {
      assert a + b == a;
    } else {
      assert Front(a + b) == a + Front(b) && Last(a + b) == Last(b);
      SelectConcat(a, Front(b), id);
      assert Select(a, id) + Select(Front(b), id) + [Last(b)] == Select(a, id) + (Select(Front(b), id) + [Last(b)]);
    }
  }

  lemma {:induction false} RowIsFirstSelected(c: seq<Record>, id: Identity)
    requires id in Identities(c)
    ensures Select(c, id) != [] && RowFor(c, id) == Stored(Select(c, id)[0].payload, Select(c, id)[0].lineage)
  {
    var r :| r in c && r.identity == id;
    assert r in Select(c, id);
  }

  lemma IdentitiesOfConcat(a: seq<Record>, b: seq<Record>)
    ensures Identities(a + b) == Identities(a) + Identities(b)
  {
    assert forall r :: r in a + b <==> r in a || r in b;
  }

  lemma FirstRowOfConcat(a: seq<Record>, b: seq<Record>, id: Identity)
    requires id in Identities(a + b)
    ensures id in Identities(a) || id in Identities(b)
    ensures RowFor(a + b, id) == if id in Identities(a) then RowFor(a, id) else RowFor(b, id)
  {
    hide RowFor, Identities;
    SelectConcat(a, b, id);
    IdentitiesOfConcat(a, b);
    RowIsFirstSelected(a + b, id);
    hide Select;
    if id in Identities(a) {
      RowIsFirstSelected(a, id);
    } else {
      SelectNothing(a, id);
      RowIsFirstSelected(b, id);
    }
  }

  lemma {:induction false} FirstContentIsStored(chunks: seq<seq<Record>>, id: Identity)
    requires !Contradictory(Flat(chunks), id)
    ensures FirstAgreed(chunks, id) ==
      if id in Identities(Flat(chunks)) then Some(RowFor(Flat(chunks), id)) else None
  {
    if chunks != [] {
      var a, b := Flat(Front(chunks)), Last(chunks);
      assert Flat(chunks) == a + b;
      assert forall r :: r in a || r in b <==> r in a + b;
      AgreedGroup(a, a + b, id);
      AgreedGroup(b, a + b, id);
      FirstContentIsStored(Front(chunks), id);
      if id in Identities(a + b) {
        FirstRowOfConcat(a, b, id);
      } else {
        NotInEither(a, b, id);
      }
    }
  }

  lemma NotInEither(a: seq<Record>, b: seq<Record>, id: Identity)
    requires id !in Identities(a + b)
    ensures id !in Identities(a) && id !in Identities(b)
  {
    assert forall r :: r in a || r in b ==> r in a + b;
  }

  /** Unless a new identity is given two contents, loading in chunks is one MERGE of all the records. */
  lemma {:induction false} ChunkedLoadIsOneMerge(t: Table, chunks: seq<seq<Record>>)
    requires NewOnesAgree(t, Flat(chunks))
    ensures TableAfter(t, chunks) == Merged(t, Flat(chunks), Identities(Flat(chunks)))
  {
    hide Flat, TableAfter, Contradictory, FirstAgreed, RowFor, Identities;
    var merged := Merged(t, Flat(chunks), Identities(Flat(chunks)));
    forall id ensures RowsOf(TableAfter(t, chunks), id) == RowsOf(merged, id) {
      RowsOfAgreed(t, chunks, id);
    }
    SameTable(TableAfter(t, chunks), merged);
  }

  /** An identity the load gives one content is stored with it, unless it was stored before. */
  lemma {:induction false} RowsOfAgreed(t: Table, chunks: seq<seq<Record>>, id: Identity)
    requires id in t || !Contradictory(Flat(chunks), id)
    ensures RowsOf(TableAfter(t, chunks), id) ==
      if id in t then t[id]
      else if id in Identities(Flat(chunks)) then [RowFor(Flat(chunks), id)]
      else []
  {
    hide Flat, TableAfter, Contradictory, FirstAgreed, RowFor, Identities;
    FirstAgreedContentIsStored(t, chunks, id);
    if id !in t {
      FirstContentIsStored(chunks, id);
    }
  }

  lemma {:induction false} FlatOfConcat(a: seq<seq<Record>>, b: seq<seq<Record>>)
    ensures Flat(a + b) == Flat(a) + Flat(b)
  {
    if b == [] {
      assert a + b == a;
    } else {
      FlatOfConcat(a, Front(b));
      FlatOneMore(a + Front(b), Last(b));
      FlatOneMore(Front(b), Last(b));
      assert (a + Front(b)) + [Last(b)] == a + b && Front(b) + [Last(b)] == b;
      hide Flat;
      Associates(Flat(a), Flat(Front(b)), Last(b));
    }
  }

  lemma {:induction false} FlatOneMore(chunks: seq<seq<Record>>, c: seq<Record>)
    ensures Flat(chunks + [c]) == Flat(chunks) + c
  {
    assert Front(chunks + [c]) == chunks && Last(chunks + [c]) == c;
  }

  lemma Associates(a: seq<Record>, b: seq<Record>, c: seq<Record>)
    ensures (a + b) + c == a + (b + c)
  {
  }

  lemma FlatOfOne(c: seq<Record>)
    ensures Flat([c]) == c
  {
    FlatOneMore([], c);
    assert [] + [c] == [c] && Flat([]) + c == c;
  }

  lemma {:induction false} ChunksUnfold(rs: seq<Record>, size: nat)
    requires 0 < size < |rs|
    ensures Chunks(rs, size) == [rs[..size]] + Chunks(rs[size..], size)
  {
  }

  /** Chunking loses, repeats and reorders nothing. */
  lemma {:induction false} ChunksPartition(rs: seq<Record>, size: nat)
    requires size > 0
    ensures Flat(Chunks(rs, size)) == rs
    decreases |rs|
  {
    if |rs| <= size {
      FlatOfOne(rs);
    } else {
      hide *;
      var first, rest := rs[..size], rs[size..];
      ChunksUnfold(rs, size);
      ChunksPartition(rest, size);
      FlatOfOne(first);
      FlatOfConcat([first], Chunks(rest, size));
      assert rs == first + rest;
    }
  }

  /** Every chunk holds between one and `size` records. */
  lemma {:induction false} ChunksAreBounded(rs: seq<Record>, size: nat, c: seq<Record>)
    requires size > 0 && c in Chunks(rs, size)
    ensures 0 < |c| <= size
    decreases |rs|
  {
    if |rs| > size && c != rs[..size] {
      ChunksAreBounded(rs[size..], size, c);
    }
  }

  lemma {:induction false} DisputesOfChunks(final: Known, chunks: seq<seq<Record>>, rs: seq<Record>)
    requires Settled(final, rs) && forall r :: r in Flat(chunks) ==> r in rs
    ensures DisputedRecords(final, chunks) == Within(Flat(chunks), Disputed(final, rs))
    ensures DisputedIds(final, chunks) == Disputed(final, rs) * Identities(Flat(chunks))
  {
    if chunks != [] {
      var a, c := Flat(Front(chunks)), Last(chunks);
      assert Flat(chunks) == a + c;
      assert forall r :: r in a || r in c <==> r in a + c;
      DisputesOfChunks(final, Front(chunks), rs);
      forall id | id in Identities(c) ensures id in Disputed(final, c) <==> id in Disputed(final, rs) {
        DisputedInPart(final, c, rs, id);
      }
      WithinFollowsIdentities(c, Disputed(final, c), Disputed(final, rs));
      WithinConcat(a, c, Disputed(final, rs));
      assert Identities(a + c) == Identities(a) + Identities(c);
    }
  }

  /** What settled records dispute, every part of them that mentions it disputes. */
  lemma DisputedInPart(final: Known, c: seq<Record>, rs: seq<Record>, id: Identity)
    requires Settled(final, rs) && (forall r :: r in c ==> r in rs) && id in Identities(c)
    ensures id in Disputed(final, c) <==> id in Disputed(final, rs)
  {
    var r :| r in c && r.identity == id;
    assert id in Identities(rs);
    if !Contradictory(rs, id) {
      AgreedGroup(c, rs, id);
    } else if !Contradictory(c, id) {
      assert r.payload in Payloads(c, id);
      SubsetCardinality({r.payload}, Payloads(c, id));
      assert Hashes(final, id) != {r.payload};
    }
  }

  lemma {:induction false} DisputesOfAll(final: Known, chunks: seq<seq<Record>>)
    requires Settled(final, Flat(chunks))
    ensures DisputedRecords(final, chunks) == Within(Flat(chunks), Disputed(final, Flat(chunks)))
    ensures DisputedIds(final, chunks) == Disputed(final, Flat(chunks))
  {
    DisputesOfChunks(final, chunks, Flat(chunks));
    assert Disputed(final, Flat(chunks)) <= Identities(Flat(chunks));
  }

  /** A load's report: every count it makes and how its conflict log grew. */
  ghost predicate Reports(totals: Totals, input: nat, added: int, records: nat, ids: set<Identity>, limit: nat) {
    && totals.input == input && totals.planned == totals.inserted == added
    && totals.skipped == input - added - records
    && GrewBy(EMPTY_LOG, totals.log, limit, records, ids)
  }

  lemma {:induction false} ConflictsOfSettledLoad(t: Table, chunks: seq<seq<Record>>, limit: nat, rs: seq<Record>,
      final: Known)
    requires Settled(final, rs) && rs == Flat(chunks) && final == KnownOf(TableAfter(t, chunks))
    ensures GrewBy(EMPTY_LOG, LoadAll(NOTHING_YET, KnownOf(t), chunks, limit).log, limit,
                   Within(rs, Disputed(final, rs)), Disputed(final, rs))
  {
    ConflictsOfLoad(t, chunks, limit);
    DisputesOfAll(final, chunks);
  }

  lemma ReportsFollow(totals: Totals, input: nat, added: int, records: nat, ids: set<Identity>, limit: nat)
    requires GrewBy(EMPTY_LOG, totals.log, limit, records, ids)
    requires totals.input == input && totals.planned == totals.inserted == added
    requires totals.input == totals.inserted + totals.skipped + totals.log.records
    ensures Reports(totals, input, added, records, ids, limit)
  {
  }

  lemma {:induction false} CountsFromNothing(t: Table, chunks: seq<seq<Record>>, limit: nat)
    ensures var r := LoadAll(NOTHING_YET, KnownOf(t), chunks, limit);
      && r.input == |Flat(chunks)| == r.inserted + r.skipped + r.log.records
      && r.planned == r.inserted == |TableAfter(t, chunks).Keys| - |t.Keys|
  {
    hide LoadAll, TableAfter, Flat;
    LoadAccountsForEveryRecord(NOTHING_YET, t, chunks, limit);
    InputIsCounted(NOTHING_YET, KnownOf(t), chunks, limit);
  }

  /** What the table holds of an identity given two contents, a load does not change. */
  lemma SettledStays(t: Table, rs: seq<Record>, after: Table)
    requires Settled(KnownOf(t), rs) && after == Merged(t, rs, Identities(rs))
    ensures Settled(KnownOf(after), rs)
  {
    SettledNewOnesAgree(t, rs);
    forall r | r in rs && Contradictory(rs, r.identity)
      ensures Hashes(KnownOf(after), r.identity) == Hashes(KnownOf(t), r.identity)
    {
      assert r.identity in t;
    }
  }

  lemma SubsetIsConsistent(mine: seq<Record>, rs: seq<Record>)
    requires Consistent(rs) && forall r :: r in mine ==> r in rs
    ensures Consistent(mine)
  {
  }

  /** When the records are settled, a load's report depends on them and the table, on no chunk. */
  lemma {:induction false} SettledLoadReports(t: Table, chunks: seq<seq<Record>>, limit: nat)
    requires Settled(KnownOf(TableAfter(t, chunks)), Flat(chunks))
    ensures var rs := Flat(chunks);
      var final := KnownOf(TableAfter(t, chunks));
      Reports(LoadAll(NOTHING_YET, KnownOf(t), chunks, limit), |rs|, |TableAfter(t, chunks).Keys| - |t.Keys|,
              Within(rs, Disputed(final, rs)), Disputed(final, rs), limit)
  {
    hide *;
    var rs, final := Flat(chunks), KnownOf(TableAfter(t, chunks));
    CountsFromNothing(t, chunks, limit);
    ConflictsOfSettledLoad(t, chunks, limit, rs, final);
    ReportsFollow(LoadAll(NOTHING_YET, KnownOf(t), chunks, limit), |rs|, |TableAfter(t, chunks).Keys| - |t.Keys|,
                  Within(rs, Disputed(final, rs)), Disputed(final, rs), limit);
  }

  lemma SameReports(a: Totals, b: Totals, input: nat, added: int, records: nat, ids: set<Identity>, limit: nat)
    requires Reports(a, input, added, records, ids, limit) && Reports(b, input, added, records, ids, limit)
    ensures SameTotals(a, b)
  {
    assert a.log.identities == ids == b.log.identities;
  }

  ghost predicate SameTotals(a: Totals, b: Totals) {
    && a.input == b.input && a.planned == b.planned && a.inserted == b.inserted && a.skipped == b.skipped
    && a.log.records == b.log.records && a.log.identities == b.log.identities && a.log.count == b.log.count
    && |a.log.details| == |b.log.details| && a.log.truncated == b.log.truncated
  }

  lemma {:induction false} ReportOfChunks(t: Table, rs: seq<Record>, n: nat, after: Table, limit: nat)
    requires Settled(KnownOf(t), rs) && n > 0 && after == Merged(t, rs, Identities(rs))
    ensures TableAfter(t, Chunks(rs, n)) == after
    ensures Reports(LoadAll(NOTHING_YET, KnownOf(t), Chunks(rs, n), limit), |rs|, |after.Keys| - |t.Keys|,
                    Within(rs, Disputed(KnownOf(after), rs)), Disputed(KnownOf(after), rs), limit)
  {
    hide *;
    var chunks := Chunks(rs, n);
    ChunksPartition(rs, n);
    SettledNewOnesAgree(t, rs);
    ChunkedLoadIsOneMerge(t, chunks);
    SettledStays(t, rs, after);
    SettledLoadReports(t, chunks, limit);
  }

  /** When the records are settled, table and totals are those of any other chunk size. */
  lemma {:induction false} ChunkSizeDoesNotMatter(t: Table, rs: seq<Record>, m: nat, n: nat, limit: nat)
    requires Settled(KnownOf(t), rs) && m > 0 && n > 0
    ensures TableAfter(t, Chunks(rs, m)) == TableAfter(t, Chunks(rs, n))
    ensures SameTotals(LoadAll(NOTHING_YET, KnownOf(t), Chunks(rs, m), limit),
                       LoadAll(NOTHING_YET, KnownOf(t), Chunks(rs, n), limit))
  {
    hide *;
    var after := Merged(t, rs, Identities(rs));
    ReportOfChunks(t, rs, m, after, limit);
    ReportOfChunks(t, rs, n, after, limit);
    SameReports(LoadAll(NOTHING_YET, KnownOf(t), Chunks(rs, m), limit),
                LoadAll(NOTHING_YET, KnownOf(t), Chunks(rs, n), limit), |rs|, |after.Keys| - |t.Keys|,
                Within(rs, Disputed(KnownOf(after), rs)), Disputed(KnownOf(after), rs), limit);
  }

  function Example(text: string): Record {
    Record(Identity("DP-001", 0, 1), Payload(text, []), "line", true)
  }

  /**
    With a self-contradictory identity the chunk size does matter: one chunk of two rejects what two
    chunks of one accept.
   */
  lemma ChunkSizeMattersForContradictions()
    ensures var r, s := Example("one"), Example("two");
      r.identity !in TableAfter(map[], Chunks([r, s], 2)) && r.identity in TableAfter(map[], Chunks([r, s], 1))
  {
    var r, s := Example("one"), Example("two");
    assert Chunks([r, s], 2) == [[r, s]];
    OneByOne(r, s);
    hide Chunks, TableAfter, FirstAgreed, RowFor, Contradictory;
    ExampleGroups();
    SingleChunk([r, s], r.identity);
    FirstAgreedContentIsStored(map[], [[r, s]], r.identity);
    SingleChunk([r], r.identity);
    assert [[r], [s]][..1] == [[r]];
    FirstAgreedInPrefix([[r], [s]], 1, r.identity);
    FirstAgreedContentIsStored(map[], [[r], [s]], r.identity);
  }

  lemma OneByOne(r: Record, s: Record)
    ensures Chunks([r, s], 1) == [[r], [s]]
  {
    assert [r, s][..1] == [r] && [r, s][1..] == [s];
    assert Chunks([s], 1) == [[s]];
  }

  lemma ExampleGroups()
    ensures var r, s := Example("one"), Example("two");
      Contradictory([r, s], r.identity) && r.identity in Identities([r]) && !Contradictory([r], r.identity)
  {
    var r, s := Example("one"), Example("two");
    assert r in [r, s] && s in [r, s] && r in [r];
    assert Payloads([r, s], r.identity) == {r.payload, s.payload} && r.payload != s.payload;
    assert Payloads([r], r.identity) == {r.payload};
  }

  lemma {:induction false} SingleChunk(c: seq<Record>, id: Identity)
    ensures FirstAgreed([c], id) == if id in Identities(c) && !Contradictory(c, id) then Some(RowFor(c, id)) else None
  {
    assert Front([c]) == [];
  }

  // Several runs, one after the other

  lemma {:induction false} TableAfterTwo(t: Table, a: seq<seq<Record>>, b: seq<seq<Record>>)
    ensures TableAfter(t, a + b) == TableAfter(TableAfter(t, a), b)
  {
    if b == [] {
      assert a + b == a;
    } else {
      assert Front(a + b) == a + Front(b) && Last(a + b) == Last(b);
      TableAfterTwo(t, a, Front(b));
    }
  }

  /** Each run is the list of chunks it loads. */
  function AfterRuns(t: Table, runs: seq<seq<seq<Record>>>): Table {
    if runs == [] then t else TableAfter(AfterRuns(t, Front(runs)), Last(runs))
  }

  function AllChunks(runs: seq<seq<seq<Record>>>): seq<seq<Record>> {
    if runs == [] then [] else AllChunks(Front(runs)) + Last(runs)
  }

  lemma {:induction false} RunsAreOneLoad(t: Table, runs: seq<seq<seq<Record>>>)
    ensures AfterRuns(t, runs) == TableAfter(t, AllChunks(runs))
  {
    if runs != [] {
      RunsAreOneLoad(t, Front(runs));
      TableAfterTwo(t, AllChunks(Front(runs)), Last(runs));
    }
  }

  function Facts(rs: seq<Record>): set<(Identity, Payload)> {
    set r | r in rs :: (r.identity, r.payload)
  }

  /** A stored identity has the content the records give it. */
  ghost predicate Agrees(known: Known, rs: seq<Record>) {
    forall r :: r in rs && Hashes(known, r.identity) != {} ==> Hashes(known, r.identity) == {r.payload}
  }

  lemma MergedTeaches(t: Table, rs: seq<Record>, r: Record)
    requires Consistent(rs) && r in rs && r.identity !in t
    ensures Hashes(KnownOf(Merged(t, rs, Identities(rs))), r.identity) == {r.payload}
  {
    assert r.identity in Identities(rs);
    ConsistentGroup(rs, rs, r.identity);
    SamePayloads(rs, r.identity);
    assert Payloads(rs, r.identity) == {r.payload};
  }

  lemma MergedKeeps(t: Table, rs: seq<Record>, id: Identity)
    requires id in t || id !in Identities(rs)
    ensures Hashes(KnownOf(Merged(t, rs, Identities(rs))), id) == Hashes(KnownOf(t), id)
  {
  }

  lemma SameFactsStaySame(a: seq<Record>, b: seq<Record>)
    requires Consistent(a) && Facts(a) == Facts(b)
    ensures Consistent(b)
  {
    forall r, s | r in b && s in b && r.identity == s.identity ensures r.payload == s.payload {
      assert (r.identity, r.payload) in Facts(a) && (s.identity, s.payload) in Facts(a);
    }
  }

  /**
    Runs that bring the same consistent facts, in any order, chunking and repetition, leave the
    same content for every identity.
   */
  lemma {:induction false} OrderOfRunsDoesNotMatter(t: Table, a: seq<seq<seq<Record>>>, b: seq<seq<seq<Record>>>)
    requires Consistent(Flat(AllChunks(a))) && Facts(Flat(AllChunks(a))) == Facts(Flat(AllChunks(b)))
    ensures SameContents(KnownOf(AfterRuns(t, a)), KnownOf(AfterRuns(t, b)))
  {
    var ra, rb := Flat(AllChunks(a)), Flat(AllChunks(b));
    SameFactsStaySame(ra, rb);
    RunsAreOneLoad(t, a);
    RunsAreOneLoad(t, b);
    ConsistentNewOnesAgree(t, ra);
    ConsistentNewOnesAgree(t, rb);
    hide AfterRuns, AllChunks, Flat, TableAfter, Facts, NewOnesAgree, Merged, Consistent;
    ChunkedLoadIsOneMerge(t, AllChunks(a));
    ChunkedLoadIsOneMerge(t, AllChunks(b));
    forall id ensures Hashes(KnownOf(AfterRuns(t, a)), id) == Hashes(KnownOf(AfterRuns(t, b)), id) {
      SameMergedContents(t, ra, rb, id);
    }
  }

  lemma SameIdentities(a: seq<Record>, b: seq<Record>)
    requires Facts(a) == Facts(b)
    ensures Identities(a) == Identities(b)
  {
    forall r | r in a ensures r.identity in Identities(b) {
      assert (r.identity, r.payload) in Facts(b);
    }
    forall r | r in b ensures r.identity in Identities(a) {
      assert (r.identity, r.payload) in Facts(a);
    }
  }

  lemma SameMergedContents(t: Table, a: seq<Record>, b: seq<Record>, id: Identity)
    requires Consistent(a) && Consistent(b) && Facts(a) == Facts(b)
    ensures Hashes(KnownOf(Merged(t, a, Identities(a))), id) == Hashes(KnownOf(Merged(t, b, Identities(b))), id)
  {
    if id !in t && id in Identities(a) {
      var r :| r in a && r.identity == id;
      assert (id, r.payload) in Facts(b);
      var s :| s in b && s.identity == id && s.payload == r.payload;
      MergedTeaches(t, a, r);
      MergedTeaches(t, b, s);
    } else {
      SameIdentities(a, b);
      MergedKeeps(t, a, id);
      MergedKeeps(t, b, id);
    }
  }

  lemma AgreeingContent(t: Table, mine: seq<Record>, rs: seq<Record>, r: Record)
    requires Consistent(rs) && Agrees(KnownOf(t), rs) && (forall s :: s in mine ==> s in rs) && r in rs
    ensures Hashes(KnownOf(Merged(t, mine, Identities(mine))), r.identity) ==
      if r.identity in t || r.identity in Identities(mine) then {r.payload} else {}
  {
    if r.identity in Identities(mine) && r.identity !in t {
      var s :| s in mine && s.identity == r.identity;
      MergedTeaches(t, mine, s);
    } else {
      MergedKeeps(t, mine, r.identity);
    }
  }

  lemma NothingDisputed(final: Known, mine: seq<Record>)
    requires Consistent(mine) && forall r :: r in mine ==> Hashes(final, r.identity) == {r.payload}
    ensures Disputed(final, mine) == {}
  {
    forall id | id in Identities(mine) ensures id !in Disputed(final, mine) {
      var r :| r in mine && r.identity == id;
      ConsistentGroup(mine, mine, id);
      assert Payloads(mine, id) == {r.payload};
    }
  }

  lemma AgreeingTable(t: Table, mine: seq<Record>, rs: seq<Record>)
    requires Consistent(rs) && Agrees(KnownOf(t), rs) && forall r :: r in mine ==> r in rs
    ensures Agrees(KnownOf(Merged(t, mine, Identities(mine))), rs)
    ensures Disputed(KnownOf(Merged(t, mine, Identities(mine))), mine) == {}
  {
    hide Merged, Disputed;
    var final := KnownOf(Merged(t, mine, Identities(mine)));
    forall r | r in rs ensures Hashes(final, r.identity) in {{}, {r.payload}} {
      AgreeingContent(t, mine, rs, r);
    }
    forall r | r in mine ensures Hashes(final, r.identity) == {r.payload} {
      assert r.identity in Identities(mine);
      AgreeingContent(t, mine, rs, r);
    }
    NothingDisputed(final, mine);
  }

  lemma {:induction false} AgreeingLoad(t: Table, chunks: seq<seq<Record>>, rs: seq<Record>, limit: nat)
    requires Consistent(rs) && Agrees(KnownOf(t), rs) && forall r :: r in Flat(chunks) ==> r in rs
    ensures Agrees(KnownOf(TableAfter(t, chunks)), rs)
    ensures LoadAll(NOTHING_YET, KnownOf(t), chunks, limit).log.records == 0
  {
    hide Consistent, Agrees, LoadAll, TableAfter, Flat, Merged, Disputed, Within;
    var mine, final := Flat(chunks), KnownOf(TableAfter(t, chunks));
    SubsetIsConsistent(mine, rs);
    ConsistentNewOnesAgree(t, mine);
    ConsistentIsSettled(final, mine);
    ChunkedLoadIsOneMerge(t, chunks);
    AgreeingTable(t, mine, rs);
    ConflictsOfSettledLoad(t, chunks, limit, mine, final);
    WithinNothing(mine);
  }

  /** Runs over consistent facts that the table does not contradict never report a conflict. */
  lemma {:induction false} RunsHaveNoConflicts(
      t: Table, runs: seq<seq<seq<Record>>>, rs: seq<Record>, k: nat, limit: nat)
    requires Consistent(rs) && Agrees(KnownOf(t), rs) && k < |runs|
    requires forall run :: run in runs ==> forall r :: r in Flat(run) ==> r in rs
    ensures LoadAll(NOTHING_YET, KnownOf(AfterRuns(t, runs[..k])), runs[k], limit).log.records == 0
  {
    AgreementLasts(t, runs[..k], rs, limit);
    AgreeingLoad(AfterRuns(t, runs[..k]), runs[k], rs, limit);
  }

  lemma {:induction false} AgreementLasts(t: Table, runs: seq<seq<seq<Record>>>, rs: seq<Record>, limit: nat)
    requires Consistent(rs) && Agrees(KnownOf(t), rs)
    requires forall run :: run in runs ==> forall r :: r in Flat(run) ==> r in rs
    ensures Agrees(KnownOf(AfterRuns(t, runs)), rs)
  {
    if runs != [] {
      AgreementLasts(t, Front(runs), rs, limit);
      assert Last(runs) in runs;
      AgreeingLoad(AfterRuns(t, Front(runs)), Last(runs), rs, limit);
    }
  }
}
