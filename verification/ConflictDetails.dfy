/** What the details of a load's conflict log say about its input and the table it ran against. */
module ConflictDetails {
  import opened Sequences
  import opened Loading
  import opened LoadResults

  /** The contents a chunk gives an identity. */
  function Incoming(c: seq<Record>, id: Identity): set<Payload> {
    set r | r in c && r.identity == id :: r.payload
  }

  /** The contents stored for an identity. */
  function Existing(t: Table, id: Identity): set<Payload> {
    if id in t then set s | s in t[id] :: s.payload else {}
  }

  /**
    The detail tells what one chunk brought for an identity: several contents at odds with each other,
    or one at odds with what the table held when the chunk came.
   */
  ghost predicate Tells(e: Conflict, t: Table, c: seq<Record>) {
    && e.incoming == Incoming(c, e.identity) && e.incoming != {}
    && e.weight == |Select(c, e.identity)|
    && if |e.incoming| > 1 then e.existing == {}
       else e.existing == Existing(t, e.identity) && e.existing != {} && e.existing != e.incoming
  }

  ghost predicate TellsOfSome(e: Conflict, t: Table, chunks: seq<seq<Record>>) {
    exists n: nat :: n < |chunks| && Tells(e, TableAfter(t, chunks[..n]), chunks[n])
  }

  lemma {:induction false} ContradictionsTell(c: seq<Record>, ids: seq<Identity>, e: Conflict)
    requires e in Contradictions(c, ids)
    ensures e.incoming == Incoming(c, e.identity) && |e.incoming| > 1 && e.existing == {}
    ensures e.weight == |Select(c, e.identity)|
  {
    if e in Contradictions(c, Front(ids)) {
      ContradictionsTell(c, Front(ids), e);
    }
  }

  lemma {:induction false} ClashesTell(known: Known, c: seq<Record>, ids: seq<Identity>, e: Conflict)
    requires e in Clashes(known, c, ids) && forall id :: id in ids ==> id in Identities(c) && !Contradictory(c, id)
    ensures e.incoming == Incoming(c, e.identity) && |e.incoming| == 1
    ensures e.existing == Hashes(known, e.identity) && e.existing != {} && e.existing != e.incoming
    ensures e.weight == |Select(c, e.identity)|
  {
    assert Last(ids) in ids && forall id :: id in Front(ids) ==> id in ids;
    if e in Clashes(known, c, Front(ids)) {
      ClashesTell(known, c, Front(ids), e);
    } else {
      var r :| r in c && r.identity == Last(ids);
      assert r.payload in Payloads(c, Last(ids));
    }
  }

  lemma ConflictsTell(t: Table, known: Known, c: seq<Record>, e: Conflict)
    requires e in Conflicts(known, c) && SameContents(KnownOf(t), known)
    ensures Tells(e, t, c)
  {
    OrderListsEachOnce(c);
    assert forall id :: id in Order(c) <==> id in Elements(Order(c));
    if e in Contradictions(c, Order(c)) {
      ContradictionsTell(c, Order(c), e);
      assert |e.incoming| > 1;
    } else {
      ClashesTell(known, c, Agreed(c, Order(c)), e);
      assert Hashes(KnownOf(t), e.identity) == Hashes(known, e.identity);
    }
  }

  lemma {:induction false} DetailsComeFrom(log: Log, conflicts: seq<Conflict>, limit: nat, e: Conflict)
    requires e in LoggedAll(log, conflicts, limit).details
    ensures e in log.details || e in conflicts
  {
    if conflicts != [] && e in LoggedAll(log, Front(conflicts), limit).details {
      DetailsComeFrom(log, Front(conflicts), limit, e);
    }
  }

  lemma {:induction false} TellsOfMore(e: Conflict, t: Table, chunks: seq<seq<Record>>)
    requires chunks != []
    ensures TellsOfSome(e, t, Front(chunks)) || Tells(e, TableAfter(t, Front(chunks)), Last(chunks)) ==>
      TellsOfSome(e, t, chunks)
  {
    hide Tells, TableAfter;
    var earlier := Front(chunks);
    if TellsOfSome(e, t, earlier) {
      var n: nat :| n < |earlier| && Tells(e, TableAfter(t, earlier[..n]), earlier[n]);
      assert earlier[..n] == chunks[..n] && earlier[n] == chunks[n];
    }
    assert chunks[..|chunks| - 1] == earlier && chunks[|chunks| - 1] == Last(chunks);
  }

  /** Every detail of a load's conflict log is true of a chunk and of the table as it stood before that chunk. */
  lemma {:induction false} DetailsTell(t: Table, chunks: seq<seq<Record>>, limit: nat, e: Conflict)
    requires e in LoadAll(NOTHING_YET, KnownOf(t), chunks, limit).log.details
    ensures TellsOfSome(e, t, chunks)
  {
    assert chunks != [];
    var earlier, c := Front(chunks), Last(chunks);
    var before, known := LoadAll(NOTHING_YET, KnownOf(t), earlier, limit), KnownAfter(KnownOf(t), earlier);
    assert e in LoggedAll(before.log, Conflicts(known, c), limit).details;
    TellsOfMore(e, t, chunks);
    hide *;
    DetailsComeFrom(before.log, Conflicts(known, c), limit, e);
    if e in before.log.details {
      DetailsTell(t, earlier, limit, e);
    } else {
      TableHoldsWhatIsKnown(t, earlier);
      ConflictsTell(TableAfter(t, earlier), known, c, e);
    }
  }
}
