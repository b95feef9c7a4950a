/** Generating and loading day by day, in any order, equals one backfill. */
module DailyRuns {
  import opened Sequences
  import opened Timeline
  import opened Loading
  import opened LoadResults
  import opened LoadRuns
  import opened Generator
  import opened SourceBundles

  type Fact = (Identity, Payload)

  lemma FactsOfConcat(a: seq<Record>, b: seq<Record>)
    ensures Facts(a + b) == Facts(a) + Facts(b)
  {
    assert forall r :: r in a + b <==> r in a || r in b;
  }

  lemma NoFacts()
    ensures Facts([]) == {}
  {
  }

  lemma {:induction false} StretchSplits(s: Series, src: Source, e: Entity, from: int, mid: int, to: int)
    requires from <= mid <= to
    ensures Stretch(s, src, e, from, to) == Stretch(s, src, e, from, mid) + Stretch(s, src, e, mid, to)
    decreases (to - mid)
  {
    hide RecordsAt;
    if mid < to {
      var last := RecordsAt(s, src, e, to - 1);
      StretchSplits(s, src, e, from, mid, to - 1);
      Associates(Stretch(s, src, e, from, mid), Stretch(s, src, e, mid, to - 1), last);
    }
  }

  lemma {:induction false} EntityFactsSplit(
      s: Series, src: Source, entities: seq<Entity>, from: int, mid: int, overlap: int, to: int)
    requires from <= mid <= overlap <= to
    ensures Facts(OfEntities(s, src, entities, from, to)) ==
      Facts(OfEntities(s, src, entities, from, overlap)) + Facts(OfEntities(s, src, entities, mid, to))
  {
    hide Stretch, Facts;
    if entities == [] {
      NoFacts();
    } else {
      var front, e := Front(entities), Last(entities);
      EntityFactsSplit(s, src, front, from, mid, overlap, to);
      StretchFactsSplit(s, src, e, from, mid, overlap, to);
      FactsOfConcat(OfEntities(s, src, front, from, to), Stretch(s, src, e, from, to));
      FactsOfConcat(OfEntities(s, src, front, from, overlap), Stretch(s, src, e, from, overlap));
      FactsOfConcat(OfEntities(s, src, front, mid, to), Stretch(s, src, e, mid, to));
    }
  }

  lemma {:induction false} StretchFactsSplit(s: Series, src: Source, e: Entity, from: int, mid: int, overlap: int,
      to: int)
    requires from <= mid <= overlap <= to
    ensures Facts(Stretch(s, src, e, from, to)) ==
      Facts(Stretch(s, src, e, from, overlap)) + Facts(Stretch(s, src, e, mid, to))
  {
    hide Stretch;
    StretchSplits(s, src, e, from, mid, to);
    StretchSplits(s, src, e, from, mid, overlap);
    StretchSplits(s, src, e, mid, overlap, to);
    FactsOfConcat(Stretch(s, src, e, from, mid), Stretch(s, src, e, mid, to));
    FactsOfConcat(Stretch(s, src, e, from, mid), Stretch(s, src, e, mid, overlap));
    FactsOfConcat(Stretch(s, src, e, mid, overlap), Stretch(s, src, e, overlap, to));
  }

  lemma BundleFactsSplit(ds: SourceDataset, src: Source, first: int, last: int)
    requires Valid(src.cal) && first < last
    ensures Facts(BundleRecords(ds, src, first, last)) ==
      Facts(BundleRecords(ds, src, first, last - 1)) + Facts(BundleRecords(ds, src, last, last))
  {
    hide OfEntities, OrdersOfDate, Facts, MasterRecords;
    var from, mid, to := src.cal.midnight(first), src.cal.midnight(last), src.cal.midnight(last + 1);
    LaterMidnight(src.cal, first, last);
    LaterMidnight(src.cal, last, last + 1);
    match ds
    case Fixed(m) =>
    case Timed(RevenueMeterReading) => EntityFactsSplit(RevenueMeterReading, src, ENTITIES, from, mid, mid + 1, to + 1);
    case Timed(s) => EntityFactsSplit(s, src, ENTITIES, from, mid, mid, to);
    case ApprovedExcessOrders =>
      FactsOfConcat(OrdersBetween(src, first, last), OrdersOfDate(src, last));
      assert OrdersBetween(src, last, last + 1) == OrdersBetween(src, last, last) + OrdersOfDate(src, last);
      NoFacts();
      FactsOfConcat([], OrdersOfDate(src, last));
  }

  /** A range says exactly what its dates say one by one. */
  lemma {:induction false} RangeSaysWhatItsDatesSay(ds: SourceDataset, src: Source, first: int, last: int, f: Fact)
    requires Valid(src.cal) && first <= last
    ensures f in Facts(BundleRecords(ds, src, first, last)) <==>
      exists d :: first <= d <= last && f in Facts(BundleRecords(ds, src, d, d))
    decreases last - first
  {
    hide Facts, BundleRecords;
    if first < last {
      RangeSaysWhatItsDatesSay(ds, src, first, last - 1, f);
      BundleFactsSplit(ds, src, first, last);
    }
  }

  // No identity is ever given two contents

  function KeyOf(s: Series, e: Entity): string {
    if s.RevenueMeterReading? then e.meter else e.deliveryPoint
  }

  ghost predicate OneContentEach(facts: set<Fact>) {
    forall f, g :: f in facts && g in facts && f.0 == g.0 ==> f.1 == g.1
  }

  lemma FactsOfOnePoint(s: Series, src: Source, e: Entity, h: int)
    ensures forall f :: f in Facts(RecordsAt(s, src, e, h)) ==> f.0.key == KeyOf(s, e) && f.0.at == h
    ensures OneContentEach(Facts(RecordsAt(s, src, e, h)))
  {
    var records := RecordsAt(s, src, e, h);
    assert |records| <= 3;
    forall r | r in records ensures r.identity.key == KeyOf(s, e) && r.identity.at == h {
    }
    forall i, j | 0 <= i < |records| && 0 <= j < |records| && records[i].identity == records[j].identity
      ensures i == j
    {
    }
  }

  /** Which point of a series a fact comes from is written in its identity. */
  ghost predicate ComesFrom(s: Series, src: Source, f: Fact) {
    exists e :: e in ENTITIES && f.0.key == KeyOf(s, e) && f in Facts(RecordsAt(s, src, e, f.0.at))
  }

  lemma {:induction false} StretchFactsComeFrom(s: Series, src: Source, e: Entity, from: int, to: int, f: Fact)
    requires e in ENTITIES && f in Facts(Stretch(s, src, e, from, to))
    ensures ComesFrom(s, src, f)
    decreases (to - from)
  {
    hide RecordsAt, Facts;
    NoFacts();
    if from < to {
      FactsOfConcat(Stretch(s, src, e, from, to - 1), RecordsAt(s, src, e, to - 1));
      if f in Facts(RecordsAt(s, src, e, to - 1)) {
        FactsOfOnePoint(s, src, e, to - 1);
      } else {
        StretchFactsComeFrom(s, src, e, from, to - 1, f);
      }
    }
  }

  lemma {:induction false} SeriesFactsComeFrom(
      s: Series, src: Source, entities: seq<Entity>, from: int, to: int, f: Fact)
    requires (forall e :: e in entities ==> e in ENTITIES) && f in Facts(OfEntities(s, src, entities, from, to))
    ensures ComesFrom(s, src, f)
  {
    hide ComesFrom, Stretch, Facts;
    NoFacts();
    if entities != [] {
      FactsOfConcat(OfEntities(s, src, Front(entities), from, to), Stretch(s, src, Last(entities), from, to));
      if f in Facts(Stretch(s, src, Last(entities), from, to)) {
        StretchFactsComeFrom(s, src, Last(entities), from, to, f);
      } else {
        SeriesFactsComeFrom(s, src, Front(entities), from, to, f);
      }
    }
  }

  lemma KeysNameEntities(s: Series, a: Entity, b: Entity)
    requires a in ENTITIES && b in ENTITIES && KeyOf(s, a) == KeyOf(s, b)
    ensures a == b
  {
    assert FIRST.deliveryPoint[5] != SECOND.deliveryPoint[5] && FIRST.meter[5] != SECOND.meter[5];
  }

  lemma SeriesAgrees(s: Series, src: Source, f: Fact, g: Fact)
    requires ComesFrom(s, src, f) && ComesFrom(s, src, g) && f.0 == g.0
    ensures f.1 == g.1
  {
    hide RecordsAt, Facts;
    var a :| a in ENTITIES && f.0.key == KeyOf(s, a) && f in Facts(RecordsAt(s, src, a, f.0.at));
    var b :| b in ENTITIES && g.0.key == KeyOf(s, b) && g in Facts(RecordsAt(s, src, b, g.0.at));
    KeysNameEntities(s, a, b);
    FactsOfOnePoint(s, src, a, f.0.at);
  }

  lemma OrdersOfOneDate(src: Source, d: int)
    ensures forall f :: f in Facts(OrdersOfDate(src, d)) ==> f.0.at == d
    ensures OneContentEach(Facts(OrdersOfDate(src, d)))
  {
    var records := OrdersOfDate(src, d);
    assert "EXCESS-ORDER-001-L01"[19] != "EXCESS-ORDER-001-L02"[19];
    assert "EXCESS-ORDER-001-L01"[15] != "EXCESS-ORDER-002-L01"[15];
    assert "EXCESS-ORDER-001-L02"[15] != "EXCESS-ORDER-002-L01"[15];
    forall i, j | 0 <= i < |records| && 0 <= j < |records| && records[i].identity == records[j].identity
      ensures i == j
    {
    }
  }

  lemma {:induction false} OrderFactsComeFrom(src: Source, first: int, end: int, f: Fact)
    requires f in Facts(OrdersBetween(src, first, end))
    ensures f in Facts(OrdersOfDate(src, f.0.at))
    decreases end - first
  {
    hide OrdersOfDate, Facts;
    NoFacts();
    if first < end {
      FactsOfConcat(OrdersBetween(src, first, end - 1), OrdersOfDate(src, end - 1));
      if f in Facts(OrdersOfDate(src, end - 1)) {
        OrdersOfOneDate(src, end - 1);
      } else {
        OrderFactsComeFrom(src, first, end - 1, f);
      }
    }
  }

  lemma MastersAgree(m: Master)
    ensures OneContentEach(Facts(MasterRecords(m)))
  {
    var records := MasterRecords(m);
    assert "CUST-001-V1"[7] != "CUST-002-V1"[7] && "CUST-001-V1"[10] != "CUST-001-V2"[10];
    assert "SITE-001-V1"[7] != "SITE-002-V1"[7] && "SITE-001-V1"[10] != "SITE-001-V2"[10];
    assert "CONTRACT-001-T1"[11] != "CONTRACT-002-T1"[11] && "CONTRACT-001-T1"[14] != "CONTRACT-001-T2"[14];
    assert "DPA-001"[6] != "DPA-002"[6] && "MA-001"[5] != "MA-002"[5];
    forall i, j | 0 <= i < |records| && 0 <= j < |records| && records[i].identity == records[j].identity
      ensures i == j
    {
    }
  }

  /** Whatever two ranges are generated, an identity they share has the same content in both. */
  lemma RangesAgree(ds: SourceDataset, src: Source, a: int, b: int, c: int, d: int, f: Fact, g: Fact)
    requires f in Facts(BundleRecords(ds, src, a, b)) && g in Facts(BundleRecords(ds, src, c, d)) && f.0 == g.0
    ensures f.1 == g.1
  {
    hide OfEntities, OrdersBetween, OrdersOfDate, Facts, MasterRecords, ComesFrom;
    match ds
    case Fixed(m) => MastersAgree(m);
    case Timed(s) =>
      var more := if s.RevenueMeterReading? then 1 else 0;
      SeriesFactsComeFrom(s, src, ENTITIES, src.cal.midnight(a), src.cal.midnight(b + 1) + more, f);
      SeriesFactsComeFrom(s, src, ENTITIES, src.cal.midnight(c), src.cal.midnight(d + 1) + more, g);
      SeriesAgrees(s, src, f, g);
    case ApprovedExcessOrders =>
      OrderFactsComeFrom(src, a, b + 1, f);
      OrderFactsComeFrom(src, c, d + 1, g);
      OrdersOfOneDate(src, f.0.at);
  }

  // The loaded runs

  lemma {:induction false} RunFacts(runs: seq<seq<seq<Record>>>, f: Fact)
    ensures f in Facts(Flat(AllChunks(runs))) <==> exists i :: 0 <= i < |runs| && f in Facts(Flat(runs[i]))
  {
    hide Facts, Flat;
    if runs == [] {
      assert AllChunks(runs) == [];
      NothingFlat();
      NoFacts();
    } else {
      var earlier, last := Front(runs), Last(runs);
      RunFacts(earlier, f);
      FlatOfConcat(AllChunks(earlier), last);
      FactsOfConcat(Flat(AllChunks(earlier)), Flat(last));
      assert forall i :: 0 <= i < |earlier| ==> runs[i] == earlier[i];
      assert runs[|runs| - 1] == last;
    }
  }

  lemma NothingFlat()
    ensures Flat([]) == []
  {
  }

  lemma FactsAreConsistent(rs: seq<Record>)
    requires OneContentEach(Facts(rs))
    ensures Consistent(rs)
  {
    forall r, s | r in rs && s in rs && r.identity == s.identity ensures r.payload == s.payload {
      assert (r.identity, r.payload) in Facts(rs) && (s.identity, s.payload) in Facts(rs);
    }
  }

  /** Each run loads, in any arrangement, what one date generates. */
  ghost predicate LoadsDates(
      ds: SourceDataset, src: Source, first: int, last: int, dates: seq<int>, runs: seq<seq<seq<Record>>>)
  {
    && |dates| == |runs|
    && (forall d :: d in dates <==> first <= d <= last)
    && forall i :: 0 <= i < |runs| ==> Facts(Flat(runs[i])) == Facts(BundleRecords(ds, src, dates[i], dates[i]))
  }

  lemma {:induction false} RunsSayWhatTheRangeSays(
      ds: SourceDataset, src: Source, first: int, last: int, dates: seq<int>, runs: seq<seq<seq<Record>>>)
    requires Valid(src.cal) && first <= last && LoadsDates(ds, src, first, last, dates, runs)
    ensures Facts(Flat(AllChunks(runs))) == Facts(BundleRecords(ds, src, first, last))
  {
    hide Facts, BundleRecords, Flat;
    forall f ensures f in Facts(Flat(AllChunks(runs))) <==> f in Facts(BundleRecords(ds, src, first, last)) {
      RunFacts(runs, f);
      RangeSaysWhatItsDatesSay(ds, src, first, last, f);
      if d :| first <= d <= last && f in Facts(BundleRecords(ds, src, d, d)) {
        assert d in dates;
        var i :| 0 <= i < |dates| && dates[i] == d;
        assert f in Facts(Flat(runs[i]));
      }
      if i :| 0 <= i < |runs| && f in Facts(Flat(runs[i])) {
        assert dates[i] in dates;
      }
    }
  }

  lemma RangeIsConsistent(ds: SourceDataset, src: Source, first: int, last: int)
    ensures OneContentEach(Facts(BundleRecords(ds, src, first, last)))
  {
    hide Facts, BundleRecords;
    forall f, g | f in Facts(BundleRecords(ds, src, first, last)) &&
      g in Facts(BundleRecords(ds, src, first, last)) && f.0 == g.0
      ensures f.1 == g.1
    {
      RangesAgree(ds, src, first, last, first, last, f, g);
    }
  }

  lemma {:induction false} OneRun(t: Table, backfill: seq<seq<Record>>)
    ensures AfterRuns(t, [backfill]) == TableAfter(t, backfill) && AllChunks([backfill]) == backfill
  {
    assert Front([backfill]) == [] && Last([backfill]) == backfill;
    assert [] + backfill == backfill;
  }

  /**
    Loading the dates of a range in any order, each any number of times and in any chunks, into an
    empty table leaves the same content for every identity as one backfill of the range, and
    neither any run nor the backfill reports a conflict: the shared meter boundaries and the master
    rows are exact replays.
   */
  lemma {:induction false} DailyRunsEqualOneBackfill(
      ds: SourceDataset, src: Source, first: int, last: int, dates: seq<int>, runs: seq<seq<seq<Record>>>,
      backfill: seq<seq<Record>>, limit: nat)
    requires Valid(src.cal) && first <= last && LoadsDates(ds, src, first, last, dates, runs)
    requires Facts(Flat(backfill)) == Facts(BundleRecords(ds, src, first, last))
    ensures SameContents(KnownOf(AfterRuns(map[], runs)), KnownOf(TableAfter(map[], backfill)))
    ensures forall k :: 0 <= k < |runs| ==>
      LoadAll(NOTHING_YET, KnownOf(AfterRuns(map[], runs[..k])), runs[k], limit).log.records == 0
    ensures LoadAll(NOTHING_YET, KnownOf(map[]), backfill, limit).log.records == 0
  {
    hide Facts, BundleRecords, Flat, LoadAll, Agrees;
    var all := Flat(AllChunks(runs));
    RunsSayWhatTheRangeSays(ds, src, first, last, dates, runs);
    RangeIsConsistent(ds, src, first, last);
    FactsAreConsistent(all);
    OneRun(map[], backfill);
    OrderOfRunsDoesNotMatter(map[], runs, [backfill]);
    NothingContradicts(all);
    RunsAreWithin(runs);
    forall k | 0 <= k < |runs|
      ensures LoadAll(NOTHING_YET, KnownOf(AfterRuns(map[], runs[..k])), runs[k], limit).log.records == 0
    {
      RunsHaveNoConflicts(map[], runs, all, k, limit);
    }
    SameFactsStaySame(all, Flat(backfill));
    NothingContradicts(Flat(backfill));
    AgreeingLoad(map[], backfill, Flat(backfill), limit);
  }

  lemma NothingContradicts(rs: seq<Record>)
    ensures Agrees(KnownOf(map[]), rs)
  {
  }

  lemma {:induction false} RunsAreWithin(runs: seq<seq<seq<Record>>>)
    ensures forall run :: run in runs ==> forall r :: r in Flat(run) ==> r in Flat(AllChunks(runs))
  {
    hide Flat;
    if runs != [] {
      RunsAreWithin(Front(runs));
      FlatOfConcat(AllChunks(Front(runs)), Last(runs));
    }
  }
}
