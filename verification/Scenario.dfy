/** What the generated records say, read on their own: revisions in order, and one consistent story per half-hour. */
module Scenario {
  import opened Sequences
  import opened Timeline
  import opened Loading
  import opened Generator
  import opened SourceBundles

  function PublishedAt(r: Record): int
    requires r.payload.numbers != []
  {
    Last(r.payload.numbers)
  }

  /** Revisions 1, 2, ... of one fact, each published after the one before. */
  ghost predicate AreRevisions(rs: seq<Record>, key: string, at: int) {
    && (forall k :: 0 <= k < |rs| ==> 
          rs[k].identity == Identity(key, at, k + 1) && rs[k].payload.numbers != [] && rs[k].wellFormed)
    && forall k :: 0 < k < |rs| ==> PublishedAt(rs[k - 1]) < PublishedAt(rs[k])
  }

  /** What a series says about one delivery point at one time is a run of revisions of one fact. */
  lemma RecordsAreRevisions(s: Series, src: Source, e: Entity, h: int)
    ensures AreRevisions(RecordsAt(s, src, e, h), if s.RevenueMeterReading? then e.meter else e.deliveryPoint, h)
  {
  }

  // Readings

  /** The register value of a reading. */
  function ValueOf(r: Record): int
    requires |r.payload.numbers| == 3
  {
    r.payload.numbers[1]
  }

  /**
    The latest reading of a boundary shows the register there. Only after the ninth period of the
    first delivery point is there an earlier one, which shows 0.2 MWh too little. The first reading
    is published five minutes after the boundary, the correction a day and six hours after it.
   */
  lemma LatestReadingShowsRegister(src: Source, e: Entity, h: int)
    ensures var rs := RecordsAt(RevenueMeterReading, src, e, h);
      && rs != [] && (forall r :: r in rs ==> |r.payload.numbers| == 3 && r.payload.numbers[0] == h)
      && ValueOf(Last(rs)) == MeterValue(src, e, h)
      && PublishedAt(rs[0]) == h * 30 + 5
      && if e == FIRST && Period(src.cal, h - 1) == 9
         then |rs| == 2 && ValueOf(rs[0]) + 200000 == ValueOf(rs[1]) && PublishedAt(rs[1]) == h * 30 + 1800
         else |rs| == 1
  {
  }

  /** From one boundary to the next the latest readings move by what was delivered in between. */
  lemma LatestReadingsShowDelivery(src: Source, e: Entity, h: nat)
    ensures var before, after := RecordsAt(RevenueMeterReading, src, e, h),
        RecordsAt(RevenueMeterReading, src, e, h + 1);
      && before != [] && after != [] && |Last(before).payload.numbers| == |Last(after).payload.numbers| == 3
      && ValueOf(Last(after)) - ValueOf(Last(before)) == DeliveryQuantity(src, e, h)
  {
    hide DeliveryQuantity;
    LatestReadingShowsRegister(src, e, h);
    LatestReadingShowsRegister(src, e, h + 1);
  }

  /** Nothing is ever delivered back, so the register never falls. */
  lemma {:induction false} RegisterNeverFalls(src: Source, e: Entity, from: nat, to: nat)
    requires e in ENTITIES && from <= to
    ensures 0 < MeterValue(src, e, from) <= MeterValue(src, e, to)
  {
    assert ENTITIES[0] == FIRST && ENTITIES[1] == SECOND;
    if from < to {
      RegisterNeverFalls(src, e, from, to - 1);
    } else if from > 0 {
      RegisterNeverFalls(src, e, from - 1, from - 1);
    }
  }

  // Commitments, deliveries and capacities

  /** The committed or delivered energy of a commitment record. */
  function QuantityOf(r: Record): int
    requires |r.payload.numbers| == 4
  {
    r.payload.numbers[2]
  }

  /**
    A commitment covers its half-hour, starts with the base commitment two days ahead, and is missing
    in the seventh period of the first delivery point only. The sixth period is given up a day ahead,
    and nothing is delivered in it; the eleventh is raised to 5.5 MWh afterwards.
   */
  lemma CommitmentsTell(src: Source, e: Entity, h: int)
    ensures var rs, period := RecordsAt(CommitmentSchedule, src, e, h), Period(src.cal, h);
      && (forall r :: r in rs ==> |r.payload.numbers| == 4 && r.payload.numbers[..2] == [h, h + 1])
      && (rs == [] <==> e == FIRST && period == 7)
      && (rs != [] ==> QuantityOf(rs[0]) == e.base && PublishedAt(rs[0]) + 2880 == h * 30)
      && (|rs| > 1 <==> e == FIRST && period in {6, 11})
      && (e == FIRST && period == 6 ==>
            |rs| == 2 && QuantityOf(rs[1]) == 0 && PublishedAt(rs[1]) + 1440 == h * 30
            && DeliveryQuantity(src, e, h) == 0)
      && (e == FIRST && period == 11 ==>
            |rs| == 2 && QuantityOf(rs[1]) == 5500000 && PublishedAt(rs[1]) == (h + 1) * 30 + 360)
  {
  }

  /**
    How far each delivery lies above the base commitment: a few hundredths, but for the scenario of
    the first point.
   */
  lemma DeliveriesTell(src: Source, e: Entity, h: int)
    ensures var period, above := Period(src.cal, h), DeliveryQuantity(src, e, h) - e.base;
      if e != FIRST || period !in {3, 4, 5, 6, 7, 9, 10, 11} then above == 10000 * src.seed.jitter(e.deliveryPoint, h)
      else match period
        case 3 => above == -300000
        case 4 => above == 600000
        case 5 => above == 100000
        case 6 => above == -e.base
        case 7 => above == -100000
        case 9 => above == -100000
        case 10 => above == 100000
        case _ => above == 200000
  {
  }

  /** The first register starts at 2000 MWh and a whole number that the seed gives, the second at 3500. */
  lemma RegistersStart(src: Source)
    ensures MeterValue(src, FIRST, 0) == 1000000 * (2000 + src.seed.start("RM-001"))
    ensures MeterValue(src, SECOND, 0) == 1000000 * (3500 + src.seed.start("RM-002"))
    ensures FIRST.deliveryPoint == "DP-001" && SECOND.deliveryPoint == "DP-002"
    ensures FIRST.base < FIRST.nameplate && SECOND.base < SECOND.nameplate
  {
  }

  /** What the latest assessment of a period takes off the nameplate. */
  function LatestRestriction(e: Entity, period: int): int {
    if e == FIRST && period == 13 then 2500000
    else if e == FIRST && period == 14 then 1000000
    else if e == FIRST && period == 15 then e.nameplate
    else if e == FIRST && period == 17 then 3000000
    else 500000
  }

  /** A capacity covers its half-hour and is what the restriction leaves of the nameplate, never below zero. */
  lemma CapacitiesTell(src: Source, e: Entity, h: int)
    requires e in ENTITIES
    ensures var rs, period := RecordsAt(CapacityAssessment, src, e, h), Period(src.cal, h);
      && (forall r :: r in rs ==>
           && |r.payload.numbers| == 6 && r.payload.numbers[..3] == [h, h + 1, e.nameplate]
           && 0 < r.payload.numbers[3] <= e.nameplate
           && r.payload.numbers[3] + r.payload.numbers[4] == e.nameplate)
      && (rs == [] <==> e == FIRST && period == 16)
      && (|rs| > 1 <==> e == FIRST && period == 13) && (|rs| > 1 ==> |rs| == 3)
      && (rs != [] ==> Last(rs).payload.numbers[3] == LatestRestriction(e, period))
      && (|rs| > 1 ==> rs[0].payload.numbers[3] == rs[1].payload.numbers[3] == 1500000)
      // A provisional assessment an hour ahead, a final one two hours after the end, a correction a day after it.
      && (rs != [] && e == FIRST && period in {13, 14} ==> PublishedAt(rs[0]) + 60 == h * 30)
      && (rs != [] && !(e == FIRST && period in {13, 14}) ==> PublishedAt(rs[0]) == (h + 1) * 30 + 120)
      && (|rs| > 1 ==> PublishedAt(rs[1]) == (h + 1) * 30 + 120 && PublishedAt(rs[2]) == (h + 1) * 30 + 1440)
  {
    assert ENTITIES[0] == FIRST && ENTITIES[1] == SECOND;
    assert forall k: int, l: int, m: int, n: int, o: int, p: int ::
      [k, l, m, n, o, p][..3] == [k, l, m];
  }

  // Master data

  /**
    The first customer, site and contract each have a version that was corrected once, ends when the
    second version starts, and was published before it started to matter; the others have one version.
   */
  lemma MastersTell(m: Master)
    requires m.Customers? || m.Sites? || m.ContractTerms?
    ensures var rs, start := MasterRecords(m), if m.ContractTerms? then 2 else 0;
      && |rs| == 4
      && rs[0].identity.key == rs[1].identity.key && rs[0].identity.revision == 1 && rs[1].identity.revision == 2
      && rs[2].identity.revision == rs[3].identity.revision == 1
      && rs[2].identity.key !in {rs[0].identity.key, rs[3].identity.key} && rs[3].identity.key != rs[0].identity.key
      && (forall r :: r in rs ==> |r.payload.numbers| > start + 1 && r.identity.at == 0)
      && rs[0].payload.numbers[start] == rs[1].payload.numbers[start] == rs[3].payload.numbers[start] == -365 * 1440
      && rs[0].payload.numbers[start + 1] == rs[1].payload.numbers[start + 1] == rs[2].payload.numbers[start] == 720
      && PublishedAt(rs[0]) < PublishedAt(rs[1]) < 0 && PublishedAt(rs[2]) + 2880 == rs[2].payload.numbers[start]
      && PublishedAt(rs[0]) == PublishedAt(rs[3]) == -400 * 1440
  {
  }

  /** Assignments have one revision each, in force for a year before the timeline starts. */
  lemma AssignmentsTell(m: Master)
    requires m.DeliveryPointAssignments? || m.MeterAssignments?
    ensures var rs, start := MasterRecords(m), if m.MeterAssignments? then 1 else 0;
      |rs| == 2 && rs[0].identity.key != rs[1].identity.key && forall r :: r in rs ==>
        && r.identity.at == 0 && r.identity.revision == 1 && |r.payload.numbers| == start + 2
        && r.payload.numbers[start] == -365 * 1440 && PublishedAt(r) == -400 * 1440
  {
  }

  // Excess orders

  /**
    The orders of a date lie in its fourth, fifth and thirteenth period and are published before
    those begin; the one in the thirteenth is cancelled to nothing a day after it was approved.
   */
  lemma OrdersTell(src: Source, d: int)
    requires Valid(src.cal) && LongDate(src.cal, d)
    ensures var rs := OrdersOfDate(src, d);
      && |rs| == 4 && rs[2].identity.key == rs[3].identity.key
      && (forall r :: r in rs ==>
           && |r.payload.numbers| == 4 && r.payload.numbers[1] == r.payload.numbers[0] + 1 && r.identity.at == d
           && src.cal.day(r.payload.numbers[0]) == d && PublishedAt(r) < r.payload.numbers[0] * MINUTES)
      && Period(src.cal, rs[0].payload.numbers[0]) == 4 && Period(src.cal, rs[1].payload.numbers[0]) == 5
      && Period(src.cal, rs[2].payload.numbers[0]) == Period(src.cal, rs[3].payload.numbers[0]) == 13
      && QuantityOf(rs[0]) == 400000 && QuantityOf(rs[1]) == 200000 && QuantityOf(rs[2]) == 300000
      && QuantityOf(rs[3]) == 0 && rs[0].identity.revision == rs[1].identity.revision == 1
      && PublishedAt(rs[2]) + DAY_MINUTES == PublishedAt(rs[3])
      && rs[2].identity.revision == 1 && rs[3].identity.revision == 2
  {
    hide Valid;
    PeriodsNumberTheDay(src.cal, d, 4);
    PeriodsNumberTheDay(src.cal, d, 5);
    PeriodsNumberTheDay(src.cal, d, 13);
  }
}
