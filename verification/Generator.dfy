/**
  The synthetic source records. Quantities are counted in millionths of a megawatt-hour, half-hours
  from the start of the timeline, and publication times in minutes from there.
 */
module Generator {
  import opened Sequences
  import opened Timeline
  import opened Loading

  datatype Entity = Entity(deliveryPoint: string, meter: string, base: int, nameplate: int)

  const FIRST := Entity("DP-001", "RM-001", 5000000, 7000000)
  const SECOND := Entity("DP-002", "RM-002", 4000000, 6000000)
  const ENTITIES := [FIRST, SECOND]

  /** What the seeded hash contributes: up to 0.04 MWh per delivery, and a whole number to each register. */
  datatype Seed = Seed(jitter: (string, int) -> nat, start: string -> nat)

  /** The fixed inputs of a generation. */
  datatype Source = Source(cal: Calendar, seed: Seed)

  const MINUTES := 30
  const DAY_MINUTES := 1440
  const HOUR_MINUTES := 60

  /** One generated line; whoever loads it adds the lineage. */
  function Evidence(key: string, at: int, revision: nat, text: string, numbers: seq<int>): Record {
    Record(Identity(key, at, revision), Payload(text, numbers), "", true)
  }

  // Deliveries and the cumulative register

  /** Fixed by entity, time and seed alone; the first delivery point plays a daily scenario. */
  function DeliveryOf(src: Source, e: Entity, interval: Interval): int {
    var period := interval.period;
    if e == FIRST && period == 3 then 4700000
    else if e == FIRST && period == 4 then 5600000
    else if e == FIRST && period == 5 then 5100000
    else if e == FIRST && period == 6 then 0
    else if e == FIRST && period == 7 then 4900000
    else if e == FIRST && period == 9 then 4900000
    else if e == FIRST && period == 10 then 5100000
    else if e == FIRST && period == 11 then 5200000
    else e.base + 10000 * src.seed.jitter(e.deliveryPoint, interval.start)
  }

  function DeliveryQuantity(src: Source, e: Entity, h: int): int {
    DeliveryOf(src, e, SyntheticIntervalAt(src.cal, h))
  }

  function StartValue(src: Source, e: Entity): int {
    (if e == FIRST then 2000000000 else 3500000000) + 1000000 * src.seed.start(e.meter)
  }

  /** The register at a boundary: its start plus every delivery before the boundary. */
  function MeterValue(src: Source, e: Entity, boundary: int): int {
    if boundary <= 0 then StartValue(src, e)
    else MeterValue(src, e, boundary - 1) + DeliveryQuantity(src, e, boundary - 1)
  }

  method MeterValueAt(src: Source, e: Entity, boundary: int) returns (value: Option<int>)
    ensures value == if boundary < 0 then None else Some(MeterValue(src, e, boundary))
  {
    if boundary < 0 {
      return None;
    }
    var total := StartValue(src, e);
    var cursor := 0;
    while cursor < boundary
      invariant 0 <= cursor <= boundary && total == MeterValue(src, e, cursor)
    {
      total := total + DeliveryOf(src, e, SyntheticIntervalAt(src.cal, cursor));
      cursor := cursor + 1;
    }
    return Some(total);
  }

  /** What the register moves over a stretch is what was delivered in it. */
  lemma {:induction false} RegisterConservesDeliveries(src: Source, e: Entity, from: nat, to: nat)
    requires from <= to
    ensures MeterValue(src, e, to) - MeterValue(src, e, from) == Delivered(src, e, from, to)
  {
    if from < to {
      RegisterConservesDeliveries(src, e, from, to - 1);
    }
  }

  function Delivered(src: Source, e: Entity, from: int, to: int): int
    decreases (to - from)
  {
    if to <= from then 0 else Delivered(src, e, from, to - 1) + DeliveryQuantity(src, e, to - 1)
  }

  // One half-hour or boundary of one delivery point

  datatype Series = CommitmentSchedule | RevenueMeterReading | CapacityAssessment

  function Commitment(
      e: Entity, h: int, revision: nat, status: string, quantity: int, revisionType: string, published: int): Record
  {
    Evidence(e.deliveryPoint, h, revision, status + "/" + revisionType, [h, h + 1, quantity, published])
  }

  function CommitmentsOf(e: Entity, interval: Interval): seq<Record> {
    var h, period := interval.start, interval.period;
    var early := h * MINUTES - 2 * DAY_MINUTES;
    var original := Commitment(e, h, 1, "committed", e.base, "original", early);
    if e == FIRST && period == 7 then []
    else if e == FIRST && period == 6 then
      [original, Commitment(e, h, 2, "no_commitment", 0, "change", h * MINUTES - DAY_MINUTES)]
    else if e == FIRST && period == 11 then
      [original, Commitment(e, h, 2, "committed", 5500000, "retroactive_change", (h + 1) * MINUTES + 6 * HOUR_MINUTES)]
    else [original]
  }

  function Reading(e: Entity, h: int, revision: nat, value: int, revisionType: string, published: int): Record {
    Evidence(e.meter, h, revision, revisionType, [h, value, published])
  }

  /** The readings of one boundary, given the register value there. */
  function ReadingsFor(src: Source, e: Entity, h: int, value: int): seq<Record> {
    var soon := h * MINUTES + 5;
    if e == FIRST && SyntheticIntervalAt(src.cal, h - 1).period == 9 then
      [Reading(e, h, 1, value - 200000, "original", soon),
       Reading(e, h, 2, value, "reconciliation", h * MINUTES + DAY_MINUTES + 6 * HOUR_MINUTES)]
    else [Reading(e, h, 1, value, "original", soon)]
  }

  function Capacity(
      e: Entity, h: int, revision: nat, status: string, restriction: int, reason: string, published: int): Record
  {
    var capacity := if e.nameplate - restriction > 0 then e.nameplate - restriction else 0;
    Evidence(e.deliveryPoint, h, revision, status + "/" +
      reason, [h, h + 1, e.nameplate, restriction, capacity, published])
  }

  function CapacitiesOf(e: Entity, interval: Interval): seq<Record> {
    var h, period := interval.start, interval.period;
    var before, after := h * MINUTES - HOUR_MINUTES, (h + 1) * MINUTES + 2 * HOUR_MINUTES;
    if e == FIRST && period == 16 then []
    else if e == FIRST && period == 13 then
      [Capacity(e, h, 1, "provisional", 1500000, "derated", before),
       Capacity(e, h, 2, "final", 1500000, "derated", after),
       Capacity(e, h, 3, "final", 2500000, "derated", (h + 1) * MINUTES + DAY_MINUTES)]
    else if e == FIRST && period == 14 then [Capacity(e, h, 1, "provisional", 1000000, "derated", before)]
    else if e == FIRST && period == 15 then [Capacity(e, h, 1, "final", e.nameplate, "unavailable", after)]
    else if e == FIRST && period == 17 then [Capacity(e, h, 1, "final", 3000000, "planned_restriction", after)]
    else [Capacity(e, h, 1, "final", 500000, "normal", after)]
  }

  /** Everything one series says about one delivery point at one half-hour or boundary. */
  function RecordsAt(s: Series, src: Source, e: Entity, h: int): seq<Record> {
    match s
    case CommitmentSchedule => CommitmentsOf(e, SyntheticIntervalAt(src.cal, h))
    case RevenueMeterReading => ReadingsFor(src, e, h, MeterValue(src, e, h))
    case CapacityAssessment => CapacitiesOf(e, SyntheticIntervalAt(src.cal, h))
  }

  function Stretch(s: Series, src: Source, e: Entity, from: int, to: int): seq<Record>
    decreases (to - from)
  {
    if to <= from then [] else Stretch(s, src, e, from, to - 1) + RecordsAt(s, src, e, to - 1)
  }

  function OfEntities(s: Series, src: Source, entities: seq<Entity>, from: int, to: int): seq<Record> {
    if entities == [] then []
    else OfEntities(s, src, Front(entities), from, to) + Stretch(s, src, Last(entities), from, to)
  }

  /** A range of a series, one delivery point after the other. */
  function SeriesRecords(s: Series, src: Source, from: int, to: int): seq<Record> {
    OfEntities(s, src, ENTITIES, from, to)
  }

  lemma {:induction false} NextEntity(s: Series, src: Source, n: nat, from: int, to: int)
    requires n < |ENTITIES|
    ensures OfEntities(s, src, ENTITIES[..n + 1], from, to) ==
      OfEntities(s, src, ENTITIES[..n], from, to) + Stretch(s, src, ENTITIES[n], from, to)
  {
    assert Front(ENTITIES[..n + 1]) == ENTITIES[..n] && Last(ENTITIES[..n + 1]) == ENTITIES[n];
  }

  // The builders, as they loop

  ghost predicate Ranges(cal: Calendar, intervals: seq<Interval>, from: int, to: int) {
    from <= to && intervals == Walk(cal, from, to)
  }

  /** Only its own start and period matter to a record, not its place in the range. */
  lemma PositionDoesNotMatter(src: Source, e: Entity, interval: Interval, index: int)
    ensures CommitmentsOf(e, interval.(index := index)) == CommitmentsOf(e, interval)
    ensures CapacitiesOf(e, interval.(index := index)) == CapacitiesOf(e, interval)
    ensures DeliveryOf(src, e, interval.(index := index)) == DeliveryOf(src, e, interval)
  {
  }

  method CommitmentsOfEntity(src: Source, e: Entity, intervals: seq<Interval>, ghost from: int, ghost to: int)
      returns (records: seq<Record>)
    requires Ranges(src.cal, intervals, from, to)
    ensures records == Stretch(CommitmentSchedule, src, e, from, to)
  {
    hide CommitmentsOf;
    records := [];
    for i := 0 to |intervals|
      invariant records == Stretch(CommitmentSchedule, src, e, from, from + i)
    {
      assert intervals[i] == WalkedAt(src.cal, from, i);
      PositionDoesNotMatter(src, e, SyntheticIntervalAt(src.cal, from + i), i);
      records := records + CommitmentsOf(e, intervals[i]);
    }
  }

  method CommitmentRecords(
      src: Source, intervals: seq<Interval>, ghost from: int, ghost to: int) returns (records: seq<Record>)
    requires Ranges(src.cal, intervals, from, to)
    ensures records == SeriesRecords(CommitmentSchedule, src, from, to)
  {
    hide Stretch, Ranges;
    records := [];
    for n := 0 to |ENTITIES|
      invariant records == OfEntities(CommitmentSchedule, src, ENTITIES[..n], from, to)
    {
      NextEntity(CommitmentSchedule, src, n, from, to);
      var more := CommitmentsOfEntity(src, ENTITIES[n], intervals, from, to);
      records := records + more;
    }
    assert ENTITIES[..|ENTITIES|] == ENTITIES;
  }

  method CapacitiesOfEntity(src: Source, e: Entity, intervals: seq<Interval>, ghost from: int, ghost to: int)
      returns (records: seq<Record>)
    requires Ranges(src.cal, intervals, from, to)
    ensures records == Stretch(CapacityAssessment, src, e, from, to)
  {
    hide CapacitiesOf;
    records := [];
    for i := 0 to |intervals|
      invariant records == Stretch(CapacityAssessment, src, e, from, from + i)
    {
      assert intervals[i] == WalkedAt(src.cal, from, i);
      PositionDoesNotMatter(src, e, SyntheticIntervalAt(src.cal, from + i), i);
      records := records + CapacitiesOf(e, intervals[i]);
    }
  }

  method CapacityRecords(
      src: Source, intervals: seq<Interval>, ghost from: int, ghost to: int) returns (records: seq<Record>)
    requires Ranges(src.cal, intervals, from, to)
    ensures records == SeriesRecords(CapacityAssessment, src, from, to)
  {
    hide Stretch, Ranges;
    records := [];
    for n := 0 to |ENTITIES|
      invariant records == OfEntities(CapacityAssessment, src, ENTITIES[..n], from, to)
    {
      NextEntity(CapacityAssessment, src, n, from, to);
      var more := CapacitiesOfEntity(src, ENTITIES[n], intervals, from, to);
      records := records + more;
    }
    assert ENTITIES[..|ENTITIES|] == ENTITIES;
  }

  /**
    The running cumulative list: every boundary of the range has the value a walk from the timeline
    start would give it.
   */
  method CumulativeValues(src: Source, e: Entity, intervals: seq<Interval>, ghost from: int, ghost to: int)
      returns (values: Option<seq<int>>)
    requires Ranges(src.cal, intervals, from, to) && from < to
    ensures values.None? <==> from < 0
    ensures values.Some? ==> |values.value| == to - from + 1
    ensures values.Some? ==> forall i :: 0 <= i <= to - from ==> values.value[i] == MeterValue(src, e, from + i)
  {
    hide DeliveryOf;
    var starting := MeterValueAt(src, e, intervals[0].start);
    if starting.None? {
      return None;
    }
    var running := [starting.value];
    for i := 0 to |intervals|
      invariant |running| == i + 1
      invariant forall k :: 0 <= k <= i ==> running[k] == MeterValue(src, e, from + k)
    {
      assert intervals[i] == WalkedAt(src.cal, from, i);
      PositionDoesNotMatter(src, e, SyntheticIntervalAt(src.cal, from + i), i);
      running := running + [running[i] + DeliveryOf(src, e, intervals[i])];
    }
    return Some(running);
  }

  method ReadingsOfEntity(src: Source, e: Entity, intervals: seq<Interval>, ghost from: int, ghost to: int)
      returns (records: Option<seq<Record>>)
    requires Ranges(src.cal, intervals, from, to) && from < to
    ensures records == if from < 0 then None else Some(Stretch(RevenueMeterReading, src, e, from, to + 1))
  {
    hide ReadingsFor;
    var values := CumulativeValues(src, e, intervals, from, to);
    if values.None? {
      return None;
    }
    var result: seq<Record> := [];
    for i := 0 to |values.value|
      invariant result == Stretch(RevenueMeterReading, src, e, from, from + i)
    {
      var boundary := if i == 0 then intervals[0].start else intervals[i - 1].start + 1;
      assert boundary == from + i;
      result := result + ReadingsFor(src, e, boundary, values.value[i]);
    }
    return Some(result);
  }

  method MeterReadingRecords(src: Source, intervals: seq<Interval>, ghost from: int, ghost to: int)
      returns (records: Option<seq<Record>>)
    requires Ranges(src.cal, intervals, from, to) && from < to
    ensures records == if from < 0 then None else Some(SeriesRecords(RevenueMeterReading, src, from, to + 1))
  {
    hide Stretch, Ranges;
    var result: seq<Record> := [];
    for n := 0 to |ENTITIES|
      invariant n > 0 ==> from >= 0
      invariant result == OfEntities(RevenueMeterReading, src, ENTITIES[..n], from, to + 1)
    {
      NextEntity(RevenueMeterReading, src, n, from, to + 1);
      var more := ReadingsOfEntity(src, ENTITIES[n], intervals, from, to);
      if more.None? {
        return None;
      }
      result := result + more.value;
    }
    assert ENTITIES[..|ENTITIES|] == ENTITIES;
    return Some(result);
  }
}
