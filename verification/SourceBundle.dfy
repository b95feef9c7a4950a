/** The nine generated datasets of a date range, and how ranges compose. */
module SourceBundles {
  import opened Sequences
  import opened Timeline
  import opened Loading
  import opened Generator

  datatype Master = Customers | Sites | DeliveryPointAssignments | MeterAssignments | ContractTerms

  datatype SourceDataset = Fixed(master: Master) | Timed(series: Series) | ApprovedExcessOrders

  // Master data: the same for every range

  const YEAR_BEFORE := -365 * DAY_MINUTES
  const LONG_BEFORE := -400 * DAY_MINUTES
  const HISTORY_BOUNDARY := 12 * HOUR_MINUTES
  const BEFORE_BOUNDARY := HISTORY_BOUNDARY - 2 * DAY_MINUTES

  function MasterRecords(m: Master): seq<Record> {
    match m
    case Customers => [
      Evidence("CUST-001-V1", 0, 1, "Northstar Advanced Ceramcis Ltd", [YEAR_BEFORE, HISTORY_BOUNDARY, LONG_BEFORE]),
      Evidence("CUST-001-V1", 0, 2, "Northstar Advanced Ceramics Ltd",
          [YEAR_BEFORE, HISTORY_BOUNDARY, -20 * DAY_MINUTES]),
      Evidence("CUST-001-V2", 0, 1, "Northstar Thermal Ceramics Ltd", [HISTORY_BOUNDARY, BEFORE_BOUNDARY]),
      Evidence("CUST-002-V1", 0, 1, "Riverside Sustainable Foods Ltd", [YEAR_BEFORE, LONG_BEFORE])]
    case Sites => [
      Evidence("SITE-001-V1", 0, 1, "Sheffeld", [YEAR_BEFORE, HISTORY_BOUNDARY, LONG_BEFORE]),
      Evidence("SITE-001-V1", 0, 2, "Sheffield", [YEAR_BEFORE, HISTORY_BOUNDARY, -18 * DAY_MINUTES]),
      Evidence("SITE-001-V2", 0, 1, "Sheffield", [HISTORY_BOUNDARY, BEFORE_BOUNDARY]),
      Evidence("SITE-002-V1", 0, 1, "Hull", [YEAR_BEFORE, LONG_BEFORE])]
    case DeliveryPointAssignments => [
      Evidence("DPA-001", 0, 1, FIRST.deliveryPoint, [YEAR_BEFORE, LONG_BEFORE]),
      Evidence("DPA-002", 0, 1, SECOND.deliveryPoint, [YEAR_BEFORE, LONG_BEFORE])]
    case MeterAssignments => [
      Evidence("MA-001", 0, 1, FIRST.meter, [8000000, YEAR_BEFORE, LONG_BEFORE]),
      Evidence("MA-002", 0, 1, SECOND.meter, [7000000, YEAR_BEFORE, LONG_BEFORE])]
    case ContractTerms => [
      Evidence("CONTRACT-001-T1", 0, 1, "original", [49500000, 100000000, YEAR_BEFORE, HISTORY_BOUNDARY, LONG_BEFORE]),
      Evidence("CONTRACT-001-T1", 0, 2, "correction",
               [50000000, 100000000, YEAR_BEFORE, HISTORY_BOUNDARY, -10 * DAY_MINUTES]),
      Evidence("CONTRACT-001-T2", 0, 1, "amendment", [57500000, 125000000, HISTORY_BOUNDARY, BEFORE_BOUNDARY]),
      Evidence("CONTRACT-002-T1", 0, 1, "original", [52000000, 110000000, YEAR_BEFORE, LONG_BEFORE])]
  }

  // Excess orders: one approved and one cancelled order a date

  function Order(line: string, d: int, revision: nat, h: int, state: string, quantity: int, published: int): Record {
    Evidence(line, d, revision, state, [h, h + 1, quantity, published])
  }

  function OrdersOn(d: int, fourth: int, fifth: int, thirteenth: int): seq<Record> {
    [Order("EXCESS-ORDER-001-L01", d, 1, fourth, "approved", 400000, fourth * MINUTES - DAY_MINUTES),
     Order("EXCESS-ORDER-001-L02", d, 1, fifth, "approved", 200000, fifth * MINUTES - DAY_MINUTES),
     Order("EXCESS-ORDER-002-L01", d, 1, thirteenth, "approved", 300000, thirteenth * MINUTES - 2 * DAY_MINUTES),
     Order("EXCESS-ORDER-002-L01", d, 2, thirteenth, "cancelled", 0, thirteenth * MINUTES - DAY_MINUTES)]
  }

  function OrdersOfDate(src: Source, d: int): seq<Record> {
    OrdersOn(d, src.cal.midnight(d) + 3, src.cal.midnight(d) + 4, src.cal.midnight(d) + 12)
  }

  function OrdersBetween(src: Source, first: int, end: int): seq<Record>
    decreases end - first
  {
    if end <= first then [] else OrdersBetween(src, first, end - 1) + OrdersOfDate(src, end - 1)
  }

  /** Every date of the range has the thirteen periods the order scenario needs. */
  ghost predicate LongDates(cal: Calendar, first: int, last: int) {
    forall d :: first <= d <= last ==> LongDate(cal, d)
  }

  ghost predicate LongDate(cal: Calendar, d: int) {
    cal.midnight(d) + 13 <= cal.midnight(d + 1)
  }

  ghost predicate Grouped(cal: Calendar, byDate: map<int, map<int, int>>, from: int, to: int) {
    && (forall h :: from <= h < to ==>
          cal.day(h) in byDate && Period(cal, h) in byDate[cal.day(h)] && byDate[cal.day(h)][Period(cal, h)] == h)
    && (forall d, k :: d in byDate && k in byDate[d] ==>
          from <= byDate[d][k] < to && cal.day(byDate[d][k]) == d && Period(cal, byDate[d][k]) == k)
  }

  method GroupByDate(cal: Calendar, intervals: seq<Interval>, ghost from: int, ghost to: int)
      returns (byDate: map<int, map<int, int>>)
    requires Ranges(cal, intervals, from, to)
    ensures Grouped(cal, byDate, from, to)
  {
    byDate := map[];
    for i := 0 to |intervals|
      invariant Grouped(cal, byDate, from, from + i)
    {
      var interval := intervals[i];
      assert interval == WalkedAt(cal, from, i);
      var sameDate := if interval.localDate in byDate then byDate[interval.localDate] else map[];
      byDate := byDate[interval.localDate := sameDate[interval.period := interval.start]];
    }
  }

  lemma PeriodsOfDate(cal: Calendar, byDate: map<int, map<int, int>>, first: int, last: int, d: int, k: int)
    requires Valid(cal) && first <= d <= last && k >= 1
    requires Grouped(cal, byDate, cal.midnight(first), cal.midnight(last + 1))
    ensures d in byDate
    ensures k in byDate[d] <==> cal.midnight(d) + k <= cal.midnight(d + 1)
    ensures k in byDate[d] ==> byDate[d][k] == cal.midnight(d) + k - 1
  {
    LaterMidnight(cal, d, d + 1);
    DayIsDetermined(cal, cal.midnight(d), d);
    DayOfRange(cal, cal.midnight(d), first, last);
    if cal.midnight(d) + k <= cal.midnight(d + 1) {
      DayIsDetermined(cal, cal.midnight(d) + k - 1, d);
      DayOfRange(cal, cal.midnight(d) + k - 1, first, last);
    }
  }

  /** Fails, as a missing dictionary key, when a date is too short for the scenario. */
  method ExcessOrderRecords(
      src: Source, intervals: seq<Interval>, first: int, last: int) returns (records: Option<seq<Record>>)
    requires Valid(src.cal) && first <= last
    requires Ranges(src.cal, intervals, src.cal.midnight(first), src.cal.midnight(last + 1))
    ensures records.Some? <==> LongDates(src.cal, first, last)
    ensures records.Some? ==> records.value == OrdersBetween(src, first, last + 1)
  {
    hide OrdersOn, Grouped, Ranges, Valid;
    var byDate := GroupByDate(src.cal, intervals, src.cal.midnight(first), src.cal.midnight(last + 1));
    var result: seq<Record> := [];
    for d := first to last + 1
      invariant forall e :: first <= e < d ==> LongDate(src.cal, e)
      invariant result == OrdersBetween(src, first, d)
    {
      PeriodsOfDate(src.cal, byDate, first, last, d, 4);
      PeriodsOfDate(src.cal, byDate, first, last, d, 5);
      PeriodsOfDate(src.cal, byDate, first, last, d, 13);
      var periods := byDate[d];
      if 4 !in periods || 5 !in periods || 13 !in periods {
        assert !LongDate(src.cal, d);
        return None;
      }
      result := result + OrdersOn(d, periods[4], periods[5], periods[13]);
    }
    return Some(result);
  }

  // The bundle of a range

  function BundleRecords(ds: SourceDataset, src: Source, first: int, last: int): seq<Record> {
    match ds
    case Fixed(m) => MasterRecords(m)
    case Timed(RevenueMeterReading) =>
      SeriesRecords(RevenueMeterReading, src, src.cal.midnight(first), src.cal.midnight(last + 1) + 1)
    case Timed(s) => SeriesRecords(s, src, src.cal.midnight(first), src.cal.midnight(last + 1))
    case ApprovedExcessOrders => OrdersBetween(src, first, last + 1)
  }

  /** The bundle as a dictionary of its nine datasets. */
  function Assembled(
      commitments: seq<Record>, orders: seq<Record>, readings: seq<Record>, capacities: seq<Record>)
      : map<SourceDataset, seq<Record>>
  {
    map[
      Fixed(Customers) := MasterRecords(Customers),
      Fixed(Sites) := MasterRecords(Sites),
      Fixed(DeliveryPointAssignments) := MasterRecords(DeliveryPointAssignments),
      Fixed(MeterAssignments) := MasterRecords(MeterAssignments),
      Fixed(ContractTerms) := MasterRecords(ContractTerms),
      Timed(CommitmentSchedule) := commitments,
      ApprovedExcessOrders := orders,
      Timed(RevenueMeterReading) := readings,
      Timed(CapacityAssessment) := capacities]
  }

  ghost predicate Complete(bundle: map<SourceDataset, seq<Record>>, src: Source, first: int, last: int) {
    forall ds :: ds in bundle && bundle[ds] == BundleRecords(ds, src, first, last)
  }

  lemma AssembledIsComplete(src: Source, first: int, last: int)
    ensures Complete(Assembled(BundleRecords(Timed(CommitmentSchedule), src, first, last),
                               BundleRecords(ApprovedExcessOrders, src, first, last),
                               BundleRecords(Timed(RevenueMeterReading), src, first, last),
                               BundleRecords(Timed(CapacityAssessment), src, first, last)), src, first, last)
  {
    hide MasterRecords, SeriesRecords, OrdersBetween;
    var bundle := Assembled(BundleRecords(Timed(CommitmentSchedule), src, first, last),
                            BundleRecords(ApprovedExcessOrders, src, first, last),
                            BundleRecords(Timed(RevenueMeterReading), src, first, last),
                            BundleRecords(Timed(CapacityAssessment), src, first, last));
    forall ds ensures ds in bundle && bundle[ds] == BundleRecords(ds, src, first, last) {
      match ds {
        case Fixed(Customers) =>
        case Fixed(Sites) =>
        case Fixed(DeliveryPointAssignments) =>
        case Fixed(MeterAssignments) =>
        case Fixed(ContractTerms) =>
        case Timed(CommitmentSchedule) =>
        case Timed(RevenueMeterReading) =>
        case Timed(CapacityAssessment) =>
        case ApprovedExcessOrders =>
      }
    }
  }

  method BuildBundle(src: Source, first: int, last: int) returns (bundle: Option<map<SourceDataset, seq<Record>>>)
    requires Valid(src.cal)
    ensures bundle.Some? <==> 0 <= first <= last && LongDates(src.cal, first, last)
    ensures bundle.Some? ==> Complete(bundle.value, src, first, last)
  {
    hide Complete, Assembled, LongDates, SeriesRecords, OrdersBetween, MasterRecords;
    if first < 0 {
      return None;
    }
    var intervals := IntervalsForLocalDates(src.cal, first, last);
    if intervals.None? {
      return None;
    }
    ghost var from, to := src.cal.midnight(first), src.cal.midnight(last + 1);
    LaterMidnight(src.cal, 0, first);
    var commitments := CommitmentRecords(src, intervals.value, from, to);
    var orders := ExcessOrderRecords(src, intervals.value, first, last);
    if orders.None? {
      return None;
    }
    var readings := MeterReadingRecords(src, intervals.value, from, to);
    var capacities := CapacityRecords(src, intervals.value, from, to);
    AssembledIsComplete(src, first, last);
    return Some(Assembled(commitments, orders.value, readings.value, capacities));
  }
}
