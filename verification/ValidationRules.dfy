/**
  What the rule passes of a bundle validation decide, as functions of the set of distinct records
  in the bundle. A payload hash is the record itself. Times are microseconds.
 */
module ValidationRules {
  import opened Sequences

  type Time = int

  const HALF_HOUR := 30 * 60 * 1000000

  datatype Span = Span(start: Time, end: Option<Time>)

  datatype Body =
    | Customer(customer: string, span: Span, operating: bool)
    | Site(site: string, span: Span, operating: bool)
    | Assignment(point: string, site: string, customer: string, span: Span)
    | Meter(meter: string, register: string, point: string, authoritative: bool, metadata: string, span: Span)
    | Contract(contract: string, point: string, customer: string, span: Span)
    | Commitment(point: string, customer: string, contract: string, from: Time, to: Time, positive: bool)
    | ExcessOrder(line: string, point: string, customer: string, contract: string, from: Time, to: Time)
    | Reading(meter: string, register: string, at: Time, metadata: string)
    | Capacity(point: string, from: Time, to: Time, nameplate: int, restriction: int, deliverable: int)
  {
    predicate Effective() {
      Customer? || Site? || Assignment? || Meter? || Contract?
    }

    predicate Timed() {
      Commitment? || ExcessOrder? || Capacity?
    }
  }

  datatype Dataset =
    | Customers | Sites | Assignments | Meters | Contracts
    | Commitments | ExcessOrders | Readings | Capacities

  /** A revision as written, and the number Python's int() makes of it, if any: 1 and 1.0 differ as written only. */
  datatype Revision = Revision(text: string, number: Option<int>)

  /**
    A line that parses as an object with a computable identity. Fields of the identity stand for the
    JSON values as written. `keyed`: none of them is an array or an object. `readable`: every time a
    rule reads from the record is one. `version` names the episode of an effective-dated record,
    `opaqueId` is the publisher's own revision id, `rest` all other content.
   */
  datatype Record = Record(
    source: string, version: string, keyed: bool, revision: Revision, readable: bool, approved: bool, active: bool,
    opaqueId: Option<string>, body: Body, rest: string)
  {
    function Dataset(): Dataset {
      match body
      case Customer(_, _, _) => Customers
      case Site(_, _, _) => Sites
      case Assignment(_, _, _, _) => Assignments
      case Meter(_, _, _, _, _, _) => Meters
      case Contract(_, _, _, _) => Contracts
      case Commitment(_, _, _, _, _, _) => Commitments
      case ExcessOrder(_, _, _, _, _, _) => ExcessOrders
      case Reading(_, _, _, _) => Readings
      case Capacity(_, _, _, _, _, _) => Capacities
    }

    /** What all revisions of one published fact share. */
    function Episode(): EpisodeKey {
      match body
      case Commitment(point, _, _, from, _, _) => EpisodeKey(Commitments, source, [point], from)
      case Capacity(point, from, _, _, _, _) => EpisodeKey(Capacities, source, [point], from)
      case Reading(meter, register, at, _) => EpisodeKey(Readings, source, [meter, register], at)
      case ExcessOrder(line, _, _, _, _, _) => EpisodeKey(ExcessOrders, source, [line], 0)
      case _ => EpisodeKey(Dataset(), source, [version], 0)
    }

    function Identity(): RevisionKey {
      RevisionKey(Episode(), revision.text)
    }

    /** What revisions are compared by; asked only of ranked records. */
    function Number(): int {
      if revision.number.Some? then revision.number.value else 0
    }

    /** The record has a place among the revisions of its episode. */
    predicate Ranked() {
      keyed && revision.number.Some?
    }
  }

  datatype EpisodeKey = EpisodeKey(dataset: Dataset, source: string, key: seq<string>, at: Time)

  datatype RevisionKey = RevisionKey(episode: EpisodeKey, revision: string)

  datatype Code =
    | Unreadable | SchemaValidationFailed
    | SourceRevisionConflict | OpaqueRevisionIdReused
    | BusinessRuleValueInvalid
    | IntervalNot30Minutes | IntervalNotAligned | InvalidEffectivePeriod | CapacityArithmeticMismatch
    | CustomerReferenceMissing | SiteReferenceMissing | DeliveryPointReferenceMissing
    | EffectiveOverlap(rule: OverlapRule)
    | AssignmentCoverageMissing | AssignmentCoverageAmbiguous
    | CustomerCoverageMissing | CustomerCoverageAmbiguous
    | SiteCoverageMissing | SiteCoverageAmbiguous
    | AssignmentCustomerMismatch
    | ContractCoverageMissing | ContractCoverageAmbiguous | ContractPointMismatch | ContractCustomerMismatch
    | PositiveCommitmentMissing | CommitmentAmbiguous
    | MeterCoverageMissing | MeterCoverageAmbiguous | MeterMetadataMismatch

  // Duplicates and opaque ids

  ghost predicate Conflicts(records: set<Record>, r: Record) {
    exists s :: s in records && s != r && s.Identity() == r.Identity()
  }

  ghost function AfterRevisions(records: set<Record>): set<Record> {
    set r | r in records && !Conflicts(records, r)
  }

  predicate HasOpaqueId(r: Record) {
    (r.body.Commitment? || r.body.Reading? || r.body.Capacity?) && r.opaqueId.Some?
  }

  predicate SharesOpaqueId(r: Record, s: Record) {
    HasOpaqueId(s) && s.Dataset() == r.Dataset() && s.opaqueId == r.opaqueId
  }

  ghost predicate ReusesOpaqueId(valid: set<Record>, r: Record) {
    HasOpaqueId(r) && exists s :: s in valid && SharesOpaqueId(r, s) && s.Identity() != r.Identity()
  }

  ghost function AfterOpaqueIds(valid: set<Record>): set<Record> {
    set r | r in valid && !ReusesOpaqueId(valid, r)
  }

  // Rules about one record

  function LocalCodes(r: Record): set<Code> {
    if (r.body.Timed() || r.body.Effective()) && !r.readable then {BusinessRuleValueInvalid}
    else if r.body.Timed() then
      (if r.body.to - r.body.from != HALF_HOUR then {IntervalNot30Minutes} else {})
      + (if r.body.from % HALF_HOUR != 0 then {IntervalNotAligned} else {})
      + (if r.body.Capacity? && r.body.deliverable != Floored(r.body.nameplate - r.body.restriction)
         then {CapacityArithmeticMismatch} else {})
    else if r.body.Effective() then
      if r.body.span.end.Some? && r.body.span.start >= r.body.span.end.value then {InvalidEffectivePeriod} else {}
    else {}
  }

  function Floored(x: int): int {
    if x > 0 then x else 0
  }

  function AfterLocalRules(valid: set<Record>): set<Record> {
    set r | r in valid && LocalCodes(r) == {}
  }

  // References

  function CustomersOf(valid: set<Record>): set<string> {
    set r | r in valid && r.body.Customer? :: r.body.customer
  }

  function SitesOf(valid: set<Record>): set<string> {
    set r | r in valid && r.body.Site? :: r.body.site
  }

  function PointsOf(valid: set<Record>): set<string> {
    set r | r in valid && r.body.Assignment? :: r.body.point
  }

  function ParentCodes(customers: set<string>, sites: set<string>, r: Record): set<Code> {
    if !r.body.Assignment? then {}
    else
      (if r.body.customer in customers then {} else {CustomerReferenceMissing})
      + (if r.body.site in sites then {} else {SiteReferenceMissing})
  }

  function ChildCodes(customers: set<string>, points: set<string>, r: Record): set<Code> {
    if !r.body.Meter? && !r.body.Contract? then {}
    else
      (if r.body.point in points then {} else {DeliveryPointReferenceMissing})
      + (if r.body.Contract? && r.body.customer !in customers then {CustomerReferenceMissing} else {})
  }

  function AfterParents(valid: set<Record>): set<Record> {
    set r | r in valid && ParentCodes(CustomersOf(valid), SitesOf(valid), r) == {}
  }

  /** Assignments lose their place first; then whatever refers to none of those left. */
  function AfterReferences(valid: set<Record>): set<Record> {
    var kept := AfterParents(valid);
    set r | r in kept && ChildCodes(CustomersOf(valid), PointsOf(kept), r) == {}
  }

  // Overlaps

  datatype OverlapRule =
    | CustomerRule | SiteRule | PointRule | SitePointRule | MeterRule | PointMeterRule | ContractRule

  const RULES := [CustomerRule, SiteRule, PointRule, SitePointRule, MeterRule, PointMeterRule, ContractRule]

  predicate InRule(rule: OverlapRule, r: Record) {
    match rule
    case CustomerRule => r.body.Customer?
    case SiteRule => r.body.Site?
    case PointRule => r.body.Assignment?
    case SitePointRule => r.body.Assignment?
    case MeterRule => r.body.Meter? && r.body.authoritative
    case PointMeterRule => r.body.Meter? && r.body.authoritative
    case ContractRule => r.body.Contract?
  }

  function GroupKey(rule: OverlapRule, r: Record): seq<string>
    requires InRule(rule, r)
  {
    match rule
    case CustomerRule => [r.body.customer]
    case SiteRule => [r.body.site]
    case PointRule => [r.body.point]
    case SitePointRule => [r.body.site]
    case MeterRule => [r.body.meter, r.body.register]
    case PointMeterRule => [r.body.point]
    case ContractRule => [r.body.point]
  }

  predicate Overlaps(a: Span, b: Span) {
    && (a.end.None? || b.start < a.end.value)
    && (b.end.None? || a.start < b.end.value)
  }

  /** No record of the bundle, valid or not, publishes a later revision of the same episode. */
  ghost predicate IsCurrent(all: set<Record>, r: Record) {
    forall s :: s in all && s.Episode() == r.Episode() ==> s.Number() <= r.Number()
  }

  ghost predicate Active(all: set<Record>, r: Record) {
    IsCurrent(all, r) && r.approved && r.active
  }

  ghost predicate Subject(all: set<Record>, rule: OverlapRule, r: Record) {
    InRule(rule, r) && Active(all, r)
  }

  ghost predicate Clash(all: set<Record>, rule: OverlapRule, r: Record, s: Record) {
    && s != r && Subject(all, rule, r) && Subject(all, rule, s)
    && GroupKey(rule, s) == GroupKey(rule, r) && Overlaps(r.body.span, s.body.span)
  }

  ghost predicate Overlapping(all: set<Record>, valid: set<Record>, rule: OverlapRule, r: Record) {
    exists s :: s in valid && Clash(all, rule, r, s)
  }

  ghost function AfterRule(all: set<Record>, valid: set<Record>, rule: OverlapRule): set<Record> {
    set r | r in valid && !Overlapping(all, valid, rule, r)
  }

  ghost function AfterRules(all: set<Record>, valid: set<Record>, rules: seq<OverlapRule>): set<Record> {
    if rules == [] then valid else AfterRule(all, AfterRules(all, valid, Front(rules)), Last(rules))
  }

  // Coverage at event time

  predicate CoversInterval(span: Span, from: Time, to: Time) {
    span.start <= from && (span.end.None? || to <= span.end.value)
  }

  predicate CoversEvent(span: Span, at: Time) {
    span.start <= at && (span.end.None? || at < span.end.value)
  }

  ghost function AssignmentsFor(
      all: set<Record>, valid: set<Record>, point: string, from: Time, to: Time): set<Record> {
    set r | r in valid && Active(all, r) && r.body.Assignment? && r.body.point == point &&
      CoversInterval(r.body.span, from, to)
  }

  ghost function CustomersFor(
      all: set<Record>, valid: set<Record>, customer: string, from: Time, to: Time): set<Record> {
    set r | r in valid && Active(all, r) && r.body.Customer? && r.body.operating && r.body.customer == customer
            && CoversInterval(r.body.span, from, to)
  }

  ghost function SitesFor(all: set<Record>, valid: set<Record>, site: string, from: Time, to: Time): set<Record> {
    set r | r in valid && Active(all, r) && r.body.Site? && r.body.operating && r.body.site == site
            && CoversInterval(r.body.span, from, to)
  }

  ghost function ContractsFor(
      all: set<Record>, valid: set<Record>, contract: string, from: Time, to: Time): set<Record> {
    set r | r in valid && Active(all, r) && r.body.Contract? && r.body.contract == contract &&
      CoversInterval(r.body.span, from, to)
  }

  ghost function MetersFor(
      all: set<Record>, valid: set<Record>, meter: string, register: string, at: Time): set<Record> {
    set r | r in valid && Active(all, r) && r.body.Meter? && r.body.authoritative && r.body.meter == meter
            && r.body.register == register && CoversEvent(r.body.span, at)
  }

  ghost function CommitmentsFor(all: set<Record>, valid: set<Record>, point: string, from: Time): set<Record> {
    set r | r in valid && Active(all, r) && r.body.Commitment? && r.body.point == point && r.body.from == from
  }

  ghost function CoverageCodes(matches: set<Record>, missing: Code, ambiguous: Code): set<Code> {
    if |matches| == 1 then {} else if matches == {} then {missing} else {ambiguous}
  }

  ghost function Only(matches: set<Record>): (r: Record)
    requires |matches| == 1
    ensures matches == {r}
  {
    assert matches != {};
    var r :| r in matches;
    SubsetCardinality({r}, matches);
    r
  }

  ghost function ContextCodes(all: set<Record>, valid: set<Record>, a: Record, from: Time, to: Time): set<Code>
    requires a.body.Assignment?
  {
    CoverageCodes(CustomersFor(all, valid, a.body.customer, from, to), CustomerCoverageMissing,
        CustomerCoverageAmbiguous)
    + CoverageCodes(SitesFor(all, valid, a.body.site, from, to), SiteCoverageMissing, SiteCoverageAmbiguous)
  }

  ghost function ContractCodes(all: set<Record>, valid: set<Record>, r: Record): set<Code>
    requires r.body.Commitment? || r.body.ExcessOrder?
  {
    var matches := ContractsFor(all, valid, r.body.contract, r.body.from, r.body.to);
    if |matches| != 1 then CoverageCodes(matches, ContractCoverageMissing, ContractCoverageAmbiguous)
    else TermsCodes(Only(matches), r)
  }

  function TermsCodes(terms: Record, r: Record): set<Code>
    requires r.body.Commitment? || r.body.ExcessOrder?
  {
    if !terms.body.Contract? then {}
    else
      (if terms.body.point != r.body.point then {ContractPointMismatch} else {})
      + (if terms.body.customer != r.body.customer then {ContractCustomerMismatch} else {})
  }

  ghost function PlaceCodes(all: set<Record>, valid: set<Record>, r: Record): set<Code>
    requires r.body.Timed()
  {
    var matches := AssignmentsFor(all, valid, r.body.point, r.body.from, r.body.to);
    if |matches| != 1 then CoverageCodes(matches, AssignmentCoverageMissing, AssignmentCoverageAmbiguous)
    else
      var a := Only(matches);
      ContextCodes(all, valid, a, r.body.from, r.body.to)
      + if r.body.Capacity? then {}
        else
          (if r.body.customer != a.body.customer then {AssignmentCustomerMismatch} else {})
          + ContractCodes(all, valid, r)
  }

  ghost function ScheduleCodes(all: set<Record>, valid: set<Record>, r: Record): set<Code>
    requires r.body.ExcessOrder?
  {
    var matches := CommitmentsFor(all, valid, r.body.point, r.body.from);
    if |matches| != 1 then CoverageCodes(matches, PositiveCommitmentMissing, CommitmentAmbiguous)
    else if Only(matches).body.Commitment? && Only(matches).body.positive then {}
    else {PositiveCommitmentMissing}
  }

  ghost function MeterCodes(all: set<Record>, valid: set<Record>, r: Record): set<Code>
    requires r.body.Reading?
  {
    var matches := MetersFor(all, valid, r.body.meter, r.body.register, r.body.at);
    if |matches| != 1 then CoverageCodes(matches, MeterCoverageMissing, MeterCoverageAmbiguous)
    else if Only(matches).body.Meter? && Only(matches).body.metadata == r.body.metadata then {}
    else {MeterMetadataMismatch}
  }

  ghost function IntervalCodes(all: set<Record>, valid: set<Record>, r: Record): set<Code> {
    if r.body.Timed() then
      PlaceCodes(all, valid, r) + if r.body.ExcessOrder? then ScheduleCodes(all, valid, r) else {}
    else if r.body.Reading? then MeterCodes(all, valid, r)
    else {}
  }

  ghost function AfterIntervals(all: set<Record>, valid: set<Record>): set<Record> {
    set r | r in valid && IntervalCodes(all, valid, r) == {}
  }

  // All passes

  ghost function Conforming(all: set<Record>, conforms: Record -> bool): set<Record> {
    set r | r in all && conforms(r)
  }

  /** The records that reach the first reference pass, and that each later pass leaves. */
  ghost function BeforeReferences(all: set<Record>, conforms: Record -> bool): set<Record> {
    AfterLocalRules(AfterOpaqueIds(AfterRevisions(Conforming(all, conforms))))
  }

  ghost function BeforeIntervals(all: set<Record>, conforms: Record -> bool): set<Record> {
    AfterReferences(AfterRules(all, AfterReferences(BeforeReferences(all, conforms)), RULES))
  }

  /** The accepted records of a bundle whose distinct records are `all`. */
  ghost function Accepted(all: set<Record>, conforms: Record -> bool): set<Record> {
    AfterIntervals(all, BeforeIntervals(all, conforms))
  }

  // Inputs on which the validator raises

  /** The datasets whose current revisions the overlap rules need, and those the interval pass needs. */
  const OVERLAP_DATASETS := {Customers, Sites, Assignments, Meters, Contracts}
  const CONTEXT_DATASETS := {Customers, Sites, Assignments, Meters, Contracts, Commitments}

  /** Some record of these datasets, valid or not, cannot be placed among the revisions of its episode. */
  ghost predicate Unrankable(all: set<Record>, datasets: set<Dataset>) {
    exists r :: r in all && r.Dataset() in datasets && !r.Ranked()
  }

  /** The interval pass reads the time of a reading that no earlier pass has looked at. */
  ghost predicate Undated(valid: set<Record>) {
    exists r :: r in valid && r.body.Reading? && !r.readable
  }

  /** The validator gives no result, but raises. */
  ghost predicate Raises(all: set<Record>, conforms: Record -> bool) {
    Unrankable(all, CONTEXT_DATASETS) || Undated(AfterOpaqueIds(AfterRevisions(Conforming(all, conforms))))
  }
}
