/** What holds of every accepted set, whatever the bundle contained. */
module ValidationResults {
  import opened Sequences
  import opened ValidationRules

  /** What revisions of one fact share: their dataset, their source system, and the business key of the dataset. */
  lemma SameEpisodeIff(r: Record, s: Record)
    ensures r.Episode() == s.Episode() <==>
      && r.Dataset() == s.Dataset() && r.source == s.source
      && match r.body
         case Commitment(point, _, _, from, _, _) => s.body.point == point && s.body.from == from
         case Capacity(point, from, _, _, _, _) => s.body.point == point && s.body.from == from
         case Reading(meter, register, at, _) =>
           s.body.meter == meter && s.body.register == register && s.body.at == at
         case ExcessOrder(line, _, _, _, _, _) => s.body.line == line
         case _ => r.version == s.version
    ensures r.Identity() == s.Identity() <==> r.Episode() == s.Episode() && r.revision.text == s.revision.text
  {
    if r.Episode() == s.Episode() {
      assert r.Episode().key[0] == s.Episode().key[0];
      if r.body.Reading? {
        assert r.Episode().key[1] == s.Episode().key[1];
      }
    }
  }

  // Passes only reject

  lemma {:induction false} RulesOnlyReject(all: set<Record>, valid: set<Record>, rules: seq<OverlapRule>)
    ensures AfterRules(all, valid, rules) <= valid
  {
    if rules != [] {
      RulesOnlyReject(all, valid, Front(rules));
    }
  }

  lemma PassesOnlyReject(all: set<Record>, conforms: Record -> bool)
    ensures Accepted(all, conforms) <= BeforeIntervals(all, conforms) <= BeforeReferences(all, conforms)
    ensures BeforeReferences(all, conforms) <= AfterRevisions(Conforming(all, conforms)) <= all
  {
    RulesOnlyReject(all, AfterReferences(BeforeReferences(all, conforms)), RULES);
  }

  /** An accepted identity has one accepted content. */
  lemma AcceptedIdentitiesAreUnique(all: set<Record>, conforms: Record -> bool, r: Record, s: Record)
    requires r in Accepted(all, conforms) && s in Accepted(all, conforms) && r.Identity() == s.Identity()
    ensures r == s
  {
    hide *;
    PassesOnlyReject(all, conforms);
    CleanIdentitiesAreUnique(Conforming(all, conforms), r, s);
  }

  lemma CleanIdentitiesAreUnique(records: set<Record>, r: Record, s: Record)
    requires r in AfterRevisions(records) && s in AfterRevisions(records) && r.Identity() == s.Identity()
    ensures r == s
  {
  }

  /** Whatever is accepted conforms to its schema and breaks no local rule. */
  lemma AcceptedRowsAreSound(all: set<Record>, conforms: Record -> bool, r: Record)
    requires r in Accepted(all, conforms)
    ensures r in all && conforms(r)
    ensures r.body.Timed() || r.body.Effective() ==> r.readable
    ensures r.body.Timed() ==> r.body.to == r.body.from + 1800000000 && r.body.from % 1800000000 == 0
    ensures r.body.Capacity? ==>
      && r.body.deliverable >= 0 && r.body.deliverable >= r.body.nameplate - r.body.restriction
      && (r.body.deliverable == 0 || r.body.deliverable == r.body.nameplate - r.body.restriction)
    ensures r.body.Effective() && r.body.span.end.Some? ==> r.body.span.start < r.body.span.end.value
  {
    hide Accepted, IntervalCodes, AfterOpaqueIds, AfterReferences, AfterRules;
    PassesOnlyReject(all, conforms);
    assert r in BeforeReferences(all, conforms);
    assert LocalCodes(r) == {};
    assert r in Conforming(all, conforms);
  }

  /** A publisher's revision id names one accepted identity of its dataset at most. */
  lemma AcceptedOpaqueIdsAreUnique(all: set<Record>, conforms: Record -> bool, r: Record, s: Record)
    requires r in Accepted(all, conforms) && s in Accepted(all, conforms)
    requires HasOpaqueId(r) && SharesOpaqueId(r, s)
    ensures r == s
  {
    hide Accepted, IntervalCodes, AfterReferences, AfterRules, LocalCodes, AfterRevisions, HasOpaqueId;
    PassesOnlyReject(all, conforms);
    var clean := AfterRevisions(Conforming(all, conforms));
    assert r in AfterOpaqueIds(clean) && s in clean;
    assert !ReusesOpaqueId(clean, r);
    AcceptedIdentitiesAreUnique(all, conforms, r, s);
  }

  /**
    No rule about other rows than readings rejects a reading: those without a readable time reach the
    interval pass.
   */
  lemma UndatedReachesIntervals(all: set<Record>, conforms: Record -> bool)
    ensures Undated(BeforeIntervals(all, conforms)) <==>
      Undated(AfterOpaqueIds(AfterRevisions(Conforming(all, conforms))))
  {
    hide AfterRevisions, AfterOpaqueIds;
    var early := AfterOpaqueIds(AfterRevisions(Conforming(all, conforms)));
    var first := AfterReferences(BeforeReferences(all, conforms));
    RulesOnlyReject(all, first, RULES);
    forall r | r in early && r.body.Reading? ensures r in BeforeIntervals(all, conforms) {
      assert r in first;
      RulesSpareReadings(all, first, RULES, r);
    }
  }

  lemma {:induction false} RulesSpareReadings(all: set<Record>, valid: set<Record>, rules: seq<OverlapRule>, r: Record)
    requires r in valid && r.body.Reading?
    ensures r in AfterRules(all, valid, rules)
  {
    if rules != [] {
      RulesSpareReadings(all, valid, Front(rules), r);
      assert !InRule(Last(rules), r);
    }
  }

  // Overlaps

  /** One of the periods ends before or just when the other starts. */
  ghost predicate Apart(a: Span, b: Span) {
    || (a.end.Some? && a.end.value <= b.start)
    || (b.end.Some? && b.end.value <= a.start)
  }

  lemma ApartIsNoOverlap(a: Span, b: Span)
    ensures Apart(a, b) <==> !Overlaps(a, b)
  {
  }

  ghost predicate SameGroup(all: set<Record>, rule: OverlapRule, r: Record, s: Record) {
    Subject(all, rule, r) && Subject(all, rule, s) && GroupKey(rule, s) == GroupKey(rule, r)
  }

  lemma RuleLeavesNoClash(all: set<Record>, valid: set<Record>, rule: OverlapRule, r: Record, s: Record)
    requires r in AfterRule(all, valid, rule) && s in AfterRule(all, valid, rule)
    ensures !Clash(all, rule, r, s)
  {
    hide Clash;
    assert s in valid;
    assert !Overlapping(all, valid, rule, r);
  }

  lemma {:induction false} RulesLeaveNoClash(
      all: set<Record>, valid: set<Record>, rules: seq<OverlapRule>, rule: OverlapRule, r: Record, s: Record)
    requires rule in rules && r in AfterRules(all, valid, rules) && s in AfterRules(all, valid, rules)
    ensures !Clash(all, rule, r, s)
  {
    hide Clash, Overlapping;
    var earlier := AfterRules(all, valid, Front(rules));
    if rule == Last(rules) {
      RuleLeavesNoClash(all, earlier, rule, r, s);
    } else {
      RulesLeaveNoClash(all, valid, Front(rules), rule, r, s);
    }
  }

  lemma EveryRuleApplies(rule: OverlapRule)
    ensures rule in RULES
  {
    match rule
    case CustomerRule => assert RULES[0] == rule;
    case SiteRule => assert RULES[1] == rule;
    case PointRule => assert RULES[2] == rule;
    case SitePointRule => assert RULES[3] == rule;
    case MeterRule => assert RULES[4] == rule;
    case PointMeterRule => assert RULES[5] == rule;
    case ContractRule => assert RULES[6] == rule;
  }

  /** Among accepted, current, active records no two of one group overlap, under any of the seven rules. */
  lemma NoClashBeforeIntervals(all: set<Record>, conforms: Record -> bool, rule: OverlapRule, r: Record, s: Record)
    requires r in BeforeIntervals(all, conforms) && s in BeforeIntervals(all, conforms)
    ensures !Clash(all, rule, r, s)
  {
    hide Clash, AfterRules, BeforeReferences;
    EveryRuleApplies(rule);
    RulesLeaveNoClash(all, AfterReferences(BeforeReferences(all, conforms)), RULES, rule, r, s);
  }

  lemma AcceptedNeverOverlap(all: set<Record>, conforms: Record -> bool, rule: OverlapRule, r: Record, s: Record)
    requires r in Accepted(all, conforms) && s in Accepted(all, conforms)
    requires r != s && SameGroup(all, rule, r, s)
    ensures !Overlaps(r.body.span, s.body.span) && Apart(r.body.span, s.body.span)
  {
    hide BeforeIntervals, Active, IntervalCodes;
    NoClashBeforeIntervals(all, conforms, rule, r, s);
    ApartIsNoOverlap(r.body.span, s.body.span);
  }

  /** Two effective periods overlap exactly when some instant lies in both; the later start is one if any is. */
  lemma OverlapIsSharedInstant(a: Span, b: Span, t: Time)
    requires (a.end.Some? ==> a.start < a.end.value) && (b.end.Some? ==> b.start < b.end.value)
    ensures a.start <= t && b.start <= t && (a.end.None? || t < a.end.value) && (b.end.None? || t < b.end.value) ==>
      Overlaps(a, b)
    ensures Overlaps(a, b) ==>
      var later := if a.start < b.start then b.start else a.start;
      && a.start <= later && b.start <= later
      && (a.end.None? || later < a.end.value) && (b.end.None? || later < b.end.value)
  {
  }

  /** No other current, active record of a group of `r` that is still valid shares an instant with it. */
  ghost predicate StandsAlone(all: set<Record>, valid: set<Record>, r: Record) {
    forall rule, s :: s in valid && s != r && SameGroup(all, rule, r, s) ==> Apart(r.body.span, s.body.span)
  }

  /** A record that stands alone, as back-to-back versions do, survives all seven rules. */
  lemma {:induction false} StandingAloneSurvives(
      all: set<Record>, valid: set<Record>, rules: seq<OverlapRule>, r: Record)
    requires r in valid && StandsAlone(all, valid, r)
    ensures r in AfterRules(all, valid, rules)
  {
    hide Active;
    if rules != [] {
      StandingAloneSurvives(all, valid, Front(rules), r);
      RulesOnlyReject(all, valid, Front(rules));
      var earlier := AfterRules(all, valid, Front(rules));
      forall s | s in earlier ensures !Clash(all, Last(rules), r, s) {
        if s != r && SameGroup(all, Last(rules), r, s) {
          ApartIsNoOverlap(r.body.span, s.body.span);
        }
      }
    }
  }

  // Coverage verdicts

  lemma AtMostOne<T>(s: set<T>)
    requires forall a, b :: a in s && b in s ==> a == b
    ensures |s| <= 1
  {
    if s != {} {
      var x :| x in s;
      assert s == {x};
    }
  }

  lemma CoveringSpansOverlap(a: Span, b: Span, from: Time, to: Time)
    requires from < to && CoversInterval(a, from, to) && CoversInterval(b, from, to)
    ensures Overlaps(a, b)
  {
  }

  lemma HalfHours(all: set<Record>, conforms: Record -> bool, r: Record)
    requires r in BeforeIntervals(all, conforms) && r.body.Timed()
    ensures r.body.to == r.body.from + HALF_HOUR
  {
    hide Accepted, IntervalCodes, AfterOpaqueIds, BeforeIntervals;
    PassesOnlyReject(all, conforms);
    assert r in BeforeReferences(all, conforms);
    assert LocalCodes(r) == {};
  }

  lemma OneAssignmentAtMost(all: set<Record>, conforms: Record -> bool, point: string, from: Time, to: Time)
    requires from < to
    ensures |AssignmentsFor(all, BeforeIntervals(all, conforms), point, from, to)| <= 1
  {
    hide BeforeIntervals, IsCurrent;
    var matches := AssignmentsFor(all, BeforeIntervals(all, conforms), point, from, to);
    forall a, b | a in matches && b in matches ensures a == b {
      NoClashBeforeIntervals(all, conforms, PointRule, a, b);
      CoveringSpansOverlap(a.body.span, b.body.span, from, to);
    }
    AtMostOne(matches);
  }

  lemma OneCustomerAtMost(all: set<Record>, conforms: Record -> bool, customer: string, from: Time, to: Time)
    requires from < to
    ensures |CustomersFor(all, BeforeIntervals(all, conforms), customer, from, to)| <= 1
  {
    hide BeforeIntervals, IsCurrent;
    var matches := CustomersFor(all, BeforeIntervals(all, conforms), customer, from, to);
    forall a, b | a in matches && b in matches ensures a == b {
      NoClashBeforeIntervals(all, conforms, CustomerRule, a, b);
      CoveringSpansOverlap(a.body.span, b.body.span, from, to);
    }
    AtMostOne(matches);
  }

  lemma OneSiteAtMost(all: set<Record>, conforms: Record -> bool, site: string, from: Time, to: Time)
    requires from < to
    ensures |SitesFor(all, BeforeIntervals(all, conforms), site, from, to)| <= 1
  {
    hide BeforeIntervals, IsCurrent;
    var matches := SitesFor(all, BeforeIntervals(all, conforms), site, from, to);
    forall a, b | a in matches && b in matches ensures a == b {
      NoClashBeforeIntervals(all, conforms, SiteRule, a, b);
      CoveringSpansOverlap(a.body.span, b.body.span, from, to);
    }
    AtMostOne(matches);
  }

  lemma OneMeterAtMost(all: set<Record>, conforms: Record -> bool, meter: string, register: string, at: Time)
    ensures |MetersFor(all, BeforeIntervals(all, conforms), meter, register, at)| <= 1
  {
    hide BeforeIntervals, IsCurrent;
    var matches := MetersFor(all, BeforeIntervals(all, conforms), meter, register, at);
    forall a, b | a in matches && b in matches ensures a == b {
      NoClashBeforeIntervals(all, conforms, MeterRule, a, b);
    }
    AtMostOne(matches);
  }

  const UNREACHABLE := {AssignmentCoverageAmbiguous, CustomerCoverageAmbiguous, SiteCoverageAmbiguous,
      MeterCoverageAmbiguous}

  lemma CoverageIsDecided(matches: set<Record>, missing: Code, ambiguous: Code)
    requires |matches| <= 1
    ensures CoverageCodes(matches, missing, ambiguous) <= {missing}
  {
    if matches != {} {
      var r :| r in matches;
      SubsetCardinality({r}, matches);
    }
  }

  lemma ContextIsNeverAmbiguous(all: set<Record>, conforms: Record -> bool, a: Record, from: Time, to: Time)
    requires from < to && a.body.Assignment?
    ensures ContextCodes(all, BeforeIntervals(all, conforms), a, from, to) <= {CustomerCoverageMissing,
        SiteCoverageMissing}
  {
    hide BeforeIntervals, CustomersFor, SitesFor, CoverageCodes;
    var valid := BeforeIntervals(all, conforms);
    OneCustomerAtMost(all, conforms, a.body.customer, from, to);
    OneSiteAtMost(all, conforms, a.body.site, from, to);
    CoverageIsDecided(CustomersFor(all, valid, a.body.customer, from, to), CustomerCoverageMissing,
        CustomerCoverageAmbiguous);
    CoverageIsDecided(SitesFor(all, valid, a.body.site, from, to), SiteCoverageMissing, SiteCoverageAmbiguous);
  }

  lemma ContractVerdicts(all: set<Record>, valid: set<Record>, r: Record)
    requires r.body.Commitment? || r.body.ExcessOrder?
    ensures ContractCodes(all, valid, r) <=
      {ContractCoverageMissing, ContractCoverageAmbiguous, ContractPointMismatch, ContractCustomerMismatch}
  {
    hide ContractsFor;
  }

  lemma PlaceIsNeverAmbiguous(all: set<Record>, conforms: Record -> bool, r: Record)
    requires r in BeforeIntervals(all, conforms) && r.body.Timed()
    ensures PlaceCodes(all, BeforeIntervals(all, conforms), r) <=
      {AssignmentCoverageMissing, CustomerCoverageMissing, SiteCoverageMissing, AssignmentCustomerMismatch,
       ContractCoverageMissing, ContractCoverageAmbiguous, ContractPointMismatch, ContractCustomerMismatch}
  {
    hide BeforeIntervals, AssignmentsFor, ContextCodes, ContractCodes, CoverageCodes;
    var valid := BeforeIntervals(all, conforms);
    HalfHours(all, conforms, r);
    OneAssignmentAtMost(all, conforms, r.body.point, r.body.from, r.body.to);
    var matches := AssignmentsFor(all, valid, r.body.point, r.body.from, r.body.to);
    CoverageIsDecided(matches, AssignmentCoverageMissing, AssignmentCoverageAmbiguous);
    if |matches| == 1 {
      AssignmentsMatch(all, valid, r.body.point, r.body.from, r.body.to);
      ContextIsNeverAmbiguous(all, conforms, Only(matches), r.body.from, r.body.to);
      if !r.body.Capacity? {
        ContractVerdicts(all, valid, r);
      }
    }
  }

  lemma AssignmentsMatch(all: set<Record>, valid: set<Record>, point: string, from: Time, to: Time)
    ensures forall a :: a in AssignmentsFor(all, valid, point, from, to) ==> a.body.Assignment?
  {
  }

  /** The ambiguous verdicts on assignments, customers, sites and meters are unreachable in the interval pass. */
  lemma CoverageIsNeverAmbiguous(all: set<Record>, conforms: Record -> bool, r: Record)
    requires r in BeforeIntervals(all, conforms)
    ensures IntervalCodes(all, BeforeIntervals(all, conforms), r) !! UNREACHABLE
  {
    hide BeforeIntervals, PlaceCodes, CommitmentsFor, MetersFor;
    if r.body.Timed() {
      PlaceIsNeverAmbiguous(all, conforms, r);
    } else if r.body.Reading? {
      OneMeterAtMost(all, conforms, r.body.meter, r.body.register, r.body.at);
    }
  }

  /** A contract id is ambiguous at event time only between contracts of different delivery points. */
  lemma AmbiguousContractsServeDifferentPoints(
      all: set<Record>, conforms: Record -> bool, contract: string, from: Time, to: Time, a: Record, b: Record)
    requires from < to && a != b
    requires a in ContractsFor(all, BeforeIntervals(all, conforms), contract, from, to)
    requires b in ContractsFor(all, BeforeIntervals(all, conforms), contract, from, to)
    ensures a.body.point != b.body.point
  {
    hide BeforeIntervals, IsCurrent;
    NoClashBeforeIntervals(all, conforms, ContractRule, a, b);
    CoveringSpansOverlap(a.body.span, b.body.span, from, to);
  }

  /** Two current commitments for one half-hour come from different source systems, or write one number in two ways. */
  lemma AmbiguousCommitmentsComeFromDifferentSystems(
      all: set<Record>, conforms: Record -> bool, point: string, from: Time, a: Record, b: Record)
    requires a != b
    requires a in CommitmentsFor(all, BeforeIntervals(all, conforms), point, from)
    requires b in CommitmentsFor(all, BeforeIntervals(all, conforms), point, from)
    ensures a.source != b.source || (a.Number() == b.Number() && a.revision.text != b.revision.text)
  {
    hide BeforeIntervals, BeforeReferences, Accepted, AfterRevisions;
    PassesOnlyReject(all, conforms);
    if a.source == b.source {
      assert a.Episode() == b.Episode();
      assert a.Number() == b.Number();
      if a.revision.text == b.revision.text {
        CleanIdentitiesAreUnique(Conforming(all, conforms), a, b);
      }
    }
  }

  // The closed accepted set

  lemma ReferencesSettle(valid: set<Record>)
    ensures CustomersOf(AfterReferences(valid)) == CustomersOf(valid)
    ensures SitesOf(AfterReferences(valid)) == SitesOf(valid)
    ensures PointsOf(AfterReferences(valid)) == PointsOf(AfterParents(valid))
  {
    var kept := AfterReferences(valid);
    forall r | r in valid && (r.body.Customer? || r.body.Site?) ensures r in kept {
      assert ParentCodes(CustomersOf(valid), SitesOf(valid), r) == {};
    }
    forall r | r in AfterParents(valid) && r.body.Assignment? ensures r in kept {
    }
  }

  lemma IntervalsSpareMasters(all: set<Record>, valid: set<Record>)
    ensures CustomersOf(AfterIntervals(all, valid)) == CustomersOf(valid)
    ensures SitesOf(AfterIntervals(all, valid)) == SitesOf(valid)
    ensures PointsOf(AfterIntervals(all, valid)) == PointsOf(valid)
  {
    hide PlaceCodes, MeterCodes, ScheduleCodes;
    forall r | r in valid && !r.body.Timed() && !r.body.Reading? ensures r in AfterIntervals(all, valid) {
    }
  }

  /** What every accepted record refers to is accepted too. */
  lemma AcceptedSetIsClosed(all: set<Record>, conforms: Record -> bool, r: Record)
    requires r in Accepted(all, conforms)
    ensures var accepted := Accepted(all, conforms);
      && (r.body.Assignment? ==> r.body.customer in CustomersOf(accepted) && r.body.site in SitesOf(accepted))
      && (r.body.Meter? || r.body.Contract? ==> r.body.point in PointsOf(accepted))
      && (r.body.Contract? ==> r.body.customer in CustomersOf(accepted))
  {
    hide AfterRules, BeforeReferences, IntervalCodes, CustomersOf, SitesOf, PointsOf;
    var before := AfterRules(all, AfterReferences(BeforeReferences(all, conforms)), RULES);
    ReferencesSettle(before);
    IntervalsSpareMasters(all, AfterReferences(before));
    assert r in AfterReferences(before);
  }

  lemma CoverersSurvive(
      all: set<Record>, valid: set<Record>, from: Time, to: Time, point: string, customer: string, site: string)
    ensures AssignmentsFor(all, AfterIntervals(all, valid), point, from, to) ==
      AssignmentsFor(all, valid, point, from, to)
    ensures CustomersFor(all, AfterIntervals(all, valid), customer, from, to) ==
      CustomersFor(all, valid, customer, from, to)
    ensures SitesFor(all, AfterIntervals(all, valid), site, from, to) == SitesFor(all, valid, site, from, to)
  {
    hide Active, PlaceCodes, MeterCodes, ScheduleCodes, CoversInterval;
    forall r | r in valid && !r.body.Timed() && !r.body.Reading? ensures r in AfterIntervals(all, valid) {
    }
  }

  lemma MetersSurvive(all: set<Record>, valid: set<Record>, meter: string, register: string, at: Time)
    ensures MetersFor(all, AfterIntervals(all, valid), meter, register, at) ==
      MetersFor(all, valid, meter, register, at)
  {
    hide Active, PlaceCodes, MeterCodes, ScheduleCodes, CoversEvent;
    forall r | r in valid && !r.body.Timed() && !r.body.Reading? ensures r in AfterIntervals(all, valid) {
    }
  }

  lemma NoCodesMeansOne(matches: set<Record>, missing: Code, ambiguous: Code)
    requires CoverageCodes(matches, missing, ambiguous) == {}
    ensures |matches| == 1
  {
  }

  lemma NoPlaceCodes(all: set<Record>, valid: set<Record>, r: Record)
    requires r.body.Timed() && PlaceCodes(all, valid, r) == {}
    ensures var assignments := AssignmentsFor(all, valid, r.body.point, r.body.from, r.body.to);
      && |assignments| == 1 && Only(assignments).body.Assignment?
      && |CustomersFor(all, valid, Only(assignments).body.customer, r.body.from, r.body.to)| == 1
      && |SitesFor(all, valid, Only(assignments).body.site, r.body.from, r.body.to)| == 1
      && (!r.body.Capacity? ==> r.body.customer == Only(assignments).body.customer)
  {
    hide AssignmentsFor, CustomersFor, SitesFor, ContractCodes;
    var assignments := AssignmentsFor(all, valid, r.body.point, r.body.from, r.body.to);
    AssignmentsMatch(all, valid, r.body.point, r.body.from, r.body.to);
    if |assignments| != 1 {
      NoCodesMeansOne(assignments, AssignmentCoverageMissing, AssignmentCoverageAmbiguous);
    } else {
      var a := Only(assignments);
      NoCodesMeansOne(CustomersFor(all, valid, a.body.customer, r.body.from, r.body.to),
                      CustomerCoverageMissing, CustomerCoverageAmbiguous);
      NoCodesMeansOne(SitesFor(all, valid, a.body.site, r.body.from, r.body.to), SiteCoverageMissing,
          SiteCoverageAmbiguous);
    }
  }

  /**
    Every accepted interval row is covered by exactly one accepted current assignment of its point,
    and that assignment's customer and site each by exactly one accepted version.
   */
  lemma AcceptedIntervalsAreCovered(all: set<Record>, conforms: Record -> bool, r: Record)
    requires r in Accepted(all, conforms) && r.body.Timed()
    ensures var accepted := Accepted(all, conforms);
      var assignments := AssignmentsFor(all, accepted, r.body.point, r.body.from, r.body.to);
      && |assignments| == 1 && Only(assignments).body.Assignment?
      && |CustomersFor(all, accepted, Only(assignments).body.customer, r.body.from, r.body.to)| == 1
      && |SitesFor(all, accepted, Only(assignments).body.site, r.body.from, r.body.to)| == 1
      && (!r.body.Capacity? ==> r.body.customer == Only(assignments).body.customer)
  {
    hide BeforeIntervals, AssignmentsFor, CustomersFor, SitesFor, PlaceCodes, ScheduleCodes;
    var valid := BeforeIntervals(all, conforms);
    NoPlaceCodes(all, valid, r);
    var a := Only(AssignmentsFor(all, valid, r.body.point, r.body.from, r.body.to));
    CoverersSurvive(all, valid, r.body.from, r.body.to, r.body.point, a.body.customer, a.body.site);
  }

  /** Every accepted reading falls under exactly one accepted authoritative meter assignment, with its metadata. */
  lemma AcceptedReadingsAreMetered(all: set<Record>, conforms: Record -> bool, r: Record)
    requires r in Accepted(all, conforms) && r.body.Reading?
    ensures var meters := MetersFor(all, Accepted(all, conforms), r.body.meter, r.body.register, r.body.at);
      |meters| == 1 && Only(meters).body.Meter? && Only(meters).body.metadata == r.body.metadata
  {
    hide BeforeIntervals, MetersFor;
    var valid := BeforeIntervals(all, conforms);
    assert MeterCodes(all, valid, r) == {};
    MetersSurvive(all, valid, r.body.meter, r.body.register, r.body.at);
    if |MetersFor(all, valid, r.body.meter, r.body.register, r.body.at)| != 1 {
      NoCodesMeansOne(MetersFor(all, valid, r.body.meter, r.body.register, r.body.at), MeterCoverageMissing,
          MeterCoverageAmbiguous);
    }
  }

  /** Exactly one active contract of the record's id covers its half-hour, and has its point and customer. */
  ghost predicate HasItsContract(all: set<Record>, valid: set<Record>, r: Record)
    requires r.body.Commitment? || r.body.ExcessOrder?
  {
    var contracts := ContractsFor(all, valid, r.body.contract, r.body.from, r.body.to);
    |contracts| == 1
    && forall k :: k in contracts ==> k.body.point == r.body.point && k.body.customer == r.body.customer
  }

  lemma NoContractCodes(all: set<Record>, valid: set<Record>, r: Record)
    requires r.body.Commitment? || r.body.ExcessOrder?
    ensures ContractCodes(all, valid, r) == {} <==> HasItsContract(all, valid, r)
  {
    hide Active, CoversInterval;
    var contracts := ContractsFor(all, valid, r.body.contract, r.body.from, r.body.to);
    if |contracts| == 1 {
      assert Only(contracts) in contracts;
      assert contracts == {Only(contracts)};
    } else if ContractCodes(all, valid, r) == {} {
      NoCodesMeansOne(contracts, ContractCoverageMissing, ContractCoverageAmbiguous);
    }
  }

  lemma SamePlace(all: set<Record>, valid: set<Record>, r: Record, c: Record)
    requires r.body.ExcessOrder? && c.body.Commitment? && PlaceCodes(all, valid, r) == {}
    requires c.body.point == r.body.point && c.body.from == r.body.from && c.body.to == r.body.to
    ensures PlaceCodes(all, valid, c) == {} <==>
      c.body.customer == r.body.customer && ContractCodes(all, valid, c) == {}
  {
    hide AssignmentsFor, ContextCodes, ContractCodes, CustomersFor, SitesFor;
    NoPlaceCodes(all, valid, r);
    var a := Only(AssignmentsFor(all, valid, r.body.point, r.body.from, r.body.to));
    assert ContextCodes(all, valid, a, r.body.from, r.body.to) == {};
  }

  /**
    An accepted excess order had exactly one positive current commitment when the interval pass
    began. That commitment is accepted itself exactly when it names the order's customer and the one
    active contract of its id that covers the half-hour has its point and customer; the pass does not
    look back.
   */
  lemma OrdersCommitmentIsAcceptedIff(all: set<Record>, conforms: Record -> bool, r: Record)
    requires r in Accepted(all, conforms) && r.body.ExcessOrder?
    ensures var before := BeforeIntervals(all, conforms);
      var commitments := CommitmentsFor(all, before, r.body.point, r.body.from);
      && |commitments| == 1 && Only(commitments).body.Commitment? && Only(commitments).body.positive
      && var c := Only(commitments);
         (c in Accepted(all, conforms) <==> c.body.customer == r.body.customer && HasItsContract(all, before, c))
  {
    hide BeforeIntervals, PlaceCodes, ContractCodes, IsCurrent, HasItsContract;
    var before := BeforeIntervals(all, conforms);
    var commitments := CommitmentsFor(all, before, r.body.point, r.body.from);
    assert ScheduleCodes(all, before, r) == {} && PlaceCodes(all, before, r) == {};
    if |commitments| != 1 {
      NoCodesMeansOne(commitments, PositiveCommitmentMissing, CommitmentAmbiguous);
    }
    var c := Only(commitments);
    assert c in commitments;
    HalfHours(all, conforms, r);
    HalfHours(all, conforms, c);
    SamePlace(all, before, r, c);
    NoContractCodes(all, before, c);
  }
}
