/** What the rules of a bundle validation amount to, in terms of the records alone. */
module RuleMeanings {
  import opened ValidationRules
  import opened ValidationResults

  // Rules about one record

  /** The codes a record earns on its own account, one by one. */
  lemma LocalRulesSay(r: Record)
    ensures var codes := LocalCodes(r);
      && (BusinessRuleValueInvalid in codes <==> (r.body.Timed() || r.body.Effective()) && !r.readable)
      && (IntervalNot30Minutes in codes <==> r.readable && r.body.Timed() && r.body.to != r.body.from + 1800000000)
      && (IntervalNotAligned in codes <==> r.readable && r.body.Timed() && r.body.from % 1800000000 != 0)
      && (CapacityArithmeticMismatch in codes <==>
            && r.readable && r.body.Capacity?
            && r.body.deliverable !=
               if r.body.restriction <= r.body.nameplate then r.body.nameplate - r.body.restriction else 0)
      && (InvalidEffectivePeriod in codes <==>
            r.readable && r.body.Effective() && r.body.span.end.Some? && r.body.span.end.value <= r.body.span.start)
      && codes <= {BusinessRuleValueInvalid, IntervalNot30Minutes, IntervalNotAligned, CapacityArithmeticMismatch,
                   InvalidEffectivePeriod}
  {
  }

  /** Only commitments, readings and capacities carry a publisher's revision id, and it must not name two facts. */
  lemma OpaqueIdsSay(valid: set<Record>, r: Record)
    ensures r in AfterOpaqueIds(valid) <==>
      && r in valid
      && ((r.body.Commitment? || r.body.Reading? || r.body.Capacity?) && r.opaqueId.Some? ==>
           forall s :: s in valid && s.Dataset() == r.Dataset() && s.opaqueId == r.opaqueId ==>
             s.Identity() == r.Identity())
  {
    hide Record.Identity;
    if r in valid && HasOpaqueId(r) {
      forall s | s in valid && s.Dataset() == r.Dataset() && s.opaqueId == r.opaqueId ensures SharesOpaqueId(r, s) {
      }
    }
  }

  // References

  /** A reference pass keeps exactly what refers to customers, sites and, of what it keeps, points. */
  lemma ReferencesSay(valid: set<Record>, r: Record)
    ensures r in AfterReferences(valid) <==>
      && r in valid
      && (r.body.Assignment? ==> Placed(valid, r))
      && (r.body.Meter? || r.body.Contract? ==>
           exists a :: a in valid && a.body.Assignment? && a.body.point == r.body.point && Placed(valid, a))
      && (r.body.Contract? ==> exists c :: c in valid && c.body.Customer? && c.body.customer == r.body.customer)
  {
    hide Placed;
    var kept := AfterParents(valid);
    forall a | a in valid ensures a in kept <==> (a.body.Assignment? ==> Placed(valid, a)) {
      ParentsSay(valid, a);
    }
    if r.body.Meter? || r.body.Contract? {
      assert r.body.point in PointsOf(kept) <==>
        exists a :: a in kept && a.body.Assignment? && a.body.point == r.body.point;
    }
  }

  ghost predicate Placed(valid: set<Record>, a: Record)
    requires a.body.Assignment?
  {
    && (exists c :: c in valid && c.body.Customer? && c.body.customer == a.body.customer)
    && (exists s :: s in valid && s.body.Site? && s.body.site == a.body.site)
  }

  lemma ParentsSay(valid: set<Record>, a: Record)
    requires a in valid
    ensures a in AfterParents(valid) <==> (a.body.Assignment? ==> Placed(valid, a))
  {
  }

  /** Which reference is missing. */
  lemma ReferenceCodesSay(customers: set<string>, sites: set<string>, points: set<string>, r: Record)
    ensures CustomerReferenceMissing in ParentCodes(customers, sites, r) <==>
      r.body.Assignment? && r.body.customer !in customers
    ensures SiteReferenceMissing in ParentCodes(customers, sites, r) <==>
      r.body.Assignment? && r.body.site !in sites
    ensures ParentCodes(customers, sites, r) <= {CustomerReferenceMissing, SiteReferenceMissing}
    ensures CustomerReferenceMissing in ChildCodes(customers, points, r) <==>
      r.body.Contract? && r.body.customer !in customers
    ensures DeliveryPointReferenceMissing in ChildCodes(customers, points, r) <==>
      (r.body.Meter? || r.body.Contract?) && r.body.point !in points
    ensures ChildCodes(customers, points, r) <= {CustomerReferenceMissing, DeliveryPointReferenceMissing}
  {
  }

  // Overlaps

  /** The seven groups in which effective periods must not overlap. */
  lemma GroupsSay(all: set<Record>, rule: OverlapRule, r: Record, s: Record)
    ensures SameGroup(all, rule, r, s) <==>
      && InForce(all, r) && InForce(all, s)
      && match rule
         case CustomerRule => r.body.Customer? && s.body.Customer? && r.body.customer == s.body.customer
         case SiteRule => r.body.Site? && s.body.Site? && r.body.site == s.body.site
         case PointRule => r.body.Assignment? && s.body.Assignment? && r.body.point == s.body.point
         case SitePointRule => r.body.Assignment? && s.body.Assignment? && r.body.site == s.body.site
         case MeterRule =>
           && r.body.Meter? && s.body.Meter? && r.body.authoritative && s.body.authoritative
           && r.body.meter == s.body.meter && r.body.register == s.body.register
         case PointMeterRule =>
           && r.body.Meter? && s.body.Meter? && r.body.authoritative && s.body.authoritative
           && r.body.point == s.body.point
         case ContractRule => r.body.Contract? && s.body.Contract? && r.body.point == s.body.point
  {
    hide Record.Episode;
    if InRule(rule, r) && InRule(rule, s) {
      var a, b := GroupKey(rule, r), GroupKey(rule, s);
      assert a == b <==> a[0] == b[0] && (rule.MeterRule? ==> a[1] == b[1]);
    }
  }

  /** Approved, active, and not superseded by any record of its episode in the bundle, valid or not. */
  ghost predicate InForce(all: set<Record>, r: Record) {
    && r.approved && r.active
    && forall s :: s in all && s.Episode() == r.Episode() ==> s.Number() <= r.Number()
  }

  // Coverage at event time

  /** A period covers a stretch exactly when every instant of the stretch lies in it. */
  lemma CoversIntervalSays(span: Span, from: Time, to: Time, t: Time)
    requires from < to
    ensures CoversInterval(span, from, to) && from <= t < to ==>
      span.start <= t && (span.end.None? || t < span.end.value)
    ensures !CoversInterval(span, from, to) ==>
      from < span.start || (span.end.Some? && span.end.value <= to - 1)
    ensures CoversEvent(span, t) <==> span.start <= t && (span.end.None? || t < span.end.value)
  {
  }

  /** Where the terms of a contract differ from the record that names it. */
  lemma TermsSay(terms: Record, r: Record)
    requires terms.body.Contract? && (r.body.Commitment? || r.body.ExcessOrder?)
    ensures ContractPointMismatch in TermsCodes(terms, r) <==> terms.body.point != r.body.point
    ensures ContractCustomerMismatch in TermsCodes(terms, r) <==> terms.body.customer != r.body.customer
    ensures TermsCodes(terms, r) <= {ContractPointMismatch, ContractCustomerMismatch}
  {
  }

  // Which code an interval row earns

  lemma CoverageSays(matches: set<Record>, missing: Code, ambiguous: Code)
    requires missing != ambiguous
    ensures var codes := CoverageCodes(matches, missing, ambiguous);
      && (missing in codes <==> matches == {}) && (ambiguous in codes <==> |matches| >= 2)
      && codes <= {missing, ambiguous}
  {
  }

  /** No contract of the id covers the half-hour, several do, or the one that does has other terms. */
  lemma ContractCodesSay(all: set<Record>, valid: set<Record>, r: Record)
    requires r.body.Commitment? || r.body.ExcessOrder?
    ensures var codes := ContractCodes(all, valid, r);
      var contracts := ContractsFor(all, valid, r.body.contract, r.body.from, r.body.to);
      && (ContractCoverageMissing in codes <==> contracts == {})
      && (ContractCoverageAmbiguous in codes <==> |contracts| >= 2)
      && (ContractPointMismatch in codes <==>
           |contracts| == 1 && exists k :: k in contracts && k.body.point != r.body.point)
      && (ContractCustomerMismatch in codes <==>
           |contracts| == 1 && exists k :: k in contracts && k.body.customer != r.body.customer)
  {
    hide Active, CoversInterval;
    var contracts := ContractsFor(all, valid, r.body.contract, r.body.from, r.body.to);
    if |contracts| == 1 {
      assert contracts == {Only(contracts)};
      assert Only(contracts) in contracts;
    } else {
      CoverageSays(contracts, ContractCoverageMissing, ContractCoverageAmbiguous);
    }
  }

  /** The order's half-hour has no current commitment that is positive, or more than one current commitment. */
  lemma ScheduleCodesSay(all: set<Record>, valid: set<Record>, r: Record)
    requires r.body.ExcessOrder?
    ensures var codes := ScheduleCodes(all, valid, r);
      var commitments := CommitmentsFor(all, valid, r.body.point, r.body.from);
      && (CommitmentAmbiguous in codes <==> |commitments| >= 2)
      && (PositiveCommitmentMissing in codes <==>
           |commitments| < 2 && forall k :: k in commitments ==> !k.body.positive)
      && codes <= {CommitmentAmbiguous, PositiveCommitmentMissing}
  {
    hide Active;
    var commitments := CommitmentsFor(all, valid, r.body.point, r.body.from);
    if |commitments| == 1 {
      assert commitments == {Only(commitments)};
      assert Only(commitments) in commitments;
    } else {
      CoverageSays(commitments, PositiveCommitmentMissing, CommitmentAmbiguous);
    }
  }

  /** No authoritative meter covers the reading, several do, or the one that does has other metadata. */
  lemma MeterCodesSay(all: set<Record>, valid: set<Record>, r: Record)
    requires r.body.Reading?
    ensures var codes := MeterCodes(all, valid, r);
      var meters := MetersFor(all, valid, r.body.meter, r.body.register, r.body.at);
      && (MeterCoverageMissing in codes <==> meters == {}) && (MeterCoverageAmbiguous in codes <==> |meters| >= 2)
      && (MeterMetadataMismatch in codes <==>
           |meters| == 1 && exists k :: k in meters && k.body.metadata != r.body.metadata)
      && codes <= {MeterCoverageMissing, MeterCoverageAmbiguous, MeterMetadataMismatch}
  {
    hide Active, CoversEvent;
    var meters := MetersFor(all, valid, r.body.meter, r.body.register, r.body.at);
    if |meters| == 1 {
      assert meters == {Only(meters)};
      assert Only(meters) in meters;
    } else {
      CoverageSays(meters, MeterCoverageMissing, MeterCoverageAmbiguous);
    }
  }

  /** Of the customer and the site of the one assignment, none or several versions cover the half-hour. */
  lemma ContextCodesSay(all: set<Record>, valid: set<Record>, a: Record, from: Time, to: Time)
    requires a.body.Assignment?
    ensures var codes := ContextCodes(all, valid, a, from, to);
      var customers, sites := CustomersFor(all, valid, a.body.customer, from, to),
          SitesFor(all, valid, a.body.site, from, to);
      && (CustomerCoverageMissing in codes <==> customers == {})
      && (CustomerCoverageAmbiguous in codes <==> |customers| >= 2)
      && (SiteCoverageMissing in codes <==> sites == {}) && (SiteCoverageAmbiguous in codes <==> |sites| >= 2)
      && codes <= {CustomerCoverageMissing, CustomerCoverageAmbiguous, SiteCoverageMissing, SiteCoverageAmbiguous}
  {
    hide CustomersFor, SitesFor, CoverageCodes;
    CoverageSays(CustomersFor(all, valid, a.body.customer, from, to), CustomerCoverageMissing,
                 CustomerCoverageAmbiguous);
    CoverageSays(SitesFor(all, valid, a.body.site, from, to), SiteCoverageMissing, SiteCoverageAmbiguous);
  }

  /** The assignment comes first: without exactly one there is no other code. */
  lemma PlaceCodesSay(all: set<Record>, valid: set<Record>, r: Record)
    requires r.body.Timed()
    ensures var places := AssignmentsFor(all, valid, r.body.point, r.body.from, r.body.to);
      && (places == {} ==> PlaceCodes(all, valid, r) == {AssignmentCoverageMissing})
      && (|places| >= 2 ==> PlaceCodes(all, valid, r) == {AssignmentCoverageAmbiguous})
  {
    hide AssignmentsFor, ContextCodes, ContractCodes;
  }

  /** The row must name the customer of the one assignment; customer, site and contract must cover it. */
  lemma OnePlaceSays(all: set<Record>, valid: set<Record>, r: Record)
    requires r.body.Timed() && |AssignmentsFor(all, valid, r.body.point, r.body.from, r.body.to)| == 1
    ensures var a := Only(AssignmentsFor(all, valid, r.body.point, r.body.from, r.body.to));
      && a.body.Assignment?
      && PlaceCodes(all, valid, r) == ContextCodes(all, valid, a, r.body.from, r.body.to) +
        if r.body.Capacity? then {}
        else
          ContractCodes(all, valid, r) +
          if r.body.customer == a.body.customer then {} else {AssignmentCustomerMismatch}
  {
    hide AssignmentsFor, ContextCodes, ContractCodes, CoverageCodes;
    AssignmentsMatch(all, valid, r.body.point, r.body.from, r.body.to);
  }
}
