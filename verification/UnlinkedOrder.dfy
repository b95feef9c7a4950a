/**
  A bundle whose excess order is accepted although the commitment it adjusts is quarantined: the
  interval pass looks the commitment up in a list drawn up before any interval row was judged.
 */
module UnlinkedOrder {
  import opened Sequences
  import opened ValidationRules
  import opened ValidationResults

  function Published(version: string, body: Body): Record {
    Record("crm", version, true, Revision("1", Some(1)), true, true, true, None, body, "")
  }

  const ALWAYS := Span(0, None)
  const CUSTOMER := Published("CUST-V1", Customer("CUST-001", ALWAYS, true))
  const SITE := Published("SITE-V1", Site("SITE-001", ALWAYS, true))
  const ASSIGNMENT := Published("DPA-001", Assignment("DP-001", "SITE-001", "CUST-001", ALWAYS))
  const CONTRACT := Published("TERMS-1", Contract("CONTRACT-001", "DP-001", "CUST-001", ALWAYS))
  /** It names a contract nobody published. */
  const COMMITMENT := Published("", Commitment("DP-001", "CUST-001", "CONTRACT-999", 0, HALF_HOUR, true))
  const ORDER := Published("", ExcessOrder("L-001", "DP-001", "CUST-001", "CONTRACT-001", 0, HALF_HOUR))

  const BUNDLE := {CUSTOMER, SITE, ASSIGNMENT, CONTRACT, COMMITMENT, ORDER}

  function AnySchema(): Record -> bool {
    r => true
  }

  ghost predicate OnePerDataset(all: set<Record>) {
    forall r, s :: r in all && s in all && r.Dataset() == s.Dataset() ==> r == s
  }

  lemma BundleHasOnePerDataset()
    ensures OnePerDataset(BUNDLE)
  {
  }

  lemma {:induction false} NothingOverlaps(all: set<Record>, rules: seq<OverlapRule>)
    requires OnePerDataset(all)
    ensures AfterRules(all, all, rules) == all
  {
    if rules != [] {
      NothingOverlaps(all, Front(rules));
      forall r | r in all ensures !Overlapping(all, all, Last(rules), r) {
        forall s | s in all ensures !Clash(all, Last(rules), r, s) {
          assert Clash(all, Last(rules), r, s) ==> r.Dataset() == s.Dataset();
        }
      }
    }
  }

  lemma EachIsCurrent(all: set<Record>, r: Record)
    requires OnePerDataset(all) && r in all
    ensures IsCurrent(all, r)
    ensures !Conflicts(all, r)
  {
    assert forall s :: s in all && s.Episode() == r.Episode() ==> s.Dataset() == r.Dataset();
  }

  lemma NoRowFailsAlone(r: Record)
    requires r in BUNDLE
    ensures !HasOpaqueId(r) && LocalCodes(r) == {}
  {
  }

  lemma SoundRowsPass(all: set<Record>)
    requires OnePerDataset(all) && forall r :: r in all ==> !HasOpaqueId(r) && LocalCodes(r) == {}
    ensures BeforeReferences(all, AnySchema()) == all
  {
    hide HasOpaqueId, LocalCodes, Conflicts;
    forall r | r in all ensures !Conflicts(all, r) {
      EachIsCurrent(all, r);
    }
    assert Conforming(all, AnySchema()) == all;
    assert AfterRevisions(all) == all;
    assert AfterOpaqueIds(all) == all;
    assert AfterLocalRules(all) == all;
  }

  lemma {:induction false} PassesLeaveAll(all: set<Record>)
    requires BeforeReferences(all, AnySchema()) == all == AfterReferences(all) == AfterRules(all, all, RULES)
    ensures BeforeIntervals(all, AnySchema()) == all
  {
    hide BeforeReferences, AfterReferences, AfterRules;
  }

  lemma NothingRejectedBefore()
    ensures BeforeIntervals(BUNDLE, AnySchema()) == BUNDLE
  {
    hide *;
    BundleHasOnePerDataset();
    NothingOverlaps(BUNDLE, RULES);
    forall r | r in BUNDLE ensures !HasOpaqueId(r) && LocalCodes(r) == {} {
      NoRowFailsAlone(r);
    }
    SoundRowsPass(BUNDLE);
    ReferencesHold();
    PassesLeaveAll(BUNDLE);
  }

  lemma ReferencesHold()
    ensures AfterReferences(BUNDLE) == BUNDLE
  {
    assert CUSTOMER.body.customer in CustomersOf(BUNDLE) && SITE.body.site in SitesOf(BUNDLE);
    assert AfterParents(BUNDLE) == BUNDLE;
    assert ASSIGNMENT.body.point in PointsOf(BUNDLE);
  }

  lemma AllAreActive(r: Record)
    requires r in BUNDLE
    ensures Active(BUNDLE, r)
  {
    BundleHasOnePerDataset();
    EachIsCurrent(BUNDLE, r);
    hide IsCurrent;
  }

  lemma MastersCover()
    ensures AssignmentsFor(BUNDLE, BUNDLE, "DP-001", 0, HALF_HOUR) == {ASSIGNMENT}
    ensures CustomersFor(BUNDLE, BUNDLE, "CUST-001", 0, HALF_HOUR) == {CUSTOMER}
    ensures SitesFor(BUNDLE, BUNDLE, "SITE-001", 0, HALF_HOUR) == {SITE}
    ensures ContractsFor(BUNDLE, BUNDLE, "CONTRACT-001", 0, HALF_HOUR) == {CONTRACT}
  {
    hide Active;
    AllAreActive(CUSTOMER);
    AllAreActive(SITE);
    AllAreActive(ASSIGNMENT);
    AllAreActive(CONTRACT);
  }

  lemma OnlyOneCommitment()
    ensures ORDER in BUNDLE && ORDER.body.ExcessOrder?
    ensures CommitmentsFor(BUNDLE, BUNDLE, ORDER.body.point, ORDER.body.from) == {COMMITMENT}
  {
    hide Active;
    AllAreActive(COMMITMENT);
  }

  lemma OrderPasses()
    ensures IntervalCodes(BUNDLE, BUNDLE, ORDER) == {}
  {
    hide BUNDLE, AssignmentsFor, CustomersFor, SitesFor, ContractsFor, CommitmentsFor;
    MastersCover();
    OnlyOneCommitment();
    assert PlaceCodes(BUNDLE, BUNDLE, ORDER) == {};
    assert ScheduleCodes(BUNDLE, BUNDLE, ORDER) == {};
  }

  lemma CommitmentFails()
    ensures !HasItsContract(BUNDLE, BUNDLE, COMMITMENT)
  {
    hide Active;
    assert ContractsFor(BUNDLE, BUNDLE, "CONTRACT-999", 0, HALF_HOUR) == {};
  }

  lemma PassedIsAccepted(all: set<Record>, r: Record)
    requires BeforeIntervals(all, AnySchema()) == all && r in all && IntervalCodes(all, all, r) == {}
    ensures r in Accepted(all, AnySchema())
  {
    hide BeforeIntervals, IntervalCodes;
  }

  /** Accepted orders need not have an accepted commitment. */
  lemma OrderOutlivesItsCommitment()
    ensures ORDER in Accepted(BUNDLE, AnySchema()) && COMMITMENT !in Accepted(BUNDLE, AnySchema())
  {
    hide *;
    NothingRejectedBefore();
    OrderPasses();
    OnlyOneCommitment();
    PassedIsAccepted(BUNDLE, ORDER);
    CommitmentFails();
    OrdersCommitmentIsAcceptedIff(BUNDLE, AnySchema(), ORDER);
  }
}
