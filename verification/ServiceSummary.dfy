/** The delivery-performance summary of a scope, and how summaries of disjoint scopes combine. */
module ServiceSummary {
  import opened Sequences

  /** One interval row of a version, as far as the summary query reads it. Amounts may be unknown. */
  datatype Fact = Fact(
    expected: nat, committed: nat, commitmentMissing: bool, applicable: nat, accepted: nat, finalCapacity: nat,
    committedMwh: Option<real>, slaNumerator: Option<real>, availabilityNumerator: Option<real>,
    gross: Option<real>, penalty: Option<real>, financialFinal: bool, currency: Option<string>)

  datatype Aggregate = Aggregate(
    intervals: nat, expected: nat, commitments: nat, missing: nat, applicable: nat, accepted: nat, finalCapacity: nat,
    committedMwh: Option<real>, slaNumerator: Option<real>, availabilityNumerator: Option<real>,
    gross: Option<real>, penalty: Option<real>, nonFinal: nat, currencies: set<string>)

  const NOTHING := Aggregate(0, 0, 0, 0, 0, 0, 0, None, None, None, None, None, 0, {})

  /** SQL's sum: unknown only when every addend is. */
  function Plus(a: Option<real>, b: Option<real>): Option<real> {
    if a.None? then b else if b.None? then a else Some(a.value + b.value)
  }

  function Flag(b: bool): nat {
    if b then 1 else 0
  }

  function Merge(a: Aggregate, b: Aggregate): Aggregate {
    Aggregate(a.intervals + b.intervals, a.expected + b.expected, a.commitments + b.commitments, a.missing + b.missing,
              a.applicable + b.applicable, a.accepted + b.accepted, a.finalCapacity + b.finalCapacity,
              Plus(a.committedMwh, b.committedMwh), Plus(a.slaNumerator, b.slaNumerator),
              Plus(a.availabilityNumerator, b.availabilityNumerator), Plus(a.gross, b.gross),
                  Plus(a.penalty, b.penalty),
              a.nonFinal + b.nonFinal, a.currencies + b.currencies)
  }

  function OneFact(f: Fact): Aggregate {
    Aggregate(1, f.expected, f.committed, Flag(f.commitmentMissing), f.applicable, f.accepted, f.finalCapacity,
              f.committedMwh, f.slaNumerator, f.availabilityNumerator, f.gross, f.penalty, Flag(!f.financialFinal),
              if f.currency.Some? then {f.currency.value} else {})
  }

  function AggregateOf(facts: seq<Fact>): Aggregate {
    if facts == [] then NOTHING else Merge(AggregateOf(Front(facts)), OneFact(Last(facts)))
  }

  lemma PlusAssociates(a: Option<real>, b: Option<real>, c: Option<real>)
    ensures Plus(Plus(a, b), c) == Plus(a, Plus(b, c))
  {
  }

  lemma MergeAssociates(a: Aggregate, b: Aggregate, c: Aggregate)
    ensures Merge(Merge(a, b), c) == Merge(a, Merge(b, c))
  {
    hide Plus;
    PlusAssociates(a.committedMwh, b.committedMwh, c.committedMwh);
    PlusAssociates(a.slaNumerator, b.slaNumerator, c.slaNumerator);
    PlusAssociates(a.availabilityNumerator, b.availabilityNumerator, c.availabilityNumerator);
    PlusAssociates(a.gross, b.gross, c.gross);
    PlusAssociates(a.penalty, b.penalty, c.penalty);
  }

  /** The query over two disjoint scopes adds up the queries over each. */
  lemma {:induction false} DisjointScopesAdd(a: seq<Fact>, b: seq<Fact>)
    ensures AggregateOf(a + b) == Merge(AggregateOf(a), AggregateOf(b))
  {
    if b == [] {
      assert a + b == a;
      assert forall s: set<string> :: s + {} == s;
    } else {
      assert Front(a + b) == a + Front(b) && Last(a + b) == Last(b);
      DisjointScopesAdd(a, Front(b));
      MergeAssociates(AggregateOf(a), AggregateOf(Front(b)), OneFact(Last(b)));
    }
  }

  // What the query counts and sums, fact by fact

  function SumOf(facts: seq<Fact>, count: Fact -> nat): nat {
    if facts == [] then 0 else SumOf(Front(facts), count) + count(Last(facts))
  }

  function KnownSum(facts: seq<Fact>, amount: Fact -> Option<real>): real {
    if facts == [] then 0.0
    else KnownSum(Front(facts), amount) + if amount(Last(facts)).Some? then amount(Last(facts)).value else 0.0
  }

  /** The sum of the known amounts, and nothing when none is known. */
  function SumKnown(facts: seq<Fact>, amount: Fact -> Option<real>): Option<real> {
    if exists f :: f in facts && amount(f).Some? then Some(KnownSum(facts, amount)) else None
  }

  lemma {:induction false} NoneKnown(facts: seq<Fact>, amount: Fact -> Option<real>)
    requires forall f :: f in facts ==> amount(f).None?
    ensures KnownSum(facts, amount) == 0.0
  {
    if facts != [] {
      assert Last(facts) in facts && forall f :: f in Front(facts) ==> f in facts;
      NoneKnown(Front(facts), amount);
    }
  }

  lemma OneMoreKnown(facts: seq<Fact>, amount: Fact -> Option<real>)
    requires facts != []
    ensures SumKnown(facts, amount) == Plus(SumKnown(Front(facts), amount), amount(Last(facts)))
  {
    assert forall f :: f in facts <==> f in Front(facts) || f == Last(facts);
    if SumKnown(Front(facts), amount).None? {
      NoneKnown(Front(facts), amount);
    }
  }

  /** Every figure of the aggregate is the number of facts it names, or the sum of that figure over the facts. */
  lemma {:induction false} AggregateSums(facts: seq<Fact>)
    ensures var a := AggregateOf(facts);
      && a.intervals == |facts|
      && a.expected == SumOf(facts, (f: Fact) => f.expected)
      && a.commitments == SumOf(facts, (f: Fact) => f.committed)
      && a.missing == SumOf(facts, (f: Fact) => if f.commitmentMissing then 1 else 0)
      && a.applicable == SumOf(facts, (f: Fact) => f.applicable)
      && a.accepted == SumOf(facts, (f: Fact) => f.accepted)
      && a.finalCapacity == SumOf(facts, (f: Fact) => f.finalCapacity)
      && a.nonFinal == SumOf(facts, (f: Fact) => if f.financialFinal then 0 else 1)
      && a.currencies == set f | f in facts && f.currency.Some? :: f.currency.value
  {
    if facts != [] {
      AggregateSums(Front(facts));
      assert facts == Front(facts) + [Last(facts)];
    }
  }

  lemma {:induction false} AggregateSumsAmounts(facts: seq<Fact>)
    ensures var a := AggregateOf(facts);
      && a.committedMwh == SumKnown(facts, (f: Fact) => f.committedMwh)
      && a.slaNumerator == SumKnown(facts, (f: Fact) => f.slaNumerator)
      && a.availabilityNumerator == SumKnown(facts, (f: Fact) => f.availabilityNumerator)
      && a.gross == SumKnown(facts, (f: Fact) => f.gross)
      && a.penalty == SumKnown(facts, (f: Fact) => f.penalty)
  {
    if facts != [] {
      hide SumKnown, Plus;
      AggregateSumsAmounts(Front(facts));
      OneMoreKnown(facts, (f: Fact) => f.committedMwh);
      OneMoreKnown(facts, (f: Fact) => f.slaNumerator);
      OneMoreKnown(facts, (f: Fact) => f.availabilityNumerator);
      OneMoreKnown(facts, (f: Fact) => f.gross);
      OneMoreKnown(facts, (f: Fact) => f.penalty);
    }
  }

  // The completeness gates

  predicate CommitmentsComplete(a: Aggregate) {
    a.intervals != 0 && a.commitments == a.expected && a.missing == 0
  }

  predicate DeliveryFinal(a: Aggregate) {
    CommitmentsComplete(a) && a.accepted == a.applicable
  }

  predicate AvailabilityFinal(a: Aggregate) {
    CommitmentsComplete(a) && a.finalCapacity == a.applicable
  }

  predicate FinancialFinal(a: Aggregate) {
    DeliveryFinal(a) && a.nonFinal == 0
  }

  datatype Status = NoData | NotApplicable | Final | Provisional

  datatype Summary = Summary(
    completeness: Status, sla: Status, availability: Status, financial: Status,
    commitmentPercent: Option<int>, deliveryPercent: Option<int>, slaPercent: Option<int>,
    availabilityPercent: Option<int>,
    officialPenalty: Option<real>, officialNet: Option<real>)

  datatype Response = Answer(summary: Summary) | IntegrityError

  /** Rounds half to even, as Python's decimal quantize does by default. */
  function HalfEven(x: real): int {
    var whole := x.Floor;
    var rest := x - whole as real;
    if rest < 0.5 then whole else if rest > 0.5 then whole + 1 else if whole % 2 == 0 then whole else whole + 1
  }

  /** A percentage in millionths of a percent. */
  function Percent(numerator: real, denominator: real): int
    requires denominator > 0.0
  {
    HalfEven(100.0 * numerator / denominator * 1000000.0)
  }

  function Gate(a: Aggregate, final: bool): Status {
    if a.intervals == 0 then NoData
    else if CommitmentsComplete(a) && a.applicable == 0 then NotApplicable
    else if final then Final
    else Provisional
  }

  predicate Governed(numerator: Option<real>, denominator: Option<real>) {
    numerator.Some? && denominator.Some? && denominator.value > 0.0
  }

  /** A final figure must have its stored values; otherwise the mart is broken and no summary is given. */
  predicate Intact(a: Aggregate) {
    && |a.currencies| <= 1
    && (DeliveryFinal(a) && a.applicable > 0 ==> Governed(a.slaNumerator, a.committedMwh))
    && (AvailabilityFinal(a) && a.applicable > 0 ==> Governed(a.availabilityNumerator, a.committedMwh))
    && (FinancialFinal(a) ==> a.gross.Some? && a.penalty.Some?)
  }

  function BuildSummaryResponse(a: Aggregate): (r: Response)
    ensures r.Answer? <==> Intact(a)
  {
    if !Intact(a) then IntegrityError
    else
      Answer(Summary(
        Gate(a, DeliveryFinal(a)), Gate(a, DeliveryFinal(a)), Gate(a, AvailabilityFinal(a)),
        if a.intervals == 0 then NoData else if FinancialFinal(a) then Final else Provisional,
        if a.expected > 0 then Some(Percent(a.commitments as real, a.expected as real)) else None,
        if CommitmentsComplete(a) && a.applicable > 0 then Some(Percent(a.accepted as real, a.applicable as real))
          else None,
        if DeliveryFinal(a) && a.applicable > 0 then Some(Percent(a.slaNumerator.value, a.committedMwh.value))
          else None,
        if AvailabilityFinal(a) && a.applicable > 0
          then Some(Percent(a.availabilityNumerator.value, a.committedMwh.value)) else None,
        if FinancialFinal(a) then a.penalty else None,
        if FinancialFinal(a) then Some(a.gross.value - a.penalty.value) else None))
  }

  /** The percentage, in millionths of a percent, is the quotient up to half a unit. */
  ghost predicate Rounds(percent: Option<int>, numerator: real, denominator: real) {
    percent.Some? &&
    -denominator <= 2.0 * (percent.value as real * denominator - 100000000.0 * numerator) <= denominator
  }

  lemma PercentRounds(numerator: real, denominator: real)
    requires denominator > 0.0
    ensures Rounds(Some(Percent(numerator, denominator)), numerator, denominator)
  {
    var x := 100.0 * numerator / denominator * 1000000.0;
    HalfEvenIsNearest(x);
    assert x * denominator == 100000000.0 * numerator;
    var p := HalfEven(x) as real;
    ScaledBound(x, p, denominator, 100000000.0 * numerator);
  }

  lemma ScaledBound(x: real, p: real, y: real, z: real)
    requires y > 0.0 && -0.5 <= x - p <= 0.5 && x * y == z
    ensures -y <= 2.0 * (p * y - z) <= y
  {
    var d := p - x;
    var q := d * y;
    ProductsKeepOrder(0.5, d, y);
    ProductsKeepOrder(d, -0.5, y);
    assert q == p * y - z;
    assert -0.5 * y <= q <= 0.5 * y;
  }

  /** A scope is refused for a second currency, or for a final figure without the values it is made of. */
  lemma RefusedIff(a: Aggregate)
    ensures var complete := a.intervals > 0 && a.commitments == a.expected && a.missing == 0;
      var energy := a.committedMwh.Some? && a.committedMwh.value > 0.0;
      BuildSummaryResponse(a).IntegrityError? <==>
        || |a.currencies| >= 2
        || (complete && a.accepted == a.applicable > 0 && !(energy && a.slaNumerator.Some?))
        || (complete && a.finalCapacity == a.applicable > 0 && !(energy && a.availabilityNumerator.Some?))
        || (complete && a.accepted == a.applicable && a.nonFinal == 0 && !(a.gross.Some? && a.penalty.Some?))
  {
  }

  /**
    An answer gives a final figure exactly when its gate is passed: the net is what is left of the
    gross after the penalty, and each percentage is the rounded quotient of its two figures.
   */
  lemma AnswerSays(a: Aggregate)
    requires BuildSummaryResponse(a).Answer?
    ensures var s := BuildSummaryResponse(a).summary;
      var complete := a.intervals > 0 && a.commitments == a.expected && a.missing == 0;
      var delivered, available := complete && a.accepted == a.applicable, complete && a.finalCapacity == a.applicable;
      var settled := delivered && a.nonFinal == 0;
      && (s.officialNet.Some? <==> settled) && (s.officialPenalty.Some? <==> settled)
      && (settled ==> a.gross.Some? && s.officialPenalty == a.penalty
                      && s.officialNet.value + s.officialPenalty.value == a.gross.value)
      && (if a.expected > 0 then Rounds(s.commitmentPercent, a.commitments as real, a.expected as real)
          else s.commitmentPercent.None?)
      && (if complete && a.applicable > 0 then Rounds(s.deliveryPercent, a.accepted as real, a.applicable as real)
          else s.deliveryPercent.None?)
      && (if delivered && a.applicable > 0
          then a.slaNumerator.Some? && a.committedMwh.Some? && a.committedMwh.value > 0.0
               && Rounds(s.slaPercent, a.slaNumerator.value, a.committedMwh.value)
          else s.slaPercent.None?)
      && (if available && a.applicable > 0
          then a.availabilityNumerator.Some? && a.committedMwh.Some?
               && Rounds(s.availabilityPercent, a.availabilityNumerator.value, a.committedMwh.value)
          else s.availabilityPercent.None?)
      && (a.applicable > 0 ==>
          && (s.completeness.Final? <==> delivered) && (s.sla.Final? <==> delivered)
          && (s.availability.Final? <==> available))
      && (s.financial.Final? <==> settled)
      && (s.completeness.NotApplicable? <==> complete && a.applicable == 0)
      && (s.completeness.NoData? <==> a.intervals == 0) && (s.financial.NoData? <==> a.intervals == 0)
      && !s.financial.NotApplicable? && (s.completeness == s.sla)
      && (s.availability.NotApplicable? <==> complete && a.applicable == 0)
      && (s.availability.NoData? <==> a.intervals == 0)
  {
    hide Percent, Rounds;
    if a.expected > 0 {
      PercentRounds(a.commitments as real, a.expected as real);
    }
    if a.applicable > 0 {
      PercentRounds(a.accepted as real, a.applicable as real);
      if a.committedMwh.Some? && a.committedMwh.value > 0.0 {
        if a.slaNumerator.Some? {
          PercentRounds(a.slaNumerator.value, a.committedMwh.value);
        }
        if a.availabilityNumerator.Some? {
          PercentRounds(a.availabilityNumerator.value, a.committedMwh.value);
        }
      }
    }
  }

  // Unions of scopes

  /** A scope of at least one interval whose rows never count more than is expected or applicable. */
  ghost predicate Bounded(a: Aggregate) {
    a.intervals > 0 && a.commitments <= a.expected && a.accepted <= a.applicable && a.finalCapacity <= a.applicable
  }

  ghost predicate CommitsNoNegative(a: Aggregate) {
    a.committedMwh.Some? ==> a.committedMwh.value >= 0.0
  }

  /** A union of scopes is final exactly when every part is. */
  lemma UnionIsFinalIffPartsAre(a: Aggregate, b: Aggregate)
    requires Bounded(a) && Bounded(b)
    ensures CommitmentsComplete(Merge(a, b)) <==> CommitmentsComplete(a) && CommitmentsComplete(b)
    ensures DeliveryFinal(Merge(a, b)) <==> DeliveryFinal(a) && DeliveryFinal(b)
    ensures AvailabilityFinal(Merge(a, b)) <==> AvailabilityFinal(a) && AvailabilityFinal(b)
    ensures FinancialFinal(Merge(a, b)) <==> FinancialFinal(a) && FinancialFinal(b)
  {
  }

  /** No union of intact scopes is broken, if no scope commits negative energy or every scope has applicable periods. */
  lemma UnionIsIntact(a: Aggregate, b: Aggregate)
    requires Bounded(a) && Bounded(b) && |a.currencies + b.currencies| <= 1 && Intact(a) && Intact(b)
    requires (CommitsNoNegative(a) && CommitsNoNegative(b)) || (a.applicable > 0 && b.applicable > 0)
    ensures Intact(Merge(a, b))
  {
    UnionIsFinalIffPartsAre(a, b);
  }

  /** The official net of a union is the sum of the nets, and is given exactly when both are. */
  lemma UnionNetIsSumOfNets(a: Aggregate, b: Aggregate)
    requires Bounded(a) && Bounded(b) && |a.currencies + b.currencies| <= 1
    requires (CommitsNoNegative(a) && CommitsNoNegative(b)) || (a.applicable > 0 && b.applicable > 0)
    requires BuildSummaryResponse(a).Answer? && BuildSummaryResponse(b).Answer?
    ensures BuildSummaryResponse(Merge(a, b)).Answer?
    ensures var x, y, z := BuildSummaryResponse(a).summary, BuildSummaryResponse(b).summary,
                           BuildSummaryResponse(Merge(a, b)).summary;
      && (z.officialNet.Some? <==> x.officialNet.Some? && y.officialNet.Some?)
      && (z.officialNet.Some? ==> z.officialNet.value == x.officialNet.value + y.officialNet.value)
      && (z.officialPenalty.Some? ==> z.officialPenalty.value == x.officialPenalty.value + y.officialPenalty.value)
  {
    UnionIsFinalIffPartsAre(a, b);
    UnionIsIntact(a, b);
  }

  /** Rounding picks the nearest whole number, and the even one of two equally near. */
  lemma HalfEvenIsNearest(x: real)
    ensures -0.5 <= x - HalfEven(x) as real <= 0.5
    ensures x - HalfEven(x) as real == 0.5 || x - HalfEven(x) as real == -0.5 ==> HalfEven(x) % 2 == 0
  {
    assert x.Floor as real <= x < (x.Floor + 1) as real;
  }

  lemma HalfEvenIsMonotone(x: real, y: real)
    requires x <= y
    ensures HalfEven(x) <= HalfEven(y)
  {
  }

  lemma QuotientTimesDivisor(x: real, y: real)
    requires y > 0.0
    ensures x / y * y == x
  {
  }

  lemma ProductsKeepOrder(a: real, b: real, y: real)
    requires y > 0.0
    ensures a < b <==> a * y < b * y
  {
  }

  lemma QuotientBounds(low: real, x: real, y: real, high: real)
    requires y > 0.0 && low * y <= x <= high * y
    ensures low <= x / y <= high
  {
    QuotientTimesDivisor(x, y);
    ProductsKeepOrder(x / y, low, y);
    ProductsKeepOrder(high, x / y, y);
  }

  /** A ratio of sums lies between the ratios. */
  lemma RatioOfSums(m: real, c: real, n: real, d: real)
    requires c > 0.0 && d > 0.0 && m / c <= n / d
    ensures m / c <= (m + n) / (c + d) <= n / d
  {
    var p, q := m / c, n / d;
    QuotientTimesDivisor(m, c);
    QuotientTimesDivisor(n, d);
    ProductsKeepOrder(q, p, d);
    ProductsKeepOrder(q, p, c);
    Distributes(p, c, d);
    Distributes(q, c, d);
    var y, x := c + d, m + n;
    assert p * y <= x;
    assert x <= q * y;
    QuotientBounds(p, x, y, q);
  }

  lemma Distributes(p: real, c: real, d: real)
    ensures p * (c + d) == p * c + p * d
  {
  }

  lemma PercentIsMonotone(m: real, c: real, n: real, d: real)
    requires c > 0.0 && d > 0.0 && m / c <= n / d
    ensures Percent(m, c) <= Percent(n, d)
  {
    assert 100.0 * m / c * 1000000.0 == 100000000.0 * (m / c);
    assert 100.0 * n / d * 1000000.0 == 100000000.0 * (n / d);
    HalfEvenIsMonotone(100.0 * m / c * 1000000.0, 100.0 * n / d * 1000000.0);
  }

  lemma PercentOfSums(m: real, c: real, n: real, d: real)
    requires c > 0.0 && d > 0.0
    ensures var low, high := Min(Percent(m, c), Percent(n, d)), Max(Percent(m, c), Percent(n, d));
      low <= Percent(m + n, c + d) <= high
  {
    if m / c <= n / d {
      RatioOfSums(m, c, n, d);
      PercentIsMonotone(m, c, m + n, c + d);
      PercentIsMonotone(m + n, c + d, n, d);
    } else {
      RatioOfSums(n, d, m, c);
      assert n + m == m + n && d + c == c + d;
      PercentIsMonotone(n, d, m + n, c + d);
      PercentIsMonotone(m + n, c + d, m, c);
    }
  }

  function Max(a: int, b: int): int {
    if a <= b then b else a
  }

  /** The rounded SLA percentage of a union lies between those of its parts, when both have applicable periods. */
  lemma UnionSlaLiesBetween(a: Aggregate, b: Aggregate)
    requires Bounded(a) && Bounded(b) && a.applicable > 0 && b.applicable > 0 && |a.currencies + b.currencies| <= 1
    requires BuildSummaryResponse(a).Answer? && BuildSummaryResponse(b).Answer?
    ensures BuildSummaryResponse(Merge(a, b)).Answer?
    ensures var x, y, z := BuildSummaryResponse(a).summary.slaPercent, BuildSummaryResponse(b).summary.slaPercent,
                           BuildSummaryResponse(Merge(a, b)).summary.slaPercent;
      && (z.Some? <==> x.Some? && y.Some?)
      && (z.Some? ==> Min(x.value, y.value) <= z.value <= Max(x.value, y.value))
  {
    hide Percent, Min, Max;
    UnionNetIsSumOfNets(a, b);
    UnionIsFinalIffPartsAre(a, b);
    if DeliveryFinal(a) && DeliveryFinal(b) {
      PercentOfSums(a.slaNumerator.value, a.committedMwh.value, b.slaNumerator.value, b.committedMwh.value);
    }
  }
}
