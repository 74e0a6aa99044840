/**
 The composite score of a lead-time path, over the real numbers.
 */
module PathScore {
  import opened Wrappers

  /** What the ranker reads of a path; `riskFlags` is the number of flags. */
  datatype PathRecord = PathRecord(
    pathId: string,
    supplierId: string,
    totalLeadTimeDays: int,
    riskScore: real,
    unitPrice: Option<real>,
    confidence: real,
    feasible: bool,
    riskFlags: nat)

  /** The divisions of the score are defined; on other records the source raises. */
  predicate Scorable(p: PathRecord) {
    p.totalLeadTimeDays != -30 && p.riskScore != -1.0
  }

  type PathData = p: PathRecord | Scorable(p) witness PathRecord("", "", 0, 0.0, None, 0.5, true, 0)

  /** What the producers of paths guarantee: no negative lead time or risk. */
  predicate WellFormed(p: PathData) {
    p.totalLeadTimeDays >= 0 && p.riskScore >= 0.0
  }

  function LeadFactor(p: PathData): real {
    1.0 / (1.0 + p.totalLeadTimeDays as real / 30.0)
  }

  function RiskFactor(p: PathData): real {
    1.0 / (1.0 + p.riskScore)
  }

  function PriceFactor(p: PathData): real {
    if p.unitPrice.Some? && p.unitPrice.value > 0.0 then 1.0 / (1.0 + p.unitPrice.value / 100.0) else 1.0
  }

  function FeasibilityBonus(p: PathData): real {
    if p.feasible then 1.2 else 0.5
  }

  function CompositeScore(p: PathData): real {
    p.confidence * LeadFactor(p) * RiskFactor(p) * (1.0 + PriceFactor(p) * 0.1) * FeasibilityBonus(p)
  }

  // ---------------------------------------------------------------------
  // The score respects every criterion
  // ---------------------------------------------------------------------

  /** The price as it enters the score: a missing or non-positive price is best. */
  function PriceCost(p: PathData): real {
    if p.unitPrice.Some? && p.unitPrice.value > 0.0 then p.unitPrice.value else 0.0
  }

  /** `a` is no worse than `b` on any criterion. */
  predicate NoWorse(a: PathData, b: PathData) {
    && a.totalLeadTimeDays <= b.totalLeadTimeDays
    && a.riskScore <= b.riskScore
    && PriceCost(a) <= PriceCost(b)
    && a.confidence >= b.confidence
    && (b.feasible ==> a.feasible)
  }

  lemma ReciprocalFalls(x: real, y: real)
    requires 0.0 < x <= y
    ensures 0.0 < 1.0 / y <= 1.0 / x
    ensures x < y ==> 1.0 / y < 1.0 / x
  {
    assert 1.0 / x == (1.0 / (x * y)) * y;
    assert 1.0 / y == (1.0 / (x * y)) * x;
  }

  lemma ProductRises(a: real, b: real, c: real, d: real)
    requires 0.0 <= a <= b && 0.0 <= c <= d
    ensures 0.0 <= a * c <= b * d
    ensures a < b && 0.0 < d ==> a * c < b * d
  {
    assert a * c <= a * d <= b * d by {
      assert a * (d - c) >= 0.0 && (b - a) * d >= 0.0;
    }
    if a < b && 0.0 < d {
      assert (b - a) * d > 0.0;
    }
  }

  /** All factors but the confidence. */
  function Quality(p: PathData): real {
    LeadFactor(p) * (RiskFactor(p) * ((1.0 + PriceFactor(p) * 0.1) * FeasibilityBonus(p)))
  }

  lemma ScoreIsConfidenceTimesQuality(p: PathData)
    ensures CompositeScore(p) == p.confidence * Quality(p)
  {
    var c, l, r := p.confidence, LeadFactor(p), RiskFactor(p);
    var m, b := 1.0 + PriceFactor(p) * 0.1, FeasibilityBonus(p);
    Associate(c, l, r, m, b);
  }

  lemma Associate(c: real, l: real, r: real, m: real, b: real)
    ensures c * l * r * m * b == c * (l * (r * (m * b)))
  {
    assert c * l * r == c * (l * r);
    assert c * (l * r) * (m * b) == c * (l * r * (m * b));
  }

  lemma FactorBounds(p: PathData)
    requires WellFormed(p)
    ensures 0.0 < LeadFactor(p) <= 1.0 && 0.0 < RiskFactor(p) <= 1.0
    ensures 0.0 < PriceFactor(p) <= 1.0 && PriceFactor(p) == 1.0 / (1.0 + PriceCost(p) / 100.0)
    ensures LeadFactor(p) == 1.0 <==> p.totalLeadTimeDays == 0
    ensures RiskFactor(p) == 1.0 <==> p.riskScore == 0.0
    ensures PriceFactor(p) == 1.0 <==> PriceCost(p) == 0.0
  {
    ReciprocalFalls(1.0, 1.0 + p.totalLeadTimeDays as real / 30.0);
    ReciprocalFalls(1.0, 1.0 + p.riskScore);
    ReciprocalFalls(1.0, 1.0 + PriceCost(p) / 100.0);
  }

  lemma FourFactorsRise(l: real, l': real, r: real, r': real, m: real, m': real, b: real, b': real)
    requires 0.0 < l <= l' && 0.0 < r <= r' && 0.0 < m <= m' && 0.0 < b <= b'
    ensures 0.0 < l * (r * (m * b)) <= l' * (r' * (m' * b'))
    ensures l < l' ==> l * (r * (m * b)) < l' * (r' * (m' * b'))
  {
    var x, x' := m * b, m' * b';
    ProductRises(m, m', b, b');
    PositiveProduct(m, b);
    ProductRises(r, r', x, x');
    PositiveProduct(r, x);
    var y, y' := r * x, r' * x';
    ProductRises(l, l', y, y');
    PositiveProduct(l, y);
  }

  lemma FactorsRise(a: PathData, b: PathData)
    requires WellFormed(a) && WellFormed(b) && NoWorse(a, b)
    ensures 0.0 < LeadFactor(b) <= LeadFactor(a)
    ensures a.totalLeadTimeDays < b.totalLeadTimeDays ==> LeadFactor(b) < LeadFactor(a)
    ensures 0.0 < RiskFactor(b) <= RiskFactor(a)
    ensures 0.0 < PriceFactor(b) <= PriceFactor(a)
  {
    FactorBounds(a);
    FactorBounds(b);
    ReciprocalFalls(1.0 + a.totalLeadTimeDays as real / 30.0, 1.0 + b.totalLeadTimeDays as real / 30.0);
    ReciprocalFalls(1.0 + a.riskScore, 1.0 + b.riskScore);
    ReciprocalFalls(1.0 + PriceCost(a) / 100.0, 1.0 + PriceCost(b) / 100.0);
  }

  /** The quality as a product of its four factors, named. */
  lemma QualityFactors(p: PathData) returns (l: real, r: real, m: real, f: real)
    ensures l == LeadFactor(p) && r == RiskFactor(p) && m == 1.0 + PriceFactor(p) * 0.1 && f == FeasibilityBonus(p)
    ensures Quality(p) == l * (r * (m * f))
  {
    l, r, m, f := LeadFactor(p), RiskFactor(p), 1.0 + PriceFactor(p) * 0.1, FeasibilityBonus(p);
  }

  lemma QualityRises(a: PathData, b: PathData) returns (qa: real, qb: real)
    requires WellFormed(a) && WellFormed(b) && NoWorse(a, b)
    ensures qa == Quality(a) && qb == Quality(b)
    ensures 0.0 < qb <= qa
    ensures a.totalLeadTimeDays < b.totalLeadTimeDays ==> qb < qa
  {
    var l', r', m', f' := QualityFactors(a);
    var l, r, m, f := QualityFactors(b);
    FactorsRise(a, b);
    FourFactorsRise(l, l', r, r', m, m', f, f');
    qa, qb := Quality(a), Quality(b);
  }

  lemma PositiveProduct(x: real, y: real)
    requires 0.0 < x && 0.0 < y
    ensures 0.0 < x * y
  {
  }

  /** A path that is no worse scores no lower, and strictly higher when it is
      faster and has any confidence at all. */
  lemma ScoreIsMonotone(a: PathData, b: PathData)
    requires WellFormed(a) && WellFormed(b) && NoWorse(a, b) && a.confidence >= 0.0
    ensures CompositeScore(a) >= CompositeScore(b)
    ensures a.confidence > 0.0 && a.totalLeadTimeDays < b.totalLeadTimeDays ==> CompositeScore(a) > CompositeScore(b)
  {
    ScoreIsConfidenceTimesQuality(a);
    ScoreIsConfidenceTimesQuality(b);
    var qa, qb := QualityRises(a, b);
    ScaledCompare(a.confidence, qa, b.confidence, qb);
  }

  lemma ScaledCompare(c: real, q: real, c': real, q': real)
    requires 0.0 <= c && c' <= c && 0.0 < q' <= q
    ensures c * q >= c' * q'
    ensures 0.0 < c && q' < q ==> c * q > c' * q'
  {
    var gain, drop := q - q', c - c';
    assert c * q - c' * q' == c * gain + drop * q';
    assert c * gain >= 0.0 && drop * q' >= 0.0;
    if 0.0 < c && 0.0 < gain {
      PositiveProduct(c, gain);
    }
  }

  /** A score lies between zero and 1.32 times the confidence, and reaches the top
      exactly for an immediate, riskless, costless and feasible path. */
  lemma ScoreBounds(p: PathData)
    requires WellFormed(p) && p.confidence >= 0.0
    ensures 0.0 <= CompositeScore(p) <= 1.32 * p.confidence
    ensures p.confidence > 0.0 ==>
              (CompositeScore(p) == 1.32 * p.confidence <==>
                 p.totalLeadTimeDays == 0 && p.riskScore == 0.0 && PriceCost(p) == 0.0 && p.feasible)
  {
    ScoreIsConfidenceTimesQuality(p);
    QualityBounds(p);
    var q := Quality(p);
    assert p.confidence * q <= p.confidence * 1.32 by {
      assert p.confidence * (1.32 - q) >= 0.0;
    }
    if p.confidence > 0.0 && q < 1.32 {
      PositiveProduct(p.confidence, 1.32 - q);
    }
  }

  lemma QualityBounds(p: PathData)
    requires WellFormed(p)
    ensures 0.0 < Quality(p) <= 1.32
    ensures Quality(p) == 1.32 <==>
              p.totalLeadTimeDays == 0 && p.riskScore == 0.0 && PriceCost(p) == 0.0 && p.feasible
  {
    FactorBounds(p);
    var l, r, m, b := LeadFactor(p), RiskFactor(p), 1.0 + PriceFactor(p) * 0.1, FeasibilityBonus(p);
    PositiveProduct(m, b);
    PositiveProduct(r, m * b);
    PositiveProduct(l, r * (m * b));
    ProductRises(m, 1.1, b, 1.2);
    if m * b < 1.32 {
      SmallFactorWins(r, m * b);
      SmallFactorWins(l, r * (m * b));
    } else {
      assert m == 1.1 && b == 1.2;
      if r < 1.0 {
        assert r * 1.32 < 1.32;
        SmallFactorWins(l, r * 1.32);
      }
    }
  }

  lemma SmallFactorWins(x: real, y: real)
    requires 0.0 < x <= 1.0 && 0.0 < y
    ensures x * y <= y
  {
    assert (1.0 - x) * y >= 0.0;
  }

  // ---------------------------------------------------------------------
  // What each criterion is worth
  // ---------------------------------------------------------------------

  lemma Reorder(c: real, l: real, r: real, m: real, b: real)
    ensures c * l * r * m * b == (l * r * m * b) * c
    ensures c * l * r * m * b == (c * r * m * b) * l
    ensures c * l * r * m * b == (c * l * m * b) * r
    ensures c * l * r * m * b == (c * l * r * b) * m
    ensures c * l * r * m * b == (c * l * r * m) * b
  {
  }

  /** Quantities that differ in one factor only are in the proportion of that factor. */
  lemma InProportion(rest: real, x: real, y: real, u: real, v: real)
    requires x * u == y * v
    ensures (rest * x) * u == (rest * y) * v
  {
    assert (rest * x) * u == rest * (x * u);
    assert (rest * y) * v == rest * (y * v);
  }

  lemma Reciprocal(x: real)
    requires x > 0.0
    ensures (1.0 / x) * x == 1.0
  {
  }

  lemma LeadFactorValue(p: PathData)
    requires WellFormed(p)
    ensures LeadFactor(p) * (30.0 + p.totalLeadTimeDays as real) == 30.0
  {
    var x := 1.0 + p.totalLeadTimeDays as real / 30.0;
    Reciprocal(x);
    assert x * 30.0 == 30.0 + p.totalLeadTimeDays as real;
    assert LeadFactor(p) * (x * 30.0) == (LeadFactor(p) * x) * 30.0;
  }

  lemma PriceFactorValue(p: PathData)
    ensures PriceCost(p) >= 0.0 && (1.0 + PriceFactor(p) * 0.1) * (100.0 + PriceCost(p)) == 110.0 + PriceCost(p)
  {
    var x := 1.0 + PriceCost(p) / 100.0;
    Reciprocal(x);
    assert PriceFactor(p) == 1.0 / x;
    assert x * 100.0 == 100.0 + PriceCost(p);
    assert PriceFactor(p) * (x * 100.0) == (PriceFactor(p) * x) * 100.0;
  }

  /** Scores of paths that differ in lead time only are inversely proportional to
      thirty days plus the lead time. */
  lemma LeadTimeProportion(p: PathData, q: PathData)
    requires WellFormed(p) && WellFormed(q) && q == p.(totalLeadTimeDays := q.totalLeadTimeDays)
    ensures CompositeScore(p) * (30.0 + p.totalLeadTimeDays as real) == CompositeScore(q) * (30.0 + q.totalLeadTimeDays as real)
  {
    var m, b := 1.0 + PriceFactor(p) * 0.1, FeasibilityBonus(p);
    LeadFactorValue(p);
    LeadFactorValue(q);
    Reorder(p.confidence, LeadFactor(p), RiskFactor(p), m, b);
    Reorder(p.confidence, LeadFactor(q), RiskFactor(p), m, b);
    InProportion(p.confidence * RiskFactor(p) * m * b, LeadFactor(p), LeadFactor(q),
                 30.0 + p.totalLeadTimeDays as real, 30.0 + q.totalLeadTimeDays as real);
  }

  /** Scores of paths that differ in risk only are inversely proportional to one plus the risk. */
  lemma RiskProportion(p: PathData, q: PathData)
    requires WellFormed(p) && WellFormed(q) && q == p.(riskScore := q.riskScore)
    ensures CompositeScore(p) * (1.0 + p.riskScore) == CompositeScore(q) * (1.0 + q.riskScore)
  {
    var m, b := 1.0 + PriceFactor(p) * 0.1, FeasibilityBonus(p);
    Reciprocal(1.0 + p.riskScore);
    Reciprocal(1.0 + q.riskScore);
    Reorder(p.confidence, LeadFactor(p), RiskFactor(p), m, b);
    Reorder(p.confidence, LeadFactor(p), RiskFactor(q), m, b);
    InProportion(p.confidence * LeadFactor(p) * m * b, RiskFactor(p), RiskFactor(q), 1.0 + p.riskScore, 1.0 + q.riskScore);
  }

  /** Scores of paths that differ in price only are in the proportion of 110 plus
      the price to 100 plus the price. */
  lemma PriceProportion(p: PathData, q: PathData)
    requires q == p.(unitPrice := q.unitPrice)
    ensures CompositeScore(p) * ((100.0 + PriceCost(p)) * (110.0 + PriceCost(q)))
            == CompositeScore(q) * ((100.0 + PriceCost(q)) * (110.0 + PriceCost(p)))
  {
    var mp, mq, b := 1.0 + PriceFactor(p) * 0.1, 1.0 + PriceFactor(q) * 0.1, FeasibilityBonus(p);
    PriceFactorValue(p);
    PriceFactorValue(q);
    Reorder(p.confidence, LeadFactor(p), RiskFactor(p), mp, b);
    Reorder(p.confidence, LeadFactor(p), RiskFactor(p), mq, b);
    CrossProducts(mp, 100.0 + PriceCost(p), 110.0 + PriceCost(p), mq, 100.0 + PriceCost(q), 110.0 + PriceCost(q));
    InProportion(p.confidence * LeadFactor(p) * RiskFactor(p) * b, mp, mq,
                 (100.0 + PriceCost(p)) * (110.0 + PriceCost(q)), (100.0 + PriceCost(q)) * (110.0 + PriceCost(p)));
  }

  lemma CrossProducts(x: real, a: real, b: real, y: real, c: real, d: real)
    requires x * a == b && y * c == d
    ensures x * (a * d) == y * (c * b)
  {
    assert x * (a * d) == (x * a) * d;
    assert y * (c * b) == (y * c) * b;
  }

  /** Scores of paths that differ in confidence only are proportional to it. */
  lemma ConfidenceProportion(p: PathData, q: PathData)
    requires q == p.(confidence := q.confidence)
    ensures CompositeScore(p) * q.confidence == CompositeScore(q) * p.confidence
  {
    var m, b := 1.0 + PriceFactor(p) * 0.1, FeasibilityBonus(p);
    Reorder(p.confidence, LeadFactor(p), RiskFactor(p), m, b);
    Reorder(q.confidence, LeadFactor(p), RiskFactor(p), m, b);
    InProportion(LeadFactor(p) * RiskFactor(p) * m * b, p.confidence, q.confidence, q.confidence, p.confidence);
  }

  /** A path that misses the deadline scores five twelfths of the same path in time. */
  lemma FeasibilityProportion(p: PathData)
    requires p.feasible
    ensures CompositeScore(p) * 5.0 == CompositeScore(p.(feasible := false)) * 12.0
  {
    var m := 1.0 + PriceFactor(p) * 0.1;
    Reorder(p.confidence, LeadFactor(p), RiskFactor(p), m, 1.2);
    Reorder(p.confidence, LeadFactor(p), RiskFactor(p), m, 0.5);
    InProportion(p.confidence * LeadFactor(p) * RiskFactor(p) * m, 1.2, 0.5, 5.0, 12.0);
  }
}
