/**
 The weighted match score of a participant: twelve dimensions, one of them a
 penalty, combined, clamped and rounded.
 */
module MatchScore {
  import opened Wrappers

  datatype Dimension =
    | CategoryFit | FabricCapabilityFit | QuantityFit | MoqFit | CapacityFit | LeadTimeFit
    | LocationFit | TradeTermFit | QualityHistoryFit | OnTimeDeliveryFit | ResponseQualityFit

  type Breakdown = map<Dimension, real>

  /** The weighted dimensions in the order of the weight table, the penalty left out. */
  const POSITIVE_DIMS: seq<Dimension> := seq(11, i requires 0 <= i < 11 => DimensionAt(i))

  function DimensionAt(i: nat): Dimension
    requires i < 11
  {
    match i
    case 0 => CategoryFit
    case 1 => FabricCapabilityFit
    case 2 => QuantityFit
    case 3 => MoqFit
    case 4 => CapacityFit
    case 5 => LeadTimeFit
    case 6 => LocationFit
    case 7 => TradeTermFit
    case 8 => QualityHistoryFit
    case 9 => OnTimeDeliveryFit
    case _ => ResponseQualityFit
  }

  const RISK_PENALTY_WEIGHT := 0.10

  function Weight(d: Dimension): (w: real)
    ensures w > 0.0
  {
    match d
    case CategoryFit => 0.15
    case FabricCapabilityFit => 0.12
    case QuantityFit => 0.10
    case MoqFit => 0.08
    case CapacityFit => 0.08
    case LeadTimeFit => 0.10
    case LocationFit => 0.07
    case TradeTermFit => 0.07
    case QualityHistoryFit => 0.10
    case OnTimeDeliveryFit => 0.08
    case ResponseQualityFit => 0.03
  }

  // ---------------------------------------------------------------------
  // The dimensions
  // ---------------------------------------------------------------------

  datatype Profile = Profile(
    categories: Option<seq<string>>,
    fabricCapabilities: Option<seq<string>>,
    moq: Option<int>,
    quantityMax: Option<int>,
    leadTimeDaysMax: Option<int>,
    country: Option<string>,
    tradeTerms: Option<seq<string>>,
    completeness: real)

  datatype OrderForm = OrderForm(
    productType: Option<string>,
    fabricType: Option<string>,
    quantity: Option<int>,
    daysToDeadline: Option<int>,
    tradeTerm: Option<string>)

  datatype Memory = Memory(qcPassRate: Option<real>, onTimeRate: Option<real>, qualityIssues: int)

  /** Everything a score is computed from. `destinationNamesCountry` is the
      case-insensitive substring test. */
  datatype Evidence = Evidence(profile: Profile, form: OrderForm, memory: Memory, destinationNamesCountry: bool)

  datatype Datum = Categories | Fabrics | Moq | LeadTimeDays | Country | Terms

  datatype Score = Score(matchScore: real, breakdown: Breakdown, penalised: bool, missing: seq<Datum>)

  function ListFit(wanted: Option<string>, offered: Option<seq<string>>): real {
    if offered.None? then 0.5
    else if wanted.Some? && wanted.value != "" then (if wanted.value in offered.value then 1.0 else 0.0)
    else 0.5
  }

  /** Whether a lower and an upper limit both hold; the neutral value when either
      side of the comparison is unknown. */
  function LimitFit(low: Option<int>, high: Option<int>): real {
    if low.None? || high.None? then 0.5 else if low.value <= high.value then 1.0 else 0.0
  }

  function QuantityFitOf(quantity: Option<int>, moq: Option<int>, quantityMax: Option<int>): real {
    if quantity.None? || (moq.None? && quantityMax.None?) then 0.5
    else if LimitFit(moq, quantity) > 0.0 && LimitFit(quantity, quantityMax) > 0.0 then 1.0
    else 0.0
  }

  function Rate(r: Option<real>): real {
    if r.Some? then r.value else 0.5
  }

  function Fit(e: Evidence, d: Dimension): real {
    match d
    case CategoryFit => ListFit(e.form.productType, e.profile.categories)
    case FabricCapabilityFit => ListFit(e.form.fabricType, e.profile.fabricCapabilities)
    case QuantityFit => QuantityFitOf(e.form.quantity, e.profile.moq, e.profile.quantityMax)
    case MoqFit => LimitFit(e.profile.moq, e.form.quantity)
    case CapacityFit => LimitFit(e.form.quantity, e.profile.quantityMax)
    case LeadTimeFit => LimitFit(e.profile.leadTimeDaysMax, e.form.daysToDeadline)
    case LocationFit => if e.profile.country.Some? && e.destinationNamesCountry then 1.0 else 0.5
    case TradeTermFit => ListFit(e.form.tradeTerm, e.profile.tradeTerms)
    case QualityHistoryFit => Rate(e.memory.qcPassRate)
    case OnTimeDeliveryFit => Rate(e.memory.onTimeRate)
    case ResponseQualityFit => e.profile.completeness
  }

  /** What the profile lacks; an unknown quantity hides a missing order minimum. */
  predicate Lacks(e: Evidence, d: Datum) {
    match d
    case Categories => e.profile.categories.None?
    case Fabrics => e.profile.fabricCapabilities.None?
    case Moq => e.form.quantity.Some? && e.profile.moq.None? && e.profile.quantityMax.None?
    case LeadTimeDays => e.profile.leadTimeDaysMax.None?
    case Country => e.profile.country.None?
    case Terms => e.profile.tradeTerms.None?
  }

  // ---------------------------------------------------------------------
  // The combination
  // ---------------------------------------------------------------------

  predicate Complete(b: Breakdown) {
    forall d: Dimension :: d in b
  }

  function WeightedSum(b: Breakdown, dims: seq<Dimension>): real
    requires Complete(b)
  {
    if dims == [] then 0.0 else b[dims[0]] * Weight(dims[0]) + WeightedSum(b, dims[1..])
  }

  function TotalWeight(dims: seq<Dimension>): (w: real)
    ensures w >= 0.0 && (dims != [] ==> w > 0.0)
  {
    if dims == [] then 0.0 else Weight(dims[0]) + TotalWeight(dims[1..])
  }

  /** The weighted average of the given dimensions. */
  function Average(b: Breakdown, dims: seq<Dimension>): real
    requires Complete(b) && dims != []
  {
    WeightedSum(b, dims) / TotalWeight(dims)
  }

  function Penalty(penalised: bool): real {
    if penalised then 1.0 * RISK_PENALTY_WEIGHT else 0.0
  }

  function Clamp(x: real): real {
    if x < 0.0 then 0.0 else if x > 1.0 then 1.0 else x
  }

  /** The score over the given dimensions, before rounding. */
  function Unrounded(b: Breakdown, dims: seq<Dimension>, penalised: bool): (r: real)
    requires Complete(b) && dims != []
    ensures 0.0 <= r <= 1.0
  {
    Clamp(Average(b, dims) - Penalty(penalised))
  }

  /** Nearest multiple of 1/10000, ties to the even one. */
  function Round4(x: real): real {
    var n := (x * 10000.0).Floor;
    var rest := x * 10000.0 - n as real;
    (if rest > 0.5 || (rest == 0.5 && n % 2 == 1) then n + 1 else n) as real / 10000.0
  }

  predicate Named(wanted: Option<string>) {
    wanted.Some? && wanted.value != ""
  }

  /** One, zero or one half as the wanted item is offered, not offered, or the
      question does not arise. */
  predicate ListScored(x: real, wanted: Option<string>, offered: Option<seq<string>>) {
    && (x == 1.0 <==> Named(wanted) && offered.Some? && wanted.value in offered.value)
    && (x == 0.0 <==> Named(wanted) && offered.Some? && wanted.value !in offered.value)
    && (x == 0.5 <==> !Named(wanted) || offered.None?)
  }

  /** One, zero or one half as the amount keeps the limit, breaks it, or either is unknown. */
  predicate LimitScored(x: real, known: bool, kept: bool) {
    && (x == 1.0 <==> known && kept)
    && (x == 0.0 <==> known && !kept)
    && (x == 0.5 <==> !known)
  }

  /** What each dimension says about the participant and the order. */
  ghost predicate MeansWhatItSays(e: Evidence, b: Breakdown)
    requires Complete(b)
  {
    var p, f := e.profile, e.form;
    && ListScored(b[CategoryFit], f.productType, p.categories)
    && ListScored(b[FabricCapabilityFit], f.fabricType, p.fabricCapabilities)
    && ListScored(b[TradeTermFit], f.tradeTerm, p.tradeTerms)
    && LimitScored(b[MoqFit], p.moq.Some? && f.quantity.Some?, p.moq.Some? && f.quantity.Some? && f.quantity.value >= p.moq.value)
    && LimitScored(b[CapacityFit], p.quantityMax.Some? && f.quantity.Some?,
                   p.quantityMax.Some? && f.quantity.Some? && p.quantityMax.value >= f.quantity.value)
    && LimitScored(b[QuantityFit], f.quantity.Some? && (p.moq.Some? || p.quantityMax.Some?),
                   f.quantity.Some? && (p.moq.Some? ==> f.quantity.value >= p.moq.value)
                   && (p.quantityMax.Some? ==> f.quantity.value <= p.quantityMax.value))
    && LimitScored(b[LeadTimeFit], p.leadTimeDaysMax.Some? && f.daysToDeadline.Some?,
                   p.leadTimeDaysMax.Some? && f.daysToDeadline.Some? && p.leadTimeDaysMax.value <= f.daysToDeadline.value)
    && (b[LocationFit] == 1.0 <==> p.country.Some? && e.destinationNamesCountry)
    && (b[LocationFit] == 0.5 <==> p.country.None? || !e.destinationNamesCountry)
    && (if e.memory.qcPassRate.Some? then Some(b[QualityHistoryFit]) == e.memory.qcPassRate else b[QualityHistoryFit] == 0.5)
    && (if e.memory.onTimeRate.Some? then Some(b[OnTimeDeliveryFit]) == e.memory.onTimeRate else b[OnTimeDeliveryFit] == 0.5)
    && b[ResponseQualityFit] == p.completeness
  }

  /** What the profile lacks, datum by datum; missing limits show only beside a known quantity. */
  predicate ListsMissing(e: Evidence, missing: seq<Datum>) {
    && (Categories in missing <==> e.profile.categories.None?)
    && (Fabrics in missing <==> e.profile.fabricCapabilities.None?)
    && (Moq in missing <==> e.form.quantity.Some? && e.profile.moq.None? && e.profile.quantityMax.None?)
    && (LeadTimeDays in missing <==> e.profile.leadTimeDaysMax.None?)
    && (Country in missing <==> e.profile.country.None?)
    && (Terms in missing <==> e.profile.tradeTerms.None?)
  }

  lemma FitsMean(e: Evidence, b: Breakdown)
    requires Complete(b) && forall d: Dimension :: b[d] == Fit(e, d)
    ensures MeansWhatItSays(e, b)
  {
    var named := [b[CategoryFit], b[FabricCapabilityFit], b[QuantityFit], b[MoqFit], b[CapacityFit], b[LeadTimeFit],
                  b[LocationFit], b[TradeTermFit], b[QualityHistoryFit], b[OnTimeDeliveryFit], b[ResponseQualityFit]];
  }

  /** Fills the first half of the breakdown: what the order asks for. */
  method FillProductFits(e: Evidence) returns (b: Breakdown, missing: seq<Datum>)
    ensures b.Keys == {CategoryFit, FabricCapabilityFit, QuantityFit, MoqFit, CapacityFit}
    ensures forall d :: d in b ==> b[d] == Fit(e, d)
    ensures forall m :: m in missing <==> m in {Categories, Fabrics, Moq} && Lacks(e, m)
  {
    b, missing := map[], [];
    b := b[CategoryFit := ListFit(e.form.productType, e.profile.categories)];
    if e.profile.categories.None? {
      missing := missing + [Categories];
    }
    b := b[FabricCapabilityFit := ListFit(e.form.fabricType, e.profile.fabricCapabilities)];
    if e.profile.fabricCapabilities.None? {
      missing := missing + [Fabrics];
    }
    if e.form.quantity.None? {
      b := b[QuantityFit := 0.5];
    } else if e.profile.moq.None? && e.profile.quantityMax.None? {
      b := b[QuantityFit := 0.5];
      missing := missing + [Moq];
    } else {
      var aboveMoq := e.profile.moq.None? || e.form.quantity.value >= e.profile.moq.value;
      var belowCap := e.profile.quantityMax.None? || e.form.quantity.value <= e.profile.quantityMax.value;
      b := b[QuantityFit := if aboveMoq && belowCap then 1.0 else 0.0];
    }
    b := b[MoqFit := LimitFit(e.profile.moq, e.form.quantity)];
    b := b[CapacityFit := LimitFit(e.form.quantity, e.profile.quantityMax)];
  }

  /** Fills the second half: time, place, terms and history. */
  method FillServiceFits(e: Evidence) returns (b: Breakdown, missing: seq<Datum>)
    ensures b.Keys == {LeadTimeFit, LocationFit, TradeTermFit, QualityHistoryFit, OnTimeDeliveryFit, ResponseQualityFit}
    ensures forall d :: d in b ==> b[d] == Fit(e, d)
    ensures forall m :: m in missing <==> m in {LeadTimeDays, Country, Terms} && Lacks(e, m)
  {
    b, missing := map[], [];
    b := b[LeadTimeFit := LimitFit(e.profile.leadTimeDaysMax, e.form.daysToDeadline)];
    if e.profile.leadTimeDaysMax.None? {
      missing := missing + [LeadTimeDays];
    }
    if e.profile.country.None? {
      b := b[LocationFit := 0.5];
      missing := missing + [Country];
    } else {
      b := b[LocationFit := if e.destinationNamesCountry then 1.0 else 0.5];
    }
    b := b[TradeTermFit := ListFit(e.form.tradeTerm, e.profile.tradeTerms)];
    if e.profile.tradeTerms.None? {
      missing := missing + [Terms];
    }
    b := b[QualityHistoryFit := Rate(e.memory.qcPassRate)];
    b := b[OnTimeDeliveryFit := Rate(e.memory.onTimeRate)];
    b := b[ResponseQualityFit := e.profile.completeness];
  }

  /** Fills the breakdown, every dimension once. */
  method FillBreakdown(e: Evidence) returns (b: Breakdown, missing: seq<Datum>)
    ensures Complete(b) && forall d: Dimension :: b[d] == Fit(e, d)
    ensures forall m: Datum :: m in missing <==> Lacks(e, m)
  {
    var product, lackedProduct := FillProductFits(e);
    var service, lackedService := FillServiceFits(e);
    b, missing := product + service, lackedProduct + lackedService;
    forall d: Dimension ensures d in b && b[d] == Fit(e, d) {
      EachHalf(d);
      assert d in product.Keys + service.Keys;
    }
  }

  /** Fills the breakdown and combines it. */
  method ScoreParticipant(e: Evidence) returns (s: Score)
    ensures Complete(s.breakdown) && forall d: Dimension :: s.breakdown[d] == Fit(e, d)
    ensures s.penalised <==> e.memory.qualityIssues >= 2
    ensures s.matchScore == Round4(Unrounded(s.breakdown, POSITIVE_DIMS, s.penalised))
    ensures 0.0 <= s.matchScore <= 1.0
    ensures MeansWhatItSays(e, s.breakdown)
    ensures ListsMissing(e, s.missing)
  {
    var b, missing := FillBreakdown(e);
    var penalised := e.memory.qualityIssues >= 2;
    FitsMean(e, b);
    LacksListed(e, missing);
    RoundStaysInRange(Unrounded(b, POSITIVE_DIMS, penalised));
    s := Score(Round4(Unrounded(b, POSITIVE_DIMS, penalised)), b, penalised, missing);
  }

  lemma LacksListed(e: Evidence, missing: seq<Datum>)
    requires forall m: Datum :: m in missing <==> Lacks(e, m)
    ensures ListsMissing(e, missing)
  {
  }

  lemma EachHalf(d: Dimension)
    ensures d in {CategoryFit, FabricCapabilityFit, QuantityFit, MoqFit, CapacityFit}
                 + {LeadTimeFit, LocationFit, TradeTermFit, QualityHistoryFit, OnTimeDeliveryFit, ResponseQualityFit}
  {
    match d
    case _ =>
  }

  lemma RoundStaysInRange(x: real)
    requires 0.0 <= x <= 1.0
    ensures 0.0 <= Round4(x) <= 1.0
  {
    var n := (x * 10000.0).Floor;
    assert 0 <= n <= 10000;
    if n == 10000 {
      assert x * 10000.0 == 10000.0;
    }
  }

  // ---------------------------------------------------------------------
  // Range and stability
  // ---------------------------------------------------------------------

  predicate UnitRange(b: Breakdown)
    requires Complete(b)
  {
    forall d: Dimension :: 0.0 <= b[d] <= 1.0
  }

  lemma {:induction false} UnitDimensionsUnitSum(b: Breakdown, dims: seq<Dimension>)
    requires Complete(b) && UnitRange(b)
    ensures 0.0 <= WeightedSum(b, dims) <= TotalWeight(dims)
  {
    if dims != [] {
      UnitDimensionsUnitSum(b, dims[1..]);
      ScaledUnit(b[dims[0]], Weight(dims[0]));
    }
  }

  lemma ScaledUnit(x: real, w: real)
    requires 0.0 <= x <= 1.0 && w > 0.0
    ensures 0.0 <= x * w <= w
  {
    assert (1.0 - x) * w >= 0.0;
  }

  lemma QuotientOrder(x: real, y: real, w: real)
    requires x <= y && w > 0.0
    ensures x / w <= y / w
  {
    assert y / w - x / w == (y - x) / w;
  }

  /** When every dimension lies between zero and one the upper clamp never acts,
      and the lower one stays out exactly when the penalty is at most the average. */
  lemma ClampActsExactly(b: Breakdown, dims: seq<Dimension>, penalised: bool)
    requires Complete(b) && UnitRange(b) && dims != []
    ensures Average(b, dims) - Penalty(penalised) <= 1.0
    ensures Unrounded(b, dims, penalised) == Average(b, dims) - Penalty(penalised) <==> Average(b, dims) >= Penalty(penalised)
  {
    UnitDimensionsUnitSum(b, dims);
    UnitQuotient(WeightedSum(b, dims), TotalWeight(dims));
  }

  lemma UnitQuotient(x: real, w: real)
    requires 0.0 <= x <= w && w > 0.0
    ensures 0.0 <= x / w <= 1.0
  {
    QuotientOrder(x, w, w);
    assert w / w == 1.0;
  }

  function Abs(x: real): real {
    if x < 0.0 then -x else x
  }

  /** The weighted distance between two breakdowns. */
  function WeightedDistance(a: Breakdown, b: Breakdown, dims: seq<Dimension>): real
    requires Complete(a) && Complete(b)
  {
    if dims == [] then 0.0 else Abs(a[dims[0]] - b[dims[0]]) * Weight(dims[0]) + WeightedDistance(a, b, dims[1..])
  }

  lemma {:induction false} SumsDifferByDistance(a: Breakdown, b: Breakdown, dims: seq<Dimension>)
    requires Complete(a) && Complete(b)
    ensures Abs(WeightedSum(a, dims) - WeightedSum(b, dims)) <= WeightedDistance(a, b, dims)
  {
    if dims != [] {
      SumsDifferByDistance(a, b, dims[1..]);
      AbsScaled(a[dims[0]], b[dims[0]], Weight(dims[0]));
    }
  }

  lemma AbsScaled(x: real, y: real, w: real)
    requires w > 0.0
    ensures Abs(x * w - y * w) == Abs(x - y) * w
  {
    assert x * w - y * w == (x - y) * w;
    if x < y {
      assert (y - x) * w > 0.0;
    } else {
      assert (x - y) * w >= 0.0;
    }
  }

  lemma ClampContracts(x: real, y: real)
    ensures Abs(Clamp(x) - Clamp(y)) <= Abs(x - y)
  {
  }

  /** Changing any dimensions other than the penalty moves the score by at most
      their weighted absolute change over the total weight, through the penalty and
      the clamp alike. */
  lemma ScoreIsStable(a: Breakdown, b: Breakdown, dims: seq<Dimension>, penalised: bool)
    requires Complete(a) && Complete(b) && dims != []
    ensures Abs(Unrounded(a, dims, penalised) - Unrounded(b, dims, penalised))
            <= WeightedDistance(a, b, dims) / TotalWeight(dims)
  {
    var w := TotalWeight(dims);
    var sa, sb := WeightedSum(a, dims), WeightedSum(b, dims);
    SumsDifferByDistance(a, b, dims);
    ClampContracts(sa / w - Penalty(penalised), sb / w - Penalty(penalised));
    QuotientOrder(Abs(sa - sb), WeightedDistance(a, b, dims), w);
    AbsQuotient(sa, sb, w);
  }

  /** Raising one dimension moves the average by exactly that much times the
      dimension's share of the total weight. */
  lemma OneDimensionMoves(b: Breakdown, after: Breakdown, dims: seq<Dimension>, i: nat)
    requires Complete(b) && Complete(after) && i < |dims| && forall j :: 0 <= j < |dims| && j != i ==> dims[j] != dims[i]
    requires forall d :: d != dims[i] ==> after[d] == b[d]
    ensures Average(after, dims) - Average(b, dims) == (after[dims[i]] - b[dims[i]]) * Weight(dims[i]) / TotalWeight(dims)
  {
    var d := dims[i];
    SumMoves(b, after, dims, i, b[d] * Weight(d), after[d] * Weight(d));
    MovedAverage(b, after, dims, after[d], b[d], Weight(d));
  }

  lemma MovedAverage(b: Breakdown, after: Breakdown, dims: seq<Dimension>, x: real, y: real, w: real)
    requires Complete(b) && Complete(after) && dims != [] && WeightedSum(after, dims) - WeightedSum(b, dims) == x * w - y * w
    ensures Average(after, dims) - Average(b, dims) == (x - y) * w / TotalWeight(dims)
  {
    MovedQuotient(WeightedSum(b, dims), WeightedSum(after, dims), x, y, w, TotalWeight(dims));
  }

  lemma MovedQuotient(s: real, t: real, x: real, y: real, w: real, total: real)
    requires t - s == x * w - y * w && total > 0.0
    ensures t / total - s / total == (x - y) * w / total
  {
    assert t / total - s / total == (t - s) / total;
    assert x * w - y * w == (x - y) * w;
  }

  lemma {:induction false} SumMoves(b: Breakdown, after: Breakdown, dims: seq<Dimension>, i: nat, old': real, new': real)
    requires Complete(b) && Complete(after) && i < |dims| && forall j :: 0 <= j < |dims| && j != i ==> dims[j] != dims[i]
    requires forall d :: d != dims[i] ==> after[d] == b[d]
    requires old' == b[dims[i]] * Weight(dims[i]) && new' == after[dims[i]] * Weight(dims[i])
    ensures WeightedSum(after, dims) - WeightedSum(b, dims) == new' - old'
  {
    if i == 0 {
      SumIgnoresOthers(b, after, dims[1..]);
    } else {
      assert dims[1..][i - 1] == dims[i];
      SumMoves(b, after, dims[1..], i - 1, old', new');
      SameHead(b, after, dims);
    }
  }

  lemma SameHead(b: Breakdown, after: Breakdown, dims: seq<Dimension>)
    requires Complete(b) && Complete(after) && dims != [] && after[dims[0]] == b[dims[0]]
    ensures WeightedSum(after, dims) - WeightedSum(b, dims) == WeightedSum(after, dims[1..]) - WeightedSum(b, dims[1..])
  {
  }

  lemma {:induction false} SumIgnoresOthers(b: Breakdown, after: Breakdown, dims: seq<Dimension>)
    requires Complete(b) && Complete(after) && forall d :: d in dims ==> after[d] == b[d]
    ensures WeightedSum(after, dims) == WeightedSum(b, dims)
  {
    if dims != [] {
      SumIgnoresOthers(b, after, dims[1..]);
      SameHead(b, after, dims);
    }
  }

  /** The weighted dimensions are all eleven, each once. */
  lemma EveryDimensionOnce(d: Dimension) returns (i: nat)
    ensures i < |POSITIVE_DIMS| == 11 && POSITIVE_DIMS[i] == d
    ensures forall j :: 0 <= j < |POSITIVE_DIMS| && j != i ==> POSITIVE_DIMS[j] != d
  {
    i := match d
      case CategoryFit => 0
      case FabricCapabilityFit => 1
      case QuantityFit => 2
      case MoqFit => 3
      case CapacityFit => 4
      case LeadTimeFit => 5
      case LocationFit => 6
      case TradeTermFit => 7
      case QualityHistoryFit => 8
      case OnTimeDeliveryFit => 9
      case ResponseQualityFit => 10;
    forall j | 0 <= j < 11 && j != i
      ensures POSITIVE_DIMS[j] != d
    {
      assert POSITIVE_DIMS[j] == DimensionAt(j);
    }
  }

  /** Together they weigh 0.98. */
  lemma TotalOfWeights()
    ensures TotalWeight(POSITIVE_DIMS) == 0.98
  {
    assert TotalWeight(POSITIVE_DIMS[11..]) == 0.0;
    TailWeight(10);
    TailWeight(9);
    TailWeight(8);
    TailWeight(7);
    TailWeight(6);
    TailWeight(5);
    TailWeight(4);
    TailWeight(3);
    TailWeight(2);
    TailWeight(1);
    TailWeight(0);
    assert POSITIVE_DIMS[0..] == POSITIVE_DIMS;
  }

  lemma TailWeight(i: nat)
    requires i < 11
    ensures TotalWeight(POSITIVE_DIMS[i..]) == Weight(DimensionAt(i)) + TotalWeight(POSITIVE_DIMS[i + 1..])
  {
    assert POSITIVE_DIMS[i..][0] == DimensionAt(i) && POSITIVE_DIMS[i..][1..] == POSITIVE_DIMS[i + 1..];
  }

  /** With unit dimensions the penalty costs a tenth, or all there is if that is less. */
  lemma PenaltyCosts(b: Breakdown, dims: seq<Dimension>)
    requires Complete(b) && UnitRange(b) && dims != []
    ensures Unrounded(b, dims, false) - Unrounded(b, dims, true) ==
            if Average(b, dims) >= 0.1 then 0.1 else Unrounded(b, dims, false)
  {
    UnitDimensionsUnitSum(b, dims);
    UnitQuotient(WeightedSum(b, dims), TotalWeight(dims));
  }

  /** Rounding gives the nearest multiple of a ten-thousandth. */
  lemma RoundIsNearest(x: real) returns (n: int)
    ensures Round4(x) == n as real / 10000.0
    ensures -0.5 <= x * 10000.0 - n as real <= 0.5
    ensures x * 10000.0 - n as real in {-0.5, 0.5} ==> n % 2 == 0
  {
    n := (x * 10000.0).Floor;
    var rest := x * 10000.0 - n as real;
    if rest > 0.5 || (rest == 0.5 && n % 2 == 1) {
      n := n + 1;
    }
  }

  lemma AbsQuotient(x: real, y: real, w: real)
    requires w > 0.0
    ensures Abs(x / w - y / w) == Abs(x - y) / w
  {
    assert x / w - y / w == (x - y) / w;
    if x < y {
      assert Abs(x - y) / w == (y - x) / w == -((x - y) / w);
      QuotientOrder(x, y, w);
    } else {
      QuotientOrder(y, x, w);
    }
  }

  /** A breakdown is only ever better for the participant when each dimension is. */
  lemma {:induction false} SumIsMonotone(a: Breakdown, b: Breakdown, dims: seq<Dimension>)
    requires Complete(a) && Complete(b) && forall d: Dimension :: a[d] <= b[d]
    ensures WeightedSum(a, dims) <= WeightedSum(b, dims)
  {
    if dims != [] {
      SumIsMonotone(a, b, dims[1..]);
      assert (b[dims[0]] - a[dims[0]]) * Weight(dims[0]) >= 0.0;
    }
  }

  /** A better breakdown with no more penalty never scores lower, rounding included. */
  lemma ScoreIsMonotone(a: Breakdown, b: Breakdown, dims: seq<Dimension>, pa: bool, pb: bool)
    requires Complete(a) && Complete(b) && dims != []
    requires (forall d: Dimension :: a[d] <= b[d]) && (pb ==> pa)
    ensures Unrounded(a, dims, pa) <= Unrounded(b, dims, pb)
    ensures Round4(Unrounded(a, dims, pa)) <= Round4(Unrounded(b, dims, pb))
  {
    SumIsMonotone(a, b, dims);
    QuotientOrder(WeightedSum(a, dims), WeightedSum(b, dims), TotalWeight(dims));
    RoundIsMonotone(Unrounded(a, dims, pa), Unrounded(b, dims, pb));
  }

  lemma RoundIsMonotone(x: real, y: real)
    requires x <= y
    ensures Round4(x) <= Round4(y)
  {
    var m, n := (x * 10000.0).Floor, (y * 10000.0).Floor;
    assert x * 10000.0 <= y * 10000.0;
    assert m <= n;
  }

  /** With rates and completeness between zero and one, every dimension is too, so
      an unpenalised score is the average itself. */
  lemma EvidenceIsUnit(e: Evidence, b: Breakdown)
    requires Complete(b) && forall d: Dimension :: b[d] == Fit(e, d)
    requires 0.0 <= Rate(e.memory.qcPassRate) <= 1.0 && 0.0 <= Rate(e.memory.onTimeRate) <= 1.0
    requires 0.0 <= e.profile.completeness <= 1.0
    ensures UnitRange(b)
    ensures Unrounded(b, POSITIVE_DIMS, false) == Average(b, POSITIVE_DIMS)
  {
    UnitDimensionsUnitSum(b, POSITIVE_DIMS);
    UnitQuotient(WeightedSum(b, POSITIVE_DIMS), TotalWeight(POSITIVE_DIMS));
  }

  lemma {:induction false} NeutralSum(b: Breakdown, dims: seq<Dimension>)
    requires Complete(b) && forall d: Dimension :: b[d] == 0.5
    ensures WeightedSum(b, dims) == 0.5 * TotalWeight(dims)
  {
    if dims != [] {
      NeutralSum(b, dims[1..]);
    }
  }

  /** Missing data is neutral: a participant of whom nothing is known scores one half. */
  lemma NothingKnownIsNeutral(e: Evidence, b: Breakdown)
    requires Complete(b) && forall d: Dimension :: b[d] == Fit(e, d)
    requires e.profile == Profile(None, None, None, None, None, None, None, 0.5)
    requires e.memory == Memory(None, None, 0)
    ensures Unrounded(b, POSITIVE_DIMS, false) == 0.5
  {
    forall d: Dimension ensures b[d] == 0.5 {
      assert b[d] == Fit(e, d);
    }
    NeutralSum(b, POSITIVE_DIMS);
    HalfOf(WeightedSum(b, POSITIVE_DIMS), TotalWeight(POSITIVE_DIMS));
  }

  lemma HalfOf(x: real, w: real)
    requires w > 0.0 && x == 0.5 * w
    ensures x / w == 0.5
  {
    assert w / w == 1.0;
    assert x / w == 0.5 * (w / w);
  }
}
