/**
 The debt roll-forward of the model engine (model_engine_v2.py) over reals: one instrument-period row with its
 overridable nodes, and the nested loops that carry closing balances from period to period. A gap is a recorded
 reason the calculation is not ready. The finite-range gaps of floats cannot arise over reals.
 */
module DebtEngine {
  import opened Json
  import opened Calendar

  type Dec = Option<real>

  const TOLERANCE: real := 0.01

  datatype InputField =
    | Revenue | ReportedEbitda | Adjustments | AdjustedEbitda | Cash | TotalDebt | NetDebt | CashInterestInput
    | Taxes | Capex | WorkingCapital | OtherCashFlow

  datatype CalcField =
    | EbitdaNode | TotalDebtNode | CashInterestNode | NetDebtNode | GrossLeverageNode | NetLeverageNode | CoverageNode | FreeCashFlowNode

  datatype DebtField =
    | Opening | Draws | Repayments | Amortization | Commitment | Benchmark | Floor | Spread | Coupon | CommitmentFee
    | PikRate | CashFees | Hedge | Fx
    | Closing | Average | Expected | Residual | BenchmarkInterest | MarginInterest | CouponInterest | Fees
    | PikInterest | FxEffect | CashInterest | ReportingDebt

  datatype NodeId =
    | InputNode(period: PeriodKey, input: InputField)
    | CalcNode(period: PeriodKey, metric: CalcField)
    | DebtNode(instrument: string, period: PeriodKey, debt: DebtField)

  datatype Override = Number(value: real) | Null

  type Overrides = map<NodeId, Override>

  datatype Why =
    | NegativeValue | MissingInput | MissingRateType | NegativeBase | BadDenominator | OpeningBreak | ResidualTooLarge
    | Unavailable | MissingRows | NotMeaningful

  datatype Gap = Gap(node: NodeId, why: Why)

  /** The override's value where there is one, the original elsewhere. */
  function Effective(ov: Overrides, id: NodeId, original: Dec): Dec {
    if id !in ov then original else match ov[id] case Number(v) => Some(v) case Null => None
  }

  /** `apply_node`: the effective value, dropped when a non-negative node came out negative. */
  function Node(ov: Overrides, id: NodeId, original: Dec, nonNegative: bool): Dec {
    var v := Effective(ov, id, original);
    if nonNegative && v.Some? && v.value < 0.0 then None else v
  }

  function NodeGaps(ov: Overrides, id: NodeId, original: Dec, nonNegative: bool): seq<Gap> {
    var v := Effective(ov, id, original);
    if nonNegative && v.Some? && v.value < 0.0 then [Gap(id, NegativeValue)] else []
  }

  function GapIf(c: bool, id: NodeId, why: Why): seq<Gap> { if c then [Gap(id, why)] else [] }

  datatype RateType = Floating | Fixed | Hybrid | Unknown

  /** The sourced columns of one instrument-period row. */
  datatype Point = Point(
    opening: Dec, closing: Dec, draws: Dec, repayments: Dec, amortization: Dec, commitment: Dec, benchmark: Dec, floor: Dec,
    spread: Dec, coupon: Dec, commitmentFee: Dec, pikRate: Dec, cashFees: Dec, hedge: Dec, fx: Dec)

  datatype Instrument = Instrument(id: string, priority: int, rateType: RateType, sameCurrency: bool, points: map<PeriodKey, Point>)

  datatype Period = Period(
    key: PeriodKey, forward: bool, months: int, reportedEbitda: Dec, adjustments: Dec, adjustedEbitda: Dec, cash: Dec,
    totalDebt: Dec, netDebt: Dec, cashInterest: Dec, taxes: Dec, capex: Dec, workingCapital: Dec, otherCashFlow: Dec)

  /** What the previous row of the instrument left behind. */
  datatype Prior = Prior(closing: Dec, effective: Date)

  datatype Ctx = Ctx(ov: Overrides, period: Period, instrument: Instrument, point: Point, prior: Option<Prior>)

  predicate ValidCtx(c: Ctx) { ValidKey(c.period.key) && 1 <= c.period.months <= 24 }

  function Id(c: Ctx, f: DebtField): NodeId { DebtNode(c.instrument.id, c.period.key, f) }

  function Value(c: Ctx, f: DebtField, original: Dec, nonNegative: bool): Dec { Node(c.ov, Id(c, f), original, nonNegative) }

  function Gaps(c: Ctx, f: DebtField, original: Dec, nonNegative: bool): seq<Gap> { NodeGaps(c.ov, Id(c, f), original, nonNegative) }

  // ---------------------------------------------------------------- inputs of a row

  predicate FollowsOn(c: Ctx)
    requires ValidCtx(c)
  {
    c.prior.Some? && Contiguous(c.prior.value.effective, Calendar.Effective(c.period.key), c.period.months)
  }

  function Abs(x: real): real { if x < 0.0 then -x else x }

  predicate Apart(a: Dec, b: Dec) { a.Some? && b.Some? && Abs(a.value - b.value) > TOLERANCE }

  function OpeningOriginal(c: Ctx): Dec
    requires ValidCtx(c)
  {
    if FollowsOn(c) && c.period.forward then c.prior.value.closing else c.point.opening
  }

  /** A default stands in for a missing input that is not overridden. */
  function WithDefault(c: Ctx, f: DebtField, original: Dec, default: Dec): Dec {
    if original.None? && default.Some? && Id(c, f) !in c.ov then default else original
  }

  function FxDefault(c: Ctx): Dec { if c.instrument.sameCurrency then Some(1.0) else None }

  datatype Inputs = Inputs(
    opening: Dec, draws: Dec, repayments: Dec, amortization: Dec, commitment: Dec, benchmark: Dec, floor: Dec, spread: Dec,
    coupon: Dec, commitmentFee: Dec, pikRate: Dec, cashFees: Dec, hedge: Dec, fx: Dec)

  function InputsOf(c: Ctx): Inputs
    requires ValidCtx(c)
  {
    var p := c.point;
    Inputs(
      Value(c, Opening, OpeningOriginal(c), true), Value(c, Draws, p.draws, true), Value(c, Repayments, p.repayments, true),
      Value(c, Amortization, p.amortization, true), Value(c, Commitment, p.commitment, true), Value(c, Benchmark, p.benchmark, false),
      Value(c, Floor, WithDefault(c, Floor, p.floor, Some(0.0)), false), Value(c, Spread, p.spread, false),
      Value(c, Coupon, p.coupon, false), Value(c, CommitmentFee, p.commitmentFee, false), Value(c, PikRate, p.pikRate, false),
      Value(c, CashFees, p.cashFees, false), Value(c, Hedge, p.hedge, false),
      Value(c, Fx, WithDefault(c, Fx, p.fx, FxDefault(c)), false))
  }

  function InputGaps(c: Ctx): seq<Gap>
    requires ValidCtx(c)
  {
    var p := c.point;
    GapIf(FollowsOn(c) && !c.period.forward && Apart(c.prior.value.closing, p.opening), Id(c, Opening), OpeningBreak)
    + Gaps(c, Opening, OpeningOriginal(c), true) + Gaps(c, Draws, p.draws, true) + Gaps(c, Repayments, p.repayments, true)
    + Gaps(c, Amortization, p.amortization, true) + Gaps(c, Commitment, p.commitment, true)
  }

  function MissingGaps(c: Ctx, i: Inputs): seq<Gap> {
    var rate := c.instrument.rateType;
    GapIf(i.opening.None?, Id(c, Opening), MissingInput) + GapIf(i.draws.None?, Id(c, Draws), MissingInput)
    + GapIf(i.repayments.None?, Id(c, Repayments), MissingInput) + GapIf(i.amortization.None?, Id(c, Amortization), MissingInput)
    + GapIf(i.commitmentFee.None?, Id(c, CommitmentFee), MissingInput) + GapIf(i.pikRate.None?, Id(c, PikRate), MissingInput)
    + GapIf(i.cashFees.None?, Id(c, CashFees), MissingInput) + GapIf(i.hedge.None?, Id(c, Hedge), MissingInput)
    + GapIf(rate.Unknown?, Id(c, Coupon), MissingRateType)
    + GapIf((rate.Floating? || rate.Hybrid?) && i.benchmark.None?, Id(c, Benchmark), MissingInput)
    + GapIf((rate.Floating? || rate.Hybrid?) && i.floor.None?, Id(c, Floor), MissingInput)
    + GapIf((rate.Floating? || rate.Hybrid?) && i.spread.None?, Id(c, Spread), MissingInput)
    + GapIf((rate.Fixed? || rate.Hybrid?) && i.coupon.None?, Id(c, Coupon), MissingInput)
    + GapIf(i.fx.None?, Id(c, Fx), MissingInput)
    + GapIf(i.commitmentFee.Some? && i.commitmentFee.value != 0.0 && i.commitment.None?, Id(c, Commitment), MissingInput)
  }

  // ---------------------------------------------------------------- balances of a row

  function Annualization(c: Ctx): real { c.period.months as real / 12.0 }

  /** Interest on an average balance at a yearly rate over the period. */
  function Accrual(c: Ctx, average: real, rate: real): real { average * rate * Annualization(c) }

  predicate CoreKnown(i: Inputs) { i.opening.Some? && i.draws.Some? && i.repayments.Some? && i.amortization.Some? && i.pikRate.Some? }

  function RawBase(i: Inputs): real
    requires CoreKnown(i)
  {
    i.opening.value + i.draws.value - i.repayments.value - i.amortization.value
  }

  /** The closing balance before interest, unless negative. */
  function Base(i: Inputs): Dec {
    if CoreKnown(i) && RawBase(i) >= 0.0 then Some(RawBase(i)) else None
  }

  function PikFactor(c: Ctx, i: Inputs): real
    requires i.pikRate.Some?
  {
    i.pikRate.value * Annualization(c)
  }

  function Solution(base: real, p: real, opening: real): real
    requires 1.0 - p / 2.0 != 0.0
  {
    (base + p * opening / 2.0) / (1.0 - p / 2.0)
  }

  /** The PIK interest on the mean of opening and closing balance, which depends on the closing balance it produces. */
  function MeanPik(p: real, opening: real, x: real): real { p * (opening + x) / 2.0 }

  /** The circular PIK equation solved in closed form. */
  function FormulaClosing(c: Ctx, i: Inputs): Dec {
    if Base(i).None? || 1.0 - PikFactor(c, i) / 2.0 <= 0.0 then None
    else Some(Solution(Base(i).value, PikFactor(c, i), i.opening.value))
  }

  predicate Overridden(c: Ctx, f: DebtField) { Id(c, f) in c.ov }

  function OverrideValue(c: Ctx, f: DebtField): Dec
    requires Overridden(c, f)
  {
    match c.ov[Id(c, f)] case Number(v) => Some(v) case Null => None
  }

  /** The closing balance guessed before the nodes are evaluated. */
  function ClosingCandidate(c: Ctx, i: Inputs): Dec {
    if Overridden(c, Closing) then OverrideValue(c, Closing)
    else if Overridden(c, Expected) then OverrideValue(c, Expected)
    else if Overridden(c, PikInterest) then
      (if Base(i).None? || OverrideValue(c, PikInterest).None? then None
       else Some(Base(i).value + OverrideValue(c, PikInterest).value))
    else if Overridden(c, Average) then
      (if Base(i).None? || OverrideValue(c, Average).None? || i.pikRate.None? then None
       else Some(Base(i).value + Accrual(c, OverrideValue(c, Average).value, i.pikRate.value)))
    else FormulaClosing(c, i)
  }

  datatype Balances = Balances(average: Dec, pik: Dec, expected: Dec, closing: Dec, residual: Dec)

  function Mean(a: Dec, b: Dec): Dec { if a.None? || b.None? then None else Some((a.value + b.value) / 2.0) }

  function PikOriginal(c: Ctx, i: Inputs, average: Dec): Dec {
    if average.None? || i.pikRate.None? then None else Some(Accrual(c, average.value, i.pikRate.value))
  }

  function ResidualOriginal(closing: Dec, expected: Dec): Dec {
    if closing.None? || expected.None? then None else Some(closing.value - expected.value)
  }

  function ForwardExpected(i: Inputs, pik: Dec): Dec {
    if Base(i).None? || pik.None? then None else Some(Base(i).value + pik.value)
  }

  function SourcedExpected(i: Inputs, pik: Dec): Dec {
    if i.opening.None? || i.draws.None? || pik.None? || i.repayments.None? || i.amortization.None? then None
    else Some(i.opening.value + i.draws.value + pik.value - i.repayments.value - i.amortization.value)
  }

  function BalancesOf(c: Ctx, i: Inputs): Balances {
    if c.period.forward then
      var average := Value(c, Average, Mean(i.opening, ClosingCandidate(c, i)), true);
      var pik := Value(c, PikInterest, PikOriginal(c, i, average), false);
      var expected := Value(c, Expected, ForwardExpected(i, pik), true);
      var closing := Value(c, Closing, expected, true);
      Balances(average, pik, expected, closing, Value(c, Residual, ResidualOriginal(closing, expected), false))
    else
      var closing := Value(c, Closing, c.point.closing, true);
      var average := Value(c, Average, Mean(i.opening, closing), true);
      var pik := Value(c, PikInterest, PikOriginal(c, i, average), false);
      var expected := Value(c, Expected, SourcedExpected(i, pik), true);
      Balances(average, pik, expected, closing, Value(c, Residual, ResidualOriginal(closing, expected), false))
  }

  function BalanceGaps(c: Ctx, i: Inputs, b: Balances): seq<Gap> {
    GapIf(c.period.forward && CoreKnown(i) && RawBase(i) < 0.0, Id(c, Expected), NegativeBase)
    + GapIf(c.period.forward && Base(i).Some? && 1.0 - PikFactor(c, i) / 2.0 <= 0.0, Id(c, Expected), BadDenominator)
    + (if c.period.forward then
         Gaps(c, Average, Mean(i.opening, ClosingCandidate(c, i)), true) + Gaps(c, Expected, ForwardExpected(i, b.pik), true)
         + Gaps(c, Closing, b.expected, true)
       else
         Gaps(c, Closing, c.point.closing, true) + GapIf(b.closing.None?, Id(c, Closing), MissingInput)
         + Gaps(c, Average, Mean(i.opening, b.closing), true) + Gaps(c, Expected, SourcedExpected(i, b.pik), true))
    + GapIf(Apart(b.closing, b.expected), Id(c, Residual), ResidualTooLarge)
  }

  // ---------------------------------------------------------------- interest of a row

  function Scaled(average: Dec, rate: Dec, c: Ctx): Dec {
    if average.None? || rate.None? then None else Some(Accrual(c, average.value, rate.value))
  }

  function Max(a: real, b: real): real { if a > b then a else b }

  function FlooredBenchmark(i: Inputs): Dec {
    if i.benchmark.None? || i.floor.None? then None else Some(Max(i.benchmark.value, i.floor.value))
  }

  function FeesOriginal(c: Ctx, i: Inputs, average: Dec): Dec {
    if average.None? || i.commitmentFee.None? || i.cashFees.None? then None
    else if i.commitmentFee.value == 0.0 then i.cashFees
    else if i.commitment.None? then None
    else Some(Max(0.0, i.commitment.value - average.value) * i.commitmentFee.value * Annualization(c) + i.cashFees.value)
  }

  datatype Interest = Interest(benchmark: Dec, margin: Dec, coupon: Dec, fees: Dec, fxEffect: Dec, cashInterest: Dec, reporting: Dec)

  function LocalInterest(i: Inputs, benchmark: Dec, margin: Dec, coupon: Dec, fees: Dec): Dec {
    if benchmark.None? || margin.None? || coupon.None? || fees.None? || i.hedge.None? then None
    else Some(benchmark.value + margin.value + coupon.value + fees.value + i.hedge.value)
  }

  function FxEffectOriginal(i: Inputs, local: Dec): Dec {
    if local.None? || i.fx.None? then None else Some(local.value * (i.fx.value - 1.0))
  }

  function Total(a: Dec, b: Dec): Dec { if a.None? || b.None? then None else Some(a.value + b.value) }

  function Converted(closing: Dec, fx: Dec): Dec { if closing.None? || fx.None? then None else Some(closing.value * fx.value) }

  function InterestOf(c: Ctx, i: Inputs, b: Balances): Interest {
    var rate := c.instrument.rateType;
    var benchmark := Value(c, BenchmarkInterest,
      if rate.Fixed? then Some(0.0) else if rate.Unknown? then None else Scaled(b.average, FlooredBenchmark(i), c), false);
    var margin := Value(c, MarginInterest,
      if rate.Fixed? then Some(0.0) else if rate.Unknown? then None else Scaled(b.average, i.spread, c), false);
    var coupon := Value(c, CouponInterest,
      if rate.Floating? then Some(0.0) else if rate.Unknown? then None else Scaled(b.average, i.coupon, c), false);
    var fees := Value(c, Fees, FeesOriginal(c, i, b.average), false);
    var local := LocalInterest(i, benchmark, margin, coupon, fees);
    var fxEffect := Value(c, FxEffect, FxEffectOriginal(i, local), false);
    Interest(benchmark, margin, coupon, fees, fxEffect, Value(c, CashInterest, Total(local, fxEffect), true),
             Value(c, ReportingDebt, Converted(b.closing, i.fx), true))
  }

  function InterestGaps(c: Ctx, i: Inputs, b: Balances, n: Interest): seq<Gap> {
    Gaps(c, CashInterest, Total(LocalInterest(i, n.benchmark, n.margin, n.coupon, n.fees), n.fxEffect), true)
    + Gaps(c, ReportingDebt, Converted(b.closing, i.fx), true)
  }

  function UnavailableGaps(c: Ctx, b: Balances, n: Interest): seq<Gap> {
    GapIf(b.closing.None?, Id(c, Closing), Unavailable) + GapIf(b.average.None?, Id(c, Average), Unavailable)
    + GapIf(b.expected.None?, Id(c, Expected), Unavailable) + GapIf(b.residual.None?, Id(c, Residual), Unavailable)
    + GapIf(n.benchmark.None?, Id(c, BenchmarkInterest), Unavailable) + GapIf(n.margin.None?, Id(c, MarginInterest), Unavailable)
    + GapIf(n.coupon.None?, Id(c, CouponInterest), Unavailable) + GapIf(n.fees.None?, Id(c, Fees), Unavailable)
    + GapIf(b.pik.None?, Id(c, PikInterest), Unavailable) + GapIf(n.fxEffect.None?, Id(c, FxEffect), Unavailable)
    + GapIf(n.cashInterest.None?, Id(c, CashInterest), Unavailable) + GapIf(n.reporting.None?, Id(c, ReportingDebt), Unavailable)
  }

  // ---------------------------------------------------------------- the row

  datatype Row = Row(inputs: Inputs, balances: Balances, interest: Interest)

  function RowOf(c: Ctx): Row
    requires ValidCtx(c)
  {
    var i := InputsOf(c);
    var b := BalancesOf(c, i);
    Row(i, b, InterestOf(c, i, b))
  }

  function RowGaps(c: Ctx): seq<Gap>
    requires ValidCtx(c)
  {
    var r := RowOf(c);
    InputGaps(c) + MissingGaps(c, r.inputs) + BalanceGaps(c, r.inputs, r.balances)
    + InterestGaps(c, r.inputs, r.balances, r.interest) + UnavailableGaps(c, r.balances, r.interest)
  }

  function Covers(v: Dec, low: real): bool { v.Some? && v.value >= low }

  /** Everything a row without gaps is known to satisfy. */
  predicate Sound(c: Ctx, r: Row)
    requires ValidCtx(c)
  {
    var (i, b, n) := (r.inputs, r.balances, r.interest);
    && CoreKnown(i) && i.fx.Some? && i.hedge.Some? && i.cashFees.Some? && i.commitmentFee.Some? && !c.instrument.rateType.Unknown?
    && Covers(i.opening, 0.0) && Covers(i.draws, 0.0) && Covers(i.repayments, 0.0) && Covers(i.amortization, 0.0)
    && Covers(b.closing, 0.0) && Covers(b.average, 0.0) && Covers(b.expected, 0.0) && b.pik.Some? && b.residual.Some?
    && Abs(b.closing.value - b.expected.value) <= TOLERANCE
    && n.benchmark.Some? && n.margin.Some? && n.coupon.Some? && n.fees.Some? && n.fxEffect.Some?
    && Covers(n.cashInterest, 0.0) && Covers(n.reporting, 0.0)
    && (FollowsOn(c) && !c.period.forward && c.prior.value.closing.Some? && c.point.opening.Some? ==>
          Abs(c.prior.value.closing.value - c.point.opening.value) <= TOLERANCE)
  }

  lemma GaplessParts(c: Ctx)
    requires ValidCtx(c) && RowGaps(c) == []
    ensures
      var r := RowOf(c);
      InputGaps(c) == [] && MissingGaps(c, r.inputs) == [] && BalanceGaps(c, r.inputs, r.balances) == []
      && InterestGaps(c, r.inputs, r.balances, r.interest) == [] && UnavailableGaps(c, r.balances, r.interest) == []
  {
    hide InputGaps, MissingGaps, BalanceGaps, InterestGaps, UnavailableGaps, RowOf;
    assert |RowGaps(c)| == 0;
  }

  lemma NoMissingInputs(c: Ctx, i: Inputs)
    requires MissingGaps(c, i) == []
    ensures CoreKnown(i) && i.fx.Some? && i.hedge.Some? && i.cashFees.Some? && i.commitmentFee.Some? && !c.instrument.rateType.Unknown?
  {
    assert |MissingGaps(c, i)| == 0;
  }

  lemma NothingUnavailable(c: Ctx, b: Balances, n: Interest)
    requires UnavailableGaps(c, b, n) == []
    ensures b.closing.Some? && b.average.Some? && b.expected.Some? && b.residual.Some? && b.pik.Some?
    ensures n.benchmark.Some? && n.margin.Some? && n.coupon.Some? && n.fees.Some? && n.fxEffect.Some? && n.cashInterest.Some? && n.reporting.Some?
  {
    assert |UnavailableGaps(c, b, n)| == 0;
  }

  /** A row that records no gap is complete, non-negative, tied out and tied to its predecessor. */
  lemma GaplessRowIsSound(c: Ctx)
    requires ValidCtx(c) && RowGaps(c) == []
    ensures Sound(c, RowOf(c))
  {
    var r := RowOf(c);
    GaplessParts(c);
    NoMissingInputs(c, r.inputs);
    NothingUnavailable(c, r.balances, r.interest);
    assert |InputGaps(c)| == 0 && |BalanceGaps(c, r.inputs, r.balances)| == 0;
    hide MissingGaps, UnavailableGaps, InterestGaps, Contiguous;
  }

  // ---------------------------------------------------------------- the circular close

  lemma Quotient(n: real, d: real, x: real)
    requires d > 0.0
    ensures x == n / d <==> x * d == n
  {
    var q := n / d;
    assert q * d == n;
    assert (x - q) * d == x * d - n;
  }

  lemma ClosedForm(base: real, p: real, opening: real, x: real)
    requires 1.0 - p / 2.0 > 0.0
    ensures x == base + MeanPik(p, opening, x) <==> x == Solution(base, p, opening)
  {
    var d := 1.0 - p / 2.0;
    assert x * d == x - p * x / 2.0;
    assert p * (opening + x) / 2.0 == p * opening / 2.0 + p * x / 2.0;
    Quotient(base + p * opening / 2.0, d, x);
  }

  /** The accrual on the mean, regrouped around the PIK factor. */
  lemma PikRegrouped(c: Ctx, i: Inputs, x: real)
    requires i.opening.Some? && i.pikRate.Some?
    ensures Accrual(c, (i.opening.value + x) / 2.0, i.pikRate.value) == MeanPik(PikFactor(c, i), i.opening.value, x)
  {
    var (s, rate, ann) := (i.opening.value + x, i.pikRate.value, Annualization(c));
    assert s / 2.0 * rate * ann == s / 2.0 * (rate * ann);
    assert s / 2.0 * (rate * ann) == rate * ann * s / 2.0;
  }

  /**
   The guess is what comes out. Whichever of closing, expected, PIK interest and average are overridden, and with
   whatever values or nulls, a forecast row closes at the candidate it averaged with, or without a value.
   */
  lemma CandidateIsClose(c: Ctx, i: Inputs)
    requires c.period.forward && ValidCtx(c)
    ensures
      var b := BalancesOf(c, i);
      b.closing == ClosingCandidate(c, i) || b.closing.None?
  {
    if !Overridden(c, Closing) && !Overridden(c, Expected) && !Overridden(c, PikInterest) && !Overridden(c, Average) && FormulaClosing(c, i).Some? {
      hide Solution, MeanPik, Accrual;
      var x := FormulaClosing(c, i).value;
      ClosedForm(Base(i).value, PikFactor(c, i), i.opening.value, x);
      PikRegrouped(c, i, x);
    }
  }

  /**
   Without overrides the close is the one solution of closing = base + p*(opening + closing)/2, with no residual,
   whenever that solution and the average it gives are not negative; otherwise the row has no close.
   */
  lemma CircularCloseSolved(c: Ctx, i: Inputs, x: real)
    requires c.period.forward && ValidCtx(c) && Base(i).Some? && 1.0 - PikFactor(c, i) / 2.0 > 0.0
    requires !Overridden(c, Closing) && !Overridden(c, Expected) && !Overridden(c, PikInterest) && !Overridden(c, Average) && !Overridden(c, Residual)
    ensures
      var b := BalancesOf(c, i);
      var p := PikFactor(c, i);
      var solves := x == Base(i).value + MeanPik(p, i.opening.value, x);
      && (solves ==> (b.closing == Some(x) <==> x >= 0.0 && i.opening.value + x >= 0.0))
      && (b.closing == Some(x) ==> solves && b.residual == Some(0.0))
      && (b.closing.Some? <==> FormulaClosing(c, i).value >= 0.0 && i.opening.value + FormulaClosing(c, i).value >= 0.0)
  {
    hide Solution, MeanPik, Accrual, PikFactor;
    var y := FormulaClosing(c, i).value;
    ClosedForm(Base(i).value, PikFactor(c, i), i.opening.value, x);
    ClosedForm(Base(i).value, PikFactor(c, i), i.opening.value, y);
    PikRegrouped(c, i, y);
  }

  // ---------------------------------------------------------------- where a row opens

  /** A row follows on its predecessor exactly when their reporting dates lie its length apart, on the same day of the month. */
  lemma FollowsOnIff(c: Ctx)
    requires ValidCtx(c) && c.prior.Some? && Valid(c.prior.value.effective)
    ensures
      var (a, b) := (c.prior.value.effective, Calendar.Effective(c.period.key));
      FollowsOn(c) <==> MonthIndex(b) == MonthIndex(a) + c.period.months && SameDay(a, b)
  {
    ContiguousIff(c.prior.value.effective, Calendar.Effective(c.period.key), c.period.months);
  }

  /** A forecast dated its length after its predecessor opens at that one's close; any other row opens as sourced. */
  lemma RowOpens(c: Ctx)
    requires ValidCtx(c) && Id(c, Opening) !in c.ov && (c.prior.Some? ==> Valid(c.prior.value.effective))
    ensures
      var b := Calendar.Effective(c.period.key);
      var carried := c.period.forward && c.prior.Some? && MonthIndex(b) == MonthIndex(c.prior.value.effective) + c.period.months
                     && SameDay(c.prior.value.effective, b);
      var from := if carried then c.prior.value.closing else c.point.opening;
      RowOf(c).inputs.opening == if from.Some? && from.value >= 0.0 then from else None
  {
    if c.prior.Some? {
      FollowsOnIff(c);
    }
    hide FollowsOn, BalancesOf, InterestOf, SameDay;
  }
}
