/**
 When a debt calculation is ready, and what its figures are then (model_engine_v2.py:600-1459): every node is its
 override or the stated sum, product or ratio of the nodes it is made from.
 */
module DebtReadiness {
  import opened Json
  import opened Calendar
  import opened DebtEngine
  import opened DebtSchedule

  /** A node holds its override where it has one, a null override being none, and otherwise this value. */
  predicate Reads(ov: Overrides, id: NodeId, original: Dec, v: Dec) {
    && (id !in ov ==> v == original)
    && (id in ov ==> (ov[id].Null? ==> v.None?) && (ov[id].Number? ==> v == Some(ov[id].value)))
  }

  /** The same of a node that never holds a negative value. */
  ghost predicate ReadsPositive(ov: Overrides, id: NodeId, original: Dec, v: Dec) {
    (v.Some? ==> v.value >= 0.0 && Reads(ov, id, original, v))
    && (v.None? ==> Reads(ov, id, original, None) || exists x: real :: x < 0.0 && Reads(ov, id, original, Some(x)))
  }

  lemma NodeReads(ov: Overrides, id: NodeId, original: Dec)
    ensures Reads(ov, id, original, Node(ov, id, original, false)) && ReadsPositive(ov, id, original, Node(ov, id, original, true))
    ensures NodeGaps(ov, id, original, true) == [] <==> Reads(ov, id, original, Node(ov, id, original, true))
  {
    var v := DebtEngine.Effective(ov, id, original);
    assert Reads(ov, id, original, v);
  }

  // ---------------------------------------------------------------- a row

  /** A yearly rate over the months of the row's period. */
  function OverPeriod(c: Ctx, rate: real): real { rate * (c.period.months as real / 12.0) }

  /** What a yearly rate charges on an average balance over the period. */
  function Charged(c: Ctx, average: real, rate: real): real { average * OverPeriod(c, rate) }

  /** An amount in another currency. */
  function AtRate(amount: real, rate: real): real { amount * rate }

  function Greater(a: real, b: real): real { if a >= b then a else b }

  /** The inputs without which a row has a gap. */
  predicate InputsGiven(c: Ctx, i: Inputs) {
    var rate := c.instrument.rateType;
    && i.opening.Some? && i.draws.Some? && i.repayments.Some? && i.amortization.Some?
    && i.commitmentFee.Some? && i.pikRate.Some? && i.cashFees.Some? && i.hedge.Some? && i.fx.Some?
    && rate != Unknown
    && (rate in {Floating, Hybrid} ==> i.benchmark.Some? && i.floor.Some? && i.spread.Some?)
    && (rate in {Fixed, Hybrid} ==> i.coupon.Some?)
    && (i.commitmentFee.value != 0.0 ==> i.commitment.Some?)
  }

  predicate NodesGiven(b: Balances, n: Interest) {
    && b.closing.Some? && b.average.Some? && b.expected.Some? && b.residual.Some? && b.pik.Some?
    && n.benchmark.Some? && n.margin.Some? && n.coupon.Some? && n.fees.Some? && n.fxEffect.Some? && n.cashInterest.Some? && n.reporting.Some?
  }

  predicate Within(a: real, b: real) { a - b <= 0.01 && b - a <= 0.01 }

  /** A forecast balance that repayments do not exceed and that its PIK interest does not run away with. */
  predicate Rollable(c: Ctx, i: Inputs)
    requires InputsGiven(c, i)
  {
    && i.opening.value + i.draws.value >= i.repayments.value + i.amortization.value
    && OverPeriod(c, i.pikRate.value) < 2.0
  }

  /** What keeps a row free of gaps: given inputs, given nodes, and balances that can be rolled forward and tie out. */
  predicate RowReady(c: Ctx)
    requires ValidCtx(c)
  {
    var (i, b) := (RowOf(c).inputs, RowOf(c).balances);
    && InputsGiven(c, i) && NodesGiven(b, RowOf(c).interest)
    && Reads(c.ov, Id(c, Commitment), c.point.commitment, i.commitment)
    && Within(b.closing.value, b.expected.value)
    && (c.period.forward ==> Rollable(c, i))
    && (FollowsOn(c) && !c.period.forward && c.prior.value.closing.Some? && c.point.opening.Some? ==>
          Within(c.prior.value.closing.value, c.point.opening.value))
  }

  lemma NoGap(a: bool, id: NodeId, why: Why)
    ensures GapIf(a, id, why) == [] <==> !a
  {
  }

  lemma MissingIff(c: Ctx, i: Inputs)
    ensures MissingGaps(c, i) == [] <==> InputsGiven(c, i)
  {
    assert MissingGaps(c, i) == [] <==> |MissingGaps(c, i)| == 0;
  }

  lemma UnavailableIff(c: Ctx, b: Balances, n: Interest)
    ensures UnavailableGaps(c, b, n) == [] <==> NodesGiven(b, n)
  {
    assert UnavailableGaps(c, b, n) == [] <==> |UnavailableGaps(c, b, n)| == 0;
  }

  /** A row has no gap exactly when it is ready. */
  lemma RowReadyIff(c: Ctx)
    requires ValidCtx(c)
    ensures RowGaps(c) == [] <==> RowReady(c)
  {
    var r := RowOf(c);
    MissingIff(c, r.inputs);
    UnavailableIff(c, r.balances, r.interest);
    RestIff(c);
    hide MissingGaps, UnavailableGaps, InputGaps, BalanceGaps, InterestGaps, RowOf, InputsGiven, NodesGiven;
    assert RowGaps(c) == [] <==> |RowGaps(c)| == 0;
  }

  /** A node that is there was not negative. */
  lemma GivenNotNegative(ov: Overrides, id: NodeId, original: Dec)
    ensures Node(ov, id, original, true).Some? ==> NodeGaps(ov, id, original, true) == []
  {
  }

  lemma InputGapsIff(c: Ctx)
    requires ValidCtx(c)
    ensures
      var i := InputsOf(c);
      InputsGiven(c, i) ==>
        (InputGaps(c) == [] <==>
           && Reads(c.ov, Id(c, Commitment), c.point.commitment, i.commitment)
           && (FollowsOn(c) && !c.period.forward && c.prior.value.closing.Some? && c.point.opening.Some? ==>
                 Within(c.prior.value.closing.value, c.point.opening.value)))
  {
    var p := c.point;
    GivenNotNegative(c.ov, Id(c, Opening), OpeningOriginal(c));
    GivenNotNegative(c.ov, Id(c, Draws), p.draws);
    GivenNotNegative(c.ov, Id(c, Repayments), p.repayments);
    GivenNotNegative(c.ov, Id(c, Amortization), p.amortization);
    NodeReads(c.ov, Id(c, Commitment), p.commitment);
    hide FollowsOn, Node, NodeGaps, OpeningOriginal, Reads, WithDefault, FxDefault;
    assert InputGaps(c) == [] <==> |InputGaps(c)| == 0;
  }

  lemma SameProduct(a: real, x: real, y: real)
    requires x == y
    ensures a * x == a * y
  {
  }

  lemma RollableIff(c: Ctx, i: Inputs)
    requires InputsGiven(c, i)
    ensures Rollable(c, i) <==> RawBase(i) >= 0.0 && 1.0 - PikFactor(c, i) / 2.0 > 0.0
  {
    SameProduct(i.pikRate.value, Annualization(c), c.period.months as real / 12.0);
    assert PikFactor(c, i) == OverPeriod(c, i.pikRate.value);
    hide PikFactor, OverPeriod;
  }

  lemma BalanceGapsIff(c: Ctx, i: Inputs, n: Interest)
    requires ValidCtx(c) && i == InputsOf(c)
    ensures
      var b := BalancesOf(c, i);
      InputsGiven(c, i) && NodesGiven(b, n) ==>
        (BalanceGaps(c, i, b) == [] <==>
           && Within(b.closing.value, b.expected.value)
           && (c.period.forward ==> Rollable(c, i)))
  {
    var b := BalancesOf(c, i);
    GivenNotNegative(c.ov, Id(c, Average), Mean(i.opening, ClosingCandidate(c, i)));
    GivenNotNegative(c.ov, Id(c, Average), Mean(i.opening, b.closing));
    GivenNotNegative(c.ov, Id(c, Expected), ForwardExpected(i, b.pik));
    GivenNotNegative(c.ov, Id(c, Expected), SourcedExpected(i, b.pik));
    GivenNotNegative(c.ov, Id(c, Closing), b.expected);
    GivenNotNegative(c.ov, Id(c, Closing), c.point.closing);
    hide InputsOf, Node, NodeGaps, ClosingCandidate, Mean, ForwardExpected, SourcedExpected, PikOriginal, ResidualOriginal;
    assert BalanceGaps(c, i, b) == [] <==> |BalanceGaps(c, i, b)| == 0;
    if InputsGiven(c, i) && NodesGiven(b, n) {
      RollableIff(c, i);
      hide Rollable, PikFactor;
      if c.period.forward {
        assert Gaps(c, Average, Mean(i.opening, ClosingCandidate(c, i)), true) == [] && Gaps(c, Expected, ForwardExpected(i, b.pik), true) == []
               && Gaps(c, Closing, b.expected, true) == [];
      } else {
        assert Gaps(c, Closing, c.point.closing, true) == [] && Gaps(c, Average, Mean(i.opening, b.closing), true) == []
               && Gaps(c, Expected, SourcedExpected(i, b.pik), true) == [];
      }
    }
  }

  lemma InterestGapsIff(c: Ctx, i: Inputs, b: Balances)
    ensures var n := InterestOf(c, i, b); NodesGiven(b, n) ==> InterestGaps(c, i, b, n) == []
  {
    var n := InterestOf(c, i, b);
    GivenNotNegative(c.ov, Id(c, CashInterest), Total(LocalInterest(i, n.benchmark, n.margin, n.coupon, n.fees), n.fxEffect));
    GivenNotNegative(c.ov, Id(c, ReportingDebt), Converted(b.closing, i.fx));
    hide Node, NodeGaps, Scaled, FeesOriginal, FxEffectOriginal, LocalInterest, FlooredBenchmark, Total, Converted;
  }

  lemma RestIff(c: Ctx)
    requires ValidCtx(c)
    ensures
      var r := RowOf(c);
      InputsGiven(c, r.inputs) && NodesGiven(r.balances, r.interest) ==>
        (InputGaps(c) == [] && BalanceGaps(c, r.inputs, r.balances) == [] && InterestGaps(c, r.inputs, r.balances, r.interest) == []
         <==> RowReady(c))
  {
    var r := RowOf(c);
    InputGapsIff(c);
    BalanceGapsIff(c, r.inputs, r.interest);
    InterestGapsIff(c, r.inputs, r.balances);
    hide FollowsOn, InputGaps, BalanceGaps, InterestGaps, InputsOf, BalancesOf, InterestOf, InputsGiven, NodesGiven, Reads, Rollable, Within;
    assert r.inputs == InputsOf(c) && r.balances == BalancesOf(c, r.inputs) && r.interest == InterestOf(c, r.inputs, r.balances);
  }

  // ---------------------------------------------------------------- the figures of a row

  /** The inputs are those supplied, with a floor of zero and, in the reporting currency, a conversion at par by default. */
  predicate InputsRead(c: Ctx, i: Inputs) {
    var (ov, p) := (c.ov, c.point);
    && Reads(ov, Id(c, Draws), p.draws, i.draws) && Reads(ov, Id(c, Repayments), p.repayments, i.repayments)
    && Reads(ov, Id(c, Amortization), p.amortization, i.amortization) && Reads(ov, Id(c, Commitment), p.commitment, i.commitment)
    && Reads(ov, Id(c, Benchmark), p.benchmark, i.benchmark) && Reads(ov, Id(c, Spread), p.spread, i.spread)
    && Reads(ov, Id(c, Coupon), p.coupon, i.coupon) && Reads(ov, Id(c, CommitmentFee), p.commitmentFee, i.commitmentFee)
    && Reads(ov, Id(c, PikRate), p.pikRate, i.pikRate) && Reads(ov, Id(c, CashFees), p.cashFees, i.cashFees)
    && Reads(ov, Id(c, Hedge), p.hedge, i.hedge)
    && Reads(ov, Id(c, Floor), if p.floor.None? then Some(0.0) else p.floor, i.floor)
    && Reads(ov, Id(c, Fx), if p.fx.None? && c.instrument.sameCurrency then Some(1.0) else p.fx, i.fx)
  }

  /** The balances: their mean, the PIK interest on it, the roll-forward, and what the close is off it. */
  predicate BalancesRead(c: Ctx, i: Inputs, b: Balances)
    requires InputsGiven(c, i) && b.closing.Some? && b.average.Some? && b.expected.Some? && b.pik.Some?
  {
    var (open, close) := (i.opening.value, b.closing.value);
    && Reads(c.ov, Id(c, Average), Some((open + close) / 2.0), b.average)
    && Reads(c.ov, Id(c, PikInterest), Some(Charged(c, b.average.value, i.pikRate.value)), b.pik)
    && Reads(c.ov, Id(c, Expected), Some(open + i.draws.value + b.pik.value - i.repayments.value - i.amortization.value), b.expected)
    && Reads(c.ov, Id(c, Closing), if c.period.forward then b.expected else c.point.closing, b.closing)
    && Reads(c.ov, Id(c, Residual), Some(close - b.expected.value), b.residual)
  }

  /** The fees: those in cash, and the commitment fee on what is not drawn. */
  function FeesDue(c: Ctx, i: Inputs, average: real): real
    requires InputsGiven(c, i)
  {
    if i.commitmentFee.value == 0.0 then i.cashFees.value
    else Charged(c, Greater(0.0, i.commitment.value - average), i.commitmentFee.value) + i.cashFees.value
  }

  /** The interest: benchmark no lower than its floor, margin and coupon on the average balance, fees, hedge and conversion. */
  predicate InterestReads(c: Ctx, i: Inputs, b: Balances, n: Interest)
    requires InputsGiven(c, i) && NodesGiven(b, n)
  {
    var (average, rate) := (b.average.value, c.instrument.rateType);
    var local := n.benchmark.value + n.margin.value + n.coupon.value + n.fees.value + i.hedge.value;
    && Reads(c.ov, Id(c, BenchmarkInterest),
             Some(if rate == Fixed then 0.0 else Charged(c, average, Greater(i.benchmark.value, i.floor.value))), n.benchmark)
    && Reads(c.ov, Id(c, MarginInterest), Some(if rate == Fixed then 0.0 else Charged(c, average, i.spread.value)), n.margin)
    && Reads(c.ov, Id(c, CouponInterest), Some(if rate == Floating then 0.0 else Charged(c, average, i.coupon.value)), n.coupon)
    && Reads(c.ov, Id(c, Fees), Some(FeesDue(c, i, average)), n.fees)
    && Reads(c.ov, Id(c, FxEffect), Some(AtRate(local, i.fx.value - 1.0)), n.fxEffect)
    && Reads(c.ov, Id(c, CashInterest), Some(local + n.fxEffect.value), n.cashInterest)
    && Reads(c.ov, Id(c, ReportingDebt), Some(AtRate(b.closing.value, i.fx.value)), n.reporting)
  }

  lemma AccrualRegrouped(c: Ctx, average: real, rate: real)
    ensures Accrual(c, average, rate) == Charged(c, average, rate)
  {
    var share := c.period.months as real / 12.0;
    assert average * rate * share == average * (rate * share);
  }

  lemma GivenReads(ov: Overrides, id: NodeId, original: Dec)
    ensures Node(ov, id, original, true).Some? ==> Reads(ov, id, original, Node(ov, id, original, true))
    ensures Reads(ov, id, original, Node(ov, id, original, false))
  {
  }

  lemma InputsReadBack(c: Ctx)
    requires ValidCtx(c) && RowReady(c)
    ensures InputsRead(c, InputsOf(c))
  {
    var p := c.point;
    assert Reads(c.ov, Id(c, Commitment), p.commitment, RowOf(c).inputs.commitment);
    assert InputsGiven(c, InputsOf(c));
    GivenReads(c.ov, Id(c, Draws), p.draws);
    GivenReads(c.ov, Id(c, Repayments), p.repayments);
    GivenReads(c.ov, Id(c, Amortization), p.amortization);
    forall f: DebtField, original: Dec ensures Reads(c.ov, Id(c, f), original, Node(c.ov, Id(c, f), original, false)) {
      GivenReads(c.ov, Id(c, f), original);
    }
    hide Node, RowOf, FollowsOn, OpeningOriginal;
  }

  lemma BalancesReadBack(c: Ctx, i: Inputs)
    requires ValidCtx(c) && i == InputsOf(c)
    ensures
      var b := BalancesOf(c, i);
      InputsGiven(c, i) && (c.period.forward ==> Rollable(c, i)) && NodesGiven(b, InterestOf(c, i, b)) ==> BalancesRead(c, i, b)
  {
    var b := BalancesOf(c, i);
    if InputsGiven(c, i) && (c.period.forward ==> Rollable(c, i)) && NodesGiven(b, InterestOf(c, i, b)) {
      GivenReads(c.ov, Id(c, Average), Mean(i.opening, b.closing));
      GivenReads(c.ov, Id(c, PikInterest), PikOriginal(c, i, b.average));
      GivenReads(c.ov, Id(c, Expected), ForwardExpected(i, b.pik));
      GivenReads(c.ov, Id(c, Expected), SourcedExpected(i, b.pik));
      GivenReads(c.ov, Id(c, Closing), b.expected);
      GivenReads(c.ov, Id(c, Closing), c.point.closing);
      GivenReads(c.ov, Id(c, Residual), ResidualOriginal(b.closing, b.expected));
      AccrualRegrouped(c, b.average.value, i.pikRate.value);
      if c.period.forward {
        CandidateIsClose(c, i);
      }
      hide Node, ClosingCandidate, Accrual, Charged, PikFactor, Rollable, InputsOf, InterestOf, Reads;
    }
  }

  lemma InterestReadsBack(c: Ctx, i: Inputs, b: Balances)
    ensures var n := InterestOf(c, i, b); InputsGiven(c, i) && NodesGiven(b, n) ==> InterestReads(c, i, b, n)
  {
    var n := InterestOf(c, i, b);
    if InputsGiven(c, i) && NodesGiven(b, n) {
      var (average, rate) := (b.average.value, c.instrument.rateType);
      var local := n.benchmark.value + n.margin.value + n.coupon.value + n.fees.value + i.hedge.value;
      RatesCharge(c, i, average);
      FeesAre(c, i, average);
      GivenReads(c.ov, Id(c, BenchmarkInterest), if rate.Fixed? then Some(0.0) else Scaled(b.average, FlooredBenchmark(i), c));
      GivenReads(c.ov, Id(c, MarginInterest), if rate.Fixed? then Some(0.0) else Scaled(b.average, i.spread, c));
      GivenReads(c.ov, Id(c, CouponInterest), if rate.Floating? then Some(0.0) else Scaled(b.average, i.coupon, c));
      GivenReads(c.ov, Id(c, Fees), FeesOriginal(c, i, b.average));
      assert LocalInterest(i, n.benchmark, n.margin, n.coupon, n.fees) == Some(local);
      ConversionIs(i, local, b.closing.value);
      GivenReads(c.ov, Id(c, FxEffect), FxEffectOriginal(i, Some(local)));
      GivenReads(c.ov, Id(c, CashInterest), Total(Some(local), n.fxEffect));
      GivenReads(c.ov, Id(c, ReportingDebt), Converted(b.closing, i.fx));
      hide Node, Charged, FeesOriginal, FeesDue, Reads, Scaled, FxEffectOriginal, LocalInterest, Converted, AtRate;
    }
  }

  lemma RatesCharge(c: Ctx, i: Inputs, average: real)
    requires InputsGiven(c, i)
    ensures
      var rate := c.instrument.rateType;
      && (rate != Fixed ==> Scaled(Some(average), FlooredBenchmark(i), c) == Some(Charged(c, average, Greater(i.benchmark.value, i.floor.value))))
      && (rate != Fixed ==> Scaled(Some(average), i.spread, c) == Some(Charged(c, average, i.spread.value)))
      && (rate != Floating ==> Scaled(Some(average), i.coupon, c) == Some(Charged(c, average, i.coupon.value)))
  {
    if c.instrument.rateType != Fixed {
      var floored := Greater(i.benchmark.value, i.floor.value);
      assert FlooredBenchmark(i) == Some(floored);
      AccrualRegrouped(c, average, floored);
      AccrualRegrouped(c, average, i.spread.value);
    }
    if c.instrument.rateType != Floating {
      AccrualRegrouped(c, average, i.coupon.value);
    }
    hide Accrual, Charged, FlooredBenchmark;
  }

  lemma ConversionIs(i: Inputs, amount: real, close: real)
    requires i.fx.Some?
    ensures FxEffectOriginal(i, Some(amount)) == Some(AtRate(amount, i.fx.value - 1.0))
    ensures Converted(Some(close), i.fx) == Some(AtRate(close, i.fx.value))
  {
    assert FxEffectOriginal(i, Some(amount)).value == AtRate(amount, i.fx.value - 1.0);
    assert Converted(Some(close), i.fx).value == AtRate(close, i.fx.value);
  }

  lemma FeesAre(c: Ctx, i: Inputs, average: real)
    requires InputsGiven(c, i)
    ensures FeesOriginal(c, i, Some(average)) == Some(FeesDue(c, i, average))
  {
    FeesKnownIs(c, i, Some(average));
    hide FeesOriginal, Charged;
  }

  /** The figures of a ready row: whatever is overridden, each is its override or what the others make it. */
  lemma ReadyRowFigures(c: Ctx)
    requires ValidCtx(c) && RowGaps(c) == []
    ensures
      var r := RowOf(c);
      InputsGiven(c, r.inputs) && NodesGiven(r.balances, r.interest)
      && InputsRead(c, r.inputs) && BalancesRead(c, r.inputs, r.balances) && InterestReads(c, r.inputs, r.balances, r.interest)
  {
    RowReadyIff(c);
    InputsReadBack(c);
    var r := RowOf(c);
    BalancesReadBack(c, r.inputs);
    InterestReadsBack(c, r.inputs, r.balances);
    assert r.inputs == InputsOf(c) && r.balances == BalancesOf(c, r.inputs) && r.interest == InterestOf(c, r.inputs, r.balances);
    hide FollowsOn, InputsOf, BalancesOf, InterestOf, InputsGiven, NodesGiven, Reads, Rollable, Within, InputsRead, BalancesRead, InterestReads;
  }

  // ---------------------------------------------------------------- a row that is not ready

  /** The inputs of every row, ready or not: balances only where they are not negative, and rates and fees as supplied. */
  lemma EveryInputReads(c: Ctx)
    requires ValidCtx(c)
    ensures
      var (i, ov, p) := (InputsOf(c), c.ov, c.point);
      && ReadsPositive(ov, Id(c, Draws), p.draws, i.draws) && ReadsPositive(ov, Id(c, Repayments), p.repayments, i.repayments)
      && ReadsPositive(ov, Id(c, Amortization), p.amortization, i.amortization) && ReadsPositive(ov, Id(c, Commitment), p.commitment, i.commitment)
      && Reads(ov, Id(c, Benchmark), p.benchmark, i.benchmark) && Reads(ov, Id(c, Spread), p.spread, i.spread)
      && Reads(ov, Id(c, Coupon), p.coupon, i.coupon) && Reads(ov, Id(c, CommitmentFee), p.commitmentFee, i.commitmentFee)
      && Reads(ov, Id(c, PikRate), p.pikRate, i.pikRate) && Reads(ov, Id(c, CashFees), p.cashFees, i.cashFees)
      && Reads(ov, Id(c, Hedge), p.hedge, i.hedge)
      && Reads(ov, Id(c, Floor), if p.floor.None? then Some(0.0) else p.floor, i.floor)
      && Reads(ov, Id(c, Fx), if p.fx.None? && c.instrument.sameCurrency then Some(1.0) else p.fx, i.fx)
  {
    var p := c.point;
    NodeReads(c.ov, Id(c, Draws), p.draws);
    NodeReads(c.ov, Id(c, Repayments), p.repayments);
    NodeReads(c.ov, Id(c, Amortization), p.amortization);
    NodeReads(c.ov, Id(c, Commitment), p.commitment);
    DefaultsRead(c);
    forall f: DebtField, original: Dec ensures Reads(c.ov, Id(c, f), original, Node(c.ov, Id(c, f), original, false)) {
      GivenReads(c.ov, Id(c, f), original);
    }
    hide Node, Reads, ReadsPositive, OpeningOriginal, WithDefault, FxDefault;
  }

  lemma DefaultsRead(c: Ctx)
    ensures Reads(c.ov, Id(c, Floor), if c.point.floor.None? then Some(0.0) else c.point.floor,
                  Node(c.ov, Id(c, Floor), WithDefault(c, Floor, c.point.floor, Some(0.0)), false))
    ensures Reads(c.ov, Id(c, Fx), if c.point.fx.None? && c.instrument.sameCurrency then Some(1.0) else c.point.fx,
                  Node(c.ov, Id(c, Fx), WithDefault(c, Fx, c.point.fx, FxDefault(c)), false))
  {
  }

  /** A negative balance among the inputs of a row is recorded as such. */
  lemma NegativeInputRecorded(c: Ctx, f: DebtField, x: real)
    requires ValidCtx(c) && x < 0.0
    requires
      var original := match f case Opening => OpeningOriginal(c) case Draws => c.point.draws case Repayments => c.point.repayments
                              case Amortization => c.point.amortization case _ => c.point.commitment;
      f in {Opening, Draws, Repayments, Amortization, Commitment} && Reads(c.ov, Id(c, f), original, Some(x))
    ensures Gap(Id(c, f), NegativeValue) in RowGaps(c)
  {
    var g := Gap(Id(c, f), NegativeValue);
    assert g in InputGaps(c) by {
      hide FollowsOn, OpeningOriginal;
    }
    hide InputGaps, MissingGaps, BalanceGaps, InterestGaps, UnavailableGaps, RowOf, OpeningOriginal, Reads;
  }

  /** A product of two figures, where both are known. */
  function Both(c: Ctx, average: Dec, rate: Dec): Dec {
    if average.Some? && rate.Some? then Some(Charged(c, average.value, rate.value)) else None
  }

  /** The interest of every row, ready or not: a charge is there exactly when its balance and its rate are. */
  lemma EveryChargeReads(c: Ctx, i: Inputs, b: Balances)
    ensures
      var (n, ov, rate) := (InterestOf(c, i, b), c.ov, c.instrument.rateType);
      && Reads(ov, Id(c, MarginInterest),
               if rate == Fixed then Some(0.0) else if rate == Unknown then None else Both(c, b.average, i.spread), n.margin)
      && Reads(ov, Id(c, CouponInterest),
               if rate == Floating then Some(0.0) else if rate == Unknown then None else Both(c, b.average, i.coupon), n.coupon)
      && (i.benchmark.Some? && i.floor.Some? ==>
            Reads(ov, Id(c, BenchmarkInterest),
                  if rate == Fixed then Some(0.0) else if rate == Unknown then None
                  else Both(c, b.average, Some(Greater(i.benchmark.value, i.floor.value))), n.benchmark))
  {
    if b.average.Some? {
      if i.spread.Some? { AccrualRegrouped(c, b.average.value, i.spread.value); }
      if i.coupon.Some? { AccrualRegrouped(c, b.average.value, i.coupon.value); }
      if i.benchmark.Some? && i.floor.Some? {
        AccrualRegrouped(c, b.average.value, Greater(i.benchmark.value, i.floor.value));
        assert FlooredBenchmark(i) == Some(Greater(i.benchmark.value, i.floor.value));
      }
    }
    var rate := c.instrument.rateType;
    GivenReads(c.ov, Id(c, BenchmarkInterest),
               if rate.Fixed? then Some(0.0) else if rate.Unknown? then None else Scaled(b.average, FlooredBenchmark(i), c));
    GivenReads(c.ov, Id(c, MarginInterest), if rate.Fixed? then Some(0.0) else if rate.Unknown? then None else Scaled(b.average, i.spread, c));
    GivenReads(c.ov, Id(c, CouponInterest), if rate.Floating? then Some(0.0) else if rate.Unknown? then None else Scaled(b.average, i.coupon, c));
    hide Node, Accrual, Charged, Reads, FeesOriginal, LocalInterest, FxEffectOriginal, Total, Converted, FlooredBenchmark;
  }

  /** The fees of a row: in cash alone where nothing is charged on the commitment, and otherwise only if that is known. */
  function FeesKnown(c: Ctx, i: Inputs, average: Dec): Dec {
    if average.None? || i.commitmentFee.None? || i.cashFees.None? then None
    else if i.commitmentFee.value == 0.0 then i.cashFees
    else if i.commitment.None? then None
    else Some(Charged(c, Greater(0.0, i.commitment.value - average.value), i.commitmentFee.value) + i.cashFees.value)
  }

  function Local(i: Inputs, n: Interest): Dec {
    if n.benchmark.Some? && n.margin.Some? && n.coupon.Some? && n.fees.Some? && i.hedge.Some? then
      Some(n.benchmark.value + n.margin.value + n.coupon.value + n.fees.value + i.hedge.value)
    else None
  }

  function Plus(a: Dec, b: Dec): Dec { if a.Some? && b.Some? then Some(a.value + b.value) else None }

  /** Fees, conversion and the cash and debt in the reporting currency, of every row. */
  lemma EveryConversionReads(c: Ctx, i: Inputs, b: Balances)
    ensures
      var (n, ov) := (InterestOf(c, i, b), c.ov);
      && Reads(ov, Id(c, Fees), FeesKnown(c, i, b.average), n.fees)
      && Reads(ov, Id(c, FxEffect),
               if Local(i, n).Some? && i.fx.Some? then Some(AtRate(Local(i, n).value, i.fx.value - 1.0)) else None, n.fxEffect)
      && ReadsPositive(ov, Id(c, CashInterest), Plus(Local(i, n), n.fxEffect), n.cashInterest)
      && ReadsPositive(ov, Id(c, ReportingDebt),
                       if b.closing.Some? && i.fx.Some? then Some(AtRate(b.closing.value, i.fx.value)) else None, n.reporting)
  {
    var n := InterestOf(c, i, b);
    FeesKnownIs(c, i, b.average);
    assert Local(i, n) == LocalInterest(i, n.benchmark, n.margin, n.coupon, n.fees);
    assert Plus(Local(i, n), n.fxEffect) == Total(Local(i, n), n.fxEffect);
    if i.fx.Some? {
      ConversionIs(i, if Local(i, n).Some? then Local(i, n).value else 0.0, if b.closing.Some? then b.closing.value else 0.0);
    }
    GivenReads(c.ov, Id(c, Fees), FeesOriginal(c, i, b.average));
    GivenReads(c.ov, Id(c, FxEffect), FxEffectOriginal(i, Local(i, n)));
    NodeReads(c.ov, Id(c, CashInterest), Total(Local(i, n), n.fxEffect));
    NodeReads(c.ov, Id(c, ReportingDebt), Converted(b.closing, i.fx));
    hide Node, NodeGaps, Reads, ReadsPositive, FeesOriginal, FeesKnown, AtRate, Scaled, Local, LocalInterest, Total, Plus;
  }

  lemma FeesKnownIs(c: Ctx, i: Inputs, average: Dec)
    ensures FeesOriginal(c, i, average) == FeesKnown(c, i, average)
  {
    if average.Some? && i.commitmentFee.Some? && i.cashFees.Some? && i.commitment.Some? && i.commitmentFee.value != 0.0 {
      var undrawn := Greater(0.0, i.commitment.value - average.value);
      AccrualRegrouped(c, undrawn, i.commitmentFee.value);
      assert undrawn == Max(0.0, i.commitment.value - average.value);
      var fee := i.commitmentFee.value;
      assert Accrual(c, undrawn, fee) == undrawn * fee * Annualization(c);
      assert FeesOriginal(c, i, average).value == Accrual(c, undrawn, fee) + i.cashFees.value;
    }
  }

  /** What a row is expected to close at: where everything is known, and a forecast only where repayments do not exceed it. */
  function RollForward(c: Ctx, i: Inputs, pik: Dec): Dec {
    if i.opening.None? || i.draws.None? || i.repayments.None? || i.amortization.None? || pik.None? then None
    else if c.period.forward
            && (i.pikRate.None? || i.opening.value + i.draws.value < i.repayments.value + i.amortization.value) then None
    else Some(i.opening.value + i.draws.value - i.repayments.value - i.amortization.value + pik.value)
  }

  function Off(close: Dec, expected: Dec): Dec { if close.Some? && expected.Some? then Some(close.value - expected.value) else None }

  function Halfway(a: Dec, b: Dec): Dec { if a.Some? && b.Some? then Some((a.value + b.value) / 2.0) else None }

  /** The balances of every row, ready or not. */
  lemma EveryBalanceReads(c: Ctx, i: Inputs)
    ensures
      var (b, ov) := (BalancesOf(c, i), c.ov);
      && Reads(ov, Id(c, PikInterest), Both(c, b.average, i.pikRate), b.pik)
      && ReadsPositive(ov, Id(c, Expected), RollForward(c, i, b.pik), b.expected)
      && ReadsPositive(ov, Id(c, Closing), if c.period.forward then b.expected else c.point.closing, b.closing)
      && Reads(ov, Id(c, Residual), Off(b.closing, b.expected), b.residual)
      && (!c.period.forward ==> ReadsPositive(ov, Id(c, Average), Halfway(i.opening, b.closing), b.average))
  {
    var b := BalancesOf(c, i);
    PikIs(c, i, b.average);
    ExpectedIs(c, i, b.pik);
    GivenReads(c.ov, Id(c, PikInterest), PikOriginal(c, i, b.average));
    NodeReads(c.ov, Id(c, Expected), RollForward(c, i, b.pik));
    NodeReads(c.ov, Id(c, Closing), b.expected);
    NodeReads(c.ov, Id(c, Closing), c.point.closing);
    GivenReads(c.ov, Id(c, Residual), ResidualOriginal(b.closing, b.expected));
    NodeReads(c.ov, Id(c, Average), Mean(i.opening, b.closing));
    hide Node, NodeGaps, Reads, ReadsPositive, ClosingCandidate, PikOriginal, Both, RollForward, ForwardExpected, SourcedExpected;
  }

  lemma PikIs(c: Ctx, i: Inputs, average: Dec)
    ensures PikOriginal(c, i, average) == Both(c, average, i.pikRate)
  {
    if average.Some? && i.pikRate.Some? {
      AccrualRegrouped(c, average.value, i.pikRate.value);
    }
    hide Accrual, Charged;
  }

  lemma ExpectedIs(c: Ctx, i: Inputs, pik: Dec)
    ensures RollForward(c, i, pik) == if c.period.forward then ForwardExpected(i, pik) else SourcedExpected(i, pik)
  {
  }

  // ---------------------------------------------------------------- the totals of a period

  /** What a period's total of its rows' figures is: nothing for no rows, a row's own figure, and the sum of two parts. */
  lemma {:induction false} SumsAdd(a: seq<Ctx>, b: seq<Ctx>, c: Ctx)
    requires ValidRows(a) && ValidRows(b) && ValidCtx(c)
    ensures ValidRows(a + b) && DebtSum(a + b) == DebtSum(a) + DebtSum(b) && InterestSum(a + b) == InterestSum(a) + InterestSum(b)
    ensures DebtSum([]) == 0.0 && InterestSum([]) == 0.0
    ensures RowOf(c).interest.reporting.Some? ==> DebtSum([c]) == RowOf(c).interest.reporting.value
    ensures RowOf(c).interest.cashInterest.Some? ==> InterestSum([c]) == RowOf(c).interest.cashInterest.value
    decreases |a|
  {
    hide RowOf;
    assert [c][1..] == [];
    if a == [] {
      assert a + b == b;
    } else {
      assert (a + b)[1..] == a[1..] + b;
      SumsAdd(a[1..], b, c);
    }
  }

  /** An input of the period as the calculation reads it. */
  function Supplied(p: Payload, t: Period, f: InputField): Dec {
    match f
    case Revenue => None
    case ReportedEbitda => Input(p, t, f, t.reportedEbitda, false)
    case Adjustments => Input(p, t, f, t.adjustments, false)
    case AdjustedEbitda => Input(p, t, f, t.adjustedEbitda, false)
    case Cash => Input(p, t, f, t.cash, false)
    case TotalDebt => Input(p, t, f, t.totalDebt, false)
    case NetDebt => Input(p, t, f, t.netDebt, false)
    case CashInterestInput => Input(p, t, f, t.cashInterest, false)
    case Taxes => Input(p, t, f, t.taxes, true)
    case Capex => Input(p, t, f, t.capex, true)
    case WorkingCapital => Input(p, t, f, t.workingCapital, false)
    case OtherCashFlow => Input(p, t, f, t.otherCashFlow, false)
  }

  predicate AllKnown(p: Payload, t: Period, fs: set<InputField>) { forall f | f in fs :: Supplied(p, t, f).Some? }

  /** The total of the schedule, unless the analyst overrides it or no instrument is there. */
  function FromSchedule(p: Payload, t: Period, f: InputField, rows: seq<Ctx>, sum: real): Dec {
    if InputNode(t.key, f) in p.ov || rows == [] then Supplied(p, t, f) else Some(sum)
  }

  /** Earnings before interest: given directly, or reported and adjusted. */
  function Earnings(p: Payload, t: Period): Dec {
    if Supplied(p, t, AdjustedEbitda).Some? then Supplied(p, t, AdjustedEbitda)
    else if AllKnown(p, t, {ReportedEbitda, Adjustments}) then
      Some(Supplied(p, t, ReportedEbitda).value + Supplied(p, t, Adjustments).value)
    else None
  }

  /** Debt less cash, unless the analyst overrides it or one of the two is unknown. */
  function NetOf(p: Payload, t: Period, debt: Dec): Dec {
    if InputNode(t.key, NetDebt) in p.ov || debt.None? || Supplied(p, t, Cash).None? then Supplied(p, t, NetDebt)
    else Some(debt.value - Supplied(p, t, Cash).value)
  }

  /** What is left of the earnings after interest, taxes and investment. */
  function CashLeft(p: Payload, t: Period, ebitda: real, interest: real): real
    requires AllKnown(p, t, {Taxes, Capex, WorkingCapital, OtherCashFlow})
  {
    ebitda - interest - Supplied(p, t, Taxes).value - Supplied(p, t, Capex).value
    + Supplied(p, t, WorkingCapital).value + Supplied(p, t, OtherCashFlow).value
  }

  predicate AllRowsReady(rows: seq<Ctx>)
    requires ValidRows(rows)
  {
    forall k | 0 <= k < |rows| :: RowReady(rows[k])
  }

  /**
   What keeps a period free of gaps: a ready row for every instrument, known earnings, debt, interest, net debt and cash
   flow, and positive earnings and interest to put in relation.
   */
  predicate PeriodReady(p: Payload, t: Period, rows: seq<Ctx>)
    requires ValidRows(rows)
  {
    var x := TotalsOf(p, t, rows);
    && (forall k | 0 <= k < |p.instruments| :: t.key in p.instruments[k].points) && AllRowsReady(rows)
    && Earnings(p, t).Some? && DebtSchedule.Positive(x.ebitda) && DebtSchedule.Positive(x.cashInterest)
    && FromSchedule(p, t, TotalDebt, rows, DebtSum(rows)).Some? && FromSchedule(p, t, CashInterestInput, rows, InterestSum(rows)).Some?
    && Reads(p.ov, CalcNode(t.key, TotalDebtNode), FromSchedule(p, t, TotalDebt, rows, DebtSum(rows)), x.totalDebt)
    && NetOf(p, t, x.totalDebt).Some?
    && AllKnown(p, t, {Taxes, Capex, WorkingCapital, OtherCashFlow})
  }

  lemma {:induction false} RowsGapsIff(rows: seq<Ctx>)
    requires ValidRows(rows)
    ensures RowsGaps(rows) == [] <==> AllRowsReady(rows)
  {
    hide RowGaps, RowReady, ValidCtx;
    if rows != [] {
      assert RowsGaps(rows) == [] <==> |RowsGaps(rows)| == 0;
      RowReadyIff(rows[0]);
      RowsGapsIff(rows[1..]);
      assert AllRowsReady(rows) <==> RowReady(rows[0]) && AllRowsReady(rows[1..]) by {
        if RowReady(rows[0]) && AllRowsReady(rows[1..]) {
          forall k | 0 <= k < |rows| ensures RowReady(rows[k]) {
            if k > 0 { assert rows[k] == rows[1..][k - 1]; }
          }
        }
        if AllRowsReady(rows) {
          forall k | 0 <= k < |rows[1..]| ensures RowReady(rows[1..][k]) {
            assert rows[1..][k] == rows[k + 1];
          }
        }
      }
    }
  }

  lemma EarningsAre(p: Payload, t: Period)
    ensures EbitdaOriginal(p, t) == Earnings(p, t)
  {
    hide Input;
  }

  lemma ReadyMeansKnown(rows: seq<Ctx>)
    requires ValidRows(rows) && AllRowsReady(rows)
    ensures DebtKnown(rows) && InterestKnown(rows)
  {
    hide RowOf, InputsGiven, Rollable, FollowsOn, Reads;
  }

  lemma ScheduleIs(p: Payload, t: Period, rows: seq<Ctx>)
    requires ValidRows(rows) && DebtSchedule.Scheduled(t, p.instruments) && DebtKnown(rows) && InterestKnown(rows)
    ensures DebtOriginal(p, t, rows) == FromSchedule(p, t, TotalDebt, rows, DebtSum(rows))
    ensures InterestOriginal(p, t, rows) == FromSchedule(p, t, CashInterestInput, rows, InterestSum(rows))
  {
    hide Input, DebtSum, InterestSum, RowOf;
  }

  lemma NetIs(p: Payload, t: Period, debt: Dec)
    ensures NetDebtOriginal(p, t, debt) == NetOf(p, t, debt)
  {
    hide Input;
  }

  lemma CashFlowIs(p: Payload, t: Period, ebitda: Dec, interest: Dec)
    ensures CashFlowOriginal(p, t, ebitda, interest).Some? <==>
              ebitda.Some? && interest.Some? && AllKnown(p, t, {Taxes, Capex, WorkingCapital, OtherCashFlow})
    ensures CashFlowOriginal(p, t, ebitda, interest).Some? ==>
              CashFlowOriginal(p, t, ebitda, interest) == Some(CashLeft(p, t, ebitda.value, interest.value))
  {
    hide Input;
  }

  lemma PositiveInput(p: Payload, t: Period)
    ensures Supplied(p, t, Taxes).Some? ==> NodeGaps(p.ov, InputNode(t.key, Taxes), t.taxes, true) == []
    ensures Supplied(p, t, Capex).Some? ==> NodeGaps(p.ov, InputNode(t.key, Capex), t.capex, true) == []
  {
  }

  /** A period has no gap exactly when it is ready. */
  lemma PeriodReadyIff(p: Payload, t: Period, rows: seq<Ctx>)
    requires ValidRows(rows)
    ensures PeriodGaps(p, t, rows) == [] <==> PeriodReady(p, t, rows)
  {
    var x := TotalsOf(p, t, rows);
    RowsGapsIff(rows);
    EarningsAre(p, t);
    NetIs(p, t, x.totalDebt);
    CashFlowIs(p, t, x.ebitda, x.cashInterest);
    PositiveInput(p, t);
    NodeReads(p.ov, CalcNode(t.key, TotalDebtNode), DebtOriginal(p, t, rows));
    NodeReads(p.ov, CalcNode(t.key, CashInterestNode), InterestOriginal(p, t, rows));
    assert x.totalDebt == Node(p.ov, CalcNode(t.key, TotalDebtNode), DebtOriginal(p, t, rows), true);
    assert x.cashInterest == Node(p.ov, CalcNode(t.key, CashInterestNode), InterestOriginal(p, t, rows), true);
    GivenNotNegative(p.ov, CalcNode(t.key, CashInterestNode), InterestOriginal(p, t, rows));
    if AllRowsReady(rows) && DebtSchedule.Scheduled(t, p.instruments) {
      ReadyMeansKnown(rows);
      ScheduleIs(p, t, rows);
    }
    assert PeriodGaps(p, t, rows) == [] <==> |PeriodGaps(p, t, rows)| == 0;
    hide RowsGaps, AllRowsReady, EbitdaOriginal, Earnings, NetDebtOriginal, NetOf, CashFlowOriginal, DebtOriginal, InterestOriginal, TotalsOf,
         Node, NodeGaps, FromSchedule, Reads, Supplied, DebtSum, InterestSum, AllKnown;
  }

  /** A quotient, stated by the product it undoes. */
  predicate IsRatio(v: Dec, of: real, over: real) { v.Some? && v.value * over == of }

  /** The totals of a ready period: whatever is overridden, each is its override or what the others make it. */
  predicate TotalsRead(p: Payload, t: Period, rows: seq<Ctx>)
    requires ValidRows(rows) && PeriodReady(p, t, rows)
  {
    var x := TotalsOf(p, t, rows);
    var (ebitda, interest) := (x.ebitda.value, x.cashInterest.value);
    && Reads(p.ov, CalcNode(t.key, EbitdaNode), Earnings(p, t), x.ebitda)
    && Reads(p.ov, CalcNode(t.key, TotalDebtNode), FromSchedule(p, t, TotalDebt, rows, DebtSum(rows)), x.totalDebt)
    && Reads(p.ov, CalcNode(t.key, CashInterestNode), FromSchedule(p, t, CashInterestInput, rows, InterestSum(rows)), x.cashInterest)
    && Reads(p.ov, CalcNode(t.key, NetDebtNode), NetOf(p, t, x.totalDebt), x.netDebt)
    && Reads(p.ov, CalcNode(t.key, FreeCashFlowNode), Some(CashLeft(p, t, ebitda, interest)), x.freeCashFlow)
    && (CalcNode(t.key, CoverageNode) !in p.ov ==> IsRatio(x.coverage, ebitda, interest))
    && (CalcNode(t.key, GrossLeverageNode) !in p.ov ==>
          if t.months == 12 && x.totalDebt.Some? then IsRatio(x.grossLeverage, x.totalDebt.value, ebitda) else x.grossLeverage.None?)
    && (CalcNode(t.key, NetLeverageNode) !in p.ov ==>
          if t.months == 12 && x.netDebt.Some? then IsRatio(x.netLeverage, x.netDebt.value, ebitda) else x.netLeverage.None?)
  }

  lemma RatioIs(a: Dec, b: Dec)
    requires a.Some? && b.Some? && b.value > 0.0
    ensures IsRatio(Ratio(a, b), a.value, b.value)
  {
    var q := a.value / b.value;
    assert Ratio(a, b) == Some(q) && q * b.value == a.value;
  }

  lemma LeverageIs(t: Period, debt: Dec, ebitda: Dec)
    requires ebitda.Some? && ebitda.value > 0.0
    ensures
      var r := Ratio(debt, LeverageEbitda(t, ebitda));
      if t.months == 12 && debt.Some? then IsRatio(r, debt.value, ebitda.value) else r.None?
  {
    if t.months == 12 && debt.Some? {
      RatioIs(debt, ebitda);
      assert LeverageEbitda(t, ebitda) == ebitda;
    }
    hide IsRatio;
  }

  lemma ReadyTotalsRead(p: Payload, t: Period, rows: seq<Ctx>)
    requires ValidRows(rows) && PeriodReady(p, t, rows)
    ensures TotalsRead(p, t, rows)
  {
    var x := TotalsOf(p, t, rows);
    EarningsAre(p, t);
    NetIs(p, t, x.totalDebt);
    CashFlowIs(p, t, x.ebitda, x.cashInterest);
    ReadyMeansKnown(rows);
    ScheduleIs(p, t, rows);
    NodeReads(p.ov, CalcNode(t.key, EbitdaNode), Earnings(p, t));
    NodeReads(p.ov, CalcNode(t.key, NetDebtNode), NetOf(p, t, x.totalDebt));
    GivenReads(p.ov, CalcNode(t.key, CashInterestNode), InterestOriginal(p, t, rows));
    NodeReads(p.ov, CalcNode(t.key, FreeCashFlowNode), CashFlowOriginal(p, t, x.ebitda, x.cashInterest));
    RatioIs(x.ebitda, x.cashInterest);
    LeverageIs(t, x.totalDebt, x.ebitda);
    LeverageIs(t, x.netDebt, x.ebitda);
    RatiosRead(p, t, rows, x);
    hide AllRowsReady, EbitdaOriginal, Earnings, NetDebtOriginal, NetOf, CashFlowOriginal, DebtOriginal, InterestOriginal, CashLeft,
         NodeGaps, FromSchedule, Supplied, DebtSum, InterestSum, AllKnown, Ratio, IsRatio, LeverageEbitda, Node, Reads, RowOf;
  }

  /** The ratios as the calculation takes them. */
  lemma RatiosRead(p: Payload, t: Period, rows: seq<Ctx>, x: Totals)
    requires ValidRows(rows) && x == TotalsOf(p, t, rows) && DebtSchedule.Positive(x.ebitda) && DebtSchedule.Positive(x.cashInterest)
    ensures CalcNode(t.key, CoverageNode) !in p.ov ==> x.coverage == Ratio(x.ebitda, x.cashInterest)
    ensures CalcNode(t.key, GrossLeverageNode) !in p.ov ==> x.grossLeverage == Ratio(x.totalDebt, LeverageEbitda(t, x.ebitda))
    ensures CalcNode(t.key, NetLeverageNode) !in p.ov ==> x.netLeverage == Ratio(x.netDebt, LeverageEbitda(t, x.ebitda))
  {
    hide EbitdaOriginal, NetDebtOriginal, CashFlowOriginal, DebtOriginal, InterestOriginal, Ratio, LeverageEbitda;
  }

  /** The total of a complete schedule, unless the analyst overrides it; the input where the schedule is not complete. */
  function Best(p: Payload, t: Period, f: InputField, complete: bool, sum: real): Dec {
    if InputNode(t.key, f) !in p.ov && complete then Some(sum) else Supplied(p, t, f)
  }

  /** Every instrument has a row, there is one, and each has this figure. */
  predicate CompleteDebt(p: Payload, t: Period, rows: seq<Ctx>)
    requires ValidRows(rows)
  {
    rows != [] && (forall i | i in p.instruments :: t.key in i.points) && forall c | c in rows :: RowOf(c).interest.reporting.Some?
  }

  predicate CompleteInterest(p: Payload, t: Period, rows: seq<Ctx>)
    requires ValidRows(rows)
  {
    rows != [] && (forall i | i in p.instruments :: t.key in i.points) && forall c | c in rows :: RowOf(c).interest.cashInterest.Some?
  }

  predicate PositiveAmount(v: Dec) { v.Some? && v.value > 0.0 }

  /** The totals of every period, ready or not. */
  lemma EveryTotalReads(p: Payload, t: Period, rows: seq<Ctx>)
    requires ValidRows(rows)
    ensures
      var (x, ov) := (TotalsOf(p, t, rows), p.ov);
      && Reads(ov, CalcNode(t.key, EbitdaNode), Earnings(p, t), x.ebitda)
      && ReadsPositive(ov, CalcNode(t.key, TotalDebtNode), Best(p, t, TotalDebt, CompleteDebt(p, t, rows), DebtSum(rows)), x.totalDebt)
      && ReadsPositive(ov, CalcNode(t.key, CashInterestNode), Best(p, t, CashInterestInput, CompleteInterest(p, t, rows), InterestSum(rows)), x.cashInterest)
      && Reads(ov, CalcNode(t.key, NetDebtNode), NetOf(p, t, x.totalDebt), x.netDebt)
      && (CalcNode(t.key, FreeCashFlowNode) !in ov ==>
            (x.freeCashFlow.Some? <==> x.ebitda.Some? && x.cashInterest.Some? && AllKnown(p, t, {Taxes, Capex, WorkingCapital, OtherCashFlow}))
            && (x.freeCashFlow.Some? ==> x.freeCashFlow.value == CashLeft(p, t, x.ebitda.value, x.cashInterest.value)))
      && (CalcNode(t.key, CoverageNode) !in ov ==>
            if PositiveAmount(x.ebitda) && PositiveAmount(x.cashInterest) then IsRatio(x.coverage, x.ebitda.value, x.cashInterest.value)
            else x.coverage.None?)
  {
    var x := TotalsOf(p, t, rows);
    EarningsAre(p, t);
    NetIs(p, t, x.totalDebt);
    CashFlowIs(p, t, x.ebitda, x.cashInterest);
    BestIs(p, t, rows);
    NodeReads(p.ov, CalcNode(t.key, EbitdaNode), Earnings(p, t));
    NodeReads(p.ov, CalcNode(t.key, TotalDebtNode), DebtOriginal(p, t, rows));
    NodeReads(p.ov, CalcNode(t.key, CashInterestNode), InterestOriginal(p, t, rows));
    NodeReads(p.ov, CalcNode(t.key, NetDebtNode), NetOf(p, t, x.totalDebt));
    NodeReads(p.ov, CalcNode(t.key, FreeCashFlowNode), CashFlowOriginal(p, t, x.ebitda, x.cashInterest));
    NodeReads(p.ov, CalcNode(t.key, CoverageNode), Ratio(OnlyPositive(x.ebitda), OnlyPositive(x.cashInterest)));
    CoverageIs(x.ebitda, x.cashInterest);
    hide EbitdaOriginal, Earnings, NetDebtOriginal, NetOf, CashFlowOriginal, DebtOriginal, InterestOriginal, CashLeft, Best, AllKnown,
         Ratio, IsRatio, LeverageEbitda, OnlyPositive, Node, NodeGaps, ReadsPositive, DebtSum, InterestSum, CompleteDebt, CompleteInterest,
         Supplied;
  }

  lemma CoverageIs(ebitda: Dec, interest: Dec)
    ensures
      var r := Ratio(OnlyPositive(ebitda), OnlyPositive(interest));
      if PositiveAmount(ebitda) && PositiveAmount(interest) then IsRatio(r, ebitda.value, interest.value) else r.None?
  {
    if PositiveAmount(ebitda) && PositiveAmount(interest) {
      RatioIs(ebitda, interest);
    }
    hide IsRatio;
  }

  lemma BestIs(p: Payload, t: Period, rows: seq<Ctx>)
    requires ValidRows(rows)
    ensures DebtOriginal(p, t, rows) == Best(p, t, TotalDebt, CompleteDebt(p, t, rows), DebtSum(rows))
    ensures InterestOriginal(p, t, rows) == Best(p, t, CashInterestInput, CompleteInterest(p, t, rows), InterestSum(rows))
  {
    hide Input, DebtSum, InterestSum, RowOf;
    assert forall k | 0 <= k < |rows| :: rows[k] in rows;
    assert forall k | 0 <= k < |p.instruments| :: p.instruments[k] in p.instruments;
  }

  // ---------------------------------------------------------------- when a calculation is ready

  lemma {:induction false} GapsOverIff(p: Payload, periods: seq<Period>, all: seq<seq<Ctx>>)
    requires |all| == |periods| && AllValid(all)
    ensures GapsOver(p, periods, all) == [] <==> forall k | 0 <= k < |periods| :: PeriodReady(p, periods[k], all[k])
    decreases |periods|
  {
    hide PeriodGaps, PeriodReady, ValidRows;
    if periods != [] {
      assert GapsOver(p, periods, all) == [] <==> |GapsOver(p, periods, all)| == 0;
      PeriodReadyIff(p, periods[0], all[0]);
      GapsOverIff(p, periods[1..], all[1..]);
      assert forall k | 1 <= k < |periods| :: periods[k] == periods[1..][k - 1] && all[k] == all[1..][k - 1];
    }
  }

  /**
   A calculation is ready exactly when it has a period and every period is ready, and every total of a ready period is
   its override or what the stated formula makes it.
   */
  lemma ReadyIff(p: Payload)
    requires ValidPayload(p)
    ensures
      var all := RowsFrom(p, p.periods, map[]);
      && (StatusOf(TotalsOver(p, p.periods, all), GapsOver(p, p.periods, all)) == Ready
          <==> p.periods != [] && forall k | 0 <= k < |p.periods| :: PeriodReady(p, p.periods[k], all[k]))
      && (forall k | 0 <= k < |p.periods| :: PeriodReady(p, p.periods[k], all[k]) ==> TotalsRead(p, p.periods[k], all[k]))
  {
    hide PeriodReady, TotalsRead, TotalsOf, GapsOver, ValidRows;
    var all := RowsFrom(p, p.periods, map[]);
    GapsOverIff(p, p.periods, all);
    forall k | 0 <= k < |p.periods| ensures PeriodReady(p, p.periods[k], all[k]) ==> TotalsRead(p, p.periods[k], all[k]) {
      if PeriodReady(p, p.periods[k], all[k]) {
        ReadyTotalsRead(p, p.periods[k], all[k]);
      }
    }
  }

  /** Short of ready, a calculation is partial exactly when some period's earnings, debt or net debt is known. */
  lemma PartialIff(p: Payload)
    requires ValidPayload(p)
    ensures
      var all := RowsFrom(p, p.periods, map[]);
      var (totals, gaps) := (TotalsOver(p, p.periods, all), GapsOver(p, p.periods, all));
      StatusOf(totals, gaps) == Partial <==>
        gaps != [] && exists k | 0 <= k < |totals| :: totals[k].ebitda.Some? || totals[k].totalDebt.Some? || totals[k].netDebt.Some?
  {
    hide GapsOver, TotalsOf, RowsFrom;
  }
}
