/**
 Whole calculations of the model engine (model_engine_v2.py): the loops over periods and instruments, the period
 totals, and what a "ready" status guarantees.
 */
module DebtSchedule {
  import opened Json
  import opened Calendar
  import opened DebtEngine
  import opened Strings

  datatype Payload = Payload(periods: seq<Period>, instruments: seq<Instrument>, ov: Overrides)

  predicate ValidPeriods(periods: seq<Period>) {
    forall i | 0 <= i < |periods| :: ValidKey(periods[i].key) && 1 <= periods[i].months <= 24
  }

  predicate UniqueIds(instruments: seq<Instrument>) {
    forall i, j | 0 <= i < j < |instruments| :: instruments[i].id != instruments[j].id
  }

  /** The payload validators the calculation relies on. */
  predicate ValidPayload(p: Payload) { ValidPeriods(p.periods) && UniqueIds(p.instruments) }

  // ---------------------------------------------------------------- the order of a schedule

  /** By priority, then by identifier. */
  predicate Outranks(a: Instrument, b: Instrument) { a.priority < b.priority || (a.priority == b.priority && Below(a.id, b.id)) }

  predicate InOrder(xs: seq<Instrument>) { forall j, k | 0 <= j < k < |xs| :: Outranks(xs[j], xs[k]) }

  function Place(xs: seq<Instrument>, x: Instrument): seq<Instrument> {
    if xs == [] then [x] else if Outranks(x, xs[0]) then [x] + xs else [xs[0]] + Place(xs[1..], x)
  }

  /** `sorted` by priority and identifier. */
  function Arranged(xs: seq<Instrument>): seq<Instrument> {
    if xs == [] then [] else Place(Arranged(xs[1..]), xs[0])
  }

  /** The smaller priority comes first, and the smaller identifier among equals. */
  lemma OutranksIff(a: Instrument, b: Instrument)
    ensures a.priority < b.priority ==> Outranks(a, b) && !Outranks(b, a)
    ensures a.priority == b.priority ==> (Outranks(a, b) <==> Below(a.id, b.id))
  {
  }

  lemma OutranksTransitive(a: Instrument, b: Instrument, c: Instrument)
    requires Outranks(a, b) && Outranks(b, c)
    ensures Outranks(a, c)
  {
    if Below(a.id, b.id) && Below(b.id, c.id) {
      BelowTransitive(a.id, b.id, c.id);
    }
  }

  lemma FirstOutranks(xs: seq<Instrument>, x: Instrument, rest: seq<Instrument>)
    requires xs != [] && InOrder(xs) && UniqueIds(xs) && Outranks(xs[0], x) && xs[0].id != x.id
    requires multiset(rest) == multiset(xs[1..]) + multiset{x}
    ensures forall k | 0 <= k < |rest| :: Outranks(xs[0], rest[k]) && rest[k].id != xs[0].id
  {
    hide Outranks;
    forall k | 0 <= k < |rest| ensures Outranks(xs[0], rest[k]) && rest[k].id != xs[0].id {
      assert rest[k] in multiset(rest);
      assert rest[k] in multiset(xs[1..]) || rest[k] == x;
    }
  }

  lemma {:induction false} PlaceKeeps(xs: seq<Instrument>, x: Instrument)
    ensures multiset(Place(xs, x)) == multiset(xs) + multiset{x}
  {
    hide Outranks;
    if xs == [] {
    } else if Outranks(x, xs[0]) {
      assert multiset([x] + xs) == multiset{x} + multiset(xs);
    } else {
      PlaceKeeps(xs[1..], x);
      HeadCounts(xs);
      assert multiset([xs[0]] + Place(xs[1..], x)) == multiset{xs[0]} + multiset(Place(xs[1..], x));
    }
  }

  lemma HeadCounts(xs: seq<Instrument>)
    requires xs != []
    ensures multiset(xs) == multiset{xs[0]} + multiset(xs[1..])
  {
    assert xs == [xs[0]] + xs[1..];
  }

  lemma Leads(x: Instrument, xs: seq<Instrument>)
    requires InOrder(xs) && UniqueIds(xs) && forall k | 0 <= k < |xs| :: Outranks(x, xs[k]) && x.id != xs[k].id
    ensures InOrder([x] + xs) && UniqueIds([x] + xs)
  {
    hide Outranks;
  }

  lemma {:induction false} PlaceFacts(xs: seq<Instrument>, x: Instrument)
    requires InOrder(xs) && UniqueIds(xs) && forall k | 0 <= k < |xs| :: xs[k].id != x.id
    ensures InOrder(Place(xs, x)) && UniqueIds(Place(xs, x)) && multiset(Place(xs, x)) == multiset(xs) + multiset{x}
    decreases |xs|, 1
  {
    PlaceKeeps(xs, x);
    if xs == [] {
    } else if Outranks(x, xs[0]) {
      forall k | 0 < k < |xs| ensures Outranks(x, xs[k]) {
        OutranksTransitive(x, xs[0], xs[k]);
      }
      Leads(x, xs);
    } else {
      PlaceRest(xs, x);
    }
  }

  lemma PlaceRest(xs: seq<Instrument>, x: Instrument)
    requires xs != [] && InOrder(xs) && UniqueIds(xs) && !Outranks(x, xs[0]) && forall k | 0 <= k < |xs| :: xs[k].id != x.id
    ensures InOrder([xs[0]] + Place(xs[1..], x)) && UniqueIds([xs[0]] + Place(xs[1..], x))
    decreases |xs|, 0
  {
    BelowTotal(x.id, xs[0].id);
    assert Outranks(xs[0], x);
    hide Outranks, Place;
    PlaceFacts(xs[1..], x);
    FirstOutranks(xs, x, Place(xs[1..], x));
    Leads(xs[0], Place(xs[1..], x));
  }

  lemma IdsElsewhere(xs: seq<Instrument>, rest: seq<Instrument>)
    requires xs != [] && UniqueIds(xs) && multiset(rest) == multiset(xs[1..])
    ensures forall k | 0 <= k < |rest| :: rest[k].id != xs[0].id
  {
    forall k | 0 <= k < |rest| ensures rest[k].id != xs[0].id {
      assert rest[k] in multiset(rest) && rest[k] in multiset(xs[1..]);
      var j :| 0 <= j < |xs[1..]| && xs[1..][j] == rest[k];
      assert xs[j + 1] == rest[k];
    }
  }

  /** The arrangement has the same instruments, in one order. */
  lemma {:induction false} ArrangedFacts(xs: seq<Instrument>)
    requires UniqueIds(xs)
    ensures InOrder(Arranged(xs)) && multiset(Arranged(xs)) == multiset(xs) && UniqueIds(Arranged(xs))
  {
    if xs != [] {
      assert UniqueIds(xs[1..]);
      ArrangedFacts(xs[1..]);
      var rest := Arranged(xs[1..]);
      hide InOrder, UniqueIds, Place;
      IdsElsewhere(xs, rest);
      HeadCounts(xs);
      PlaceFacts(rest, xs[0]);
    }
  }

  /** The payload with its instruments in schedule order; sorting every period's rows gives the rows of this payload. */
  function Sorted(p: Payload): Payload { p.(instruments := Arranged(p.instruments)) }

  type Priors = map<string, Prior>

  function PriorOf(priors: Priors, id: string): Option<Prior> { if id in priors then Some(priors[id]) else None }

  function CtxFor(p: Payload, period: Period, i: Instrument, prior: Option<Prior>): Ctx
    requires period.key in i.points
  {
    Ctx(p.ov, period, i, i.points[period.key], prior)
  }

  /** What a row leaves for the instrument's next one. */
  function After(c: Ctx): Prior
    requires ValidCtx(c)
  {
    Prior(RowOf(c).balances.closing, Calendar.Effective(c.period.key))
  }

  // ---------------------------------------------------------------- one period

  function PeriodRows(p: Payload, period: Period, instruments: seq<Instrument>, priors: Priors): (rows: seq<Ctx>)
    ensures forall k | 0 <= k < |rows| :: rows[k].period == period && rows[k].ov == p.ov
  {
    if instruments == [] then []
    else
      (if period.key in instruments[0].points then [CtxFor(p, period, instruments[0], PriorOf(priors, instruments[0].id))] else [])
      + PeriodRows(p, period, instruments[1..], priors)
  }

  predicate ValidRows(rows: seq<Ctx>) { forall k | 0 <= k < |rows| :: ValidCtx(rows[k]) }

  function Carry(priors: Priors, rows: seq<Ctx>): Priors
    requires ValidRows(rows)
    decreases |rows|
  {
    if rows == [] then priors else Carry(priors[rows[0].instrument.id := After(rows[0])], rows[1..])
  }

  function RowsGaps(rows: seq<Ctx>): seq<Gap>
    requires ValidRows(rows)
  {
    if rows == [] then [] else RowGaps(rows[0]) + RowsGaps(rows[1..])
  }

  predicate Scheduled(period: Period, instruments: seq<Instrument>) {
    forall k | 0 <= k < |instruments| :: period.key in instruments[k].points
  }

  predicate DebtKnown(rows: seq<Ctx>)
    requires ValidRows(rows)
  {
    forall k | 0 <= k < |rows| :: RowOf(rows[k]).interest.reporting.Some?
  }

  predicate InterestKnown(rows: seq<Ctx>)
    requires ValidRows(rows)
  {
    forall k | 0 <= k < |rows| :: RowOf(rows[k]).interest.cashInterest.Some?
  }

  function DebtSum(rows: seq<Ctx>): real
    requires ValidRows(rows)
  {
    if rows == [] then 0.0
    else (match RowOf(rows[0]).interest.reporting case Some(v) => v case None => 0.0) + DebtSum(rows[1..])
  }

  function InterestSum(rows: seq<Ctx>): real
    requires ValidRows(rows)
  {
    if rows == [] then 0.0
    else (match RowOf(rows[0]).interest.cashInterest case Some(v) => v case None => 0.0) + InterestSum(rows[1..])
  }

  datatype Totals = Totals(
    key: PeriodKey, ebitda: Dec, totalDebt: Dec, cashInterest: Dec, netDebt: Dec, grossLeverage: Dec, netLeverage: Dec, coverage: Dec,
    freeCashFlow: Dec)

  function Input(p: Payload, t: Period, f: InputField, original: Dec, nonNegative: bool): Dec {
    Node(p.ov, InputNode(t.key, f), original, nonNegative)
  }

  function EbitdaOriginal(p: Payload, t: Period): Dec {
    var direct := Input(p, t, AdjustedEbitda, t.adjustedEbitda, false);
    var reported := Input(p, t, ReportedEbitda, t.reportedEbitda, false);
    var adjustments := Input(p, t, Adjustments, t.adjustments, false);
    if direct.Some? then direct else Total(reported, adjustments)
  }

  /** A total is the analyst's input when overridden, the schedule's sum when complete, the input otherwise. */
  function Preferred(overridden: bool, explicit: Dec, complete: bool, sum: real): Dec {
    if overridden then explicit else if complete then Some(sum) else explicit
  }

  function DebtOriginal(p: Payload, t: Period, rows: seq<Ctx>): Dec
    requires ValidRows(rows)
  {
    Preferred(InputNode(t.key, TotalDebt) in p.ov, Input(p, t, TotalDebt, t.totalDebt, false),
              rows != [] && Scheduled(t, p.instruments) && DebtKnown(rows), DebtSum(rows))
  }

  function InterestOriginal(p: Payload, t: Period, rows: seq<Ctx>): Dec
    requires ValidRows(rows)
  {
    Preferred(InputNode(t.key, CashInterestInput) in p.ov, Input(p, t, CashInterestInput, t.cashInterest, false),
              rows != [] && Scheduled(t, p.instruments) && InterestKnown(rows), InterestSum(rows))
  }

  function NetDebtOriginal(p: Payload, t: Period, totalDebt: Dec): Dec {
    var cash := Input(p, t, Cash, t.cash, false);
    var explicit := Input(p, t, NetDebt, t.netDebt, false);
    if InputNode(t.key, NetDebt) in p.ov then explicit
    else if totalDebt.Some? && cash.Some? then Some(totalDebt.value - cash.value)
    else explicit
  }

  function CashFlowOriginal(p: Payload, t: Period, ebitda: Dec, interest: Dec): Dec {
    var taxes := Input(p, t, Taxes, t.taxes, true);
    var capex := Input(p, t, Capex, t.capex, true);
    var working := Input(p, t, WorkingCapital, t.workingCapital, false);
    var other := Input(p, t, OtherCashFlow, t.otherCashFlow, false);
    if ebitda.None? || interest.None? || taxes.None? || capex.None? || working.None? || other.None? then None
    else Some(ebitda.value - interest.value - taxes.value - capex.value + working.value + other.value)
  }

  /** `_safe_div` */
  function Ratio(a: Dec, b: Dec): Dec { if a.None? || b.None? || b.value == 0.0 then None else Some(a.value / b.value) }

  function OnlyPositive(a: Dec): Dec { if a.Some? && a.value > 0.0 then a else None }

  /** Leverage is measured on a positive twelve-month EBITDA alone. */
  function LeverageEbitda(t: Period, ebitda: Dec): Dec { if t.months == 12 then OnlyPositive(ebitda) else None }

  function TotalsOf(p: Payload, t: Period, rows: seq<Ctx>): Totals
    requires ValidRows(rows)
  {
    var ebitda := Node(p.ov, CalcNode(t.key, EbitdaNode), EbitdaOriginal(p, t), false);
    var totalDebt := Node(p.ov, CalcNode(t.key, TotalDebtNode), DebtOriginal(p, t, rows), true);
    var interest := Node(p.ov, CalcNode(t.key, CashInterestNode), InterestOriginal(p, t, rows), true);
    var netDebt := Node(p.ov, CalcNode(t.key, NetDebtNode), NetDebtOriginal(p, t, totalDebt), false);
    Totals(t.key, ebitda, totalDebt, interest, netDebt,
           Node(p.ov, CalcNode(t.key, GrossLeverageNode), Ratio(totalDebt, LeverageEbitda(t, ebitda)), false),
           Node(p.ov, CalcNode(t.key, NetLeverageNode), Ratio(netDebt, LeverageEbitda(t, ebitda)), false),
           Node(p.ov, CalcNode(t.key, CoverageNode), Ratio(OnlyPositive(ebitda), OnlyPositive(interest)), false),
           Node(p.ov, CalcNode(t.key, FreeCashFlowNode), CashFlowOriginal(p, t, ebitda, interest), false))
  }

  /** The period's gaps in the order the source appends them. */
  function PeriodGaps(p: Payload, t: Period, rows: seq<Ctx>): seq<Gap>
    requires ValidRows(rows)
  {
    var x := TotalsOf(p, t, rows);
    GapIf(EbitdaOriginal(p, t).None?, CalcNode(t.key, EbitdaNode), MissingInput)
    + GapIf(!Scheduled(t, p.instruments), CalcNode(t.key, TotalDebtNode), MissingRows)
    + RowsGaps(rows)
    + GapIf(DebtOriginal(p, t, rows).None?, CalcNode(t.key, TotalDebtNode), MissingInput)
    + NodeGaps(p.ov, CalcNode(t.key, TotalDebtNode), DebtOriginal(p, t, rows), true)
    + GapIf(InterestOriginal(p, t, rows).None?, CalcNode(t.key, CashInterestNode), MissingInput)
    + NodeGaps(p.ov, CalcNode(t.key, CashInterestNode), InterestOriginal(p, t, rows), true)
    + GapIf(NetDebtOriginal(p, t, x.totalDebt).None?, CalcNode(t.key, NetDebtNode), MissingInput)
    + GapIf(x.ebitda.Some? && x.ebitda.value <= 0.0, CalcNode(t.key, GrossLeverageNode), NotMeaningful)
    + GapIf(x.cashInterest.Some? && x.cashInterest.value == 0.0, CalcNode(t.key, CoverageNode), NotMeaningful)
    + GapIf(x.ebitda.Some? && x.ebitda.value <= 0.0, CalcNode(t.key, CoverageNode), NotMeaningful)
    + NodeGaps(p.ov, InputNode(t.key, Taxes), t.taxes, true) + NodeGaps(p.ov, InputNode(t.key, Capex), t.capex, true)
    + GapIf(CashFlowOriginal(p, t, x.ebitda, x.cashInterest).None?, CalcNode(t.key, FreeCashFlowNode), MissingInput)
  }

  // ---------------------------------------------------------------- the whole calculation

  predicate AllValid(all: seq<seq<Ctx>>) { forall k | 0 <= k < |all| :: ValidRows(all[k]) }

  function RowsFrom(p: Payload, periods: seq<Period>, priors: Priors): (all: seq<seq<Ctx>>)
    requires ValidPeriods(periods)
    ensures |all| == |periods| && AllValid(all)
    decreases |periods|
  {
    if periods == [] then []
    else
      var rows := PeriodRows(p, periods[0], p.instruments, priors);
      assert ValidRows(rows);
      [rows] + RowsFrom(p, periods[1..], Carry(priors, rows))
  }

  function GapsOver(p: Payload, periods: seq<Period>, all: seq<seq<Ctx>>): seq<Gap>
    requires |all| == |periods| && AllValid(all)
    decreases |periods|
  {
    if periods == [] then [] else PeriodGaps(p, periods[0], all[0]) + GapsOver(p, periods[1..], all[1..])
  }

  function TotalsOver(p: Payload, periods: seq<Period>, all: seq<seq<Ctx>>): (ts: seq<Totals>)
    requires |all| == |periods| && AllValid(all)
    ensures |ts| == |periods|
    ensures forall k | 0 <= k < |ts| :: ts[k] == TotalsOf(p, periods[k], all[k])
    decreases |periods|
  {
    if periods == [] then [] else [TotalsOf(p, periods[0], all[0])] + TotalsOver(p, periods[1..], all[1..])
  }

  datatype Status = Ready | Partial | InsufficientInputs

  function StatusOf(totals: seq<Totals>, gaps: seq<Gap>): Status {
    if totals == [] then InsufficientInputs
    else if gaps == [] then Ready
    else if exists k | 0 <= k < |totals| :: totals[k].ebitda.Some? || totals[k].totalDebt.Some? || totals[k].netDebt.Some? then Partial
    else InsufficientInputs
  }

  /** Rows of other instruments do not depend on what this one carries. */
  lemma {:induction false} OthersUnaffected(p: Payload, t: Period, instruments: seq<Instrument>, priors: Priors, id: string, prior: Prior)
    requires forall k | 0 <= k < |instruments| :: instruments[k].id != id
    ensures PeriodRows(p, t, instruments, priors[id := prior]) == PeriodRows(p, t, instruments, priors)
  {
    if instruments != [] {
      OthersUnaffected(p, t, instruments[1..], priors, id, prior);
    }
  }

  lemma {:induction false} CarryOne(priors: Priors, rows: seq<Ctx>, c: Ctx)
    requires ValidRows(rows) && ValidCtx(c)
    ensures ValidRows(rows + [c]) && Carry(priors, rows + [c]) == Carry(priors, rows)[c.instrument.id := After(c)]
    decreases |rows|
  {
    hide After;
    if rows == [] {
      assert (rows + [c])[1..] == [];
    } else {
      assert (rows + [c])[1..] == rows[1..] + [c];
      CarryOne(priors[rows[0].instrument.id := After(rows[0])], rows[1..], c);
    }
  }

  lemma {:induction false} GapsAppend(p: Payload, periods: seq<Period>, all: seq<seq<Ctx>>, t: Period, rows: seq<Ctx>)
    requires |all| == |periods| && AllValid(all) && ValidRows(rows)
    ensures GapsOver(p, periods + [t], all + [rows]) == GapsOver(p, periods, all) + PeriodGaps(p, t, rows)
    decreases |periods|
  {
    hide PeriodGaps, ValidRows;
    if periods == [] {
      assert ([t] + [])[1..] == [] && (all + [rows])[1..] == [];
      assert GapsOver(p, [], []) == [];
      assert PeriodGaps(p, t, rows) + [] == PeriodGaps(p, t, rows);
    } else {
      assert (periods + [t])[1..] == periods[1..] + [t] && (all + [rows])[1..] == all[1..] + [rows];
      GapsAppend(p, periods[1..], all[1..], t, rows);
    }
  }

  /** One turn of the instrument loop. */
  lemma RowStep(p: Payload, t: Period, i: nat, priors: Priors)
    requires i < |p.instruments| && UniqueIds(p.instruments) && ValidKey(t.key) && 1 <= t.months <= 24
    ensures
      var instrument := p.instruments[i];
      var rest := p.instruments[i + 1..];
      if t.key in instrument.points then
        var c := CtxFor(p, t, instrument, PriorOf(priors, instrument.id));
        PeriodRows(p, t, p.instruments[i..], priors) == [c] + PeriodRows(p, t, rest, priors[instrument.id := After(c)])
      else PeriodRows(p, t, p.instruments[i..], priors) == PeriodRows(p, t, rest, priors)
  {
    hide After;
    var instrument := p.instruments[i];
    assert p.instruments[i..][0] == instrument && p.instruments[i..][1..] == p.instruments[i + 1..];
    if t.key in instrument.points {
      var c := CtxFor(p, t, instrument, PriorOf(priors, instrument.id));
      OthersUnaffected(p, t, p.instruments[i + 1..], priors, instrument.id, After(c));
    } else {
      assert [] + PeriodRows(p, t, p.instruments[i + 1..], priors) == PeriodRows(p, t, p.instruments[i + 1..], priors);
    }
  }

  /** One period of `calculate`: the rows in instrument order, each leaving its close for the instrument's next row. */
  method CalculatePeriod(p: Payload, t: Period, before: Priors) returns (rows: seq<Ctx>, priors: Priors)
    requires UniqueIds(p.instruments) && ValidKey(t.key) && 1 <= t.months <= 24
    ensures rows == PeriodRows(p, t, p.instruments, before)
    ensures ValidRows(rows) && priors == Carry(before, rows)
  {
    hide After, UniqueIds;
    rows, priors := [], before;
    var i := 0;
    assert p.instruments[i..] == p.instruments;
    while i < |p.instruments|
      invariant 0 <= i <= |p.instruments| && ValidRows(rows)
      invariant rows + PeriodRows(p, t, p.instruments[i..], priors) == PeriodRows(p, t, p.instruments, before)
      invariant priors == Carry(before, rows)
    {
      hide PeriodRows, Carry;
      var instrument := p.instruments[i];
      RowStep(p, t, i, priors);
      if t.key in instrument.points {
        var c := CtxFor(p, t, instrument, PriorOf(priors, instrument.id));
        assert ValidCtx(c);
        CarryOne(before, rows, c);
        ghost var rest := PeriodRows(p, t, p.instruments[i + 1..], priors[instrument.id := After(c)]);
        assert rows + ([c] + rest) == rows + [c] + rest;
        rows := rows + [c];
        priors := priors[instrument.id := After(c)];
      }
      i := i + 1;
    }
    assert p.instruments[i..] == [];
  }

  /** One turn of the period loop: the rows still to come lose their first, and the gaps gain the period's. */
  lemma PeriodStep(p: Payload, k: nat, all: seq<seq<Ctx>>, priors: Priors, rows: seq<Ctx>, after: Priors)
    requires ValidPayload(p) && k < |p.periods| && |all| == k && AllValid(all)
    requires rows == PeriodRows(p, p.periods[k], p.instruments, priors) && ValidRows(rows) && after == Carry(priors, rows)
    ensures all + RowsFrom(p, p.periods[k..], priors) == all + [rows] + RowsFrom(p, p.periods[k + 1..], after)
    ensures AllValid(all + [rows])
    ensures GapsOver(p, p.periods[..k + 1], all + [rows]) == GapsOver(p, p.periods[..k], all) + PeriodGaps(p, p.periods[k], rows)
  {
    hide PeriodGaps, PeriodRows, Carry, ValidRows, UniqueIds, GapsOver;
    assert p.periods[k..][0] == p.periods[k] && p.periods[k..][1..] == p.periods[k + 1..];
    GapsAppend(p, p.periods[..k], all, p.periods[k], rows);
    assert p.periods[..k + 1] == p.periods[..k] + [p.periods[k]];
  }

  lemma NothingYet(p: Payload)
    ensures GapsOver(p, [], []) == [] && RowsFrom(p, [], map[]) == [] && TotalsOver(p, [], []) == []
  {
  }

  /** The period loop. */
  method CalculatePeriods(p: Payload) returns (all: seq<seq<Ctx>>, totals: seq<Totals>, gaps: seq<Gap>, status: Status)
    requires ValidPayload(p)
    ensures all == RowsFrom(p, p.periods, map[])
    ensures totals == TotalsOver(p, p.periods, all)
    ensures gaps == GapsOver(p, p.periods, all)
    ensures status == StatusOf(totals, gaps)
  {
    hide TotalsOf, PeriodGaps, PeriodRows, Carry, ValidRows, UniqueIds, RowsFrom, GapsOver, TotalsOver;
    NothingYet(p);
    all, totals, gaps := [], [], [];
    var priors: Priors := map[];
    var k := 0;
    while k < |p.periods|
      invariant 0 <= k <= |p.periods| && |all| == k && |totals| == k && AllValid(all)
      invariant all + RowsFrom(p, p.periods[k..], priors) == RowsFrom(p, p.periods, map[])
      invariant forall j | 0 <= j < k :: totals[j] == TotalsOf(p, p.periods[j], all[j])
      invariant gaps == GapsOver(p, p.periods[..k], all)
    {
      var t := p.periods[k];
      var rows, after := CalculatePeriod(p, t, priors);
      PeriodStep(p, k, all, priors, rows, after);
      all, totals, gaps, priors := all + [rows], totals + [TotalsOf(p, t, rows)], gaps + PeriodGaps(p, t, rows), after;
      k := k + 1;
    }
    assert p.periods[..k] == p.periods && p.periods[k..] == [];
    status := StatusOf(totals, gaps);
  }

  /**
   `calculate`: for every period the rows of every instrument, by priority, with the balances carried so far, their
   gaps, and the period totals. The loops compute the recursive functions above.
   */
  method Calculate(payload: Payload) returns (all: seq<seq<Ctx>>, totals: seq<Totals>, gaps: seq<Gap>, status: Status)
    requires ValidPayload(payload)
    ensures ValidPayload(Sorted(payload)) && all == RowsFrom(Sorted(payload), payload.periods, map[])
    ensures totals == TotalsOver(Sorted(payload), payload.periods, all)
    ensures gaps == GapsOver(Sorted(payload), payload.periods, all)
    ensures status == StatusOf(totals, gaps)
  {
    ArrangedFacts(payload.instruments);
    all, totals, gaps, status := CalculatePeriods(Sorted(payload));
  }

  // ---------------------------------------------------------------- one instrument's history

  /** The rows one instrument would get if it were calculated alone. */
  function HistoryFrom(p: Payload, i: Instrument, periods: seq<Period>, prior: Option<Prior>): (cs: seq<Ctx>)
    requires ValidPeriods(periods)
    ensures ValidRows(cs)
    decreases |periods|
  {
    if periods == [] then []
    else if periods[0].key in i.points then
      var c := CtxFor(p, periods[0], i, prior);
      [c] + HistoryFrom(p, i, periods[1..], Some(After(c)))
    else HistoryFrom(p, i, periods[1..], prior)
  }

  function Own(rows: seq<Ctx>, id: string): seq<Ctx> {
    if rows == [] then [] else (if rows[0].instrument.id == id then [rows[0]] else []) + Own(rows[1..], id)
  }

  function OwnRows(all: seq<seq<Ctx>>, id: string): seq<Ctx> {
    if all == [] then [] else Own(all[0], id) + OwnRows(all[1..], id)
  }

  lemma {:induction false} NoOwn(p: Payload, t: Period, instruments: seq<Instrument>, priors: Priors, id: string)
    requires forall k | 0 <= k < |instruments| :: instruments[k].id != id
    ensures Own(PeriodRows(p, t, instruments, priors), id) == []
  {
    if instruments != [] {
      NoOwn(p, t, instruments[1..], priors, id);
      if t.key in instruments[0].points {
        var c := CtxFor(p, t, instruments[0], PriorOf(priors, instruments[0].id));
        assert ([c] + PeriodRows(p, t, instruments[1..], priors))[1..] == PeriodRows(p, t, instruments[1..], priors);
      } else {
        assert [] + PeriodRows(p, t, instruments[1..], priors) == PeriodRows(p, t, instruments[1..], priors);
      }
    }
  }

  /** A period gives an instrument its own row or none. */
  lemma {:induction false} OwnRow(p: Payload, t: Period, instruments: seq<Instrument>, priors: Priors, n: nat)
    requires UniqueIds(instruments) && n < |instruments|
    ensures
      var i := instruments[n];
      Own(PeriodRows(p, t, instruments, priors), i.id)
        == if t.key in i.points then [CtxFor(p, t, i, PriorOf(priors, i.id))] else []
    decreases n
  {
    var rest := PeriodRows(p, t, instruments[1..], priors);
    if n == 0 {
      NoOwn(p, t, instruments[1..], priors, instruments[0].id);
    } else {
      OwnRow(p, t, instruments[1..], priors, n - 1);
    }
    if t.key in instruments[0].points {
      var c := CtxFor(p, t, instruments[0], PriorOf(priors, instruments[0].id));
      assert ([c] + rest)[1..] == rest;
    } else {
      assert [] + rest == rest;
    }
  }

  /** What is carried for an instrument comes from its own row alone. */
  lemma {:induction false} CarriedForOwn(priors: Priors, rows: seq<Ctx>, id: string)
    requires ValidRows(rows) && |Own(rows, id)| <= 1
    ensures ValidRows(Own(rows, id))
    ensures PriorOf(Carry(priors, rows), id) == if Own(rows, id) == [] then PriorOf(priors, id) else Some(After(Own(rows, id)[0]))
    decreases |rows|
  {
    hide After;
    if rows != [] {
      CarriedForOwn(priors[rows[0].instrument.id := After(rows[0])], rows[1..], id);
    }
  }

  /**
   Instruments do not interfere: the rows the nested loops give an instrument, through the one map they share, are the
   rows it gets when calculated alone.
   */
  lemma {:induction false} RowsAreHistories(p: Payload, periods: seq<Period>, priors: Priors, n: nat)
    requires ValidPeriods(periods) && UniqueIds(p.instruments) && n < |p.instruments|
    ensures
      var i := p.instruments[n];
      OwnRows(RowsFrom(p, periods, priors), i.id) == HistoryFrom(p, i, periods, PriorOf(priors, i.id))
    decreases |periods|
  {
    hide After, UniqueIds;
    if periods != [] {
      var i := p.instruments[n];
      var rows := PeriodRows(p, periods[0], p.instruments, priors);
      OwnRow(p, periods[0], p.instruments, priors, n);
      CarriedForOwn(priors, rows, i.id);
      RowsAreHistories(p, periods[1..], Carry(priors, rows), n);
      assert RowsFrom(p, periods, priors)[1..] == RowsFrom(p, periods[1..], Carry(priors, rows));
      if periods[0].key !in i.points {
        assert [] + OwnRows(RowsFrom(p, periods[1..], Carry(priors, rows)), i.id) == OwnRows(RowsFrom(p, periods[1..], Carry(priors, rows)), i.id);
      }
    }
  }

  // ---------------------------------------------------------------- the tie-out

  /** Each row carries on from the one before it. */
  predicate Linked(cs: seq<Ctx>)
    requires ValidRows(cs)
  {
    forall j | 0 < j < |cs| :: cs[j].prior == Some(After(cs[j - 1])) && FollowsOn(cs[j])
  }

  /** The overrides that break the roll-forward: a later opening balance, or an expected close. */
  predicate Untouched(cs: seq<Ctx>) {
    && (forall j | 0 < j < |cs| :: !Overridden(cs[j], Opening))
    && (forall j | 0 <= j < |cs| :: !Overridden(cs[j], Expected))
  }

  predicate Gapless(cs: seq<Ctx>)
    requires ValidRows(cs)
  {
    forall j | 0 <= j < |cs| :: RowGaps(cs[j]) == []
  }

  function Known(v: Dec): real { match v case Some(x) => x case None => 0.0 }

  /** Draws plus PIK interest, less repayments and amortization. */
  function Flow(r: Row): real {
    Known(r.inputs.draws) + Known(r.balances.pik) - Known(r.inputs.repayments) - Known(r.inputs.amortization)
  }

  function Flows(cs: seq<Ctx>): real
    requires ValidRows(cs)
  {
    if cs == [] then 0.0 else Flow(RowOf(cs[0])) + Flows(cs[1..])
  }

  /** A forecast closes exactly where it is expected; any other row only within the tolerance. */
  function RowSlack(c: Ctx): real { if c.period.forward && !Overridden(c, Closing) then 0.0 else TOLERANCE }

  /** A forecast opens exactly at the previous close; a sourced opening only within the tolerance. */
  function JoinSlack(c: Ctx): real { if c.period.forward then 0.0 else TOLERANCE }

  function Slack(cs: seq<Ctx>): real {
    if cs == [] then 0.0 else RowSlack(cs[0]) + (if |cs| == 1 then 0.0 else JoinSlack(cs[1])) + Slack(cs[1..])
  }

  lemma RowTies(c: Ctx)
    requires ValidCtx(c) && RowGaps(c) == [] && !Overridden(c, Expected)
    ensures
      var r := RowOf(c);
      r.inputs.opening.Some? && r.balances.closing.Some?
      && Abs(r.balances.closing.value - (r.inputs.opening.value + Flow(r))) <= RowSlack(c)
  {
    GaplessRowIsSound(c);
    hide RowGaps, InterestOf, Mean, PikOriginal, ClosingCandidate, FollowsOn, OpeningOriginal;
    var i := InputsOf(c);
    assert RowOf(c).inputs == i && RowOf(c).balances == BalancesOf(c, i);
  }

  lemma JoinTies(c: Ctx, before: Ctx)
    requires ValidCtx(c) && ValidCtx(before) && RowGaps(c) == [] && RowGaps(before) == []
    requires c.prior == Some(After(before)) && FollowsOn(c) && !Overridden(c, Opening)
    ensures
      var (open, close) := (RowOf(c).inputs.opening, RowOf(before).balances.closing);
      open.Some? && close.Some? && Abs(open.value - close.value) <= JoinSlack(c)
  {
    GaplessRowIsSound(c);
    GaplessRowIsSound(before);
    hide RowGaps, InterestOf, BalancesOf, FollowsOn;
    assert RowOf(c).inputs == InputsOf(c);
  }

  /**
   Over a chain of contiguous periods without gaps, the last close is the first opening plus everything that flowed,
   up to the tolerances of the sourced rows.
   */
  lemma {:induction false} TieOut(cs: seq<Ctx>)
    requires cs != [] && ValidRows(cs) && Linked(cs) && Untouched(cs) && Gapless(cs)
    ensures
      var (first, last) := (RowOf(cs[0]), RowOf(cs[|cs| - 1]));
      first.inputs.opening.Some? && last.balances.closing.Some?
      && Abs(last.balances.closing.value - (first.inputs.opening.value + Flows(cs))) <= Slack(cs)
  {
    hide RowOf, RowGaps, FollowsOn, Flow, RowSlack, JoinSlack;
    RowTies(cs[0]);
    if |cs| == 1 {
      assert Flows(cs[1..]) == 0.0 && Slack(cs[1..]) == 0.0;
    } else {
      assert cs[1..][0] == cs[1];
      TieOut(cs[1..]);
      JoinTies(cs[1], cs[0]);
    }
  }

  /** The tolerances add up to at most (2n - 1) cents, and to nothing over forecasts alone. */
  lemma {:induction false} SlackBound(cs: seq<Ctx>)
    requires cs != []
    ensures 0.0 <= Slack(cs) <= (2 * |cs| - 1) as real * 0.01
    ensures (forall j | 0 <= j < |cs| :: cs[j].period.forward && !Overridden(cs[j], Closing)) ==> Slack(cs) == 0.0
  {
    if |cs| == 1 {
      assert Slack(cs[1..]) == 0.0;
    } else {
      SlackBound(cs[1..]);
      assert cs[1..][0] == cs[1];
    }
  }

  // ---------------------------------------------------------------- ready

  lemma {:induction false} NoRowGaps(rows: seq<Ctx>)
    requires ValidRows(rows) && RowsGaps(rows) == []
    ensures Gapless(rows)
  {
    hide RowGaps;
    if rows != [] {
      assert |RowsGaps(rows)| == 0;
      assert |RowGaps(rows[0])| == 0 && |RowsGaps(rows[1..])| == 0;
      NoRowGaps(rows[1..]);
      forall j | 0 <= j < |rows| ensures RowGaps(rows[j]) == [] {
        if j > 0 { assert rows[j] == rows[1..][j - 1]; }
      }
    }
  }

  predicate Nulled(p: Payload, t: Period, f: CalcField) { CalcNode(t.key, f) in p.ov && p.ov[CalcNode(t.key, f)].Null? }

  predicate Positive(v: Dec) { v.Some? && v.value > 0.0 }

  /** The totals of a period without gaps. */
  predicate TotalsSound(p: Payload, t: Period, x: Totals) {
    && Positive(x.ebitda) && Positive(x.cashInterest)
    && (x.totalDebt.None? <==> Nulled(p, t, TotalDebtNode)) && (x.totalDebt.Some? ==> x.totalDebt.value >= 0.0)
    && (x.netDebt.None? <==> Nulled(p, t, NetDebtNode))
    && (x.freeCashFlow.None? <==> Nulled(p, t, FreeCashFlowNode))
    && (x.coverage.None? <==> Nulled(p, t, CoverageNode))
    && (CalcNode(t.key, CoverageNode) !in p.ov ==> Positive(x.coverage) && x.coverage == Ratio(x.ebitda, x.cashInterest))
    && LeverageSound(p, t, x.grossLeverage, GrossLeverageNode, x.totalDebt, x.ebitda)
    && LeverageSound(p, t, x.netLeverage, NetLeverageNode, x.netDebt, x.ebitda)
  }

  /** A leverage that is not overridden is there exactly over twelve months and a known debt, and is their ratio. */
  predicate LeverageSound(p: Payload, t: Period, leverage: Dec, f: CalcField, debt: Dec, ebitda: Dec) {
    CalcNode(t.key, f) !in p.ov ==>
      (leverage.Some? <==> t.months == 12 && debt.Some?) && (leverage.Some? ==> leverage == Ratio(debt, ebitda))
  }

  lemma PositiveFactor(q: real, b: real)
    requires b > 0.0 && q * b > 0.0
    ensures q > 0.0
  {
  }

  lemma PositiveRatio(a: Dec, b: Dec)
    requires Positive(a) && Positive(b)
    ensures Positive(Ratio(a, b))
  {
    var q := a.value / b.value;
    assert q * b.value == a.value;
    PositiveFactor(q, b.value);
  }

  lemma GaplessPeriod(p: Payload, t: Period, rows: seq<Ctx>)
    requires ValidRows(rows) && PeriodGaps(p, t, rows) == []
    ensures Scheduled(t, p.instruments) && RowsGaps(rows) == [] && TotalsSound(p, t, TotalsOf(p, t, rows))
  {
    hide RowsGaps, EbitdaOriginal, DebtOriginal, InterestOriginal, NetDebtOriginal, CashFlowOriginal, Scheduled, Ratio, LeverageEbitda;
    assert |PeriodGaps(p, t, rows)| == 0;
    var x := TotalsOf(p, t, rows);
    CashFlowNeeds(p, t, x.ebitda, x.cashInterest);
    PositiveRatio(x.ebitda, x.cashInterest);
    LeverageFollows(t, x.totalDebt, x.ebitda);
    LeverageFollows(t, x.netDebt, x.ebitda);
  }

  lemma LeverageFollows(t: Period, debt: Dec, ebitda: Dec)
    requires Positive(ebitda)
    ensures
      var r := Ratio(debt, LeverageEbitda(t, ebitda));
      (r.Some? <==> t.months == 12 && debt.Some?) && (r.Some? ==> r == Ratio(debt, ebitda))
  {
  }

  lemma CashFlowNeeds(p: Payload, t: Period, ebitda: Dec, interest: Dec)
    ensures CashFlowOriginal(p, t, ebitda, interest).Some? ==> ebitda.Some? && interest.Some?
  {
  }

  lemma {:induction false} GaplessPeriods(p: Payload, periods: seq<Period>, all: seq<seq<Ctx>>, k: nat)
    requires |all| == |periods| && AllValid(all) && GapsOver(p, periods, all) == [] && k < |periods|
    ensures PeriodGaps(p, periods[k], all[k]) == []
    decreases |periods|
  {
    hide PeriodGaps, ValidRows;
    assert |GapsOver(p, periods, all)| == 0;
    assert |PeriodGaps(p, periods[0], all[0])| == 0 && |GapsOver(p, periods[1..], all[1..])| == 0;
    if k > 0 {
      GaplessPeriods(p, periods[1..], all[1..], k - 1);
    }
  }

  /**
   A ready calculation is sound: every instrument has a row in every period, every row is sound, and every total is
   there unless a null override removes it.
   */
  lemma ReadyIsSound(p: Payload, k: nat)
    requires ValidPayload(p) && k < |p.periods|
    requires
      var all := RowsFrom(p, p.periods, map[]);
      StatusOf(TotalsOver(p, p.periods, all), GapsOver(p, p.periods, all)) == Ready
    ensures
      var rows := RowsFrom(p, p.periods, map[])[k];
      Scheduled(p.periods[k], p.instruments)
      && (forall j | 0 <= j < |rows| :: Sound(rows[j], RowOf(rows[j])))
      && TotalsSound(p, p.periods[k], TotalsOf(p, p.periods[k], rows))
  {
    hide PeriodGaps, Sound, RowOf, TotalsSound, TotalsOf, RowGaps, Scheduled;
    var all := RowsFrom(p, p.periods, map[]);
    GaplessPeriods(p, p.periods, all, k);
    GaplessPeriod(p, p.periods[k], all[k]);
    NoRowGaps(all[k]);
    forall j | 0 <= j < |all[k]| ensures Sound(all[k][j], RowOf(all[k][j])) {
      GaplessRowIsSound(all[k][j]);
    }
  }

  lemma {:induction false} HistoryShape(p: Payload, i: Instrument, periods: seq<Period>, prior: Option<Prior>)
    requires ValidPeriods(periods) && forall k | 0 <= k < |periods| :: periods[k].key in i.points
    ensures
      var cs := HistoryFrom(p, i, periods, prior);
      |cs| == |periods| && (forall k | 0 <= k < |cs| :: cs[k].period == periods[k] && cs[k].instrument == i && cs[k].ov == p.ov)
      && (forall k | 0 < k < |cs| :: cs[k].prior == Some(After(cs[k - 1])))
      && (cs != [] ==> cs[0].prior == prior)
    decreases |periods|
  {
    hide After;
    if periods != [] {
      var c := CtxFor(p, periods[0], i, prior);
      var rest := HistoryFrom(p, i, periods[1..], Some(After(c)));
      HistoryShape(p, i, periods[1..], Some(After(c)));
      assert HistoryFrom(p, i, periods, prior) == [c] + rest;
    }
  }

  lemma {:induction false} OwnGapless(rows: seq<Ctx>, id: string)
    requires ValidRows(rows) && Gapless(rows)
    ensures ValidRows(Own(rows, id)) && Gapless(Own(rows, id))
  {
    hide RowGaps, ValidCtx;
    if rows != [] {
      OwnGapless(rows[1..], id);
    }
  }

  lemma {:induction false} OwnRowsGapless(all: seq<seq<Ctx>>, id: string)
    requires AllValid(all) && forall k | 0 <= k < |all| :: Gapless(all[k])
    ensures ValidRows(OwnRows(all, id)) && Gapless(OwnRows(all, id))
  {
    hide RowGaps, ValidCtx;
    if all != [] {
      OwnGapless(all[0], id);
      OwnRowsGapless(all[1..], id);
    }
  }

  /** The balances of a stretch of rows tie out. */
  predicate TiedOut(cs: seq<Ctx>)
    requires cs != [] && ValidRows(cs)
  {
    var (first, last) := (RowOf(cs[0]), RowOf(cs[|cs| - 1]));
    && first.inputs.opening.Some? && last.balances.closing.Some?
    && Abs(last.balances.closing.value - (first.inputs.opening.value + Flows(cs))) <= Slack(cs) <= (2 * |cs| - 1) as real * 0.01
  }

  /** Each row's prior is what the row before it left. */
  predicate Chained(cs: seq<Ctx>)
    requires ValidRows(cs)
  {
    forall k | 0 < k < |cs| :: cs[k].prior == Some(After(cs[k - 1]))
  }

  lemma StretchTiesOut(cs: seq<Ctx>, a: nat, b: nat, part: seq<Ctx>)
    requires a < b <= |cs| && part == cs[a..b] && ValidRows(cs) && Gapless(cs) && Chained(cs) && ValidRows(part)
    requires (forall j | a < j < b :: FollowsOn(cs[j])) && Untouched(part)
    ensures TiedOut(part)
  {
    hide RowOf, RowGaps, After, FollowsOn, Untouched, Slack, Flows, ValidCtx;
    assert forall j | 0 <= j < |part| :: part[j] == cs[a + j];
    TieOut(part);
    SlackBound(part);
  }

  /** Every row of a ready calculation is free of gaps, and every instrument has one in every period. */
  lemma ReadyRows(p: Payload)
    requires ValidPayload(p)
    requires GapsOver(p, p.periods, RowsFrom(p, p.periods, map[])) == []
    ensures
      var all := RowsFrom(p, p.periods, map[]);
      forall k | 0 <= k < |all| :: Gapless(all[k]) && Scheduled(p.periods[k], p.instruments)
  {
    hide PeriodGaps, Gapless, Scheduled, TotalsSound, RowsFrom, RowsGaps;
    var all := RowsFrom(p, p.periods, map[]);
    forall k | 0 <= k < |all| ensures Gapless(all[k]) && Scheduled(p.periods[k], p.instruments) {
      GaplessPeriods(p, p.periods, all, k);
      GaplessPeriod(p, p.periods[k], all[k]);
      NoRowGaps(all[k]);
    }
  }

  /** The row's period ends as many months after the one before it as it is long, on the same day of the month. */
  predicate Adjoins(before: Ctx, c: Ctx)
    requires ValidCtx(before) && ValidCtx(c)
  {
    var (a, b) := (Calendar.Effective(before.period.key), Calendar.Effective(c.period.key));
    MonthIndex(b) == MonthIndex(a) + c.period.months && SameDay(a, b)
  }

  /** Every stretch of adjoining, untouched rows ties out. */
  predicate StretchesTieOut(cs: seq<Ctx>)
    requires ValidRows(cs)
  {
    forall a, b | 0 <= a < b <= |cs| && (forall j | a < j < b :: Adjoins(cs[j - 1], cs[j])) && Untouched(cs[a..b]) :: TiedOut(cs[a..b])
  }

  lemma AdjoiningFollows(cs: seq<Ctx>, j: nat)
    requires ValidRows(cs) && Chained(cs) && 0 < j < |cs|
    ensures FollowsOn(cs[j]) <==> Adjoins(cs[j - 1], cs[j])
  {
    hide RowOf, FollowsOn, Valid, SameDay;
    assert ValidCtx(cs[j - 1]) && cs[j].prior == Some(After(cs[j - 1]));
    FollowsOnIff(cs[j]);
  }

  lemma AllStretches(cs: seq<Ctx>)
    requires ValidRows(cs) && Gapless(cs)
    requires Chained(cs)
    ensures StretchesTieOut(cs)
  {
    hide RowOf, RowGaps, After, FollowsOn, Untouched, TiedOut, Gapless, ValidCtx, Chained, Adjoins;
    forall a, b | 0 <= a < b <= |cs| && (forall j | a < j < b :: Adjoins(cs[j - 1], cs[j])) && Untouched(cs[a..b]) ensures TiedOut(cs[a..b]) {
      forall j | a < j < b ensures FollowsOn(cs[j]) {
        AdjoiningFollows(cs, j);
      }
      StretchTiesOut(cs, a, b, cs[a..b]);
    }
  }

  /**
   In a ready calculation every instrument has a row in every period, and over any contiguous stretch of its rows the
   balances tie out.
   */
  lemma ReadyTiesOut(p: Payload, n: nat)
    requires ValidPayload(p) && n < |p.instruments|
    requires
      var all := RowsFrom(p, p.periods, map[]);
      StatusOf(TotalsOver(p, p.periods, all), GapsOver(p, p.periods, all)) == Ready
    ensures
      var cs := OwnRows(RowsFrom(p, p.periods, map[]), p.instruments[n].id);
      && |cs| == |p.periods| && (forall k | 0 <= k < |cs| :: cs[k].period == p.periods[k])
      && ValidRows(cs) && StretchesTieOut(cs)
  {
    hide RowOf, RowGaps, After, Adjoins, FollowsOn, PeriodRows, RowsFrom, GapsOver, Gapless, OwnRows, HistoryFrom, StretchesTieOut, ValidRows, TotalsOver;
    var i := p.instruments[n];
    var all := RowsFrom(p, p.periods, map[]);
    ReadyRows(p);
    RowsAreHistories(p, p.periods, map[], n);
    OwnRowsGapless(all, i.id);
    assert forall k | 0 <= k < |p.periods| :: p.periods[k].key in i.points by {
      assert forall k | 0 <= k < |p.periods| :: Scheduled(p.periods[k], p.instruments);
    }
    HistoryShape(p, i, p.periods, None);
    AllStretches(OwnRows(all, i.id));
  }
}
